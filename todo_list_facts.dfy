/** Properties of the list view's state machine: what a fetch does in each outcome, what the
    filter buttons do, and what gets rendered. */
module TodoListFacts {
  import opened TodoTypes
  import opened TodoList

  // ---------------------------------------------------------------------------------------
  // Fetching

  /** A successful response puts the same data in both lists and leaves `error` and the
      filter as they were. */
  lemma FetchSuccess(s: ViewState, status: nat, data: seq<Todo>)
    requires IsOk(status)
    ensures var t := Fetch(s, Responded(status, Parsed(data)));
      t.todos == data && t.filteredTodos == data &&
      t.error == s.error && t.clicked == s.clicked && !t.loading
  {
  }

  /** A non-ok status records the status message, shows the error view, and leaves both lists
      (and hence the displayed list) untouched, whatever the body. */
  lemma FetchNotOk(s: ViewState, status: nat, body: Body)
    requires !IsOk(status)
    ensures var t := Fetch(s, Responded(status, body));
      t.error == Some(HttpErrorMessage(status)) &&
      t.todos == s.todos && t.filteredTodos == s.filteredTodos && t.clicked == s.clicked &&
      !t.loading && Render(t) == ErrorView
  {
  }

  /** A failure thrown by the request or by parsing records its message and leaves both lists
      untouched; the error view appears only if that message is non-empty, since an empty
      string is falsy. */
  lemma FetchThrown(s: ViewState, o: FetchOutcome, message: string)
    requires o == NetworkFailure(message) || (o.Responded? && IsOk(o.status) && o.body == ParseFailure(message))
    ensures var t := Fetch(s, o);
      t.error == Some(message) &&
      t.todos == s.todos && t.filteredTodos == s.filteredTodos && !t.loading &&
      (Render(t) == ErrorView <==> message != "") &&
      (message == "" ==> Render(t) == ListView(Rows(Displayed(s))))
  {
  }

  /** `loading` is on while the request is pending, which hides everything else, and off once
      `fetchTodos` has finished, whatever the outcome. */
  lemma LoadingBracketsFetch(s: ViewState, o: FetchOutcome)
    ensures StartFetch(s).loading && Render(StartFetch(s)) == LoadingView
    ensures !Fetch(s, o).loading && Fetch(s, o).clicked == s.clicked
  {
  }

  /** From a fresh mount, a successful fetch of N items shows exactly N rows, in order, each
      selecting its own item. */
  lemma MountFetchSuccessShowsAllRows(status: nat, data: seq<Todo>)
    requires IsOk(status)
    ensures var v := Render(Fetch(Initial, Responded(status, Parsed(data))));
      v.ListView? && |v.rows| == |data| &&
      forall k :: 0 <= k < |data| ==> Activate(v, k) == Some(data[k].id) && v.rows[k].title == data[k].title
  {
  }

  /** From a fresh mount, a 404 shows the error indicator and no row can be activated. */
  lemma MountFetchNotFoundShowsError(body: Body)
    ensures var v := Render(Fetch(Initial, Responded(404, body)));
      v == ErrorView && forall k: nat :: Activate(v, k) == None
  {
  }

  // ---------------------------------------------------------------------------------------
  // Filtering

  /** Choosing Open (`false`) or Completed (`true`) when another filter was active displays
      the items of `todos` with that flag, in their original order, and nothing else. */
  lemma SelectFilterShowsMatching(s: ViewState, c: bool)
    requires s.clicked != Some(c)
    ensures var d := Displayed(SelectFilter(s, Some(c)));
      d == FilterByCompleted(s.todos, c) && IsSubsequence(d, s.todos) && |d| <= |s.todos| &&
      (forall k :: 0 <= k < |d| ==> d[k].completed == c) &&
      (forall t :: t in s.todos && t.completed == c ==> t in d)
  {
    FilterIsSubsequence(s.todos, c);
  }

  /** Choosing All leaves `filteredTodos` untouched and displays `todos` itself. */
  lemma SelectAllShowsTodos(s: ViewState)
    ensures SelectFilter(s, None).filteredTodos == s.filteredTodos
    ensures Displayed(SelectFilter(s, None)) == s.todos
  {
  }

  /** All, then Open, then All again shows exactly the original list. */
  lemma AllOpenAllRestores(s: ViewState)
    ensures Displayed(SelectFilter(SelectFilter(SelectFilter(s, None), Some(false)), None)) == s.todos
  {
  }

  /** Pressing the same filter button twice is the same as pressing it once. */
  lemma SelectFilterIdempotent(s: ViewState, c: Option<bool>)
    ensures SelectFilter(SelectFilter(s, c), c) == SelectFilter(s, c)
  {
  }

  /** Filter clicks never change `todos`, `loading` or `error`. */
  lemma SelectFilterFrame(s: ViewState, c: Option<bool>)
    ensures var t := SelectFilter(s, c);
      t.todos == s.todos && t.loading == s.loading && t.error == s.error && t.clicked == c
  {
  }

  /** The displayed list agrees with the active filter. */
  predicate InSync(s: ViewState) {
    s.clicked.Some? ==> s.filteredTodos == FilterByCompleted(s.todos, s.clicked.value)
  }

  /** A sequence of filter-button clicks, one after the other. */
  function ApplyClicks(s: ViewState, cs: seq<Option<bool>>): ViewState
    decreases |cs|
  {
    if cs == [] then s else ApplyClicks(SelectFilter(s, cs[0]), cs[1..])
  }

  /** Clicks keep the displayed list in agreement with the filter, and never touch `todos`. */
  lemma {:induction false} ClicksKeepInSync(s: ViewState, cs: seq<Option<bool>>)
    requires InSync(s)
    ensures InSync(ApplyClicks(s, cs))
    ensures ApplyClicks(s, cs).todos == s.todos
    ensures cs != [] ==> ApplyClicks(s, cs).clicked == cs[|cs| - 1]
    decreases |cs|
  {
    if cs != [] {
      var t := SelectFilter(s, cs[0]);
      assert InSync(t);
      ClicksKeepInSync(t, cs[1..]);
      if |cs| > 1 {
        assert cs[1..][|cs[1..]| - 1] == cs[|cs| - 1];
      }
    }
  }

  /** On the path the component takes after mounting (one fetch while no filter is chosen,
      then any clicks), the displayed list is the fetched data when All is chosen and the
      matching items of it otherwise. */
  lemma MountThenClicks(o: FetchOutcome, cs: seq<Option<bool>>)
    ensures var s := ApplyClicks(Fetch(Initial, o), cs);
      s.todos == (if FailureMessage(o).None? then o.body.data else []) &&
      Displayed(s) == (if s.clicked.None? then s.todos else FilterByCompleted(s.todos, s.clicked.value))
  {
    ClicksKeepInSync(Fetch(Initial, o), cs);
  }

  /** A successful fetch writes the full data to `filteredTodos` even while a filter is
      chosen, because the filter effect re-runs only when `clicked` changes. */
  lemma FetchIgnoresActiveFilter(s: ViewState, status: nat, data: seq<Todo>, c: bool)
    requires IsOk(status) && s.clicked == Some(c)
    ensures Displayed(Fetch(s, Responded(status, Parsed(data)))) == data
    ensures Displayed(SelectFilter(Fetch(s, Responded(status, Parsed(data))), Some(c))) == data
  {
  }

  /** So after such a fetch, a list holding an item with the other flag is displayed in full
      even though it does not agree with the chosen filter. */
  lemma FetchWithActiveFilterBreaksSync(c: bool)
    ensures var s := ViewState([], [], false, None, Some(c));
      var data := [Todo(1, 1, "x", !c)];
      var t := Fetch(s, Responded(200, Parsed(data)));
      !InSync(t) && Displayed(t) == data && FilterByCompleted(data, c) == []
  {
  }

  // ---------------------------------------------------------------------------------------
  // Rendering

  /** Loading wins over everything, then a truthy error, and only then the list: one row per
      displayed item, in order, whose activation passes that item's id to `onSelectTodo`. */
  lemma RenderPriority(s: ViewState)
    ensures s.loading ==> Render(s) == LoadingView
    ensures !s.loading && ErrorTruthy(s.error) ==> Render(s) == ErrorView
    ensures !s.loading && !ErrorTruthy(s.error) ==>
      Render(s).ListView? && |Render(s).rows| == |Displayed(s)| &&
      forall k: nat :: Activate(Render(s), k) == (if k < |Displayed(s)| then Some(Displayed(s)[k].id) else None)
  {
  }
}
