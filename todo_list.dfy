/** The list view's state machine: fetching the collection, choosing the completion filter,
    and deciding what the component renders. */
module TodoList {
  import opened TodoTypes
  import Decimal

  /** What the read of the collection produced: a response with a status and, when the body
      was read, its parse; or a failure thrown before any response arrived. */
  datatype FetchOutcome =
    | Responded(status: nat, body: Body)
    | NetworkFailure(message: string)

  /** The result of reading the body as a list of todos. */
  datatype Body = Parsed(data: seq<Todo>) | ParseFailure(message: string)

  /** `response.ok`: the status lies in the success range 200-299. */
  predicate IsOk(status: nat) {
    200 <= status <= 299
  }

  const HttpErrorPrefix: string := "HTTP error! Status: "

  /** The message of the error thrown for a non-ok status. */
  function HttpErrorMessage(status: nat): (m: string)
    ensures |m| > |HttpErrorPrefix| && m[..|HttpErrorPrefix|] == HttpErrorPrefix
    ensures Decimal.AllDigits(m[|HttpErrorPrefix|..])
    ensures Decimal.ParseDecimal(m[|HttpErrorPrefix|..]) == status
    ensures m[|HttpErrorPrefix|] == '0' ==> m == HttpErrorPrefix + "0" && status == 0
  {
    var digits := Decimal.DecimalString(status);
    Decimal.ParseDecimalString(status);
    assert (HttpErrorPrefix + digits)[|HttpErrorPrefix|..] == digits;
    HttpErrorPrefix + digits
  }

  /** Two statuses yield the same error message only when they are equal. */
  lemma HttpErrorMessageInjective(s1: nat, s2: nat)
    requires HttpErrorMessage(s1) == HttpErrorMessage(s2)
    ensures s1 == s2
  {
  }

  /** The five pieces of component state, as values. */
  datatype ViewState = ViewState(
    todos: seq<Todo>,
    filteredTodos: seq<Todo>,
    loading: bool,
    error: Option<string>,
    clicked: Option<bool>)

  /** The state a freshly mounted list starts in. */
  const Initial: ViewState := ViewState([], [], false, None, None)

  /** `setLoading(true)`, issued before the request. */
  function StartFetch(s: ViewState): (r: ViewState)
    ensures r.loading && Render(r) == LoadingView
    ensures r.todos == s.todos && r.filteredTodos == s.filteredTodos
    ensures r.error == s.error && r.clicked == s.clicked
  {
    s.(loading := true)
  }

  /** The message recorded in `error` for a failed outcome; `None` for a successful one. */
  function FailureMessage(o: FetchOutcome): (m: Option<string>)
    ensures m.None? <==> o.Responded? && IsOk(o.status) && o.body.Parsed?
  {
    match o
    case NetworkFailure(msg) => Some(msg)
    case Responded(status, body) =>
      if !IsOk(status) then Some(HttpErrorMessage(status))
      else match body
        case ParseFailure(msg) => Some(msg)
        case Parsed(_) => None
  }

  /** The rest of `fetchTodos` once the outcome is known: on success both lists take the
      data, on failure the message goes to `error`, and `finally` clears `loading`. */
  function FinishFetch(s: ViewState, o: FetchOutcome): (r: ViewState)
    ensures !r.loading && r.clicked == s.clicked
    ensures FailureMessage(o).Some? ==>
      r.error == FailureMessage(o) && r.todos == s.todos && r.filteredTodos == s.filteredTodos
    ensures FailureMessage(o).None? ==>
      r.error == s.error && r.todos == o.body.data && r.filteredTodos == o.body.data
  {
    match FailureMessage(o)
    case Some(msg) => s.(error := Some(msg), loading := false)
    case None => s.(todos := o.body.data, filteredTodos := o.body.data, loading := false)
  }

  /** One whole run of `fetchTodos`. */
  function Fetch(s: ViewState, o: FetchOutcome): (r: ViewState)
    ensures !r.loading && r.clicked == s.clicked
    ensures ErrorTruthy(FailureMessage(o)) ==> Render(r) == ErrorView
    ensures FailureMessage(o).None? ==> r.todos == r.filteredTodos == o.body.data
  {
    FinishFetch(StartFetch(s), o)
  }

  /** `setClicked(c)` followed by the effect keyed on `clicked`: the effect runs only when the
      value changes, and recomputes `filteredTodos` only for a non-null filter. */
  function SelectFilter(s: ViewState, c: Option<bool>): (r: ViewState)
    ensures r.clicked == c && r.todos == s.todos && r.loading == s.loading && r.error == s.error
    ensures c.None? ==> r.filteredTodos == s.filteredTodos && Displayed(r) == s.todos
    ensures c.Some? && c != s.clicked ==> Displayed(r) == FilterByCompleted(s.todos, c.value)
    ensures c == s.clicked ==> Displayed(r) == Displayed(s)
  {
    if c == s.clicked then s
    else if c.None? then s.(clicked := c)
    else s.(clicked := c, filteredTodos := FilterByCompleted(s.todos, c.value))
  }

  /** `clicked == null ? todos : filteredTodos`: the list the rows are drawn from. */
  function Displayed(s: ViewState): (r: seq<Todo>)
    ensures s.clicked.None? ==> r == s.todos
    ensures s.clicked.Some? ==> r == s.filteredTodos
  {
    if s.clicked.None? then s.todos else s.filteredTodos
  }

  /** JavaScript truthiness of `error`: present and not the empty string. */
  predicate ErrorTruthy(e: Option<string>) {
    e.Some? && e.value != ""
  }

  /** One row of the list: its key and the title, identifier and owner it shows. The
      completion flag is rendered as a bare boolean child, which React draws as nothing. */
  datatype Row = Row(key: int, title: string, id: int, userId: int)

  datatype View = LoadingView | ErrorView | ListView(rows: seq<Row>)

  /** One row per item, in order. */
  function Rows(ts: seq<Todo>): (r: seq<Row>)
    ensures |r| == |ts|
    ensures forall k :: 0 <= k < |ts| ==>
              r[k].key == ts[k].id && r[k].id == ts[k].id &&
              r[k].title == ts[k].title && r[k].userId == ts[k].userId
  {
    if ts == [] then []
    else [Row(ts[0].id, ts[0].title, ts[0].id, ts[0].userId)] + Rows(ts[1..])
  }

  /** What the component returns: loading first, then the error, then the list. */
  function Render(s: ViewState): (v: View)
    ensures s.loading ==> v == LoadingView
    ensures !s.loading && ErrorTruthy(s.error) ==> v == ErrorView
    ensures !s.loading && !ErrorTruthy(s.error) ==> v.ListView? && |v.rows| == |Displayed(s)|
  {
    if s.loading then LoadingView
    else if ErrorTruthy(s.error) then ErrorView
    else ListView(Rows(Displayed(s)))
  }

  /** The argument `onSelectTodo` receives when row `k` of view `v` is activated;
      `None` when the view has no such row. */
  function Activate(v: View, k: nat): (r: Option<int>)
    ensures r.Some? <==> v.ListView? && k < |v.rows|
    ensures r.Some? ==> r.value == v.rows[k].id
  {
    if v.ListView? && k < |v.rows| then Some(v.rows[k].id) else None
  }

  /** The component, with one field per `useState` slot; each method is one step of the
      component and leaves it in the state the matching function above describes. */
  class TodoListComponent {
    var todos: seq<Todo>
    var filteredTodos: seq<Todo>
    var loading: bool
    var error: Option<string>
    var clicked: Option<bool>

    function State(): ViewState
      reads this
    {
      ViewState(todos, filteredTodos, loading, error, clicked)
    }

    constructor ()
      ensures State() == Initial
    {
      todos, filteredTodos := [], [];
      loading, error, clicked := false, None, None;
    }

    /** The synchronous start of `fetchTodos`. */
    method BeginFetch()
      modifies this
      ensures State() == StartFetch(old(State()))
      ensures loading
    {
      loading := true;
    }

    /** The part of `fetchTodos` after the awaited request settles with `o`. */
    method CompleteFetch(o: FetchOutcome)
      modifies this
      ensures State() == FinishFetch(old(State()), o)
      ensures !loading
    {
      match o {
        case NetworkFailure(msg) =>
          error := Some(msg);
        case Responded(status, body) =>
          if !IsOk(status) {
            error := Some(HttpErrorMessage(status));
          } else {
            match body {
              case ParseFailure(msg) =>
                error := Some(msg);
              case Parsed(data) =>
                todos := data;
                filteredTodos := data;
            }
          }
      }
      loading := false;
    }

    /** `fetchTodos` from start to finish. */
    method FetchTodos(o: FetchOutcome)
      modifies this
      ensures State() == Fetch(old(State()), o)
      ensures !loading
    {
      BeginFetch();
      CompleteFetch(o);
    }

    /** A click on one of the three filter buttons (`null` all, `false` open, `true`
        completed), together with the effect it triggers. The buttons are drawn only in the
        list view, so a click arrives only when neither the loading nor the error view shows. */
    method SetClicked(c: Option<bool>)
      requires !loading && !ErrorTruthy(error)
      modifies this
      ensures State() == SelectFilter(old(State()), c)
      ensures clicked == c && todos == old(todos)
      ensures Render(State()).ListView?
    {
      if c != clicked {
        clicked := c;
        if c.Some? {
          filteredTodos := FilterByCompleted(todos, c.value);
        }
      }
    }
  }
}
