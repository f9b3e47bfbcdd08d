# Todo list view-state machine

A Dafny model of the `TodoList` component in `src/components/todo-list.component.tsx`. The
component fetches a collection of todos from a REST endpoint, shows a loading indicator
while the request is pending, shows an error indicator when it fails, and otherwise lists the
todos as selectable rows. Three buttons choose a completion filter: All, Open or Completed.

The model has four modules:

- `TodoTypes` (`todo.dfy`): the `Todo` record and `FilterByCompleted`, the order-preserving
  filter that the `clicked` effect applies, with its subsequence, partition and idempotence
  lemmas.
- `Decimal` (`decimal.dfy`): the decimal text of a status code, as the template literal in
  the HTTP error message renders it. It comes with a parser and a round-trip lemma.
- `TodoList` (`todo_list.dfy`):
  - the fetch outcome. The `fetch` call, the response and JSON parsing become a
    `FetchOutcome` value: a response with a status and a parsed or unparsable body, or a
    network failure with its message.
  - `ViewState`, which holds the five `useState` slots as a value.
  - the transitions `StartFetch`, `FinishFetch`, `Fetch` and `SelectFilter`.
  - `Displayed`, the list the rows are drawn from.
  - `Render`, which decides the view in priority order: loading, then error, then list.
  - `Activate`, the id handed to `onSelectTodo` when a row is clicked.
  - the class `TodoListComponent`. It has one field per state slot, and its methods
    (`BeginFetch`, `CompleteFetch`, `FetchTodos`, `SetClicked`) update those fields step by
    step, as the setters do. Each method's postcondition ties the new state to the matching
    transition function.
- `TodoListFacts` (`todo_list_facts.dfy`): the properties of the transitions and of the
  rendering.

Where the code does something other than one would expect from a list view, the model follows the code:

- A failed fetch leaves both lists as they were. They are not reset to empty.
- A successful fetch writes the full data to `filteredTodos` even while a filter is chosen.
  The filter effect runs only when `clicked` changes, so the displayed list can then
  disagree with the filter (`FetchIgnoresActiveFilter`, `FetchWithActiveFilterBreaksSync`).
  On the path the component actually takes (one fetch at mount, while no filter is chosen),
  the list does agree with the filter (`MountThenClicks`).
- A successful fetch does not clear an earlier `error`.
- The error view depends on JavaScript truthiness. A thrown error with an empty message
  leaves the list view showing.
- A row shows its title, id and owner id. The completion flag is a bare boolean child, and
  React renders that as nothing, so `Row` has no completion field.
- Choosing the filter that is already active changes nothing. React skips the state update,
  so the effect does not run again.
- The three filter buttons are drawn only in the list view. While loading, or while a truthy
  error is shown, the early returns remove them, so `SetClicked` requires that neither the
  loading nor the error view is showing. `SelectFilter` and `ApplyClicks` accept a click in
  any state; the lemmas about them therefore also cover every click sequence the page offers.

## Model

| member | source | states |
|---|---|---|
| `TodoTypes.FilterByCompleted` | src/components/todo-list.component.tsx:77 | the result is no longer than the input; every element has the chosen flag; every element comes from the input; every input item with that flag is kept |
| `TodoTypes.FilterIsSubsequence` | src/components/todo-list.component.tsx:77 | the filter keeps the original order: its result is a subsequence of `todos` |
| `TodoTypes.FilterPartition` | src/components/todo-list.component.tsx:103-106 | the Open and Completed filters split `todos` into two parts; together they hold every item exactly as often as `todos` does |
| `TodoTypes.FilterIdempotent` | src/components/todo-list.component.tsx:77 | filtering an already filtered list by the same flag changes nothing |
| `TodoTypes.FilterKeepsMatchingList` | src/components/todo-list.component.tsx:77 | a list whose items all have the chosen flag passes the filter unchanged |
| `Decimal.DecimalString` | src/components/todo-list.component.tsx:41 | the status text is at least one decimal digit long and has no leading zero, except for the status 0 |
| `Decimal.ParseDecimalString` | src/components/todo-list.component.tsx:41 | reading the status text back as a decimal number gives the status |
| `Decimal.DecimalStringInjective` | src/components/todo-list.component.tsx:41 | different statuses give different texts |
| `TodoList.HttpErrorMessage` | src/components/todo-list.component.tsx:40-41 | the message is `HTTP error! Status: ` followed by decimal digits that denote the status, with no leading zero unless the status is 0 |
| `TodoList.HttpErrorMessageInjective` | src/components/todo-list.component.tsx:40-41 | different statuses give different error messages |
| `TodoList.FailureMessage` | src/components/todo-list.component.tsx:38-47 | no message is recorded exactly when the status is ok and the body parses; every other outcome records one |
| `TodoList.StartFetch` | src/components/todo-list.component.tsx:37 | only `loading` turns on, and the loading view is then shown |
| `TodoList.FinishFetch` | src/components/todo-list.component.tsx:38-50 | `loading` ends false and the filter is kept; a failure records its message and keeps both lists; a success puts the data in both lists and keeps `error` |
| `TodoList.Fetch` | src/components/todo-list.component.tsx:30-51 | after a whole fetch `loading` is false and the filter is kept; a failure with a non-empty message shows the error view; a success leaves both lists equal to the data (see also `TodoListFacts.LoadingBracketsFetch`) |
| `TodoList.SelectFilter` | src/components/todo-list.component.tsx:75-79 | `clicked` takes the chosen value and nothing but `filteredTodos` may change; All keeps `filteredTodos` and displays `todos`; a new Open or Completed choice displays the matching items of `todos`; re-choosing the active filter changes no display (see also `TodoListFacts.SelectFilterShowsMatching`) |
| `TodoList.Displayed` | src/components/todo-list.component.tsx:114 | the rows come from `todos` when no filter is chosen and from `filteredTodos` otherwise |
| `TodoList.Render` | src/components/todo-list.component.tsx:81-88 | loading wins, then a truthy error, and otherwise the list has one row per displayed item (see also `TodoListFacts.RenderPriority`) |
| `TodoList.Activate` | src/components/todo-list.component.tsx:115 | activating a row passes exactly that row's id; outside the list view or past its last row nothing is called |
| `TodoList.Rows` | src/components/todo-list.component.tsx:114-120 | there is one row per item, in order; each row's key and id are the item's id, and it shows the item's title and owner id |
| `TodoList.TodoListComponent.constructor` | src/components/todo-list.component.tsx:60-64 | the component starts with empty lists, not loading, no error and no filter |
| `TodoList.TodoListComponent.BeginFetch` | src/components/todo-list.component.tsx:37 | `loading` becomes true and nothing else changes |
| `TodoList.TodoListComponent.CompleteFetch` | src/components/todo-list.component.tsx:38-50 | the new state is `FinishFetch` of the old state and the outcome; `loading` ends false |
| `TodoList.TodoListComponent.FetchTodos` | src/components/todo-list.component.tsx:30-51 | a whole fetch takes the component to `Fetch` of its old state; `loading` ends false |
| `TodoList.TodoListComponent.SetClicked` | src/components/todo-list.component.tsx:75-109 | offered only in the list view; the new state is `SelectFilter` of the old one; `clicked` takes the chosen value, `todos` is unchanged and the list view stays shown |
| `TodoListFacts.FetchSuccess` | src/components/todo-list.component.tsx:43-45 | on an ok response both lists become the fetched data; `error` and the filter are unchanged; `loading` is false |
| `TodoListFacts.FetchNotOk` | src/components/todo-list.component.tsx:40-41 | on a non-ok status, `error` becomes the status message and both lists stay as they were; the error view is shown |
| `TodoListFacts.FetchThrown` | src/components/todo-list.component.tsx:46-47 | a network or parse failure records its message and leaves both lists unchanged; the error view is shown exactly when that message is non-empty |
| `TodoListFacts.LoadingBracketsFetch` | src/components/todo-list.component.tsx:37-49 | loading is on, and the loading view is shown, while the request is pending; it is off after the fetch whatever the outcome |
| `TodoListFacts.MountFetchSuccessShowsAllRows` | src/components/todo-list.component.tsx:66-73 | after mounting, a successful fetch of N items shows N rows in order; each row selects its own item |
| `TodoListFacts.MountFetchNotFoundShowsError` | src/components/todo-list.component.tsx:40-41 | after mounting, a 404 shows the error view, and no row can be activated |
| `TodoListFacts.SelectFilterShowsMatching` | src/components/todo-list.component.tsx:76-77 | switching to Open or Completed displays exactly the filtered `todos`: an ordered subsequence, no longer than `todos`, every element matching, every matching item present |
| `TodoListFacts.SelectAllShowsTodos` | src/components/todo-list.component.tsx:100 | choosing All leaves `filteredTodos` untouched and displays `todos` |
| `TodoListFacts.AllOpenAllRestores` | src/components/todo-list.component.tsx:100-104 | choosing All, then Open, then All displays the original `todos` exactly |
| `TodoListFacts.SelectFilterIdempotent` | src/components/todo-list.component.tsx:75-79 | pressing the same filter button twice has the effect of pressing it once |
| `TodoListFacts.SelectFilterFrame` | src/components/todo-list.component.tsx:75-79 | filter clicks never change `todos`, `loading` or `error` |
| `TodoListFacts.ClicksKeepInSync` | src/components/todo-list.component.tsx:75-79 | any run of clicks keeps `filteredTodos` equal to the filtered `todos` whenever a filter is active, and never changes `todos` |
| `TodoListFacts.MountThenClicks` | src/components/todo-list.component.tsx:66-79 | after the mount-time fetch and any clicks, the displayed list is the fetched data under All and its matching items otherwise |
| `TodoListFacts.FetchIgnoresActiveFilter` | src/components/todo-list.component.tsx:45 | a successful fetch displays the full data even while a filter is chosen; pressing that filter again does not change this |
| `TodoListFacts.FetchWithActiveFilterBreaksSync` | src/components/todo-list.component.tsx:45 | an example where the displayed list disagrees with the chosen filter after such a fetch |
| `TodoListFacts.RenderPriority` | src/components/todo-list.component.tsx:81-86 | loading wins, then a truthy error, then the list; the list has one row per displayed item, and activating row k passes item k's id to `onSelectTodo` |

## Left out

- The network request, the response object and JSON parsing. They are modelled only as the `FetchOutcome` value that a fetch consumes. The URL and the shape of the JSON are not modelled.
- React's scheduling. `useState` and `useEffect` batching, and the moment the mount effect runs, are not modelled. A click and the effect it triggers form one step, so the single render in between, which shows the new `clicked` with the old `filteredTodos`, is not modelled. Clicks that arrive between the first render and the mount-time fetch are not modelled either.
- Markup, styling and the explanatory paragraphs of the rendered page.
- Overlapping fetches, where a late response overwrites newer state. This is concurrency; here every fetch completes before the next step.
- `src/components/todo-detail.component.tsx` is not part of this model. Its state depends on how the event loop interleaves the synchronous `setLoading(false)` with the pending request.
