/** The todo record and the client-side completion filter the list view applies to it. */
module TodoTypes {

  datatype Option<+T> = None | Some(value: T)

  /** One todo as the upstream endpoint returns it: identifier, owner, title, completion flag. */
  datatype Todo = Todo(id: int, userId: int, title: string, completed: bool)

  /** `todos.filter(todo => todo.completed === c)`: the items whose completion flag is `c`,
      kept in their original order. */
  function FilterByCompleted(ts: seq<Todo>, c: bool): (r: seq<Todo>)
    ensures |r| <= |ts|
    ensures forall k :: 0 <= k < |r| ==> r[k].completed == c
    ensures forall t :: t in r ==> t in ts
    ensures forall t :: t in ts && t.completed == c ==> t in r
  {
    if ts == [] then []
    else
      var rest := FilterByCompleted(ts[1..], c);
      if ts[0].completed == c then [ts[0]] + rest else rest
  }

  /** `a` can be obtained from `b` by deleting elements, without reordering the rest. */
  predicate IsSubsequence(a: seq<Todo>, b: seq<Todo>)
    decreases |b|
  {
    if a == [] then true
    else if b == [] then false
    else if a[0] == b[0] then IsSubsequence(a[1..], b[1..])
    else IsSubsequence(a, b[1..])
  }

  /** The filter never reorders: its result is a subsequence of its input. */
  lemma {:induction false} FilterIsSubsequence(ts: seq<Todo>, c: bool)
    ensures IsSubsequence(FilterByCompleted(ts, c), ts)
  {
    if ts != [] {
      FilterIsSubsequence(ts[1..], c);
      var rest := FilterByCompleted(ts[1..], c);
      if ts[0].completed != c && rest != [] {
        assert rest[0].completed == c;
        assert rest[0] != ts[0];
      }
    }
  }

  /** The open and the completed filters split the list without losing or duplicating an item. */
  lemma {:induction false} FilterPartition(ts: seq<Todo>)
    ensures multiset(FilterByCompleted(ts, false)) + multiset(FilterByCompleted(ts, true)) == multiset(ts)
    ensures |FilterByCompleted(ts, false)| + |FilterByCompleted(ts, true)| == |ts|
  {
    if ts != [] {
      FilterPartition(ts[1..]);
      assert ts == [ts[0]] + ts[1..];
    }
  }

  /** Filtering a filtered list again by the same flag changes nothing. */
  lemma {:induction false} FilterIdempotent(ts: seq<Todo>, c: bool)
    ensures FilterByCompleted(FilterByCompleted(ts, c), c) == FilterByCompleted(ts, c)
  {
    if ts != [] {
      FilterIdempotent(ts[1..], c);
      var rest := FilterByCompleted(ts[1..], c);
      if ts[0].completed == c {
        assert ([ts[0]] + rest)[1..] == rest;
      }
    }
  }

  /** A list whose every item already has flag `c` passes the filter unchanged. */
  lemma {:induction false} FilterKeepsMatchingList(ts: seq<Todo>, c: bool)
    requires forall k :: 0 <= k < |ts| ==> ts[k].completed == c
    ensures FilterByCompleted(ts, c) == ts
  {
    if ts != [] {
      FilterKeepsMatchingList(ts[1..], c);
      assert ts == [ts[0]] + ts[1..];
    }
  }
}
