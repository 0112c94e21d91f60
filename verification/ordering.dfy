/**
 * The `sort('createdAt', 'desc')` of the template queries, as a stable
 * insertion sort: newer templates first, ties kept in store order.
 */
module Ordering {
  import opened Documents

  /** Newest first: `createdAt` never increases along the sequence. */
  predicate NewestFirst(s: seq<Template>)
  {
    forall i, j :: 0 <= i < j < |s| ==> s[i].createdAt >= s[j].createdAt
  }

  /** Places `x` before the first element that is not newer than it. */
  function Insert(x: Template, s: seq<Template>): (r: seq<Template>)
    requires NewestFirst(s)
    ensures NewestFirst(r)
    ensures multiset(r) == multiset(s) + multiset{x}
    ensures r[0] == x || (|s| > 0 && r[0] == s[0])
  {
    if |s| == 0 then [x]
    else if x.createdAt >= s[0].createdAt then [x] + s
    else
      assert s == [s[0]] + s[1..];
      [s[0]] + Insert(x, s[1..])
  }

  /** The templates ordered by `createdAt` descending: a newest-first permutation of the input. */
  function SortNewestFirst(s: seq<Template>): (r: seq<Template>)
    ensures NewestFirst(r)
    ensures multiset(r) == multiset(s)
    ensures |r| == |s|
  {
    if |s| == 0 then []
    else
      assert s == [s[0]] + s[1..];
      Insert(s[0], SortNewestFirst(s[1..]))
  }

  /** `createdAt` strictly grows along the sequence (templates created one after another). */
  predicate CreatedInOrder(s: seq<Template>)
  {
    forall i, j :: 0 <= i < j < |s| ==> s[i].createdAt < s[j].createdAt
  }

  function Reverse<T>(s: seq<T>): (r: seq<T>)
    ensures |r| == |s|
    ensures forall i :: 0 <= i < |s| ==> r[i] == s[|s| - 1 - i]
  {
    if |s| == 0 then [] else Reverse(s[1..]) + [s[0]]
  }

  /** Inserting a template older than everything already listed puts it last. */
  lemma {:induction false} InsertOldest(x: Template, s: seq<Template>)
    requires NewestFirst(s)
    requires forall i :: 0 <= i < |s| ==> s[i].createdAt > x.createdAt
    ensures Insert(x, s) == s + [x]
    decreases |s|
  {
    if |s| > 0 {
      InsertOldest(x, s[1..]);
      assert [s[0]] + (s[1..] + [x]) == s + [x];
    }
  }

  /** Templates T1, T2, T3 created in that order are listed T3, T2, T1. */
  lemma {:induction false} ListedInReverseCreationOrder(s: seq<Template>)
    requires CreatedInOrder(s)
    ensures SortNewestFirst(s) == Reverse(s)
    decreases |s|
  {
    if |s| > 0 {
      var rest := s[1..];
      CreatedInOrderSuffix(s);
      ListedInReverseCreationOrder(rest);
      FirstIsOldest(s);
      InsertOldest(s[0], Reverse(rest));
    }
  }

  lemma CreatedInOrderSuffix(s: seq<Template>)
    requires CreatedInOrder(s) && |s| > 0
    ensures CreatedInOrder(s[1..])
  {
    var rest := s[1..];
    forall i, j | 0 <= i < j < |rest|
      ensures rest[i].createdAt < rest[j].createdAt
    {
      assert rest[i] == s[i + 1] && rest[j] == s[j + 1];
    }
  }

  lemma FirstIsOldest(s: seq<Template>)
    requires CreatedInOrder(s) && |s| > 0
    ensures NewestFirst(Reverse(s[1..]))
    ensures forall i :: 0 <= i < |Reverse(s[1..])| ==> Reverse(s[1..])[i].createdAt > s[0].createdAt
  {
    var rest := s[1..];
    var rv := Reverse(rest);
    forall i | 0 <= i < |rv|
      ensures rv[i].createdAt > s[0].createdAt
    {
      assert rv[i] == rest[|rest| - 1 - i] == s[|rest| - i];
    }
    forall i, j | 0 <= i < j < |rv|
      ensures rv[i].createdAt >= rv[j].createdAt
    {
      assert rv[i] == s[|rest| - i] && rv[j] == s[|rest| - j];
    }
  }
}
