/** An array of tracker lists with a bitmap of the non-empty ones
    (tcmalloc/hinted_tracker_lists.h). */
module HintedLists {
  import opened Lists

  ghost function Total<T>(q: seq<seq<T>>): nat {
    if q == [] then 0 else |q[0]| + Total(q[1..])
  }

  lemma {:induction false} TotalUpdate<T>(q: seq<seq<T>>, i: nat, s: seq<T>)
    requires i < |q|
    ensures Total(q[i := s]) == Total(q) - |q[i]| + |s| && |q[i]| <= Total(q)
    decreases q
  {
    if i > 0 {
      TotalUpdate(q[1..], i - 1, s);
      assert q[i := s][1..] == q[1..][i - 1 := s];
    } else {
      assert q[i := s][1..] == q[1..];
    }
  }

  lemma {:induction false} TotalEmpty<T>(n: nat, q: seq<seq<T>>)
    requires |q| == n && forall i :: 0 <= i < n ==> q[i] == []
    ensures Total(q) == 0
    decreases n
  {
    if n > 0 { TotalEmpty(n - 1, q[1..]); }
  }

  class HintedTrackerLists<T(==)> {
    const n: nat
    var lists: seq<seq<T>>
    var size: nat
    var nonempty: set<nat>

    ghost predicate Valid()
      reads this
    {
      |lists| == n && size == Total(lists) && forall i: nat :: i in nonempty <==> i < n && lists[i] != []
    }

    constructor (n: nat)
      ensures Valid() && this.n == n && forall i :: 0 <= i < n ==> lists[i] == []
    {
      this.n := n;
      lists, size, nonempty := seq(n, i => []), 0, {};
      TotalEmpty<T>(n, seq(n, i => []));
    }

    /** The first non-empty list from `from` on, or `n`. */
    method FindSet(from: nat) returns (i: nat)
      requires Valid() && from <= n
      ensures from <= i <= n && (i < n ==> i in nonempty) && forall j :: from <= j < i ==> lists[j] == []
    {
      i := from;
      while i < n && i !in nonempty
        invariant from <= i <= n && forall j :: from <= j < i ==> lists[j] == []
      {
        i := i + 1;
      }
    }

    /** The head of the first non-empty list from `from` on, left where it is. */
    method PeekLeast(from: nat) returns (t: Option<T>, ghost i: nat)
      requires Valid() && from <= n
      ensures from <= i <= n && forall j :: from <= j < i ==> lists[j] == []
      ensures if i == n then t == None else lists[i] != [] && t == Some(lists[i][0])
    {
      var at := FindSet(from);
      i := at;
      if at == n { return None, i; }
      t := Some(lists[at][0]);
    }

    /** Take the head off the first non-empty list from `from` on. */
    method GetLeast(from: nat) returns (t: Option<T>, ghost i: nat)
      requires Valid() && from <= n
      modifies this
      ensures Valid() && from <= i <= n && forall j :: from <= j < i ==> old(lists)[j] == []
      ensures if i == n then t == None && lists == old(lists)
              else old(lists)[i] != [] && t == Some(old(lists)[i][0]) && lists == old(lists)[i := old(lists)[i][1..]]
    {
      var at := FindSet(from);
      i := at;
      if at == n { return None, i; }
      t := Some(lists[at][0]);
      Cut(at, lists[at][1..]);
    }

    method Cut(i: nat, rest: seq<T>)
      requires Valid() && i < n && |rest| == |lists[i]| - 1
      modifies this
      ensures Valid() && lists == old(lists)[i := rest]
    {
      TotalUpdate(lists, i, rest);
      lists := lists[i := rest];
      if rest == [] { nonempty := nonempty - {i}; }
      size := size - 1;
    }

    /** Put `t` at the head of list `i`. */
    method Add(t: T, i: nat)
      requires Valid() && i < n
      modifies this
      ensures Valid() && lists == old(lists)[i := [t] + old(lists)[i]]
    {
      TotalUpdate(lists, i, [t] + lists[i]);
      lists := lists[i := [t] + lists[i]];
      size := size + 1;
      nonempty := nonempty + {i};
    }

    /** Take `t` off list `i`. */
    method Remove(t: T, i: nat)
      requires Valid() && i < n && NoDup(lists[i]) && t in lists[i]
      modifies this
      ensures Valid() && lists == old(lists)[i := Without(old(lists)[i], t)]
    {
      WithoutIn(lists[i], t);
      Cut(i, Without(lists[i], t));
    }
  }
}
