/** Lists without repetition and their elements, and the width of a number in bits. */
module Lists {
  datatype Option<T> = None | Some(value: T)

  predicate NoDup<T(==)>(s: seq<T>) {
    forall i, j :: 0 <= i < j < |s| ==> s[i] != s[j]
  }

  ghost function SetOf<T>(s: seq<T>): set<T> { set x | x in s }

  lemma {:induction false} SetOfCount<T>(s: seq<T>)
    requires NoDup(s)
    ensures |SetOf(s)| == |s|
    decreases s
  {
    if s != [] {
      assert s == [s[0]] + s[1..] && NoDup(s[1..]);
      SetOfCount(s[1..]);
      assert s[0] !in s[1..];
      assert SetOf(s) == SetOf(s[1..]) + {s[0]};
    }
  }

  lemma NoDupConcat<T>(a: seq<T>, b: seq<T>)
    requires NoDup(a) && NoDup(b) && SetOf(a) !! SetOf(b)
    ensures NoDup(a + b) && SetOf(a + b) == SetOf(a) + SetOf(b)
  {
    forall i, j | 0 <= i < j < |a + b| ensures (a + b)[i] != (a + b)[j] {
      assert i < |a| ==> a[i] in SetOf(a);
      assert j >= |a| ==> b[j - |a|] in SetOf(b);
    }
  }

  lemma SubsetCount<T>(a: set<T>, b: set<T>)
    requires a <= b
    ensures |a| <= |b| && |b - a| == |b| - |a| && (|a| == |b| <==> a == b)
  {
    assert b == a + (b - a);
    if |a| == |b| { assert |b - a| == 0; }
  }

  /** `s` without its first `t`. */
  function Without<T(==)>(s: seq<T>, t: T): seq<T> {
    if s == [] then [] else if s[0] == t then s[1..] else [s[0]] + Without(s[1..], t)
  }

  lemma {:induction false} WithoutIn<T>(s: seq<T>, t: T)
    requires NoDup(s)
    ensures NoDup(Without(s, t)) && t !in Without(s, t)
    ensures forall x :: x in Without(s, t) <==> x in s && x != t
    ensures t in s ==> |Without(s, t)| == |s| - 1
    decreases s
  {
    if s != [] {
      assert s == [s[0]] + s[1..];
      assert NoDup(s[1..]);
      WithoutIn(s[1..], t);
      var w := Without(s, t);
      if s[0] != t {
        assert s[0] !in s[1..];
        forall i, j | 0 <= i < j < |w| ensures w[i] != w[j] {
          assert w[j] == Without(s[1..], t)[j - 1];
          assert i > 0 ==> w[i] == Without(s[1..], t)[i - 1];
          assert w[j] in Without(s[1..], t);
        }
      }
    }
  }

  function BitWidth(x: nat): nat {
    if x == 0 then 0 else 1 + BitWidth(x / 2)
  }

  lemma {:induction false} BitWidthMonotone(x: nat, y: nat)
    requires x <= y
    ensures BitWidth(x) <= BitWidth(y)
    decreases y
  {
    if x > 0 { BitWidthMonotone(x / 2, y / 2); }
  }
}
