/** Facts about finite sequences shared by the models. */
module Sequences {

  datatype Option<+T> = None | Some(value: T)

  ghost predicate Distinct<T>(s: seq<T>) {
    forall i, j :: 0 <= i < j < |s| ==> s[i] != s[j]
  }

  /** The position of the first x in s, or |s| when there is none. */
  function IndexOf<T(==)>(s: seq<T>, x: T): (k: nat)
    ensures k <= |s|
    ensures k < |s| ==> s[k] == x
    ensures forall j :: 0 <= j < k ==> s[j] != x
    ensures k == |s| <==> x !in s
  {
    if s == [] then 0
    else if s[0] == x then 0
    else
      1 + IndexOf(s[1..], x)
  }

  lemma IndexOfFirst<T>(s: seq<T>, x: T, k: nat)
    requires k < |s| && s[k] == x && x !in s[..k]
    ensures IndexOf(s, x) == k
  {
    var j := IndexOf(s, x);
    assert forall i :: 0 <= i < k ==> s[..k][i] == s[i];
  }

  function RemoveAt<T>(s: seq<T>, k: nat): seq<T>
    requires k < |s|
  {
    s[..k] + s[k + 1..]
  }

  /** s without its first x: everything after it moves one place left, and the order stays. */
  function Without<T(==)>(s: seq<T>, x: T): (r: seq<T>)
    ensures x !in s ==> r == s
    ensures x in s ==> |r| == |s| - 1
  {
    var k := IndexOf(s, x);
    if k < |s| then RemoveAt(s, k) else s
  }

  lemma WithoutDistinct<T>(s: seq<T>, x: T)
    requires Distinct(s)
    ensures Distinct(Without(s, x))
    ensures forall y :: y in Without(s, x) <==> y in s && y != x
  {
    var k := IndexOf(s, x);
    var r := Without(s, x);
    if k < |s| {
      assert forall i :: 0 <= i < |r| ==> r[i] == if i < k then s[i] else s[i + 1];
      forall y ensures y in r <==> y in s && y != x {
        if y in s && y != x {
          var i :| 0 <= i < |s| && s[i] == y;
          assert r[if i < k then i else i - 1] == y;
        }
      }
    }
  }

  lemma Associative<T>(a: seq<T>, b: seq<T>, c: seq<T>)
    ensures (a + b) + c == a + (b + c)
  {
  }

  function Sum<T>(s: seq<T>, f: T -> int): int {
    if s == [] then 0 else Sum(s[..|s| - 1], f) + f(s[|s| - 1])
  }

  lemma {:induction false} SameSum<T>(a: seq<T>, b: seq<T>, f: T -> int)
    requires |a| == |b| && forall i :: 0 <= i < |a| ==> f(a[i]) == f(b[i])
    ensures Sum(b, f) == Sum(a, f)
  {
    if a != [] {
      SameSum(a[..|a| - 1], b[..|a| - 1], f);
    }
  }

  /** Changing one element changes the sum by that much. */
  lemma {:induction false} SumChange<T>(a: seq<T>, b: seq<T>, c: nat, f: T -> int)
    requires |a| == |b| && c < |a|
    requires forall i :: 0 <= i < |a| && i != c ==> f(a[i]) == f(b[i])
    ensures Sum(b, f) - Sum(a, f) == f(b[c]) - f(a[c])
  {
    var n := |a| - 1;
    if c == n {
      SameSum(a[..n], b[..n], f);
    } else {
      SumChange(a[..n], b[..n], c, f);
    }
  }

  lemma {:induction false} SumNatural<T>(s: seq<T>, f: T -> int)
    requires forall i :: 0 <= i < |s| ==> f(s[i]) >= 0
    ensures Sum(s, f) >= 0
  {
    if s != [] {
      SumNatural(s[..|s| - 1], f);
    }
  }

  lemma SumAppend<T>(s: seq<T>, x: T, f: T -> int)
    ensures Sum(s + [x], f) == Sum(s, f) + f(x)
  {
    assert (s + [x])[..|s|] == s;
  }
}
