/**
 * PHP's comparison of two non-numeric strings: byte-wise, a proper prefix
 * sorting first. Characters stand for bytes; UTF-8 keeps code-point order,
 * so comparing characters orders the same way as comparing the bytes.
 * Also PHP's `sort()` on a list of such strings, as an in-place sort.
 */
module StringOrder {

  /** `a < b` for two non-numeric PHP strings; no string sorts before itself. */
  predicate LexLess(a: string, b: string): (r: bool)
    ensures r ==> a != b
  {
    if |a| == 0 then |b| > 0
    else if |b| == 0 then false
    else if a[0] != b[0] then a[0] < b[0]
    else LexLess(a[1..], b[1..])
  }

  /** `a <= b` for two non-numeric PHP strings. */
  predicate LexLe(a: string, b: string)
  {
    a == b || LexLess(a, b)
  }

  lemma {:induction false} LexLessIrreflexive(a: string)
    ensures !LexLess(a, a)
  {
    if |a| > 0 {
      LexLessIrreflexive(a[1..]);
    }
  }

  /** A proper prefix sorts before the longer string, and no string sorts before one of its prefixes. */
  lemma {:induction false} LexLessPrefix(a: string, b: string)
    ensures a <= b ==> (LexLess(a, b) <==> a != b)
    ensures b <= a ==> !LexLess(a, b)
  {
    if |a| > 0 && |b| > 0 {
      LexLessPrefix(a[1..], b[1..]);
    }
  }

  lemma {:induction false} LexLessAsymmetric(a: string, b: string)
    requires LexLess(a, b)
    ensures !LexLess(b, a)
  {
    if |a| > 0 && |b| > 0 && a[0] == b[0] {
      LexLessAsymmetric(a[1..], b[1..]);
    }
  }

  lemma {:induction false} LexLessTransitive(a: string, b: string, c: string)
    requires LexLess(a, b) && LexLess(b, c)
    ensures LexLess(a, c)
  {
    if |a| > 0 && a[0] == b[0] && b[0] == c[0] {
      LexLessTransitive(a[1..], b[1..], c[1..]);
    }
  }

  lemma {:induction false} LexLessTotal(a: string, b: string)
    ensures a == b || LexLess(a, b) || LexLess(b, a)
  {
    if |a| > 0 && |b| > 0 && a[0] == b[0] {
      LexLessTotal(a[1..], b[1..]);
      if a[1..] == b[1..] {
        assert a == [a[0]] + a[1..] && b == [b[0]] + b[1..];
      }
    }
  }

  lemma LexLeAntisymmetric(a: string, b: string)
    requires LexLe(a, b) && LexLe(b, a)
    ensures a == b
  {
    if a != b {
      LexLessAsymmetric(a, b);
    }
  }

  lemma LexLeTransitive(a: string, b: string, c: string)
    requires LexLe(a, b) && LexLe(b, c)
    ensures LexLe(a, c)
  {
    if a != b && b != c {
      LexLessTransitive(a, b, c);
    }
  }

  /** A common prefix does not change the order of two strings. */
  lemma {:induction false} LexLessCommonPrefix(p: string, a: string, b: string)
    ensures LexLess(p + a, p + b) <==> LexLess(a, b)
  {
    if |p| > 0 {
      assert (p + a)[1..] == p[1..] + a;
      assert (p + b)[1..] == p[1..] + b;
      LexLessCommonPrefix(p[1..], a, b);
    } else {
      assert p + a == a && p + b == b;
    }
  }

  /** Every element is at most every later one. */
  ghost predicate Sorted(s: seq<string>)
  {
    forall p, q :: 0 <= p < q < |s| ==> LexLe(s[p], s[q])
  }

  /** The smallest string of a non-empty list. */
  function Smallest(ks: seq<string>): (r: string)
    requires |ks| > 0
    ensures r in ks
    ensures forall k :: k in ks ==> LexLe(r, k)
  {
    if |ks| == 1 then ks[0]
    else
      var m := Smallest(ks[1..]);
      if LexLess(ks[0], m) then
        assert forall k :: k in ks[1..] ==> LexLe(ks[0], k) by {
          forall k | k in ks[1..] ensures LexLe(ks[0], k) {
            LexLeTransitive(ks[0], m, k);
          }
        }
        ks[0]
      else
        LexLessTotal(ks[0], m);
        m
  }

  /** The largest string of a non-empty list. */
  function Largest(ks: seq<string>): (r: string)
    requires |ks| > 0
    ensures r in ks
    ensures forall k :: k in ks ==> LexLe(k, r)
  {
    if |ks| == 1 then ks[0]
    else
      var m := Largest(ks[1..]);
      if LexLess(m, ks[0]) then
        assert forall k :: k in ks[1..] ==> LexLe(k, ks[0]) by {
          forall k | k in ks[1..] ensures LexLe(k, ks[0]) {
            LexLeTransitive(k, m, ks[0]);
          }
        }
        ks[0]
      else
        LexLessTotal(ks[0], m);
        m
  }

  /**
   * PHP's `sort()` on a list of non-numeric strings: afterwards the list is in
   * ascending order and holds the same strings as before.
   */
  method Sort(a: array<string>)
    modifies a
    ensures Sorted(a[..])
    ensures multiset(a[..]) == multiset(old(a[..]))
  {
    var i := 0;
    while i < a.Length
      invariant 0 <= i <= a.Length
      invariant forall p, q :: 0 <= p < q < i ==> LexLe(a[p], a[q])
      invariant multiset(a[..]) == multiset(old(a[..]))
    {
      Insert(a, i);
      i := i + 1;
    }
  }

  /** One step of the insertion sort: moves `a[i]` down into the sorted prefix `a[..i]`. */
  method Insert(a: array<string>, i: nat)
    requires i < a.Length
    requires forall p, q :: 0 <= p < q < i ==> LexLe(a[p], a[q])
    modifies a
    ensures forall p, q :: 0 <= p < q <= i ==> LexLe(a[p], a[q])
    ensures multiset(a[..]) == multiset(old(a[..]))
  {
    var j := i;
    while j > 0 && LexLess(a[j], a[j - 1])
      invariant 0 <= j <= i
      invariant forall p, q :: 0 <= p < q <= i && p != j && q != j ==> LexLe(a[p], a[q])
      invariant forall q :: j < q <= i ==> LexLess(a[j], a[q])
      invariant multiset(a[..]) == multiset(old(a[..]))
    {
      a[j - 1], a[j] := a[j], a[j - 1];
      j := j - 1;
    }
    if j > 0 {
      LexLessTotal(a[j], a[j - 1]);
      forall p | 0 <= p < j ensures LexLe(a[p], a[j]) {
        LexLeTransitive(a[p], a[j - 1], a[j]);
      }
    }
  }
}
