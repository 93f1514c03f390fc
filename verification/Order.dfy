/** The byte order of the key-value store, in which every prefix scan runs. */
module Order {
  /** Strict lexicographic order. */
  predicate Less(a: string, b: string) {
    if b == "" then false
    else if a == "" then true
    else if a[0] != b[0] then a[0] < b[0]
    else Less(a[1..], b[1..])
  }

  lemma {:induction false} LessTotal(a: string, b: string)
    ensures a == b || Less(a, b) || Less(b, a)
    ensures !(Less(a, b) && Less(b, a))
    ensures a == b ==> !Less(a, b)
  {
    if a != "" && b != "" && a[0] == b[0] {
      LessTotal(a[1..], b[1..]);
      assert a == [a[0]] + a[1..] && b == [b[0]] + b[1..];
    }
  }

  lemma {:induction false} LessTransitive(a: string, b: string, c: string)
    requires Less(a, b) && Less(b, c)
    ensures Less(a, c)
  {
    if a != "" && a[0] == b[0] == c[0] {
      LessTransitive(a[1..], b[1..], c[1..]);
    }
  }

  lemma {:induction false} LessUnderPrefix(p: string, a: string, b: string)
    ensures Less(p + a, p + b) == Less(a, b)
  {
    if p == "" {
      assert p + a == a && p + b == b;
    } else {
      assert (p + a)[1..] == p[1..] + a && (p + b)[1..] == p[1..] + b;
      LessUnderPrefix(p[1..], a, b);
    }
  }

  /** a and b agree up to k, where a has the smaller byte. */
  predicate DiffersAt(a: string, b: string, k: nat) {
    k < |a| && k < |b| && a[..k] == b[..k] && a[k] < b[k]
  }

  /** What the order of byte strings is: a proper prefix comes first, and otherwise the first byte in
      which two strings differ decides. */
  lemma {:induction false} LessMeans(a: string, b: string)
    ensures Less(a, b) <==> (a <= b && a != b) || exists k: nat :: DiffersAt(a, b, k)
  {
    if a != "" && b != "" && a[0] == b[0] {
      LessMeans(a[1..], b[1..]);
      assert a == [a[0]] + a[1..] && b == [b[0]] + b[1..];
      if k: nat :| DiffersAt(a[1..], b[1..], k) { assert DiffersAt(a, b, k + 1); }
      if k: nat :| DiffersAt(a, b, k) {
        assert a[..k][0] == b[..k][0] && a[..k][1..] == a[1..][..k - 1] && b[..k][1..] == b[1..][..k - 1];
        assert DiffersAt(a[1..], b[1..], k - 1);
      }
    } else if a != "" && b != "" && a[0] < b[0] {
      assert DiffersAt(a, b, 0);
    } else {
      forall k: nat ensures DiffersAt(a, b, k) ==> k == 0 {
        FirstByteDecides(a, b, k);
      }
    }
  }

  lemma FirstByteDecides(a: string, b: string, k: nat)
    requires a == "" || b == "" || a[0] != b[0]
    ensures DiffersAt(a, b, k) ==> k == 0
  {
    if 0 < k < |a| && k < |b| {
      assert a[..k][0] == a[0] && b[..k][0] == b[0];
    }
  }

  /** A proper prefix comes first. */
  lemma PrefixLess(a: string, b: string)
    requires a <= b && a != b
    ensures Less(a, b)
  {
    LessMeans(a, b);
  }

  /** What follows does not matter once strings of one length differ. */
  lemma {:induction false} LessAppend(a: string, b: string, x: string, y: string)
    requires |a| == |b| && Less(a, b)
    ensures Less(a + x, b + y)
  {
    assert (a + x)[0] == a[0] && (b + y)[0] == b[0];
    if a[0] == b[0] {
      assert (a + x)[1..] == a[1..] + x && (b + y)[1..] == b[1..] + y;
      LessAppend(a[1..], b[1..], x, y);
    }
  }

  predicate Least(m: string, s: set<string>) {
    m in s && forall x | x in s :: x == m || Less(m, x)
  }

  lemma {:induction false} LeastExists(s: set<string>)
    requires s != {}
    ensures exists m :: Least(m, s)
  {
    var x :| x in s;
    if s - {x} == {} {
      assert s == {x};
      assert Least(x, s);
    } else {
      LeastExists(s - {x});
      var m :| Least(m, s - {x});
      LessTotal(x, m);
      if Less(x, m) {
        forall y | y in s ensures y == x || Less(x, y) {
          if y != x && y != m {
            LessTransitive(x, m, y);
          }
        }
        assert Least(x, s);
      } else {
        assert Least(m, s);
      }
    }
  }

  lemma LeastUnique(s: set<string>)
    ensures forall m, n | Least(m, s) && Least(n, s) :: m == n
  {
    forall m, n | Least(m, s) && Least(n, s) ensures m == n {
      LessTotal(m, n);
    }
  }

  ghost predicate Ascending(ks: seq<string>) {
    forall i, j | 0 <= i < j < |ks| :: Less(ks[i], ks[j])
  }

  /** The keys of s in scan order. */
  function SortKeys(s: set<string>): (ks: seq<string>)
    ensures Ascending(ks)
    ensures forall x :: x in ks <==> x in s
    ensures |ks| == |s|
  {
    if s == {} then [] else
      LeastExists(s);
      LeastUnique(s);
      var m :| Least(m, s);
      [m] + SortKeys(s - {m})
  }

  lemma {:induction false} NeighboursAscend(ks: seq<string>)
    requires forall i | 0 <= i < |ks| - 1 :: Less(ks[i], ks[i + 1])
    ensures Ascending(ks)
  {
    if |ks| > 1 {
      var init, n := ks[..|ks| - 1], |ks| - 1;
      forall i | 0 <= i < |init| - 1 ensures Less(init[i], init[i + 1]) {
        assert Less(ks[i], ks[i + 1]);
      }
      NeighboursAscend(init);
      forall i, j | 0 <= i < j < |ks| ensures Less(ks[i], ks[j]) {
        assert init[i] == ks[i];
        if j < n {
          assert init[j] == ks[j];
        } else if i < n - 1 {
          assert Less(init[i], init[n - 1]) && init[n - 1] == ks[n - 1] && Less(ks[n - 1], ks[(n - 1) + 1]);
          LessTransitive(ks[i], ks[n - 1], ks[n]);
        }
      }
    }
  }

  lemma HasElement(a: seq<string>)
    ensures a != [] ==> exists x :: x in a
  {
    if a != [] { assert a[0] in a; }
  }

  /** An ascending sequence is determined by its elements, so scan order is the only order. */
  lemma {:induction false} AscendingUnique(a: seq<string>, b: seq<string>)
    requires Ascending(a) && Ascending(b)
    requires forall x :: x in a <==> x in b
    ensures a == b
  {
    HasElement(a);
    HasElement(b);
    if a != [] {
      assert a[0] in b;
      assert b[0] in a;
      var i :| 0 <= i < |b| && b[i] == a[0];
      var j :| 0 <= j < |a| && a[j] == b[0];
      LessTotal(a[0], b[0]);
      assert a[0] == b[0];
      forall x ensures x in a[1..] <==> x in b[1..] {
        LessTotal(a[0], a[0]);
        if x in a[1..] {
          assert x in a && x != a[0];
          assert x in b;
        }
        if x in b[1..] {
          assert x in b && x != b[0];
          assert x in a;
        }
      }
      AscendingUnique(a[1..], b[1..]);
    }
  }

  lemma AscendingDistinct(ks: seq<string>, i: nat, j: nat)
    requires Ascending(ks) && i < |ks| && j < |ks| && ks[i] == ks[j]
    ensures i == j
  {
    LessTotal(ks[i], ks[j]);
  }

  lemma AscendingPlaces(ks: seq<string>, i: nat, j: nat)
    requires Ascending(ks) && i < |ks| && j < |ks|
    ensures Less(ks[i], ks[j]) <==> i < j
  {
    LessTotal(ks[i], ks[j]);
    if j < i { LessTotal(ks[j], ks[i]); }
  }

  /** Every string of ks with p put before it. */
  function Shift(p: string, ks: seq<string>): (r: seq<string>)
    ensures |r| == |ks|
    ensures forall k | 0 <= k < |ks| :: r[k] == p + ks[k]
  {
    seq(|ks|, k requires 0 <= k < |ks| => p + ks[k])
  }

  lemma ShiftStrips(p: string, ks: seq<string>, i: nat)
    requires i < |ks|
    ensures |p| <= |Shift(p, ks)[i]| && Shift(p, ks)[i][|p|..] == ks[i]
  {
  }

  lemma ShiftAscending(p: string, ks: seq<string>)
    requires Ascending(ks)
    ensures Ascending(Shift(p, ks))
  {
    forall i, j | 0 <= i < j < |ks| ensures Less(Shift(p, ks)[i], Shift(p, ks)[j]) {
      LessUnderPrefix(p, ks[i], ks[j]);
    }
  }

  lemma ShiftCovers(p: string, ks: seq<string>, s: set<string>, t: set<string>)
    requires forall x :: x in ks <==> x in s
    requires forall x | x in s :: p + x in t
    requires forall y | y in t :: exists x :: x in s && y == p + x
    ensures forall y :: y in Shift(p, ks) <==> y in t
  {
    var r := Shift(p, ks);
    forall y ensures y in r <==> y in t {
      if y in r {
        var k :| 0 <= k < |r| && r[k] == y;
        assert ks[k] in ks;
      }
      if y in t {
        var x :| x in s && y == p + x;
        var k :| 0 <= k < |ks| && ks[k] == x;
        assert r[k] == y;
      }
    }
  }

  /** Scanning under a common prefix visits the remainders in their own order. */
  lemma SortUnderPrefix(p: string, s: set<string>, t: set<string>)
    requires forall x | x in s :: p + x in t
    requires forall y | y in t :: exists x :: x in s && y == p + x
    ensures SortKeys(t) == Shift(p, SortKeys(s))
  {
    ShiftAscending(p, SortKeys(s));
    ShiftCovers(p, SortKeys(s), s, t);
    AscendingUnique(Shift(p, SortKeys(s)), SortKeys(t));
  }
}
