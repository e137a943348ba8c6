/**
 * The order in which an object store hands out its records: ascending by
 * key, keys compared character by character, a proper prefix first.
 */
module KeyOrder {

  /** `a` sorts strictly before `b`. */
  predicate Less(a: string, b: string)
  {
    if a == [] then b != []
    else if b == [] then false
    else if a[0] != b[0] then a[0] < b[0]
    else Less(a[1..], b[1..])
  }

  lemma {:induction false} LessIrreflexive(a: string)
    ensures !Less(a, a)
  {
    if a != [] {
      LessIrreflexive(a[1..]);
    }
  }

  lemma {:induction false} LessTransitive(a: string, b: string, c: string)
    requires Less(a, b) && Less(b, c)
    ensures Less(a, c)
  {
    if a != [] && a[0] == b[0] && b[0] == c[0] {
      LessTransitive(a[1..], b[1..], c[1..]);
    }
  }

  lemma {:induction false} LessTotal(a: string, b: string)
    requires a != b
    ensures Less(a, b) || Less(b, a)
  {
    if a != [] && b != [] && a[0] == b[0] {
      assert a == [a[0]] + a[1..] && b == [b[0]] + b[1..];
      LessTotal(a[1..], b[1..]);
    }
  }

  lemma LessAsymmetric(a: string, b: string)
    requires Less(a, b)
    ensures !Less(b, a)
  {
    if Less(b, a) {
      LessTransitive(a, b, a);
      LessIrreflexive(a);
    }
  }

  /** `k` is the least key of `s`. */
  ghost predicate IsMin(k: string, s: set<string>)
  {
    k in s && forall x :: x in s && x != k ==> Less(k, x)
  }

  lemma {:induction false} MinExists(s: set<string>)
    requires s != {}
    ensures exists k :: IsMin(k, s)
    decreases s
  {
    var x :| x in s;
    if s != {x} {
      MinExists(s - {x});
      var m :| IsMin(m, s - {x});
      if Less(x, m) {
        forall y | y in s && y != x
          ensures Less(x, y)
        {
          if y != m { LessTransitive(x, m, y); }
        }
        assert IsMin(x, s);
      } else {
        LessTotal(x, m);
        assert IsMin(m, s);
      }
    } else {
      assert IsMin(x, s);
    }
  }

  lemma MinUnique(a: string, b: string, s: set<string>)
    requires IsMin(a, s) && IsMin(b, s)
    ensures a == b
  {
    if a != b {
      LessAsymmetric(a, b);
    }
  }

  /** The keys of `s` in ascending order. */
  ghost function SortedKeys(s: set<string>): (ks: seq<string>)
    ensures |ks| == |s|
    ensures forall k :: k in ks <==> k in s
    ensures forall i, j {:trigger Less(ks[i], ks[j])} :: 0 <= i < j < |ks| ==> Less(ks[i], ks[j])
    ensures s != {} ==> IsMin(ks[0], s)
    decreases |s|
  {
    if s == {} then []
    else
      MinExists(s);
      var k :| IsMin(k, s);
      var rest := SortedKeys(s - {k});
      ConsSorted(k, rest, s);
      [k] + rest
  }

  /** Putting the least key in front of the sorted rest keeps the order. */
  lemma ConsSorted(k: string, rest: seq<string>, s: set<string>)
    requires IsMin(k, s)
    requires |rest| == |s - {k}|
    requires forall x :: x in rest <==> x in s - {k}
    requires forall i, j :: 0 <= i < j < |rest| ==> Less(rest[i], rest[j])
    ensures |[k] + rest| == |s|
    ensures forall x :: x in [k] + rest <==> x in s
    ensures forall i, j :: 0 <= i < j < |[k] + rest| ==> Less(([k] + rest)[i], ([k] + rest)[j])
    ensures ([k] + rest)[0] == k
  {
    var ks := [k] + rest;
    forall i, j | 0 <= i < j < |ks|
      ensures Less(ks[i], ks[j])
    {
      assert ks[j] == rest[j - 1];
      if i == 0 {
        assert ks[j] in s - {k};
      } else {
        assert ks[i] == rest[i - 1];
      }
    }
  }

  /** The least key comes first, then the rest in order. */
  lemma SortedKeysUnfold(s: set<string>, k: string)
    requires IsMin(k, s)
    ensures SortedKeys(s) == [k] + SortedKeys(s - {k})
  {
    var ks := SortedKeys(s);
    MinUnique(k, ks[0], s);
    assert ks == [ks[0]] + ks[1..];
  }

  /** Scans the set once, keeping the least key seen so far. */
  method MinKey(s: set<string>) returns (k: string)
    requires s != {}
    ensures IsMin(k, s)
  {
    k :| k in s;
    var rest := s - {k};
    while rest != {}
      invariant k in s && rest <= s && k !in rest
      invariant forall x :: x in s - rest && x != k ==> Less(k, x)
      decreases rest
    {
      var x :| x in rest;
      if Less(x, k) {
        forall y | y in s - rest && y != x
          ensures Less(x, y)
        {
          if y != k { LessTransitive(x, k, y); }
        }
        k := x;
      } else {
        LessTotal(x, k);
      }
      rest := rest - {x};
    }
  }
}
