// Ascending order of strings, as IndexedDB orders string keys and as `Array.prototype.sort`
// orders strings by default.
module Ordering {
  import opened Text

  /** Every element comes strictly before every later one. */
  predicate StrictlyAscending(s: seq<string>) {
    forall i, j :: 0 <= i < j < |s| ==> CompareText(s[i], s[j]) < 0
  }

  /** `m` is the least element of `keys`. */
  predicate IsLeast(m: string, keys: set<string>) {
    m in keys && forall k :: k in keys ==> CompareText(m, k) <= 0
  }

  /** A non-empty finite set of strings has a least element. */
  lemma {:induction false} LeastExists(keys: set<string>)
    requires keys != {}
    ensures exists m :: IsLeast(m, keys)
    decreases keys
  {
    var x :| x in keys;
    if keys == {x} {
      assert IsLeast(x, keys);
    } else {
      LeastExists(keys - {x});
      var m :| IsLeast(m, keys - {x});
      if CompareText(m, x) <= 0 {
        assert IsLeast(m, keys);
      } else {
        CompareTextAntisymmetric(m, x);
        forall k | k in keys ensures CompareText(x, k) <= 0 {
          if k != x {
            CompareTextTransitive(x, m, k);
          }
        }
        assert IsLeast(x, keys);
      }
    }
  }

  /** There is only one least element. */
  lemma LeastUnique(m: string, n: string, keys: set<string>)
    requires IsLeast(m, keys) && IsLeast(n, keys)
    ensures m == n
  {
    CompareTextAntisymmetric(m, n);
  }

  lemma LeastUniqueAll(keys: set<string>)
    ensures forall m, n :: IsLeast(m, keys) && IsLeast(n, keys) ==> m == n
  {
    forall m, n | IsLeast(m, keys) && IsLeast(n, keys) ensures m == n {
      LeastUnique(m, n, keys);
    }
  }

  /** The least element of a non-empty set. */
  function Least(keys: set<string>): (m: string)
    requires keys != {}
    ensures IsLeast(m, keys)
  {
    LeastExists(keys);
    LeastUniqueAll(keys);
    var m :| IsLeast(m, keys);
    m
  }

  /** A least first element before an ascending sequence keeps it ascending. */
  lemma ConsAscending(m: string, rest: seq<string>)
    requires StrictlyAscending(rest)
    requires forall j :: 0 <= j < |rest| ==> CompareText(m, rest[j]) < 0
    ensures StrictlyAscending([m] + rest)
  {
    var r := [m] + rest;
    forall i, j | 0 <= i < j < |r| ensures CompareText(r[i], r[j]) < 0 {
      if i == 0 {
        assert r[j] == rest[j - 1];
      } else {
        assert r[i] == rest[i - 1] && r[j] == rest[j - 1];
      }
    }
  }

  /** The elements of `keys` in ascending order. */
  function Ascending(keys: set<string>): (r: seq<string>)
    ensures StrictlyAscending(r)
    ensures |r| == |keys|
    ensures forall k :: k in r <==> k in keys
    decreases keys
  {
    if keys == {} then []
    else
      var m := Least(keys);
      var rest := Ascending(keys - {m});
      LessThanRest(m, rest, keys);
      ConsAscending(m, rest);
      [m] + rest
  }

  lemma LessThanRest(m: string, rest: seq<string>, keys: set<string>)
    requires IsLeast(m, keys)
    requires forall k :: k in rest <==> k in keys - {m}
    ensures forall j :: 0 <= j < |rest| ==> CompareText(m, rest[j]) < 0
  {
    forall j | 0 <= j < |rest| ensures CompareText(m, rest[j]) < 0 {
      assert rest[j] in rest;
    }
  }

  /** A strictly ascending sequence is determined by its elements. */
  lemma {:induction false} AscendingUnique(s: seq<string>, keys: set<string>)
    requires StrictlyAscending(s)
    requires forall k :: k in s <==> k in keys
    ensures s == Ascending(keys)
    decreases |s|
  {
    if s == [] {
      assert forall k :: k !in keys;
    } else {
      assert s[0] in keys;
      var m := Least(keys);
      AscendingHeadLeast(s, keys);
      LeastUnique(s[0], m, keys);
      AscendingTail(s, keys);
      AscendingUnique(s[1..], keys - {m});
      AscendingFromTail(s, keys);
    }
  }

  /** A sequence that starts with the least key, followed by the ascending rest, is the ascending order. */
  lemma AscendingFromTail(s: seq<string>, keys: set<string>)
    requires keys != {} && s != [] && s[0] == Least(keys)
    requires s[1..] == Ascending(keys - {Least(keys)})
    ensures s == Ascending(keys)
  {
    assert s == [s[0]] + s[1..];
  }

  lemma AscendingHeadLeast(s: seq<string>, keys: set<string>)
    requires s != [] && StrictlyAscending(s)
    requires forall k :: k in s <==> k in keys
    ensures IsLeast(s[0], keys)
  {
    assert s[0] in s;
    forall k | k in keys ensures CompareText(s[0], k) <= 0 {
      var j :| 0 <= j < |s| && s[j] == k;
    }
  }

  lemma AscendingTail(s: seq<string>, keys: set<string>)
    requires s != [] && StrictlyAscending(s)
    requires forall k :: k in s <==> k in keys
    ensures StrictlyAscending(s[1..])
    ensures forall k :: k in s[1..] <==> k in keys - {s[0]}
  {
    var t := s[1..];
    forall i, j | 0 <= i < j < |t| ensures CompareText(t[i], t[j]) < 0 {
      assert t[i] == s[i + 1] && t[j] == s[j + 1];
    }
    forall k ensures k in t <==> k in keys - {s[0]} {
      if k in t {
        var j :| 0 <= j < |t| && t[j] == k;
        assert s[j + 1] == k;
        assert CompareText(s[0], s[j + 1]) < 0;
      }
      if k in keys - {s[0]} {
        assert k in s;
        var j :| 0 <= j < |s| && s[j] == k;
        assert t[j - 1] == k;
      }
    }
  }
}
