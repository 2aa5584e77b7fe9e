/**
 String utilities the generator relies on: `hasPrefix`, the ordering that
 `sorted()` uses on dictionary keys, sorting a key set, and `joined(separator:)`.
 */
module Text {

  /** Whether `s` begins with `p`: its first |p| characters are `p`. */
  predicate HasPrefix(s: string, p: string)
  {
    |p| <= |s| && s[..|p|] == p
  }

  /** `p` is a prefix of `s` exactly when `s` is `p` followed by some rest. */
  lemma HasPrefixSplit(s: string, p: string)
    ensures HasPrefix(s, p) <==> exists t :: s == p + t
  {
    if HasPrefix(s, p) {
      assert s == p + s[|p|..];
    }
  }

  /** Strict lexicographic order on strings, character by character; a proper
      prefix comes before every extension of it. */
  predicate Below(a: string, b: string)
    decreases |a|
  {
    if a == [] then b != []
    else if b == [] then false
    else a[0] < b[0] || (a[0] == b[0] && Below(a[1..], b[1..]))
  }

  lemma {:induction false} BelowIrreflexive(a: string)
    ensures !Below(a, a)
    decreases |a|
  {
    if a != [] {
      BelowIrreflexive(a[1..]);
    }
  }

  lemma {:induction false} BelowTransitive(a: string, b: string, c: string)
    requires Below(a, b) && Below(b, c)
    ensures Below(a, c)
    decreases |a|
  {
    if a != [] && a[0] == b[0] && b[0] == c[0] {
      BelowTransitive(a[1..], b[1..], c[1..]);
    }
  }

  lemma {:induction false} BelowTotal(a: string, b: string)
    requires a != b
    ensures Below(a, b) || Below(b, a)
    decreases |a|
  {
    if a != [] && b != [] && a[0] == b[0] {
      assert a == [a[0]] + a[1..] && b == [b[0]] + b[1..];
      BelowTotal(a[1..], b[1..]);
    }
  }

  lemma BelowAsymmetric(a: string, b: string)
    requires Below(a, b)
    ensures !Below(b, a)
  {
    if Below(b, a) {
      BelowTransitive(a, b, a);
      BelowIrreflexive(a);
    }
  }

  /** The elements of `r`, as a set. */
  function Elems(r: seq<string>): set<string>
  {
    set x | x in r
  }

  /** Strictly ascending: sorted and free of duplicates. */
  predicate Ascending(r: seq<string>)
  {
    forall i, j :: 0 <= i < j < |r| ==> Below(r[i], r[j])
  }

  /** `r` enumerates the set `s` in ascending order. */
  ghost predicate SortingOf(r: seq<string>, s: set<string>)
  {
    Ascending(r) && Elems(r) == s
  }

  lemma AscendingTail(r: seq<string>)
    requires Ascending(r) && r != []
    ensures Ascending(r[1..]) && r[0] !in r[1..]
  {
    if r[0] in r[1..] {
      var k :| 0 <= k < |r[1..]| && r[1..][k] == r[0];
      assert Below(r[0], r[k + 1]);
      BelowIrreflexive(r[0]);
    }
  }

  /** Inserts `x` at its place in the ascending sequence `r`. */
  function Insert(r: seq<string>, x: string): (q: seq<string>)
    requires Ascending(r) && x !in r
    ensures Ascending(q) && Elems(q) == Elems(r) + {x} && |q| == |r| + 1
    decreases |r|
  {
    if r == [] then [x]
    else if Below(x, r[0]) then
      AllAbove(r, x);
      [x] + r
    else
      BelowTotal(x, r[0]);
      AscendingTail(r);
      var q' := Insert(r[1..], x);
      assert r == [r[0]] + r[1..];
      AllAbove(r, r[0]);
      assert forall j :: 0 <= j < |q'| ==> Below(r[0], q'[j]) by {
        forall j | 0 <= j < |q'|
          ensures Below(r[0], q'[j])
        {
          assert q'[j] in Elems(r[1..]) + {x};
        }
      }
      [r[0]] + q'
  }

  /** Below the head of an ascending sequence means below all of it. */
  lemma AllAbove(r: seq<string>, x: string)
    requires Ascending(r) && r != []
    requires x == r[0] || Below(x, r[0])
    ensures forall j :: 0 < j < |r| ==> Below(x, r[j])
    ensures forall y :: y in r[1..] ==> Below(x, y)
  {
    forall j | 0 < j < |r|
      ensures Below(x, r[j])
    {
      if x != r[0] {
        BelowTransitive(x, r[0], r[j]);
      }
    }
  }

  /** Every finite set of strings has an ascending enumeration. */
  lemma {:induction false} SortingExists(s: set<string>)
    ensures exists r :: SortingOf(r, s)
    decreases s
  {
    if s == {} {
      assert SortingOf([], s);
    } else {
      var x :| x in s;
      SortingExists(s - {x});
      var r :| SortingOf(r, s - {x});
      assert SortingOf(Insert(r, x), s);
    }
  }

  /** The ascending enumeration of a set is unique, so sorting the same keys
      always yields the same sequence. */
  lemma {:induction false} SortingUnique(r1: seq<string>, r2: seq<string>, s: set<string>)
    requires SortingOf(r1, s) && SortingOf(r2, s)
    ensures r1 == r2
    decreases |r1|
  {
    if r2 != [] {
      assert r2[0] in Elems(r2);
    }
    if r1 != [] {
      assert r2 != [] by {
        assert r1[0] in Elems(r2);
      }
      if r1[0] != r2[0] {
        assert r1[0] in r2[1..] by {
          assert r1[0] in Elems(r2);
        }
        assert r2[0] in r1[1..] by {
          assert r2[0] in Elems(r1);
        }
        AllAbove(r1, r1[0]);
        AllAbove(r2, r2[0]);
        BelowAsymmetric(r1[0], r2[0]);
      }
      AscendingTail(r1);
      AscendingTail(r2);
      assert r1 == [r1[0]] + r1[1..] && r2 == [r2[0]] + r2[1..];
      assert Elems(r1[1..]) == s - {r1[0]};
      assert Elems(r2[1..]) == s - {r2[0]};
      SortingUnique(r1[1..], r2[1..], s - {r1[0]});
    }
  }

  /** The ascending enumeration of `s`: what sorting the keys returns. */
  ghost function Sorted(s: set<string>): (r: seq<string>)
    ensures SortingOf(r, s)
  {
    SortingExists(s);
    var r :| SortingOf(r, s);
    r
  }

  /** Sorts a key set into ascending order. The keys of a dictionary come in
      no specified order, so elements are taken from the set in any order. */
  method SortedKeys(s: set<string>) returns (r: seq<string>)
    ensures Ascending(r) && Elems(r) == s
    ensures r == Sorted(s)
  {
    r := [];
    var rest := s;
    while rest != {}
      invariant rest <= s
      invariant Ascending(r) && Elems(r) == s - rest
      decreases rest
    {
      var x :| x in rest;
      r := Insert(r, x);
      rest := rest - {x};
    }
    SortingUnique(r, Sorted(s), s);
  }

  /** Joining with a separator: the parts in order, with `sep` between
      each two neighbours and nowhere else. */
  function Join(parts: seq<string>, sep: string): string
  {
    if parts == [] then ""
    else if |parts| == 1 then parts[0]
    else parts[0] + sep + Join(parts[1..], sep)
  }

  /** Joining one more part appends the separator and that part. */
  lemma {:induction false} JoinSnoc(parts: seq<string>, p: string, sep: string)
    ensures Join(parts + [p], sep) == if parts == [] then p else Join(parts, sep) + sep + p
    decreases |parts|
  {
    if |parts| > 1 {
      assert (parts + [p])[1..] == parts[1..] + [p];
      JoinSnoc(parts[1..], p, sep);
    }
  }

  /** The joined text is as long as the parts together plus one separator
      between each two of them. */
  lemma {:induction false} JoinLength(parts: seq<string>, sep: string)
    requires parts != []
    ensures |Join(parts, sep)| == TotalLength(parts) + (|parts| - 1) * |sep|
    decreases |parts|
  {
    if |parts| > 1 {
      JoinLength(parts[1..], sep);
    }
  }

  function TotalLength(parts: seq<string>): nat
  {
    if parts == [] then 0 else |parts[0]| + TotalLength(parts[1..])
  }
}
