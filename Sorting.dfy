/** The two orderings the parser applies to its accumulators before it returns them:
    `days_list.sort()` on integers, and `sorted(list(set(labels)))` on strings. Both are
    Python built-ins; they are modelled by insertion into an ordered sequence, and the
    uniqueness lemmas show that any correct sort gives the same sequence. */
module Sorting {
  import opened PyText

  // ---------------------------------------------------------------- days: sort, keep duplicates

  predicate Ascending(s: seq<int>)
  {
    forall i, j :: 0 <= i < j < |s| ==> s[i] <= s[j]
  }

  function InsertInt(x: int, s: seq<int>): seq<int>
  {
    if s == [] || x <= s[0] then [x] + s else [s[0]] + InsertInt(x, s[1..])
  }

  /** `list.sort()` on a list of integers. */
  function SortInts(s: seq<int>): seq<int>
  {
    if s == [] then [] else InsertInt(s[0], SortInts(s[1..]))
  }

  lemma {:induction false} InsertIntCounts(x: int, s: seq<int>)
    ensures multiset(InsertInt(x, s)) == multiset(s) + multiset{x}
  {
    if s != [] && x > s[0] {
      InsertIntCounts(x, s[1..]);
      assert s == [s[0]] + s[1..];
    }
  }

  lemma {:induction false} InsertIntAbove(x: int, s: seq<int>, b: int)
    requires b <= x && forall k :: 0 <= k < |s| ==> b <= s[k]
    ensures forall k :: 0 <= k < |InsertInt(x, s)| ==> b <= InsertInt(x, s)[k]
  {
    if s != [] && x > s[0] {
      InsertIntAbove(x, s[1..], b);
    }
  }

  lemma {:induction false} InsertIntKeepsOrder(x: int, s: seq<int>)
    requires Ascending(s)
    ensures Ascending(InsertInt(x, s))
  {
    if s == [] || x <= s[0] {
      var r := [x] + s;
      forall i, j | 0 <= i < j < |r| ensures r[i] <= r[j] {
        if i > 0 { assert r[i] == s[i - 1] && r[j] == s[j - 1]; }
      }
    } else {
      var t := InsertInt(x, s[1..]);
      InsertIntKeepsOrder(x, s[1..]);
      InsertIntAbove(x, s[1..], s[0]);
      var r := [s[0]] + t;
      forall i, j | 0 <= i < j < |r| ensures r[i] <= r[j] {
        if i > 0 { assert r[i] == t[i - 1] && r[j] == t[j - 1]; }
      }
    }
  }

  /** The sorted days are in ascending order and are the same days, duplicates included. */
  lemma {:induction false} SortIntsCorrect(s: seq<int>)
    ensures Ascending(SortInts(s))
    ensures multiset(SortInts(s)) == multiset(s)
  {
    if s != [] {
      SortIntsCorrect(s[1..]);
      InsertIntKeepsOrder(s[0], SortInts(s[1..]));
      InsertIntCounts(s[0], SortInts(s[1..]));
      assert s == [s[0]] + s[1..];
    }
  }

  /** Only one ascending arrangement of a multiset of integers exists, so any sort
      routine returns `SortInts`. */
  lemma {:induction false} AscendingUnique(a: seq<int>, b: seq<int>)
    requires Ascending(a) && Ascending(b)
    requires multiset(a) == multiset(b)
    ensures a == b
    decreases |a|
  {
    assert |a| == |multiset(a)| == |multiset(b)| == |b|;
    if a != [] {
      assert a[0] == b[0] by {
        assert a[0] in multiset(b) && b[0] in multiset(a);
        assert a[0] in b && b[0] in a;
      }
      assert a == [a[0]] + a[1..] && b == [b[0]] + b[1..];
      assert multiset(a[1..]) == multiset(b[1..]) by {
        assert multiset(a) == multiset{a[0]} + multiset(a[1..]);
        assert multiset(b) == multiset{a[0]} + multiset(b[1..]);
        forall y ensures multiset(a[1..])[y] == multiset(b[1..])[y] {
          assert multiset(a)[y] == multiset(b)[y];
        }
      }
      AscendingUnique(a[1..], b[1..]);
    }
  }

  // ---------------------------------------------------------------- labels: distinct and sorted

  predicate StrictlyAscending(s: seq<string>)
  {
    forall i, j :: 0 <= i < j < |s| ==> Below(s[i], s[j])
  }

  function Elements(s: seq<string>): set<string>
  {
    set x | x in s
  }

  lemma ElementsCons(a: string, t: seq<string>)
    ensures Elements([a] + t) == {a} + Elements(t)
  {
    assert forall y :: y in [a] + t <==> y == a || y in t;
  }

  lemma ElementsEmpty(b: seq<string>)
    ensures Elements(b) == {} ==> b == []
  {
    if b != [] { assert b[0] in Elements(b); }
  }

  function InsertDistinct(x: string, s: seq<string>): seq<string>
  {
    if s == [] then [x]
    else if x == s[0] then s
    else if Below(x, s[0]) then [x] + s
    else [s[0]] + InsertDistinct(x, s[1..])
  }

  /** `sorted(set(s))`: the distinct strings of `s` in ascending order. */
  function SortDistinct(s: seq<string>): seq<string>
  {
    if s == [] then [] else InsertDistinct(s[0], SortDistinct(s[1..]))
  }

  lemma {:induction false} InsertDistinctElements(x: string, s: seq<string>)
    ensures Elements(InsertDistinct(x, s)) == Elements(s) + {x}
  {
    if s == [] {
      assert [x] == [x] + s;
      ElementsCons(x, s);
    } else if x == s[0] {
      assert x in Elements(s);
    } else if Below(x, s[0]) {
      ElementsCons(x, s);
    } else {
      InsertDistinctElements(x, s[1..]);
      ElementsCons(s[0], s[1..]);
      ElementsCons(s[0], InsertDistinct(x, s[1..]));
      assert s == [s[0]] + s[1..];
    }
  }

  lemma {:induction false} InsertDistinctKeepsOrder(x: string, s: seq<string>)
    requires StrictlyAscending(s)
    ensures StrictlyAscending(InsertDistinct(x, s))
  {
    if s == [] {
    } else if x == s[0] {
    } else if Below(x, s[0]) {
      var r := [x] + s;
      forall i, j | 0 <= i < j < |r| ensures Below(r[i], r[j]) {
        if i == 0 && j > 1 { BelowTransitive(x, s[0], s[j - 1]); }
      }
    } else {
      BelowTotal(x, s[0]);
      assert StrictlyAscending(s[1..]);
      InsertDistinctKeepsOrder(x, s[1..]);
      InsertDistinctElements(x, s[1..]);
      var t := InsertDistinct(x, s[1..]);
      forall k | 0 <= k < |t| ensures Below(s[0], t[k]) {
        assert t[k] in Elements(t);
        if t[k] != x {
          var m :| 0 <= m < |s[1..]| && s[1..][m] == t[k];
          assert s[m + 1] == t[k];
        }
      }
      var r := [s[0]] + t;
      forall i, j | 0 <= i < j < |r| ensures Below(r[i], r[j]) {
        if i == 0 { assert r[j] == t[j - 1]; } else { assert r[i] == t[i - 1] && r[j] == t[j - 1]; }
      }
      assert InsertDistinct(x, s) == r;
    }
  }

  /** The sorted labels are strictly ascending (so free of duplicates) and are exactly the
      labels that were collected. */
  lemma {:induction false} SortDistinctCorrect(s: seq<string>)
    ensures StrictlyAscending(SortDistinct(s))
    ensures Elements(SortDistinct(s)) == Elements(s)
  {
    if s != [] {
      SortDistinctCorrect(s[1..]);
      InsertDistinctKeepsOrder(s[0], SortDistinct(s[1..]));
      InsertDistinctElements(s[0], SortDistinct(s[1..]));
      assert s == [s[0]] + s[1..];
    }
  }

  /** Only one strictly ascending sequence holds a given set of strings, so the order in
      which Python's `set` hands out the labels does not change the sorted result. */
  lemma {:induction false} StrictlyAscendingUnique(a: seq<string>, b: seq<string>)
    requires StrictlyAscending(a) && StrictlyAscending(b)
    requires Elements(a) == Elements(b)
    ensures a == b
    decreases |a|
  {
    if a != [] {
      assert a[0] in Elements(b);
      assert b[0] in Elements(a);
      var i :| 0 <= i < |b| && b[i] == a[0];
      var j :| 0 <= j < |a| && a[j] == b[0];
      if a[0] != b[0] {
        assert i > 0 && j > 0;
        BelowAsymmetric(b[0], a[0]);
        assert false;
      }
      forall x | x in Elements(a[1..]) ensures x in Elements(b[1..]) {
        var m :| 0 <= m < |a[1..]| && a[1..][m] == x;
        BelowIrreflexive(x);
        assert x in Elements(b) && x != b[0];
      }
      forall x | x in Elements(b[1..]) ensures x in Elements(a[1..]) {
        var m :| 0 <= m < |b[1..]| && b[1..][m] == x;
        BelowIrreflexive(x);
        assert x in Elements(a) && x != a[0];
      }
      StrictlyAscendingUnique(a[1..], b[1..]);
      assert a == [a[0]] + a[1..] && b == [b[0]] + b[1..];
    } else {
      ElementsEmpty(b);
    }
  }
}
