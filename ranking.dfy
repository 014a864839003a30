/**
 * Ranking of the weight table (dda_cli.py, `DraftEngine.sorted_hero_weights`):
 * `sorted(hero_weights.items(), key=itemgetter(1))`, a stable sort by weight, ascending.
 */
module Ranking {

  /** One item of `hero_weights`: a hero name and its integer weight. */
  type Entry = (string, int)

  /** Non-decreasing by weight. */
  ghost predicate SortedByWeight(s: seq<Entry>)
  {
    forall i, j :: 0 <= i < j < |s| ==> s[i].1 <= s[j].1
  }

  /** The entries of `s` whose weight is `w`, in the order they have in `s`. */
  function WithWeight(s: seq<Entry>, w: int): seq<Entry>
  {
    if s == [] then [] else (if s[0].1 == w then [s[0]] else []) + WithWeight(s[1..], w)
  }

  /** Stability: every class of equal weight appears in `r` in the order it has in `s`. */
  ghost predicate Stable(s: seq<Entry>, r: seq<Entry>)
  {
    forall w :: WithWeight(r, w) == WithWeight(s, w)
  }

  /** Inserts `e` before the first entry of weight at least its own. */
  function Insert(e: Entry, s: seq<Entry>): seq<Entry>
  {
    if s == [] || e.1 <= s[0].1 then [e] + s else [s[0]] + Insert(e, s[1..])
  }

  /** Stable insertion sort by weight, ascending. */
  function SortByWeight(s: seq<Entry>): seq<Entry>
  {
    if s == [] then [] else Insert(s[0], SortByWeight(s[1..]))
  }

  /** `WithWeight` unfolded once on a sequence with a known first entry. */
  lemma WithWeightCons(x: Entry, t: seq<Entry>, w: int)
    ensures WithWeight([x] + t, w) == (if x.1 == w then [x] else []) + WithWeight(t, w)
  {
    assert ([x] + t)[1..] == t;
  }

  lemma {:induction false} WithWeightOf(s: seq<Entry>, w: int)
    ensures forall x :: x in WithWeight(s, w) ==> x in s && x.1 == w
  {
    if s != [] {
      WithWeightOf(s[1..], w);
    }
  }

  lemma {:induction false} InsertPermutes(e: Entry, s: seq<Entry>)
    ensures multiset(Insert(e, s)) == multiset(s) + multiset{e}
  {
    if s != [] && e.1 > s[0].1 {
      InsertPermutes(e, s[1..]);
      assert s == [s[0]] + s[1..];
    }
  }

  /** An entry no heavier than the head of a sorted sequence can go in front of it. */
  lemma SortedCons(x: Entry, t: seq<Entry>)
    requires SortedByWeight(t)
    requires t == [] || x.1 <= t[0].1
    ensures SortedByWeight([x] + t)
  {
    var r := [x] + t;
    forall i, j | 0 <= i < j < |r| ensures r[i].1 <= r[j].1 {
      if i == 0 && j > 1 {
        assert r[j] == t[j - 1];
        assert t[0].1 <= t[j - 1].1;
      }
    }
  }

  lemma {:induction false} InsertSorted(e: Entry, s: seq<Entry>)
    requires SortedByWeight(s)
    ensures SortedByWeight(Insert(e, s))
  {
    if s == [] || e.1 <= s[0].1 {
      SortedCons(e, s);
    } else {
      var t := Insert(e, s[1..]);
      InsertSorted(e, s[1..]);
      assert t[0] == e || t[0] == s[1];
      SortedCons(s[0], t);
    }
  }

  lemma {:induction false} InsertStable(e: Entry, s: seq<Entry>, w: int)
    ensures WithWeight(Insert(e, s), w) == WithWeight([e] + s, w)
  {
    if s != [] && e.1 > s[0].1 {
      var t := Insert(e, s[1..]);
      var ce, cs := (if e.1 == w then [e] else []), (if s[0].1 == w then [s[0]] else []);
      calc {
        WithWeight(Insert(e, s), w);
        { WithWeightCons(s[0], t, w); }
        cs + WithWeight(t, w);
        { InsertStable(e, s[1..], w); WithWeightCons(e, s[1..], w); }
        cs + (ce + WithWeight(s[1..], w));
        { assert ce == [] || cs == []; }
        ce + (cs + WithWeight(s[1..], w));
        { WithWeightCons(s[0], s[1..], w); assert [s[0]] + s[1..] == s; }
        ce + WithWeight(s, w);
        { WithWeightCons(e, s, w); }
        WithWeight([e] + s, w);
      }
    }
  }

  /** The ranking holds exactly the entries of the table. */
  lemma {:induction false} SortPermutes(s: seq<Entry>)
    ensures multiset(SortByWeight(s)) == multiset(s)
  {
    if s != [] {
      SortPermutes(s[1..]);
      InsertPermutes(s[0], SortByWeight(s[1..]));
      assert s == [s[0]] + s[1..];
    }
  }

  /** The ranking is ordered by weight, lowest first. */
  lemma {:induction false} SortSorted(s: seq<Entry>)
    ensures SortedByWeight(SortByWeight(s))
  {
    if s != [] {
      SortSorted(s[1..]);
      InsertSorted(s[0], SortByWeight(s[1..]));
    }
  }

  /** Entries of equal weight keep the order they have in the table. */
  lemma {:induction false} SortStable(s: seq<Entry>)
    ensures Stable(s, SortByWeight(s))
  {
    if s != [] {
      SortStable(s[1..]);
      forall w ensures WithWeight(SortByWeight(s), w) == WithWeight(s, w) {
        var t := SortByWeight(s[1..]);
        InsertStable(s[0], t, w);
        WithWeightCons(s[0], t, w);
        WithWeightCons(s[0], s[1..], w);
        assert [s[0]] + s[1..] == s;
      }
    }
  }

  /**
   * A sorted and stable arrangement is unique: two sequences sorted by weight whose
   * classes of equal weight agree are equal.
   */
  lemma {:induction false} SortedStableUnique(a: seq<Entry>, b: seq<Entry>)
    requires SortedByWeight(a) && SortedByWeight(b)
    requires forall w :: WithWeight(a, w) == WithWeight(b, w)
    ensures a == b
    decreases |a|
  {
    var wa, wb := (if a == [] then 0 else a[0].1), (if b == [] then 0 else b[0].1);
    assert WithWeight(a, wa) == WithWeight(b, wa);
    assert WithWeight(a, wb) == WithWeight(b, wb);
    if a != [] && b != [] {
      var m, n := a[0].1, b[0].1;
      WithWeightOf(a, n);
      WithWeightOf(b, m);
      assert b[0] in WithWeight(a, n);
      assert a[0] in WithWeight(b, m);
      assert m == n;
      assert a[0] == b[0] by {
        assert WithWeight(a, m)[0] == a[0];
        assert WithWeight(b, m)[0] == b[0];
      }
      forall w ensures WithWeight(a[1..], w) == WithWeight(b[1..], w) {
        var c := if m == w then [a[0]] else [];
        assert WithWeight(a, w) == c + WithWeight(a[1..], w);
        assert WithWeight(b, w) == c + WithWeight(b[1..], w);
        assert WithWeight(a[1..], w) == (c + WithWeight(a[1..], w))[|c|..];
        assert WithWeight(b[1..], w) == (c + WithWeight(b[1..], w))[|c|..];
      }
      SortedStableUnique(a[1..], b[1..]);
      assert a == [a[0]] + a[1..];
      assert b == [b[0]] + b[1..];
    }
  }

  /**
   * Any stable sort by weight (Python's `sorted` is one) yields exactly the insertion sort's result.
   */
  lemma StableSortIsSortByWeight(s: seq<Entry>, r: seq<Entry>)
    requires SortedByWeight(r) && Stable(s, r)
    ensures r == SortByWeight(s)
  {
    SortSorted(s);
    SortStable(s);
    SortedStableUnique(r, SortByWeight(s));
  }

  /** No hero name occurs twice in a weight table (it models a Python dict). */
  ghost predicate DistinctNames(s: seq<Entry>)
  {
    forall i, j :: 0 <= i < j < |s| ==> s[i].0 != s[j].0
  }

  /** A name can go in front of a table with distinct names exactly when it is new. */
  lemma DistinctCons(x: Entry, t: seq<Entry>)
    ensures DistinctNames([x] + t) <==> DistinctNames(t) && forall y :: y in t ==> y.0 != x.0
  {
    var r := [x] + t;
    assert forall j :: 0 <= j < |t| ==> r[j + 1] == t[j];
    if DistinctNames(r) {
      forall y | y in t
        ensures y.0 != x.0
      {
        var j :| 0 <= j < |t| && t[j] == y;
        assert r[0].0 != r[j + 1].0;
      }
    }
  }

  /** Inserting an entry with a new name keeps the names distinct. */
  lemma {:induction false} InsertDistinct(e: Entry, s: seq<Entry>)
    requires DistinctNames(s)
    requires forall y :: y in s ==> y.0 != e.0
    ensures DistinctNames(Insert(e, s))
  {
    if s == [] || e.1 <= s[0].1 {
      DistinctCons(e, s);
    } else {
      assert s == [s[0]] + s[1..];
      DistinctCons(s[0], s[1..]);
      InsertDistinct(e, s[1..]);
      InsertPermutes(e, s[1..]);
      forall y | y in Insert(e, s[1..])
        ensures y.0 != s[0].0
      {
        assert y in multiset(s[1..]) + multiset{e};
      }
      DistinctCons(s[0], Insert(e, s[1..]));
    }
  }

  /** Ranking a table with distinct names gives distinct names. */
  lemma {:induction false} SortDistinct(s: seq<Entry>)
    requires DistinctNames(s)
    ensures DistinctNames(SortByWeight(s))
  {
    if s != [] {
      assert s == [s[0]] + s[1..];
      DistinctCons(s[0], s[1..]);
      SortDistinct(s[1..]);
      SortPermutes(s[1..]);
      forall y | y in SortByWeight(s[1..])
        ensures y.0 != s[0].0
      {
        assert y in multiset(s[1..]);
      }
      InsertDistinct(s[0], SortByWeight(s[1..]));
    }
  }
}
