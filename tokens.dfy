/**
 * Python's `str.split()` with no separator and `' '.join(...)`, as the command
 * dispatcher uses them. Whitespace is the ASCII set: space, tab, line feed,
 * carriage return, vertical tab and form feed.
 */
module Tokens {

  predicate IsSpace(c: char)
  {
    c == ' ' || c == '\t' || c == '\n' || c == '\r' || c == '\U{B}' || c == '\U{C}'
  }

  /** Nothing but whitespace (the empty string included). */
  predicate AllSpace(s: string)
  {
    forall i :: 0 <= i < |s| ==> IsSpace(s[i])
  }

  /** A token `split()` can produce: non-empty and free of whitespace. */
  predicate IsWord(t: string)
  {
    t != [] && forall i :: 0 <= i < |t| ==> !IsSpace(t[i])
  }

  /**
   * No whitespace at either end, and every whitespace character is a plain space
   * with a non-whitespace character on each side: the shape of `' '.join` of words.
   */
  predicate SingleSpaced(p: string)
  {
    forall i :: 0 <= i < |p| && IsSpace(p[i]) ==>
      p[i] == ' ' && 0 < i < |p| - 1 && !IsSpace(p[i - 1]) && !IsSpace(p[i + 1])
  }

  /** The length of the leading run of non-whitespace characters of `s`. */
  function WordLength(s: string): (n: nat)
    ensures n <= |s|
    ensures forall i :: 0 <= i < n ==> !IsSpace(s[i])
    ensures n == |s| || IsSpace(s[n])
  {
    if s != [] && !IsSpace(s[0]) then 1 + WordLength(s[1..]) else 0
  }

  /** `s.split()`: the maximal runs of non-whitespace characters, in order. */
  function Split(s: string): seq<string>
    decreases |s|
  {
    if s == [] then []
    else if IsSpace(s[0]) then Split(s[1..])
    else
      var n := WordLength(s);
      [s[..n]] + Split(s[n..])
  }

  /** `' '.join(ts)`. */
  function Join(ts: seq<string>): string
  {
    if ts == [] then "" else if |ts| == 1 then ts[0] else ts[0] + " " + Join(ts[1..])
  }

  /** Every token of a split is a word: non-empty and free of whitespace. */
  lemma {:induction false} SplitWords(s: string)
    ensures forall i :: 0 <= i < |Split(s)| ==> IsWord(Split(s)[i])
    decreases |s|
  {
    if s != [] {
      if IsSpace(s[0]) {
        SplitWords(s[1..]);
      } else {
        var n := WordLength(s);
        SplitWords(s[n..]);
        assert IsWord(s[..n]);
      }
    }
  }

  /** A line splits into no tokens exactly when it is empty or all whitespace. */
  lemma {:induction false} SplitEmpty(s: string)
    ensures Split(s) == [] <==> AllSpace(s)
    decreases |s|
  {
    if s != [] && IsSpace(s[0]) {
      SplitEmpty(s[1..]);
      assert AllSpace(s) <==> AllSpace(s[1..]) by {
        assert forall i :: 1 <= i < |s| ==> s[i] == s[1..][i - 1];
      }
    }
  }

  /** Leading whitespace does not change the split. */
  lemma {:induction false} SplitSpacePrefix(w: string, b: string)
    requires AllSpace(w)
    ensures Split(w + b) == Split(b)
    decreases |w|
  {
    if w != [] {
      assert (w + b)[1..] == w[1..] + b;
      SplitSpacePrefix(w[1..], b);
    } else {
      assert w + b == b;
    }
  }

  /** A word followed by whitespace or by nothing: its length is the whole word. */
  lemma {:induction false} WordLengthOfWord(t: string, b: string)
    requires forall i :: 0 <= i < |t| ==> !IsSpace(t[i])
    requires b == [] || IsSpace(b[0])
    ensures WordLength(t + b) == |t|
    decreases |t|
  {
    if t != [] {
      assert (t + b)[1..] == t[1..] + b;
      WordLengthOfWord(t[1..], b);
    } else {
      assert t + b == b;
    }
  }

  /** A word followed by whitespace or by nothing is the first token. */
  lemma SplitWordPrefix(t: string, b: string)
    requires IsWord(t)
    requires b == [] || IsSpace(b[0])
    ensures Split(t + b) == [t] + Split(b)
  {
    var x := t + b;
    assert x[0] == t[0];
    WordLengthOfWord(t, b);
    assert x[..|t|] == t;
    assert x[|t|..] == b;
  }

  /** A single word surrounded by whitespace splits to itself. */
  lemma SplitPaddedWord(w1: string, t: string, w2: string)
    requires AllSpace(w1) && AllSpace(w2) && IsWord(t)
    ensures Split(w1 + t + w2) == [t]
  {
    SplitSpacePrefix(w1, t + w2);
    assert w1 + t + w2 == w1 + (t + w2);
    if w2 == [] {
      assert t + w2 == t + "";
    } else {
      SplitEmpty(w2);
    }
    SplitWordPrefix(t, w2);
  }

  /** Splitting words joined with single spaces gives the words back. */
  lemma {:induction false} SplitJoin(ts: seq<string>)
    requires forall i :: 0 <= i < |ts| ==> IsWord(ts[i])
    ensures Split(Join(ts)) == ts
  {
    if |ts| == 1 {
      SplitWordPrefix(ts[0], "");
      assert ts[0] + "" == ts[0];
    } else if |ts| > 1 {
      var t, rest := ts[0], Join(ts[1..]);
      calc {
        Split(Join(ts));
        { assert Join(ts) == t + (" " + rest); }
        Split(t + (" " + rest));
        { SplitWordPrefix(t, " " + rest); }
        [t] + Split(" " + rest);
        { SplitSpacePrefix(" ", rest); }
        [t] + Split(rest);
        { SplitJoin(ts[1..]); }
        [t] + ts[1..];
        ts;
      }
    }
  }

  /** A run of whitespace separates: the split of `a + w + b` is the split of `a` followed by that of `b`. */
  lemma {:induction false} SplitConcat(a: string, w: string, b: string)
    requires w != [] && AllSpace(w)
    ensures Split(a + w + b) == Split(a) + Split(b)
    decreases |a|, 1
  {
    if a == [] {
      assert a + w + b == w + b;
      SplitSpacePrefix(w, b);
    } else if IsSpace(a[0]) {
      assert (a + w + b)[1..] == a[1..] + w + b;
      SplitConcat(a[1..], w, b);
    } else {
      SplitConcatWord(a, w, b);
    }
  }

  /** The case of `SplitConcat` where `a` starts with a word. */
  lemma {:induction false} SplitConcatWord(a: string, w: string, b: string)
    requires w != [] && AllSpace(w)
    requires a != [] && !IsSpace(a[0])
    ensures Split(a + w + b) == Split(a) + Split(b)
    decreases |a|, 0
  {
    var n := WordLength(a);
    var t, y := a[..n], a[n..] + w + b;
    assert IsWord(t);
    calc {
      Split(a + w + b);
      { assert a + w + b == t + y; }
      Split(t + y);
      { SplitWordPrefix(t, y); }
      [t] + Split(y);
      { SplitConcat(a[n..], w, b); }
      [t] + (Split(a[n..]) + Split(b));
      { SplitWordPrefix(t, a[n..]); assert t + a[n..] == a; }
      Split(a) + Split(b);
    }
  }

  /** Joining at least one word gives a string at least as long as the first word. */
  lemma JoinLength(ts: seq<string>)
    requires ts != []
    ensures |Join(ts)| >= |ts[0]| && Join(ts)[..|ts[0]|] == ts[0]
  {
    if |ts| > 1 {
      assert Join(ts) == ts[0] + (" " + Join(ts[1..]));
    }
  }

  /** `' '.join` of words is single-spaced. */
  lemma {:induction false} JoinSingleSpaced(ts: seq<string>)
    requires forall i :: 0 <= i < |ts| ==> IsWord(ts[i])
    ensures SingleSpaced(Join(ts))
  {
    if |ts| > 1 {
      var t, rest := ts[0], Join(ts[1..]);
      var p := Join(ts);
      JoinSingleSpaced(ts[1..]);
      JoinLength(ts[1..]);
      assert rest[0] == ts[1][0];
      assert p == t + " " + rest;
      forall i | 0 <= i < |p| && IsSpace(p[i])
        ensures p[i] == ' ' && 0 < i < |p| - 1 && !IsSpace(p[i - 1]) && !IsSpace(p[i + 1])
      {
        if i > |t| {
          var j := i - |t| - 1;
          assert p[i] == rest[j];
          assert 0 < j < |rest| - 1;
          assert p[i - 1] == rest[j - 1] && p[i + 1] == rest[j + 1];
        } else if i == |t| {
          assert p[i - 1] == t[|t| - 1] && p[i + 1] == rest[0];
        }
      }
    }
  }

  /** What follows the first space of a single-spaced string is single-spaced. */
  lemma SingleSpacedTail(p: string, n: nat)
    requires SingleSpaced(p)
    requires n < |p| && IsSpace(p[n])
    ensures n + 1 < |p| && !IsSpace(p[n + 1]) && SingleSpaced(p[n + 1..])
  {
    var rest := p[n + 1..];
    forall j | 0 <= j < |rest| && IsSpace(rest[j])
      ensures rest[j] == ' ' && 0 < j < |rest| - 1 && !IsSpace(rest[j - 1]) && !IsSpace(rest[j + 1])
    {
      assert rest[j] == p[j + n + 1];
      assert rest[j - 1] == p[j + n] && rest[j + 1] == p[j + n + 2];
    }
  }

  /** A word, then one space: the word is the first token and the rest is split on its own. */
  lemma SplitAfterWord(p: string, n: nat)
    requires n == WordLength(p) && n < |p| && p[n] == ' ' && !IsSpace(p[0])
    ensures Split(p) == [p[..n]] + Split(p[n + 1..])
  {
    var t, rest := p[..n], p[n + 1..];
    assert IsWord(t);
    assert p[n..] == " " + rest;
    assert p == t + p[n..];
    SplitWordPrefix(t, p[n..]);
    SplitSpacePrefix(" ", rest);
  }

  /** `' '.join` of a word followed by a non-empty list. */
  lemma JoinCons(t: string, ts: seq<string>)
    requires ts != []
    ensures Join([t] + ts) == t + " " + Join(ts)
  {
    assert ([t] + ts)[1..] == ts;
  }

  /** One step of `SingleSpacedJoinSplit`: a word, one space, then a string that is the join of its split. */
  lemma JoinSplitStep(p: string, n: nat)
    requires p != [] && !IsSpace(p[0])
    requires n == WordLength(p) && n < |p| && p[n] == ' '
    requires n + 1 < |p| && !IsSpace(p[n + 1])
    requires Join(Split(p[n + 1..])) == p[n + 1..]
    ensures Join(Split(p)) == p
  {
    var t, rest := p[..n], p[n + 1..];
    SplitAfterWord(p, n);
    SplitEmpty(rest);
    calc {
      Join(Split(p));
      Join([t] + Split(rest));
      { JoinCons(t, Split(rest)); }
      t + " " + Join(Split(rest));
      t + " " + rest;
      { assert p == p[..n] + [p[n]] + p[n + 1..]; }
      p;
    }
  }

  /** A single-spaced string is the `' '.join` of its own split: the converse of `SplitJoin`. */
  lemma {:induction false} SingleSpacedJoinSplit(p: string)
    requires SingleSpaced(p)
    ensures Join(Split(p)) == p
    decreases |p|
  {
    if p != [] {
      assert !IsSpace(p[0]);
      var n := WordLength(p);
      if n == |p| {
        assert IsWord(p);
        SplitWordPrefix(p, "");
        assert p + "" == p;
      } else {
        SingleSpacedTail(p, n);
        SingleSpacedJoinSplit(p[n + 1..]);
        JoinSplitStep(p, n);
      }
    }
  }
}
