/** The hero record of the catalog and its dictionary form (dda_cli.py, class `Hero`). */
module Heroes {
  import opened Wrappers

  /** A hero: its canonical name and its four lists of hero names. */
  datatype Hero = Hero(
    name: string,
    aliases: seq<string>,
    goodAgainst: seq<string>,
    badAgainst: seq<string>,
    worksWellWith: seq<string>)
  {
    /** `Hero.dict()`: the five fields under their Python keys, in declaration order. */
    function ToDict(): (d: HeroDict)
      ensures Keys(d) == FieldNames
    {
      [ (NameKey, Text(name)),
        (AliasesKey, Names(aliases)),
        (GoodAgainstKey, Names(goodAgainst)),
        (BadAgainstKey, Names(badAgainst)),
        (WorksWellWithKey, Names(worksWellWith)) ]
    }
  }

  /** A value of the dictionary: the name is a string, the other four are lists of strings. */
  datatype Value = Text(text: string) | Names(names: seq<string>)

  /** A Python dict with string keys, as its insertion-ordered list of items. */
  type HeroDict = seq<(string, Value)>

  const NameKey: string := "name"
  const AliasesKey: string := "aliases"
  const GoodAgainstKey: string := "good_against"
  const BadAgainstKey: string := "bad_against"
  const WorksWellWithKey: string := "works_well_with"

  /** The keys of `Hero.dict()`, in order. */
  const FieldNames: seq<string> := [NameKey, AliasesKey, GoodAgainstKey, BadAgainstKey, WorksWellWithKey]

  /** The keys of a dictionary, in insertion order. */
  function Keys(d: HeroDict): (ks: seq<string>)
    ensures |ks| == |d|
    ensures forall i :: 0 <= i < |d| ==> ks[i] == d[i].0
  {
    if d == [] then [] else [d[0].0] + Keys(d[1..])
  }

  /** `d[key]`: the value stored under the first occurrence of `key`, or None. */
  function Lookup(d: HeroDict, key: string): Option<Value>
  {
    if d == [] then None
    else if d[0].0 == key then Some(d[0].1)
    else Lookup(d[1..], key)
  }

  /** Entries whose key differs from `key` can be skipped when looking it up. */
  lemma {:induction false} LookupSkip(d: HeroDict, key: string, n: nat)
    requires n <= |d|
    requires forall i :: 0 <= i < n ==> d[i].0 != key
    ensures Lookup(d, key) == Lookup(d[n..], key)
  {
    if n > 0 {
      assert d[1..][n - 1..] == d[n..];
      LookupSkip(d[1..], key, n - 1);
    }
  }

  /** Reads a hero back from its dictionary form; None if a field is missing or of the wrong kind. */
  function FromDict(d: HeroDict): Option<Hero>
  {
    var n, a, g, b, w := Lookup(d, NameKey), Lookup(d, AliasesKey), Lookup(d, GoodAgainstKey),
                         Lookup(d, BadAgainstKey), Lookup(d, WorksWellWithKey);
    if n.Some? && n.value.Text? && a.Some? && a.value.Names? && g.Some? && g.value.Names?
       && b.Some? && b.value.Names? && w.Some? && w.value.Names?
    then Some(Hero(n.value.text, a.value.names, g.value.names, b.value.names, w.value.names))
    else None
  }

  /** The lookups `FromDict` makes, on the dictionary form of `h`. */
  lemma DictLookups(h: Hero)
    ensures Lookup(h.ToDict(), NameKey) == Some(Text(h.name))
    ensures Lookup(h.ToDict(), AliasesKey) == Some(Names(h.aliases))
    ensures Lookup(h.ToDict(), GoodAgainstKey) == Some(Names(h.goodAgainst))
    ensures Lookup(h.ToDict(), BadAgainstKey) == Some(Names(h.badAgainst))
    ensures Lookup(h.ToDict(), WorksWellWithKey) == Some(Names(h.worksWellWith))
  {
    var d := h.ToDict();
    assert Lookup(d, AliasesKey) == Some(Names(h.aliases)) by {
      LookupSkip(d, AliasesKey, 1);
    }
    assert Lookup(d, GoodAgainstKey) == Some(Names(h.goodAgainst)) by {
      LookupSkip(d, GoodAgainstKey, 2);
    }
    assert Lookup(d, BadAgainstKey) == Some(Names(h.badAgainst)) by {
      LookupSkip(d, BadAgainstKey, 3);
    }
    assert Lookup(d, WorksWellWithKey) == Some(Names(h.worksWellWith)) by {
      LookupSkip(d, WorksWellWithKey, 4);
    }
  }

  /** The dictionary form holds exactly the values given to the constructor: reading it back yields the same hero. */
  lemma DictRoundTrip(h: Hero)
    ensures FromDict(h.ToDict()) == Some(h)
  {
    DictLookups(h);
  }
}
