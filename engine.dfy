/** The draft engine (dda_cli.py, class `DraftEngine`). */
module Engine {
  import opened Wrappers
  import opened Heroes
  import opened Ranking

  /** The `KeyError` that a dictionary lookup raises, with the missing key. */
  datatype KeyError = KeyError(key: string)

  class DraftEngine {
    var heroData: map<string, Hero>
    var heroAliasMap: map<string, string>
    /** `hero_weights` in insertion order, which decides the order of ties in the ranking. */
    var heroWeights: seq<Entry>
    var allyPicks: seq<string>
    var enemyPicks: seq<string>

    /** The weight table is a dictionary: its keys are distinct. */
    ghost predicate Valid()
      reads this
    {
      DistinctNames(heroWeights)
    }

    /** The draft state that `reset` leaves behind. */
    ghost predicate IsReset()
      reads this
    {
      allyPicks == [] && enemyPicks == [] && heroWeights == []
    }

    /**
     * `DraftEngine(hero_data)`: the argument is not read; the catalog and the alias
     * map start, and stay, empty, and the draft state is the reset one.
     */
    constructor (heroDataSource: seq<Hero>)
      ensures Valid() && IsReset()
      ensures heroData == map[] && heroAliasMap == map[]
    {
      heroData := map[];
      heroAliasMap := map[];
      new;
      Reset();
    }

    /** `reset()`: both pick lists and the weight table become empty; the catalog is kept. */
    method Reset()
      modifies this
      ensures Valid() && IsReset()
      ensures heroData == old(heroData) && heroAliasMap == old(heroAliasMap)
    {
      allyPicks := [];
      enemyPicks := [];
      heroWeights := [];
    }

    /** `resolve_hero_name`: an unimplemented stub, it resolves nothing. */
    method ResolveHeroName(alias: string) returns (r: Option<string>)
      ensures r == None
    {
      r := None;
    }

    /** `ally_hero_pick`: an unimplemented stub; it returns 0 and, having no frame, changes nothing. */
    method AllyHeroPick(heroPick: string) returns (r: int)
      ensures r == 0
    {
      r := 0;
    }

    /** `enemy_hero_pick`: an unimplemented stub; it returns 0 and, having no frame, changes nothing. */
    method EnemyHeroPick(heroPick: string) returns (r: int)
      ensures r == 0
    {
      r := 0;
    }

    /**
     * `hero_info(hero)`: the dictionary form of the catalog entry under exactly that
     * name, or the `KeyError` that `hero_data[hero]` raises when there is none.
     */
    function HeroInfo(hero: string): (r: Result<HeroDict, KeyError>)
      reads this
      ensures r.Ok? <==> hero in heroData
      ensures r.Ok? ==> Keys(r.value) == FieldNames && FromDict(r.value) == Some(heroData[hero])
      ensures r.Err? ==> r.error == KeyError(hero)
    {
      if hero in heroData then
        DictRoundTrip(heroData[hero]);
        Ok(heroData[hero].ToDict())
      else
        Err(KeyError(hero))
    }

    /**
     * `sorted_hero_weights()`: the items of the weight table ordered by weight, lowest
     * first, ties in insertion order; as a function it leaves the table as it is.
     */
    function SortedHeroWeights(): (r: seq<Entry>)
      reads this
      ensures SortedByWeight(r)
      ensures multiset(r) == multiset(heroWeights)
      ensures Stable(heroWeights, r)
      ensures Valid() ==> DistinctNames(r)
    {
      assert Valid() ==> DistinctNames(SortByWeight(heroWeights)) by {
        if Valid() {
          SortDistinct(heroWeights);
        }
      }
      SortSorted(heroWeights);
      SortPermutes(heroWeights);
      SortStable(heroWeights);
      SortByWeight(heroWeights)
    }
  }
}
