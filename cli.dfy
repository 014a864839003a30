/**
 * The command dispatcher (dda_cli.py, `DraftCLI.process_command`): a line is split
 * into a command and an argument, the command picks an action from a fixed table,
 * and the result says whether the prompt loop goes on.
 */
module Cli {
  import opened Wrappers
  import opened Heroes
  import opened Tokens
  import opened Engine

  const HelpCommands: set<string> := {"h", "help"}
  const QuitCommands: set<string> := {"q", "quit"}
  const ResetCommands: set<string> := {"r", "reset"}
  const AllyCommands: set<string> := {"a", "ally"}
  const EnemyCommands: set<string> := {"e", "enemy"}
  const InfoCommands: set<string> := {"i", "info"}
  /** The commands that take a hero argument. */
  const HeroCommands: set<string> := AllyCommands + EnemyCommands + InfoCommands
  /** Every command the table recognises; `b`/`ban` and `s`/`status` are not among them. */
  const KnownCommands: set<string> := HelpCommands + QuitCommands + ResetCommands + HeroCommands

  /** What a line makes `process_command` do, printed text aside. */
  datatype Action =
    | Blank                   // empty or whitespace-only line: nothing at all
    | Help                    // the help text
    | Quit                    // 'Quitting'
    | Reset                   // `reset()` on the engine
    | AllyPick(hero: string)  // `ally_hero_pick(hero)`
    | EnemyPick(hero: string) // `enemy_hero_pick(hero)`
    | Info(hero: string)      // `print(hero_info(hero))`
    | ArgumentRequired        // 'Hero argument required' and the help text
    | Invalid                 // 'Invalid command' and the help text

  /** The action chosen and whether the prompt loop continues. */
  datatype Decision = Decision(continues: bool, action: Action)

  /**
   * The command (first token) and the argument (the other tokens joined by single
   * spaces, or empty); None for a line without tokens.
   */
  function Tokenize(line: string): (r: Option<(string, string)>)
    ensures r.None? <==> AllSpace(line)
    ensures r.Some? ==> IsWord(r.value.0) && [r.value.0] + Split(r.value.1) == Split(line)
    ensures r.Some? ==> (r.value.1 == "" <==> |Split(line)| == 1)
    ensures r.Some? ==> r.value.1 == Join(Split(line)[1..])
  {
    var ts := Split(line);
    SplitEmpty(line);
    SplitWords(line);
    if ts == [] then None
    else
      var params := if |ts| > 1 then Join(ts[1..]) else "";
      SplitJoin(ts[1..]);
      assert ts == [ts[0]] + ts[1..];
      Some((ts[0], params))
  }

  /** The if/elif table of `process_command` on a command and its argument. */
  function Decide(command: string, params: string): Decision
  {
    if command in HelpCommands then Decision(true, Help)
    else if command in QuitCommands then Decision(false, Quit)
    else if command in ResetCommands then Decision(true, Reset)
    else if command in AllyCommands then Decision(true, if params != "" then AllyPick(params) else ArgumentRequired)
    else if command in EnemyCommands then Decision(true, if params != "" then EnemyPick(params) else ArgumentRequired)
    else if command in InfoCommands then Decision(true, if params != "" then Info(params) else ArgumentRequired)
    else Decision(true, Invalid)
  }

  /** `process_command(cmd)` as a decision: the action and the value it returns. */
  function Dispatch(line: string): (d: Decision)
    ensures d.action == Blank <==> AllSpace(line)
    ensures !d.continues <==> Split(line) != [] && Split(line)[0] in QuitCommands
    ensures d.action == Help <==> Split(line) != [] && Split(line)[0] in HelpCommands
    ensures d.action == Reset <==> Split(line) != [] && Split(line)[0] in ResetCommands
    ensures d.action == Invalid <==> Split(line) != [] && Split(line)[0] !in KnownCommands
    ensures d.action == ArgumentRequired <==> |Split(line)| == 1 && Split(line)[0] in HeroCommands
    ensures d.action.AllyPick? <==> |Split(line)| > 1 && Split(line)[0] in AllyCommands
    ensures d.action.EnemyPick? <==> |Split(line)| > 1 && Split(line)[0] in EnemyCommands
    ensures d.action.Info? <==> |Split(line)| > 1 && Split(line)[0] in InfoCommands
    ensures (d.action.AllyPick? || d.action.EnemyPick? || d.action.Info?) ==>
              d.action.hero != "" && Split(d.action.hero) == Split(line)[1..] &&
              d.action.hero == Join(Split(line)[1..])
  {
    match Tokenize(line)
    case None => Decision(true, Blank)
    case Some((command, params)) => Decide(command, params)
  }

  /**
   * The hero argument is single-spaced, so it is determined by its tokens: it equals
   * the `' '.join` of its own split.
   */
  lemma DispatchArgumentShape(line: string)
    requires Dispatch(line).action.AllyPick? || Dispatch(line).action.EnemyPick? || Dispatch(line).action.Info?
    ensures SingleSpaced(Dispatch(line).action.hero)
    ensures Join(Split(Dispatch(line).action.hero)) == Dispatch(line).action.hero
  {
    var hero := Dispatch(line).action.hero;
    SplitWords(line);
    JoinSingleSpaced(Split(line)[1..]);
    SingleSpacedJoinSplit(hero);
  }

  /** A blank line: no engine call, the loop goes on. */
  lemma ExampleBlank()
    ensures Dispatch(" \t ") == Decision(true, Blank)
  {
  }

  /** The line `"  a  anti   mage "`, written so that each run of whitespace is its own piece. */
  const AllyLine: string := "  a" + "  " + "anti" + "   " + "mage" + " "

  /** `split()` drops leading and trailing whitespace and breaks at every run of it. */
  lemma ExampleSplit()
    ensures Split(AllyLine) == ["a", "anti", "mage"]
  {
    var tail := "anti" + "   " + ("mage" + " ");
    assert Split(tail) == ["anti", "mage"] by {
      SplitPaddedWord("", "anti", "");
      SplitPaddedWord("", "mage", " ");
      assert "" + "anti" + "" == "anti";
      assert "" + "mage" + " " == "mage" + " ";
      SplitConcat("anti", "   ", "mage" + " ");
    }
    SplitPaddedWord("  ", "a", "");
    assert "  " + "a" + "" == "  a";
    SplitConcat("  a", "  ", tail);
    assert AllyLine == "  a" + "  " + tail;
  }

  /** The argument is the remaining tokens joined by single spaces. */
  lemma ExampleAlly()
    ensures Dispatch(AllyLine) == Decision(true, AllyPick("anti mage"))
  {
    ExampleSplit();
    assert Split(AllyLine)[1..] == ["anti", "mage"];
    assert Join(["anti", "mage"]) == "anti mage";
  }

  /** `quit` ends the loop whatever follows it. */
  lemma ExampleQuit()
    ensures Dispatch("quit now") == Decision(false, Quit)
  {
    assert "quit now" == Join(["quit", "now"]);
    SplitJoin(["quit", "now"]);
  }

  /** A hero command without an argument calls nothing. */
  lemma ExampleMissingArgument()
    ensures Dispatch("e") == Decision(true, ArgumentRequired)
  {
    assert "e" == Join(["e"]);
    SplitJoin(["e"]);
  }

  /** `b` (ban) is not a command of this program. */
  lemma ExampleBan()
    ensures Dispatch("b" + " " + "pudge") == Decision(true, Invalid)
  {
    var line := "b" + " " + "pudge";
    assert Split(line) == ["b", "pudge"] by {
      assert line == Join(["b", "pudge"]);
      SplitJoin(["b", "pudge"]);
    }
    assert "b" !in KnownCommands;
  }

  /** Nor is `status`. */
  lemma ExampleStatus()
    ensures Dispatch("status") == Decision(true, Invalid)
  {
    assert Split("status") == ["status"] by {
      assert "status" == Join(["status"]);
      SplitJoin(["status"]);
    }
    assert "status" !in KnownCommands;
  }

  /** The command line interface (dda_cli.py, class `DraftCLI`). */
  class DraftCli {
    const draftEngine: DraftEngine

    /** `DraftCLI(hero_data)`: a new engine, built from the (unread) hero data. */
    constructor (heroData: seq<Hero>)
      ensures fresh(draftEngine)
      ensures draftEngine.Valid() && draftEngine.IsReset()
      ensures draftEngine.heroData == map[] && draftEngine.heroAliasMap == map[]
    {
      draftEngine := new DraftEngine(heroData);
    }

    /**
     * `process_command(cmd)`: carries out the action `Dispatch` chooses. The result is
     * whether to keep prompting, or the `KeyError` that an info query for a hero missing
     * from the catalog raises out of the method. Only a reset changes the engine.
     */
    method ProcessCommand(cmd: string) returns (r: Result<bool, KeyError>)
      requires draftEngine.Valid()
      modifies draftEngine
      ensures draftEngine.Valid()
      ensures r.Err? <==> Dispatch(cmd).action.Info? && Dispatch(cmd).action.hero !in old(draftEngine.heroData)
      ensures r.Err? ==> r.error == KeyError(Dispatch(cmd).action.hero)
      ensures r.Ok? ==> r.value == Dispatch(cmd).continues
      ensures Dispatch(cmd).action == Reset ==>
                draftEngine.IsReset() &&
                draftEngine.heroData == old(draftEngine.heroData) &&
                draftEngine.heroAliasMap == old(draftEngine.heroAliasMap)
      ensures Dispatch(cmd).action != Reset ==> unchanged(draftEngine)
    {
      var d := Dispatch(cmd);
      r := Ok(d.continues);
      match d.action
      case Reset =>
        draftEngine.Reset();
      case AllyPick(hero) =>
        var _ := draftEngine.AllyHeroPick(hero);
      case EnemyPick(hero) =>
        var _ := draftEngine.EnemyHeroPick(hero);
      case Info(hero) =>
        var info := draftEngine.HeroInfo(hero);
        if info.Err? {
          r := Err(info.error);
        }
      case _ =>
    }
  }

  /**
   * As written, the engine never loads its catalog, so an info query with an argument
   * on a freshly built interface always ends in a `KeyError`.
   */
  method InfoOnFreshCli(heroData: seq<Hero>, line: string) returns (r: Result<bool, KeyError>)
    requires Dispatch(line).action.Info?
    ensures r == Err(KeyError(Dispatch(line).action.hero))
  {
    var cli := new DraftCli(heroData);
    r := cli.ProcessCommand(line);
  }
}
