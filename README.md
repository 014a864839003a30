# Dota 2 draft assistant: the draft engine and command dispatcher

A model of `dda_cli.py`, the command-line draft assistant for Dota 2. It covers what the
file implements today:

- the `Hero` record and its dictionary form;
- the `DraftEngine`, with its state fields (`hero_data`, `hero_alias_map`, `hero_weights`,
  `ally_picks`, `enemy_picks`), `reset`, the hero-info lookup, the ranking of the weight
  table and the stub operations;
- the line tokenizer and the command table of `DraftCLI.process_command`.

Most of the engine is unfinished in the source, and the model describes the code as it is
written:

- `DraftEngine.__init__` ignores its argument, so the catalog and the alias map stay empty.
- `resolve_hero_name` returns `None`.
- `ally_hero_pick` and `enemy_hero_pick` return `0` and change nothing.
- There is no ban, no status command, no pick cap and no weight update.
- `reset` empties the weight table. It does not set every hero to weight 0.
- The ranking is `sorted(..., key=itemgetter(1))` with no `reverse`, so the lowest weight
  comes first. The model follows the code.

Files and modules:

- `wrappers.dfy` (`Wrappers`): `Option` and `Result`.
- `hero.dfy` (`Heroes`): the `Hero` datatype, `ToDict` (`Hero.dict()`) as an
  insertion-ordered list of key/value items, and its inverse `FromDict`.
- `ranking.dfy` (`Ranking`): a stable insertion sort by weight. It is proved sorted, a
  permutation of its input, and stable. A uniqueness lemma shows that every stable ascending
  sort gives the same result, so the model agrees with Python's `sorted`.
- `engine.dfy` (`Engine`): class `DraftEngine`. `hero_weights` is a `seq` of
  `(name, weight)` pairs with distinct names (the class invariant `Valid`), because the order
  of ties in the ranking depends on the dictionary's insertion order.
- `tokens.dfy` (`Tokens`): `str.split()` with no separator, and `' '.join`.
- `cli.dfy` (`Cli`): the pure decision `Dispatch` (line to "continue?" and an action tag),
  and class `DraftCli`, whose `ProcessCommand` method applies the action to the engine.

Whitespace is a fixed ASCII set: space, tab, line feed, carriage return, vertical tab and
form feed. The separators `\x1c` to `\x1f`, which Python's `str.split()` also treats as
whitespace, are not in it. An exception that escapes `process_command` is modelled as a `Result` error. The
only one that can happen is the `KeyError` from `hero_info`.

## Model

| member | source | states |
|---|---|---|
| Heroes.Hero.ToDict | dda_cli.py:43-51 | the dictionary has exactly the keys name, aliases, good_against, bad_against, works_well_with, in that order |
| Heroes.DictLookups | dda_cli.py:45-51 | each of the five keys maps to the field of that name that was given to the constructor |
| Heroes.DictRoundTrip | dda_cli.py:35-51 | reading the five fields back from `dict()` gives exactly the hero that was constructed |
| Engine.DraftEngine.constructor | dda_cli.py:63-67 | the hero-data argument is not read; `hero_data` and `hero_alias_map` are empty and the draft state is the reset one |
| Engine.DraftEngine.Reset | dda_cli.py:69-72 | both pick lists and the weight table become empty, the invariant holds, and `hero_data` and `hero_alias_map` are unchanged |
| Engine.DraftEngine.ResolveHeroName | dda_cli.py:74-75 | the stub resolves no alias: it always returns None |
| Engine.DraftEngine.AllyHeroPick | dda_cli.py:77-79 | returns 0; it has no frame, so no engine field changes |
| Engine.DraftEngine.EnemyHeroPick | dda_cli.py:81-83 | returns 0; it has no frame, so no engine field changes |
| Engine.DraftEngine.HeroInfo | dda_cli.py:85-87 | it succeeds exactly when the name is a key of `hero_data`, and then returns a five-key dictionary that reads back as that hero; otherwise it is the KeyError carrying that name |
| Engine.DraftEngine.SortedHeroWeights | dda_cli.py:89-93 | the result is non-decreasing by weight, a permutation of the weight table, and keeps equal-weight entries in table order; when the table's names are distinct, so are the ranking's; the table is not changed |
| Ranking.SortSorted | dda_cli.py:91-92 | the sorted sequence is non-decreasing by weight |
| Ranking.SortPermutes | dda_cli.py:91-92 | the sorted sequence has the same multiset of entries as the input |
| Ranking.SortStable | dda_cli.py:91-92 | for every weight, the entries of that weight appear in the output in their input order |
| Ranking.InsertSorted | dda_cli.py:91-92 | inserting into a sorted sequence keeps it sorted |
| Ranking.InsertPermutes | dda_cli.py:91-92 | inserting adds exactly the inserted entry to the multiset |
| Ranking.InsertStable | dda_cli.py:91-92 | an inserted entry goes before every entry of equal weight, so each weight class is the input's with the entry in front |
| Ranking.DistinctCons | dda_cli.py:91-92 | an entry can go in front of a table with distinct names, keeping them distinct, exactly when its name is new |
| Ranking.InsertDistinct | dda_cli.py:91-92 | inserting an entry with a new name keeps the names distinct |
| Ranking.SortDistinct | dda_cli.py:91-92 | ranking a table whose names are distinct gives a ranking whose names are distinct |
| Ranking.SortedStableUnique | dda_cli.py:91-92 | two sequences that are sorted by weight and agree on every weight class are equal |
| Ranking.StableSortIsSortByWeight | dda_cli.py:91-92 | any sorted, stable arrangement of the table, such as Python's `sorted` result, equals the model's sort |
| Tokens.SplitWords | dda_cli.py:119 | every token of `split()` is non-empty and contains no whitespace |
| Tokens.SplitEmpty | dda_cli.py:119-121 | a line has no tokens if and only if it is empty or all whitespace |
| Tokens.SplitSpacePrefix | dda_cli.py:119 | leading whitespace does not change the tokens |
| Tokens.SplitWordPrefix | dda_cli.py:119 | a word followed by whitespace or by the end of the line is the first token |
| Tokens.SplitPaddedWord | dda_cli.py:119 | one word with whitespace around it splits into just that word |
| Tokens.SplitConcat | dda_cli.py:119 | a non-empty run of whitespace separates: the tokens of `a + w + b` are those of `a` followed by those of `b` |
| Tokens.SplitJoin | dda_cli.py:119-127 | splitting words joined by single spaces gives the same words back |
| Tokens.JoinSingleSpaced | dda_cli.py:125 | joining words with `' '` gives a string whose only whitespace is single spaces between two non-whitespace characters |
| Tokens.SingleSpacedJoinSplit | dda_cli.py:119-127 | a string whose only whitespace is such single spaces is rebuilt exactly by splitting it and joining the tokens with `' '` |
| Cli.Tokenize | dda_cli.py:119-127 | no command exactly for a blank line; otherwise the command is a word, and the command followed by the tokens of the argument are the line's tokens; the argument is exactly the line's remaining tokens joined by single spaces, and it is empty exactly when the line has one token |
| Cli.Dispatch | dda_cli.py:114-159 | returns False exactly for `q`/`quit`; the blank action exactly for a blank line; reset exactly for `r`/`reset`; help exactly for `h`/`help`; "Invalid command" exactly for a first token outside the table (so `b`, `ban`, `s`, `status` are invalid); the engine is called for `a`/`e`/`i` exactly when there is an argument, and that argument is the line's remaining tokens joined by single spaces; "Hero argument required" exactly when there is none |
| Cli.DispatchArgumentShape | dda_cli.py:123-127 | the hero argument passed to the engine has only single spaces between words and is unchanged by one more split-and-join |
| Cli.ExampleBlank | dda_cli.py:119-121 | a line of spaces and a tab continues the loop and does nothing |
| Cli.ExampleSplit | dda_cli.py:119 | `"  a  anti   mage "` splits into `a`, `anti`, `mage` |
| Cli.ExampleAlly | dda_cli.py:123-139 | that line becomes an ally pick with the argument `"anti mage"` |
| Cli.ExampleQuit | dda_cli.py:131-133 | `quit now` stops the loop |
| Cli.ExampleMissingArgument | dda_cli.py:143-148 | `e` with no argument gives "Hero argument required" and calls no engine operation |
| Cli.ExampleBan | dda_cli.py:155-157 | `b pudge` is an invalid command |
| Cli.ExampleStatus | dda_cli.py:155-157 | `status` is an invalid command |
| Cli.DraftCli.constructor | dda_cli.py:102-104 | builds a new engine in its initial state |
| Cli.DraftCli.ProcessCommand | dda_cli.py:114-159 | returns the continue flag that `Dispatch` gives, or the KeyError when an info query names a hero missing from `hero_data`; after a reset the engine is in the reset state with the same catalog; for every other action the engine is unchanged; the invariant is kept |
| Cli.InfoOnFreshCli | dda_cli.py:149-151 | the catalog is never loaded, so every `i`/`info` line with an argument on a new interface ends in a KeyError for that argument |

## Left out

- `main`, reading `hero_data.json` and the `FileNotFoundError` branch (dda_cli.py:177-188): file I/O. The hero data that the constructors take is a parameter of type `seq<Hero>` and is never read, as in the source. Its JSON shape is not modelled.
- `prompt` and `run` (dda_cli.py:106-112, 171-174): blocking console input and the prompt loop.
- All printed text: the help text (dda_cli.py:161-169), 'Draft engine initialized', 'Quitting', 'Reset draft engine', 'Hero argument required', 'Invalid command', and the printed info dictionary. An `Action` tag records which of these the line leads to.
- The values returned by `ally_hero_pick` and `enemy_hero_pick` are discarded by `process_command`, so they appear only in the stubs' contracts.
- Python's full whitespace set for `str.split()`: only the six ASCII whitespace characters listed above count as whitespace. The ASCII separators `\x1c` to `\x1f` and the non-ASCII Unicode whitespace are not in it.
- Object identity: `Hero.dict()` puts the hero's own list objects into the dictionary. The model uses values and does not capture that aliasing.
- Features that a draft assistant would need and this code lacks: alias resolution, bans, the status display, the five-pick cap, weight increments and decrements, setting weights to 0 on reset, and a highest-first ranking. The corresponding functions are stubs or TODOs (dda_cli.py:66, 74-83).
- Python's `sorted` is Timsort; the model sorts by insertion. `Ranking.StableSortIsSortByWeight` shows that the two give the same result.
