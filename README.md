# A verified model of the mud game core

This project models the logic core of a text-adventure ("mud") game server. It is written in Dafny and proves properties of the model. The core has three parts.

- **Game rules** (the `logic` crate):
  - the dice roller `roll_dice`, which parses `NdM<op>K`, sums random draws, applies one modifier, and classifies the result against a difficulty check;
  - the `ExpressionContext` variable store, its `$name`/`${name}` substitution, and the `roll(...)` stage of `resolve_calculate`;
  - characters and their ability scores and modifiers;
  - the table of default races.
- **Validators and content signatures** used by the server and the tools:
  - world, item and character-class definitions are checked field by field;
  - each record has a "signature": its fields are concatenated as bytes and hashed, and the server compares signatures to decide whether a resubmitted definition changed anything.
- **Handler decisions** of the world, item and character-class APIs, abstracted once their database lookups are done:
  - BadRequest, NotFound, NotChanged, Created or updated;
  - the character-class delta and the writes its transaction performs;
  - the hex rendering of signatures.

## Files and modules

| file | module | models |
|---|---|---|
| `wrappers.dfy` | `Wrappers` | `Option` and `Result` |
| `numbers.dfy` | `Numbers` | `i32`/`i64`, truncating division, decimal text |
| `encoding.dfy` | `Encoding` | `to_be_bytes`, UTF-8 (`as_bytes`) with decoding |
| `api.dfy` | `Api` | `ApiResponse`, `serde_json::Value` |
| `dice_roller.dfy` | `DiceRoller`, `DiceRollerExamples` | `logic/src/utilities/dice_roller.rs` |
| `expression_parser.dfy` | `ExpressionParser`, `ExpressionParserExamples` | `logic/src/utilities/expression_parser.rs` |
| `races.dfy` | `Races` | `logic/src/races/race.rs`, `logic/src/races/race_loader.rs` |
| `characters.dfy` | `Characters` | `logic/src/entities/character.rs` |
| `models.dfy` | `Models` | `server/src/db/models.rs` |
| `items.dfy` | `Items` | `server/src/api/game/items.rs` |
| `worlds.dfy` | `Worlds` | `server/src/api/game/worlds.rs` |
| `character_classes.dfy` | `ClassChanges` | `server/src/api/game/character_classes.rs` |
| `tools_character_class.dfy` | `ClassSpecs` | `tools/src/game/character_class.rs` |
| `protocol_character_class.dfy` | `ProtocolCharacterClass` | `protocol/src/types/character_class.rs` |

## How the outside world is modelled

- **Randomness.** `rand::thread_rng` becomes a parameter `rng: nat -> nat`, a stream of raw words. Draw `i` is `gen_range(1..die_size)` applied to word `i`, and the model proves it lies in `[1, die_size - 1]`.
- **SHA-256.** The hash in `as_hashed` becomes a parameter `hash: seq<byte> -> seq<byte>`. The model therefore relies only on equal preimages giving equal hashes.
- **JSON rendering.** `Value::to_string()` of the stored proficiencies (`server/src/db/models.rs:192`, `:244`) is a parameter `render`.
- **Time.** The clock (`Utc::now`) is a parameter `now`.
- **Database and pool.** Every database lookup is a parameter: the world found by code, the item or class stored under a code, and the result of `create_or_update`. Whether the pool gave a connection is a boolean.
- **Arithmetic evaluation.** `evalexpr::eval` is a parameter `eval` returning an integer, a float (finite, NaN or infinite) or a non-number. `round() as i64` is modelled exactly: round half away from zero, then Rust's saturating float-to-integer cast, with NaN giving 0.
- **The dice call in `resolve_calculate`.** The one-argument `roll_dice` it calls is not among the files. `dice_roller.rs` defines a two-argument one, so the call is a parameter `roll: string -> int`.
- **Integer width.** The dice roller's `i32` arithmetic is modelled as built with overflow checks on, as the debug and test profiles build it. There an overflowing sum, `+` or `*` panics, and the model reports a panic outcome.

## Behaviour worth knowing

The model follows the code in each of these cases.

- **Dice: no default count.** An omitted count leaves group 1 empty, and `parse().unwrap()` then panics (`dice_roller.rs:41`). This is `DiceRoller.OmittedCountPanics`.
- **Dice: partial matches.** The regex is unanchored, so the match may start anywhere and trailing text is ignored (`dice_roller.rs:39-40`). This is `DiceRollerExamples.TrailingTextIgnored`.
- **Dice: zero dice.** With a count of 0 the loop at `dice_roller.rs:49` never runs: nothing is drawn, the modifier still applies, and a die size of 0 or 1 does no harm. With at least one die, a die size of 0 or 1 makes `gen_range` panic on its empty range. This is `DiceRoller.RawTotal`.
- **Dice: draw range.** The range `1..die_size` is half-open, so draws lie in `[1, die_size - 1]` (`dice_roller.rs:50`). This is `DiceRoller.Draw`.
- **Dice: pass/fail.** Success is decided on the unclamped total, while the reported total is clamped at 0 (`dice_roller.rs:61-64`). This is `DiceRoller.Classify`.
- **`resolve_calculate`: what is rolled.** The code passes the whole `roll(...)` text, not just the dice notation inside it (`expression_parser.rs:105-106`). Its greedy regex selects the last `roll(` and the last `)` after it, within the first line that has one. Every occurrence of that text is then replaced.
- **Items: a change of properties alone is lost.** The item preimage leaves out `item_properties` (`models.rs:468-480`). So `create_item` answers NotChanged to a definition that differs from the stored item only in its properties, and the change is never stored (`items.rs:171-175`). `Models.SignaturesIgnoreIdsAndTimes` shows the preimage does not depend on the properties. `Items.UnchangedItemIsNotStored` puts no condition on them.

## Model

| member | source | states |
|---|---|---|
| DiceRoller.RemoveSpaces | logic/src/utilities/dice_roller.rs:38 | the sanitised text holds no space, is no longer than the input, and is the input when that had no space |
| DiceRoller.RemoveSpacesAppend | logic/src/utilities/dice_roller.rs:38 | removing spaces distributes over concatenation |
| DiceRoller.DigitRunIsMaximal | logic/src/utilities/dice_roller.rs:39 | the digit run matched by `\d*` is all digits and cannot be extended |
| DiceRoller.DigitRun | logic/src/utilities/dice_roller.rs:39 | how far a greedy `\d*` reaches from a position, never past the end |
| DiceRoller.ModifierAt | logic/src/utilities/dice_roller.rs:39 | the optional group 3 after the die size: when present, an operator and at least one more character |
| DiceRoller.MatchAt | logic/src/utilities/dice_roller.rs:39 | the pattern tried at one position; a matched modifier starts with an operator |
| DiceRoller.ModifierAtIsModifierText | logic/src/utilities/dice_roller.rs:39 | a present group 3 is one operator of `+ - * /` followed by at least one digit |
| DiceRoller.MatchGroupsAreDigits | logic/src/utilities/dice_roller.rs:39 | in a match, the count is digits (possibly none), the die size is at least one digit, and the modifier is operator plus digits |
| DiceRoller.FirstMatch | logic/src/utilities/dice_roller.rs:39-40 | the unanchored search returns the leftmost position where the pattern matches; no earlier position matches, and None means no position does |
| DiceRoller.CapturesOf | logic/src/utilities/dice_roller.rs:40 | the captures of the leftmost match; a present modifier is operator plus digits |
| DiceRoller.ParseI32OfToString | logic/src/utilities/dice_roller.rs:41-45 | `parse::<i32>` reads back the decimal text of every non-negative i32 |
| DiceRoller.Parse | logic/src/utilities/dice_roller.rs:38-45 | a parse that succeeds yields non-negative count, die size and value, an operator among `+ - * /`, and modifier text that starts with that operator |
| DiceRoller.ParseGroups | logic/src/utilities/dice_roller.rs:41-45 | converting the captured groups yields non-negative numbers and keeps the operator as the first character of the modifier text |
| DiceRoller.ParseI32 | logic/src/utilities/dice_roller.rs:41-45 | `parse::<i32>` of a group: a value exists only for digit text that fits an i32, and is never negative; ParseI32OfToString is its inverse |
| DiceRoller.OmittedCountPanics | logic/src/utilities/dice_roller.rs:41 | an expression starting "d" followed by digits panics on its empty count: there is no default count |
| DiceRoller.ParseWithModifier | logic/src/utilities/dice_roller.rs:39-45 | count, die size and modifier are the digit runs around 'd' and the operator |
| DiceRoller.ParseWithoutModifier | logic/src/utilities/dice_roller.rs:43-45 | with no operator-and-digits clause, the modifier is absent |
| DiceRoller.ParseNoModifier | logic/src/utilities/dice_roller.rs:43-45 | "XdY" parses with modifier text "+0", operator '+' and value 0 |
| DiceRoller.ParseOneDigitEach | logic/src/utilities/dice_roller.rs:38-45 | "XdYoZ" followed by a non-digit parses to X, Y, "oZ", o and Z |
| DiceRoller.ParseTwoDigitDie | logic/src/utilities/dice_roller.rs:38-45 | the same with a two-digit die size |
| DiceRoller.Draw | logic/src/utilities/dice_roller.rs:50 | every draw of `gen_range(1..die_size)` lies in `[1, die_size - 1]` |
| DiceRoller.SumOfDraws | logic/src/utilities/dice_roller.rs:47-51 | the running total of the loop; n draws sum to at least n (SumOfDrawsBounds gives the upper bound) |
| DiceRoller.ApplyModifier | logic/src/utilities/dice_roller.rs:53-59 | the modifier match: it panics only on overflow or on division by zero, the latter exactly for '/' by 0; '-' always succeeds, and an unknown operator leaves the total alone |
| DiceRoller.RawTotal | logic/src/utilities/dice_roller.rs:47-59 | the unclamped total: it panics on an empty range exactly when there is at least one die and the die size is at most 1, and otherwise only on overflow or division by zero |
| DiceRoller.Classify | logic/src/utilities/dice_roller.rs:61-65 | Success exactly when the unclamped total reaches the difficulty check; the reported total is the total clamped at 0; the check and modifier are echoed |
| DiceRoller.RollSpec | logic/src/utilities/dice_roller.rs:35-66 | what `roll_dice` returns or why it panics; characterised by RollClassification, RollParsedBetween and SpacesAreIgnored, and computed by RollDice |
| DiceRoller.RollParsed | logic/src/utilities/dice_roller.rs:47-65 | the roll after parsing; bounded by RollParsedBetween, computed by RollParsedDice |
| DiceRoller.RollDice | logic/src/utilities/dice_roller.rs:35-66 | the step-by-step roll equals the specification `RollSpec` of parse, draw loop, modifier, clamp and classification |
| DiceRoller.RollParsedDice | logic/src/utilities/dice_roller.rs:47-65 | the draw loop and the modifier match compute `RollParsed` |
| DiceRoller.SumOfDrawsMonotone | logic/src/utilities/dice_roller.rs:49-51 | more draws never give a smaller sum |
| DiceRoller.SumOfDrawsBounds | logic/src/utilities/dice_roller.rs:47-51 | n draws sum to a value in `[n, n * (die_size - 1)]` |
| DiceRoller.RollClassification | logic/src/utilities/dice_roller.rs:61-65 | a roll reports the total clamped at 0 and the given difficulty check, and is a Success exactly when the unclamped total reaches the difficulty check |
| DiceRoller.ModifierText | logic/src/utilities/dice_roller.rs:43 | the reported modifier is the matched operator-and-digits text, or "+0" when there is none |
| DiceRoller.NoModifierKeepsSum | logic/src/utilities/dice_roller.rs:44-45 | with no modifier the total is the sum of the draws, in `[N, N * (die_size - 1)]` |
| DiceRoller.ZeroDiceDrawNothing | logic/src/utilities/dice_roller.rs:49-51 | zero dice draw nothing: the total is the modifier applied to 0, whatever the generator |
| DiceRoller.ApplyModifierMonotone | logic/src/utilities/dice_roller.rs:53-59 | every modifier is monotone in the sum it is applied to |
| DiceRoller.RollParsedBetween | logic/src/utilities/dice_roller.rs:47-65 | with at least one die, the reported total lies between the modifier applied to the least and the greatest sum, and those bounds decide pass or fail |
| DiceRoller.SpacesAreIgnored | logic/src/utilities/dice_roller.rs:38 | a space anywhere in the expression does not change the roll |
| DiceRollerExamples.ParseAddition | logic/src/utilities/dice_roller.rs:83 | "2d6+5" parses to 2, 6, "+5" |
| DiceRollerExamples.ParseMultiplication | logic/src/utilities/dice_roller.rs:110 | "2d6*5" parses to 2, 6, "*5" |
| DiceRollerExamples.ParseSubtraction | logic/src/utilities/dice_roller.rs:137 | "2d6-5" parses to 2, 6, "-5" |
| DiceRollerExamples.ParseDivision | logic/src/utilities/dice_roller.rs:164 | "2d20/5" parses to 2, 20, "/5" |
| DiceRollerExamples.TrailingTextIgnored | logic/src/utilities/dice_roller.rs:39-40 | "2d6+5+5" parses like "2d6+5" |
| DiceRollerExamples.RollAddition | logic/src/utilities/dice_roller.rs:83-103 | "2d6+5" against 10 gives a total in [7, 15], within the asserted [7, 17], with difficulty 10 and modifier "+5" |
| DiceRollerExamples.RollMultiplication | logic/src/utilities/dice_roller.rs:110-130 | "2d6*5" gives a total in [10, 50], within the asserted [10, 60], with modifier "*5" |
| DiceRollerExamples.RollSubtraction | logic/src/utilities/dice_roller.rs:137-157 | "2d6-5" gives a Failure with total in [0, 5], within the asserted [0, 10], with modifier "-5" |
| DiceRollerExamples.RollDivision | logic/src/utilities/dice_roller.rs:164-186 | "2d20/5" gives a Failure with total in [0, 7], within the asserted [0, 8], with modifier "/5" |
| DiceRollerExamples.RollPlain | logic/src/utilities/dice_roller.rs:73-79 | "2d6" rolls a total in [2, 10] with modifier "+0" |
| DiceRollerExamples.DieOfOnePanics | logic/src/utilities/dice_roller.rs:50 | "1d1" panics on the empty range `1..1` |
| DiceRollerExamples.ZeroDice | logic/src/utilities/dice_roller.rs:47-65 | "0d6" against 1 draws nothing and fails with total 0 |
| DiceRollerExamples.DivisionByZeroPanics | logic/src/utilities/dice_roller.rs:57 | "1d6/0" panics on the division |
| ExpressionParser.NameLengthIsMaximal | logic/src/utilities/expression_parser.rs:74 | a `$name` reference takes the longest run of name characters |
| ExpressionParser.Substitute | logic/src/utilities/expression_parser.rs:74 | text without '$' is returned unchanged; an unbound-variable error names a well-formed name absent from the map |
| ExpressionParser.SubstituteText | logic/src/utilities/expression_parser.rs:74 | literal text before the rest is copied through |
| ExpressionParser.SubstituteRef | logic/src/utilities/expression_parser.rs:74 | `$name` is replaced by its binding, or fails naming it |
| ExpressionParser.SubstituteBracedRef | logic/src/utilities/expression_parser.rs:74 | `${name}` is replaced by its binding, or fails naming it |
| ExpressionParser.SubstituteSpelled | logic/src/utilities/expression_parser.rs:74 | substituting a template spelled from text pieces and references gives the pieces expanded, and the error of the leftmost unbound reference |
| ExpressionParser.LineEnd | logic/src/utilities/expression_parser.rs:101 | `.` does not cross a newline: the line from a position ends at the next '\n' or at the end |
| ExpressionParser.LastClose | logic/src/utilities/expression_parser.rs:101 | the greedy `.*\)` ends at the last ')' of the line, and none exists when it finds none |
| ExpressionParser.LastRollOpen | logic/src/utilities/expression_parser.rs:101 | the greedy leading `.*` puts the match at the last "roll(" before the closing ')' |
| ExpressionParser.RollSpan | logic/src/utilities/expression_parser.rs:101-105 | a found span starts with "roll(" and ends with ')' within one line |
| ExpressionParser.RollSpanIsLeftmost | logic/src/utilities/expression_parser.rs:101-105 | the regex finds a span exactly when one exists; the span found is in the first line that has one, from its last "roll(" to the last ')' after it |
| ExpressionParser.Replace | logic/src/utilities/expression_parser.rs:107 | `str::replace`, each occurrence left to right; characterised by ReplaceByItself, ReplaceAbsent and ReplaceFirst |
| ExpressionParser.ReplaceByItself | logic/src/utilities/expression_parser.rs:107 | replacing a text by itself changes nothing |
| ExpressionParser.ReplaceAbsent | logic/src/utilities/expression_parser.rs:107 | replacing a text that does not occur changes nothing |
| ExpressionParser.ReplaceFirst | logic/src/utilities/expression_parser.rs:107 | `replace` substitutes the first occurrence and continues after it |
| ExpressionParser.AsNumber | logic/src/utilities/expression_parser.rs:118-120 | `as_number` fails exactly on a non-number |
| ExpressionParser.Round | logic/src/utilities/expression_parser.rs:119 | `round` gives the nearest integer, with halves away from zero |
| ExpressionParser.RoundSymmetric | logic/src/utilities/expression_parser.rs:119 | rounding is symmetric about zero and keeps integers |
| ExpressionParser.RoundNearest | logic/src/utilities/expression_parser.rs:119 | a non-negative value within half of n, below n + 0.5, rounds to n |
| ExpressionParser.ToI64 | logic/src/utilities/expression_parser.rs:119 | `as i64` saturates at the i64 bounds, maps NaN to 0 and infinities to the bounds |
| ExpressionParser.ResolveRoll | logic/src/utilities/expression_parser.rs:101-110 | the roll stage: unchanged without a span, else every occurrence of the span replaced by its roll; characterised by WithoutRoll, WithoutParenthesis and WithRoll |
| ExpressionParser.Evaluate | logic/src/utilities/expression_parser.rs:113-123 | evaluation, `as_number` and `round() as i64`, each error returned; its pieces are stated by AsNumber, Round and ToI64 |
| ExpressionParser.Calculate | logic/src/utilities/expression_parser.rs:96-124 | `resolve_calculate` over a map; its stages are stated by SubstitutionFailsFirst and CalculateStages |
| ExpressionParser.SubstitutionFailsFirst | logic/src/utilities/expression_parser.rs:98 | a substitution failure is returned before any roll or evaluation, whatever the roller and evaluator |
| ExpressionParser.WithoutRoll | logic/src/utilities/expression_parser.rs:103-110 | without a "roll(" the substituted text reaches the evaluator unchanged |
| ExpressionParser.WithoutParenthesis | logic/src/utilities/expression_parser.rs:103-110 | without '(' the substituted text reaches the evaluator unchanged |
| ExpressionParser.WithRoll | logic/src/utilities/expression_parser.rs:104-107 | the selected span is replaced by the decimal text of its roll |
| ExpressionParser.CalculateStages | logic/src/utilities/expression_parser.rs:96-124 | `resolve_calculate` is substitution, then roll replacement, then evaluation |
| ExpressionParser.LastSpan | logic/src/utilities/expression_parser.rs:101 | on one line, the span runs from the last "roll(" to the last ')' |
| ExpressionParser.ExpressionContext.constructor | logic/src/utilities/expression_parser.rs:15-19 | a new context is empty and every key reads None |
| ExpressionParser.ExpressionContext.Set | logic/src/utilities/expression_parser.rs:34-36 | the map gains or overwrites the key; the key then reads its value and every other key is unchanged |
| ExpressionParser.ExpressionContext.Get | logic/src/utilities/expression_parser.rs:53-55 | a key reads Some of its binding exactly when it is bound |
| ExpressionParser.ExpressionContext.Resolve | logic/src/utilities/expression_parser.rs:73-77 | substitution over the context's map; an unbound name is one `get` does not find |
| ExpressionParser.ExpressionContext.ResolveCalculate | logic/src/utilities/expression_parser.rs:96-124 | a failed substitution over the context's map is returned as that error, before anything is rolled or evaluated |
| ExpressionParserExamples.Greeting | logic/src/utilities/expression_parser.rs:137-141 | "Hello, $name! You are $age years old." becomes "Hello, Alice! You are 30 years old." |
| ExpressionParserExamples.GreetingThroughContext | logic/src/utilities/expression_parser.rs:132-142 | the same through `new`, two `set`s and `resolve` |
| ExpressionParserExamples.Overwrite | logic/src/utilities/expression_parser.rs:34-36 | a second `set` of a key overwrites it and leaves other keys alone |
| ExpressionParserExamples.TwoReferences | logic/src/utilities/expression_parser.rs:74 | two bare references between literal texts are both replaced |
| ExpressionParserExamples.PlainArithmetic | logic/src/utilities/expression_parser.rs:150-152 | "2 + 2" evaluates to 4 given an evaluator that does |
| ExpressionParserExamples.AgeSubstituted | logic/src/utilities/expression_parser.rs:161 | "2 + ${age}" substitutes to "2 + 30" |
| ExpressionParserExamples.ArithmeticWithContext | logic/src/utilities/expression_parser.rs:161-163 | "2 + ${age}" evaluates to 32 |
| ExpressionParserExamples.RollGroupAtEnd | logic/src/utilities/expression_parser.rs:172 | in "2 + roll(2d6)" the whole "roll(2d6)" is rolled and replaced |
| ExpressionParserExamples.ArithmeticWithRoll | logic/src/utilities/expression_parser.rs:172-174 | with a roll in [2, 12], "2 + roll(2d6)" gives a value in [4, 14] |
| ExpressionParserExamples.RollAndContextSubstituted | logic/src/utilities/expression_parser.rs:184 | "$dexterity + roll(2d6) + ${intelligence}" substitutes to "10 + roll(2d6) + 10" |
| ExpressionParserExamples.RollAndContextSpan | logic/src/utilities/expression_parser.rs:101 | the span in "10 + roll(2d6) + 10" is positions 5 to 14 |
| ExpressionParserExamples.ArithmeticWithRollAndContext | logic/src/utilities/expression_parser.rs:183-187 | with a roll in [2, 12] the result lies in [22, 34] |
| ExpressionParserExamples.DecimalsSubstituted | logic/src/utilities/expression_parser.rs:197 | "$intelligence  * ${luck}" substitutes to "10  * .7" |
| ExpressionParserExamples.ArithmeticWithDecimals | logic/src/utilities/expression_parser.rs:196-200 | a float in [6.5, 7.5) rounds to 7 |
| ExpressionParserExamples.UnboundVariable | logic/src/utilities/expression_parser.rs:98 | "2 + $strength" fails naming "strength" |
| ExpressionParserExamples.LastRollOnly | logic/src/utilities/expression_parser.rs:101-107 | in "roll(1d4) + roll(2d6)" only the last roll is rolled and replaced |
| Races.NewRace | logic/src/races/race.rs:16-28 | `Race::new` stores the name, modifiers, special abilities and speed given |
| Races.DefaultRaces | logic/src/races/race_loader.rs:4-76 | the table has exactly the keys Dwarf, Elf, Halfling and Human, each naming its race |
| Races.DwarfTraits | logic/src/races/race_loader.rs:6-22 | Dwarf: CON +2, CHA -2 and nothing else, speed 25, four special abilities |
| Races.ElfTraits | logic/src/races/race_loader.rs:23-39 | Elf: DEX +2, CON -2 and nothing else, speed 30 |
| Races.HalflingTraits | logic/src/races/race_loader.rs:40-52 | Halfling: only CON +2, speed 25 |
| Races.HumanTraits | logic/src/races/race_loader.rs:53-71 | Human: +1 on all six abilities, speed 30 |
| Characters.NewCharacter | logic/src/entities/character.rs:68-92 | `Character::new` stores every field; each raw score is the argument for its ability |
| Characters.RawScore | logic/src/entities/character.rs:34-43 | `get_raw_ability_score`: one field per ability; RawScoresDetermine shows the six are distinct |
| Characters.AbilityScore | logic/src/entities/character.rs:20-27 | `get_ability_score`; AbilityScoreIsRawPlusRacial states it is raw plus the racial modifier when there is one |
| Characters.Modifier | logic/src/entities/character.rs:29-32 | `get_modifier`: ModifierOf of the ability score, whose contract states the truncating division |
| Characters.RacialModifier | logic/src/entities/character.rs:22 | the race's modifier for an ability is present exactly when the race lists it |
| Characters.AbilityScoreIsRawPlusRacial | logic/src/entities/character.rs:20-27 | the ability score is the raw score plus the racial modifier when there is one, else the raw score |
| Characters.DetailScore | logic/src/entities/character.rs:45-64 | the detail names the ability; its map has at most the key "racial", present exactly when the race has a modifier, and the score is raw plus that map's adjustment |
| Characters.DetailAgrees | logic/src/entities/character.rs:45-64 | the detailed score equals `get_ability_score`, and its map is exactly {"racial" ↦ m}, or empty |
| Characters.RawScoresDetermine | logic/src/entities/character.rs:34-43 | `get_raw_ability_score` reads six distinct fields: two characters alike in them are equal |
| Characters.ModifierOf | logic/src/entities/character.rs:29-32 | `(score - 10) / 2` truncates toward zero: twice the modifier is within one of score - 10, on zero's side |
| Characters.ModifierSymmetric | logic/src/entities/character.rs:31 | scores equally far below and above 10 have opposite modifiers |
| Characters.ModifierMonotone | logic/src/entities/character.rs:31 | a higher score never has a lower modifier |
| Characters.ModifierExamples | logic/src/entities/character.rs:31 | 9 gives 0, 7 gives -1, 10 and 11 give 0, 12 gives 1 |
| Characters.HumanAddsOne | logic/src/entities/character.rs:20-27 | a Human adds one to every raw score |
| Characters.HumanWithTens | logic/src/entities/character.rs:103-126 | a Human with all raw scores 10 has ability score 11 everywhere |
| Numbers.TruncDiv | logic/src/entities/character.rs:31 | Rust's `/`: the remainder is smaller than the divisor in magnitude and has the dividend's sign |
| Numbers.NatToStringRoundTrip | logic/src/utilities/expression_parser.rs:107 | the decimal text of a number reads back as the number |
| Numbers.NatToStringNoLeadingZero | logic/src/utilities/expression_parser.rs:107 | the decimal text starts with '0' only for zero |
| Numbers.IntToStringRoundTrip | logic/src/utilities/expression_parser.rs:107 | the text of a negative number is '-' and the text of its magnitude |
| Encoding.BeBytes | server/src/db/models.rs:116-121 | `to_be_bytes` has the width of its type |
| Encoding.BeBytesRoundTrip | server/src/db/models.rs:116-121 | big-endian bytes read back as the value modulo 256^width |
| Encoding.SignedRoundTrip | server/src/db/models.rs:184-194 | a value in the signed range reads back exactly from its bytes |
| Encoding.BeBytesInjective | server/src/db/models.rs:184-194 | different values of a width have different bytes |
| Encoding.CharUtf8 | server/src/db/models.rs:116-121 | one character encodes to between one and four bytes |
| Encoding.Utf8 | server/src/db/models.rs:116-121 | `as_bytes` is empty exactly for the empty string and has at least one byte per character |
| Encoding.Utf8Concat | server/src/db/models.rs:116-121 | the bytes of a concatenation are the concatenated bytes |
| Encoding.Utf8RoundTrip | server/src/db/models.rs:116-121 | UTF-8 bytes decode back to the string |
| Models.AsNewWorld | server/src/db/models.rs:103-111 | `as_new_world`; AsNewWorldLosesOnlyId shows it forgets exactly the id |
| Models.AsNewCharacterClass | server/src/db/models.rs:204-215 | `as_new_character_class`; AsNewCharacterClassLosesOnlyIdAndTimes shows it forgets exactly the id and timestamps |
| Models.AsNewCharacterClassFeature | server/src/db/models.rs:291-299 | `as_new_character_class_feature`; AsNewFeatureLosesOnlyIdAndTimes shows it forgets exactly the id and timestamps |
| Models.AsNewItem | server/src/db/models.rs:454-465 | `as_new_item`; AsNewItemLosesOnlyIdAndTimes shows it forgets exactly the id and timestamps |
| Models.AsNewWorldLosesOnlyId | server/src/db/models.rs:103-111 | `as_new_world` copies code, name, description and both timestamps; only the id is lost |
| Models.AsNewCharacterClassLosesOnlyIdAndTimes | server/src/db/models.rs:204-215 | `as_new_character_class` copies every field except the id and timestamps |
| Models.AsNewFeatureLosesOnlyIdAndTimes | server/src/db/models.rs:291-299 | `as_new_character_class_feature` copies class id, level, code, name and description |
| Models.AsNewItemLosesOnlyIdAndTimes | server/src/db/models.rs:454-465 | `as_new_item` copies all eight data fields |
| Models.WorldPreimage | server/src/db/models.rs:114-123 | the World preimage: code, name, description; WorldPreimageIsAmbiguous shows what it cannot separate |
| Models.NewWorldPreimage | server/src/db/models.rs:144-153 | the NewWorld preimage; AsNewKeepsSignatures shows it equals the World's |
| Models.CharacterClassPreimage | server/src/db/models.rs:182-196 | the class preimage; CharacterClassPreimageLayout reads back its world id and hit points |
| Models.NewCharacterClassPreimage | server/src/db/models.rs:234-248 | the NewCharacterClass preimage; AsNewKeepsSignatures shows it equals the class's |
| Models.FeaturePreimage | server/src/db/models.rs:272-283 | the feature preimage; FeaturePreimageLayout reads back its class id and level |
| Models.NewFeaturePreimage | server/src/db/models.rs:315-326 | the NewCharacterClassFeature preimage; AsNewKeepsSignatures shows it equals the feature's |
| Models.ItemPreimage | server/src/db/models.rs:468-480 | the item preimage; ItemPreimageLayout reads back its two ids and the base price |
| Models.WorldSignature | server/src/db/models.rs:114-123 | the World signature hashes code, name and description |
| Models.NewWorldSignature | server/src/db/models.rs:144-153 | the NewWorld signature hashes code, name and description |
| Models.CharacterClassSignature | server/src/db/models.rs:182-196 | the class signature hashes world id (8 bytes), code, name, description, hit points (4 bytes), the two expressions and the rendered proficiencies |
| Models.NewCharacterClassSignature | server/src/db/models.rs:234-248 | the NewCharacterClass signature hashes the same layout |
| Models.FeatureSignature | server/src/db/models.rs:272-283 | the feature signature hashes class id (8 bytes), level (4 bytes), code, name and description |
| Models.NewFeatureSignature | server/src/db/models.rs:315-326 | the NewCharacterClassFeature signature hashes the same layout |
| Models.ItemSignature | server/src/db/models.rs:468-480 | the item signature hashes world id, category id, code, type, name, description and base price |
| Models.AsNewKeepsSignatures | server/src/db/models.rs:103-326 | `as_new_*` preserves the world, class and feature preimages |
| Models.SignaturesIgnoreIdsAndTimes | server/src/db/models.rs:114-480 | no preimage depends on id or timestamps; the item's does not depend on its properties |
| Models.CharacterClassPreimageLayout | server/src/db/models.rs:184-194 | the first 8 bytes read back as the world id; the 4 bytes after the three texts read back as the hit points |
| Models.FeaturePreimageLayout | server/src/db/models.rs:273-281 | bytes 0-7 read back as the class id and bytes 8-11 as the level |
| Models.ItemPreimageLayout | server/src/db/models.rs:469-478 | bytes 0-7 read back as the world id, 8-15 as the category id, and the last 8 as the base price |
| Models.WorldPreimageIsAmbiguous | server/src/db/models.rs:114-123 | two different worlds ("ab","c" and "a","bc") have the same preimage, since fields are not separated |
| Items.ValidationErrors | server/src/api/game/items.rs:94-126 | the error list `is_valid` collects; its content and order are stated by ErrorsInCheckOrder and MessageIffCheckFails |
| Items.DefinitionPreimage | server/src/api/game/items.rs:60-75 | the definition's preimage; ToItemPreimage relates it to its item's |
| Items.IsValid | server/src/api/game/items.rs:94-126 | Ok exactly when category id and price are positive and the four texts are non-empty; an Err carries the messages of the failing checks and is never empty |
| Items.PushIfFailing | server/src/api/game/items.rs:97-119 | one check pushes its message exactly when it fails |
| Items.FailuresAreFailingChecks | server/src/api/game/items.rs:97-119 | a check is among the failures exactly when it fails |
| Items.FailuresIffNotAcceptable | server/src/api/game/items.rs:121-125 | there are no failures exactly when every field is acceptable |
| Items.FailuresInCheckOrder | server/src/api/game/items.rs:97-119 | failures come in the order category, code, type, name, description, price |
| Items.MessageInjective | server/src/api/game/items.rs:97-119 | the six messages are distinct |
| Items.MessageIffCheckFails | server/src/api/game/items.rs:97-119 | a check's message is among the errors exactly when the check fails |
| Items.ErrorsInCheckOrder | server/src/api/game/items.rs:97-119 | the errors are one message per failing check, in check order |
| Items.AllChecksFail | server/src/api/game/items.rs:97-119 | a definition failing everything reports all six checks in order |
| Items.DefinitionSignature | server/src/api/game/items.rs:60-75 | the signature hashes the world id (only when present), category id, code, type, name, description and price |
| Items.ToItem | server/src/api/game/items.rs:78-91 | `to_item` defaults id and world id to 0 and creation time to now, and copies the data fields |
| Items.ToItemPreimage | server/src/api/game/items.rs:60-91 | a definition with a world id signs like its item; one without signs like its item minus the 8 zero bytes of the world id |
| Items.DataItem | server/src/api/game/items.rs:154-166 | the item to store takes the stored item's id (or 0) and the world's id, and is otherwise `to_item` |
| Items.CreateItem | server/src/api/game/items.rs:129-187 | validation, connection and world lookup fail in that order; NotChanged exactly when a stored item signs like the new one; Created or updated only with the store's item |
| Items.UnchangedItemIsNotStored | server/src/api/game/items.rs:171-175 | a stored item with the same data is answered NotChanged |
| Items.CreatedIffNew | server/src/api/game/items.rs:177-183 | past the signature check, Created exactly when there was no stored item (or its id was 0), otherwise updated |
| Items.StoreFailureReported | server/src/api/game/items.rs:184-186 | a store failure is reported with its message |
| Items.NotChangedIgnoresClock | server/src/api/game/items.rs:154-175 | whether an item counts as unchanged does not depend on the time |
| Worlds.IsValid | server/src/api/game/worlds.rs:44-46 | `is_valid`: code, name and description all non-empty; used by CreateNewWorld and CreateOrUpdateWorld, and ValidityBeforeMismatch shows it is checked first |
| Worlds.DefinitionPreimage | server/src/api/game/worlds.rs:19-28 | the definition's preimage; DefinitionSignsLikeWorld shows it equals its world's |
| Worlds.DefinitionSignature | server/src/api/game/worlds.rs:19-28 | the signature hashes code, name and description |
| Worlds.ToWorld | server/src/api/game/worlds.rs:31-42 | `to_world` defaults id to 0 and creation time to now, and copies code, name and description |
| Worlds.DefinitionSignsLikeWorld | server/src/api/game/worlds.rs:19-42 | a definition signs like its world and that world's NewWorld, whatever its id and time |
| Worlds.CreateNewWorld | server/src/api/game/worlds.rs:66-88 | connection, validity and existence are checked in that order; otherwise the created world or the store's error |
| Worlds.WorldToStore | server/src/api/game/worlds.rs:119-128 | the world to store takes the stored world's id (or 0), and is otherwise `to_world` |
| Worlds.CreateOrUpdateWorld | server/src/api/game/worlds.rs:90-134 | invalid, then code mismatch; NotChanged exactly when a stored world signs like the definition; otherwise the stored result |
| Worlds.UnchangedWorldIsNotStored | server/src/api/game/worlds.rs:109-117 | a stored world with the same code, name and description is answered NotChanged |
| Worlds.ValidityBeforeMismatch | server/src/api/game/worlds.rs:101-107 | an invalid definition is reported invalid even when its code also mismatches |
| Worlds.UpdateReusesStoredId | server/src/api/game/worlds.rs:119-133 | an update reuses the stored id, or 0 for a new world |
| Worlds.UpdateCanBeDropped | server/src/api/game/worlds.rs:109-117 | as written, moving text from name to description is answered NotChanged |
| Worlds.CreateOrUpdateWorldFieldwise | server/src/api/game/worlds.rs:90-134 | the decision with a field-by-field comparison |
| Worlds.FieldwiseDropsOnlyUnchanged | server/src/api/game/worlds.rs:109-117 | the corrected decision drops an update exactly when the data is unchanged, and agrees with the written one wherever the hash tells the worlds apart |
| ProtocolCharacterClass.IsValid | protocol/src/types/character_class.rs:21-28 | `is_valid`; NonPositiveHitPointsInvalid and ValidIffPositiveHitPoints state what it demands of the hit points |
| ProtocolCharacterClass.Preimage | protocol/src/types/character_class.rs:9-19 | the preimage; HitPointsAt reads back the hit points |
| ProtocolCharacterClass.Signature | protocol/src/types/character_class.rs:9-19 | the signature hashes name, description, hit points (8 bytes) and stamina expression |
| ProtocolCharacterClass.NonPositiveHitPointsInvalid | protocol/src/types/character_class.rs:25 | hit points below 1 make a class invalid whatever else it holds |
| ProtocolCharacterClass.ValidIffPositiveHitPoints | protocol/src/types/character_class.rs:21-28 | with the three texts present, a class is valid exactly when its hit points are positive |
| ProtocolCharacterClass.IdIrrelevant | protocol/src/types/character_class.rs:1-28 | the id affects neither validity nor signature |
| ProtocolCharacterClass.HitPointsAt | protocol/src/types/character_class.rs:10-18 | the 8 bytes after name and description read back as the hit points |
| ClassSpecs.FeatureIsValid | tools/src/game/character_class.rs:74-77 | a feature's `is_valid`: positive level, non-empty name and description |
| ClassSpecs.IsValid | tools/src/game/character_class.rs:54-71 | the spec's `is_valid`; ValidMeans states every conjunct |
| ClassSpecs.Preimage | tools/src/game/character_class.rs:26-50 | the spec's preimage; computed by Signature, read back by WorldIdAt |
| ClassSpecs.AllNonEmpty | tools/src/game/character_class.rs:62-66 | the `all` over proficiencies holds exactly when every one is non-empty |
| ClassSpecs.AllFeaturesValid | tools/src/game/character_class.rs:67-69 | the `all` over features holds exactly when every one is valid |
| ClassSpecs.ValidMeans | tools/src/game/character_class.rs:54-76 | validity means a present positive world id, a present non-empty code, the four texts, positive hit points, non-empty proficiencies and valid features (missing lists accepted) |
| ClassSpecs.MissingListsAccepted | tools/src/game/character_class.rs:62-69 | a missing list validates like an empty one |
| ClassSpecs.MechanicIsValid | tools/src/game/character_class.rs:84-114 | the test's mechanic class is valid |
| ClassSpecs.AppendProficiencies | tools/src/game/character_class.rs:36-40 | the loop appends each proficiency's bytes in order |
| ClassSpecs.AppendFeatures | tools/src/game/character_class.rs:41-47 | the loop appends each feature's level (4 bytes), name and description in order |
| ClassSpecs.Signature | tools/src/game/character_class.rs:26-50 | the signature hashes the fixed fields, then every proficiency, then every feature |
| ClassSpecs.IdIrrelevant | tools/src/game/character_class.rs:26-70 | the id affects neither validity nor signature |
| ClassSpecs.MissingSignsLikeDefault | tools/src/game/character_class.rs:28-47 | missing lists, world id or code sign like empty lists, 0 or "" |
| ClassSpecs.WorldIdAt | tools/src/game/character_class.rs:28 | the first 8 bytes read back as the world id, 0 when missing |
| ClassSpecs.ProficiencyBoundariesLost | tools/src/game/character_class.rs:36-40 | ["a","b"] and ["ab"] give the same bytes |
| ClassChanges.HasChanged | server/src/api/game/character_classes.rs:275-279 | `has_changed`; ChangedIffNewOrDifferent states when it holds |
| ClassChanges.Changes | server/src/api/game/character_classes.rs:290-340 | the delta `compute_character_class_changes` returns; characterised by ChangesCases, computed by ComputeChanges |
| ClassChanges.ComputeChanges | server/src/api/game/character_classes.rs:290-340 | the mutable delta computes `Changes` |
| ClassChanges.ChangesCases | server/src/api/game/character_classes.rs:296-339 | a lookup error propagates; a new class gives the candidate and its features; an equal signature gives the empty delta; a different one carries the stored class too; removed features are never set |
| ClassChanges.ChangedIffNewOrDifferent | server/src/api/game/character_classes.rs:275-279 | `has_changed` exactly when there is no stored class or it signs differently |
| ClassChanges.Handle | server/src/api/game/character_classes.rs:49-82 | validation, connection, world, change computation fail in that order; a saved delta has changed and is the computed one |
| ClassChanges.SameSignatureNotChanged | server/src/api/game/character_classes.rs:80-82 | a stored class signing like the candidate is answered NotChanged |
| ClassChanges.NewOrDifferentIsSaved | server/src/api/game/character_classes.rs:80-84 | a new or different class is saved with the candidate and its features |
| ClassChanges.ProficienciesToJson | server/src/api/game/character_classes.rs:246 | missing proficiencies become null, present ones an array of their strings |
| ClassChanges.ProficienciesFromJson | server/src/api/game/character_classes.rs:207-215 | a non-array reads as no proficiencies; a non-string entry as "" |
| ClassChanges.ProficienciesRoundTrip | server/src/api/game/character_classes.rs:207-246 | proficiencies survive storage, a missing list coming back empty |
| ClassChanges.ClassToEntity | server/src/api/game/character_classes.rs:236-250 | missing id and world id become 0, a missing code "", and other fields are copied |
| ClassChanges.FeatureToEntity | server/src/api/game/character_classes.rs:252-265 | a feature record starts with id 0 and class id 0 and copies the rest |
| ClassChanges.FeaturesFromEntities | server/src/api/game/character_classes.rs:219-231 | stored features read back in order, or none when there are none |
| ClassChanges.ClassFromEntity | server/src/api/game/character_classes.rs:198-217 | the class part of the read-back; StoredClassReadsBack shows what a stored class reads back as |
| ClassChanges.ReadBack | server/src/api/game/character_classes.rs:198-233 | the loop's `get_or_insert` pushes give the class with its features read back |
| ClassChanges.StoredClassReadsBack | server/src/api/game/character_classes.rs:198-265 | a stored candidate reads back with the defaults made explicit and its features in order |
| ClassChanges.ClassToSave | server/src/api/game/character_classes.rs:84-98 | the saved record takes the stored class's id (0 when it has none) or the candidate's, and the world's id |
| ClassChanges.Codes | server/src/api/game/character_classes.rs:113-131 | the feature codes in order |
| ClassChanges.FeatureWrites | server/src/api/game/character_classes.rs:113-131 | the feature loop: for changed feature i, write 2i deletes its code under the class id and write 2i+1 saves the feature, converted and given that class id; there are no other writes |
| ClassChanges.RemovalWrites | server/src/api/game/character_classes.rs:133-144 | the removal loop: write i deletes removed code i under the class id, and there is nothing else |
| ClassChanges.FeatureWritesDelete | server/src/api/game/character_classes.rs:113-131 | the feature loop deletes exactly the changed features' codes, in order |
| ClassChanges.RemovalWritesDelete | server/src/api/game/character_classes.rs:133-144 | the removal loop deletes exactly the removed codes |
| ClassChanges.Transaction | server/src/api/game/character_classes.rs:86-146 | the writes of the transaction; TransactionWritesSavedClass and TransactionWritesKeptClass state every write in order, and TransactionDeletes and SavedDeltaSavesClass state what it deletes and writes first |
| ClassChanges.TransactionWritesSavedClass | server/src/api/game/character_classes.rs:92-144 | when the class changed, the transaction's writes position by position: the class record first; then, for each changed feature, a delete of its code and a save of the feature, both under the id the store gave the saved class; then a delete of each removed code under that id; nothing else |
| ClassChanges.TransactionWritesKeptClass | server/src/api/game/character_classes.rs:106-144 | when the class is unchanged, the same layout without the class record, under the unchanged entity's id |
| ClassChanges.TransactionDeletes | server/src/api/game/character_classes.rs:86-146 | the transaction deletes the changed features' codes, then the removed codes, and nothing else |
| ClassChanges.SavedDeltaSavesClass | server/src/api/game/character_classes.rs:92-105 | a saved delta always carries the candidate, so the class record is written first |
| ClassChanges.Finish | server/src/api/game/character_classes.rs:148-168 | a failed save, a failed read-back and a missing class give their errors; otherwise the class read back |
| ClassChanges.DroppedFeaturesSurvive | server/src/api/game/character_classes.rs:282-340 | as written, a feature the candidate dropped is never deleted |
| ClassChanges.Dropped | server/src/api/game/character_classes.rs:288 | a code is dropped exactly when it is stored and not kept |
| ClassChanges.ChangesWithRemovals | server/src/api/game/character_classes.rs:282-340 | the documented delta: as computed, plus the dropped codes as removed |
| ClassChanges.RemovalsDeleteDropped | server/src/api/game/character_classes.rs:109-144 | with removals listed, every stored feature code is deleted, and only stored or candidate codes are |
| ClassChanges.HexByte | server/src/api/game/character_classes.rs:345 | each byte renders as two characters |
| ClassChanges.Hex | server/src/api/game/character_classes.rs:342-348 | the rendering has two characters per byte |
| ClassChanges.PrettyPrintVec | server/src/api/game/character_classes.rs:342-348 | the loop computes the hex rendering |
| ClassChanges.HexByteRoundTrip | server/src/api/game/character_classes.rs:345 | the two digits read back as the byte |
| ClassChanges.HexIsLowercase | server/src/api/game/character_classes.rs:345 | the rendering holds only lowercase hex digits |
| ClassChanges.HexRoundTrip | server/src/api/game/character_classes.rs:342-348 | the rendering reads back as the bytes, so different signatures print differently |
| ClassChanges.HexExamples | server/src/api/game/character_classes.rs:345 | [0, 255, 10] renders as "00ff0a" |

## Left out

- HTTP routing, axum extractors, authentication (bcrypt, JWT), logging and `println!`/`eprintln!` output: I/O outside the core.
- The diesel repositories, SQL and the connection pool: every lookup and write result is a parameter instead.
- ClassChanges.Transaction: the transaction is modelled as the list of writes it issues. A write that fails part-way (the early `return Err(e)` inside the loops) and the rollback are not modelled.
- SHA-256 (`as_hashed`, protocol/src/types/signature.rs:5-9): a foreign library, so it is a parameter `hash`.
- `Value::to_string()` of the stored proficiencies (server/src/db/models.rs:192 and :244) is a parameter `render`, because its JSON text format is not modelled.
- ExpressionParser.AsNumber: `evalexpr::eval` and its floating point are not modelled. The evaluator is a parameter, and floats are exact reals plus NaN and infinities. So `as_number` widens an integer to a float exactly, whereas Rust's `i64 as f64` rounds integers above 2^53.
- The `subst` crate: only `$name`, `${name}` and the unbound-variable error are modelled. Its escapes and `${name:default}` forms are not in the files.
- The one-argument `roll_dice` called by `resolve_calculate` is not part of this model; it is a parameter `roll`. `logic/src/lib.rs` does not declare the `utilities` module, and it is not part of this model.
- The `validate()` of the richer protocol character class used by `character_classes.rs`, and its `signature()`, are not among the files. Validation is a parameter, and so is the signature. This richer class has code, world id, skill point expression, proficiencies and features, and protocol/src/types/character_class.rs does not show it.
- The `get_character_class_by_code` handler (character_classes.rs:18-47) is a lookup and response only.
- `regex`'s Unicode `\d`: the model treats only ASCII digits as digits.
- DiceRoller.ApplyModifier and DiceRoller.RawTotal: a release build without overflow checks wraps an overflowing sum, `+` or `*` around instead of panicking; the model follows the overflow-checked build only.
- Characters.ModifierOf, Characters.AbilityScore and Characters.DetailScore: `score + modifier` and `score - 10` are unbounded integers, so the model does not capture i32 overflow of ability scores.
- DiceRoller.ParseI32: parses unsigned digit runs only, which is all the regex groups can hold.
- `GameData` (logic/src/game_data/game_data.rs): its maps are always empty and its generic cast is not meaningful.
- The tools' file walking and JSON loading (tools/src/main.rs); thin serde records; the item preimage in protocol/src/types/item.rs, which duplicates models.rs:466-480; the separate world preimage in protocol/src/types/world.rs, which is name ++ description only, unlike the code ++ name ++ description of the core's world preimages; and the Go command-line and server code.

## Findings

| source | as written | input that shows it | evidently intended | confidence | as-written member | corrected member |
|---|---|---|---|---|---|---|
| server/src/api/game/worlds.rs:109-117 | an update is dropped when the SHA-256 of code ++ name ++ description equals the stored world's; the fields are not separated | stored world ("w", "a", "bc"), definition ("w", "ab", "c"): the preimages are equal, so the update is answered NotChanged and lost | an update is dropped only when code, name and description all equal the stored ones | not executed | Worlds.UpdateCanBeDropped | Worlds.CreateOrUpdateWorldFieldwise |
| server/src/api/game/character_classes.rs:282-340 | the doc comment says `removed_features` holds the features removed from the candidate, but the delta never sets it | stored class with a feature coded "x", candidate signing differently and without "x": the transaction deletes no "x", so the feature stays stored and reads back | `removed_features` lists the stored feature codes the candidate no longer has, and the transaction deletes them | not executed | ClassChanges.DroppedFeaturesSurvive | ClassChanges.ChangesWithRemovals |
