/** `roll_dice` (logic/src/utilities/dice_roller.rs): parse a dice string such
    as "2d6+5", add up the draws, apply one modifier and compare the total
    with a difficulty check.

    The random generator is an input: `rng(i)` is the raw word behind the
    i-th draw. A Rust panic (a failed `unwrap`, an empty range, an overflow,
    a division by zero) is the outcome `Panicked`. Arithmetic is on `i32` as
    in a debug build, where an overflow panics. */
module DiceRoller {

  import opened Wrappers
  import opened Numbers

  /** `DiceRollResult`: the reported total, the difficulty check and the
      modifier text. */
  datatype DiceRollResult =
    | Success(total: i32, difficultyCheck: i32, modifier: string)
    | Failure(total: i32, difficultyCheck: i32, modifier: string)

  /** Why `roll_dice` panics. */
  datatype Panic =
    | NoMatch             // `re.captures(..).unwrap()` finds no match
    | CountNotANumber     // group 1 is empty or does not fit an i32
    | DieSizeNotANumber   // group 2 does not fit an i32
    | ModifierNotANumber  // group 5 does not fit an i32
    | EmptyRange          // `gen_range(1..die_size)` with die_size <= 1
    | Overflow            // an i32 addition or multiplication overflows
    | DivisionByZero      // `total /= 0`

  datatype Roll = Rolled(result: DiceRollResult) | Panicked(reason: Panic)

  // ---------------------------------------------------------------------------
  // Sanitising and matching
  // ---------------------------------------------------------------------------

  /** `dice_expression.replace(" ", "")`: drops every space character (only
      U+0020; other whitespace is kept). */
  function RemoveSpaces(s: string): (r: string)
    ensures ' ' !in r && |r| <= |s|
    ensures ' ' !in s ==> r == s
  {
    if s == [] then []
    else
      var rest := RemoveSpaces(s[1..]);
      assert s == [s[0]] + s[1..];
      if s[0] == ' ' then rest else [s[0]] + rest
  }

  predicate IsOperator(c: char)
  {
    c == '+' || c == '-' || c == '*' || c == '/'
  }

  /** The length of the longest run of digits that starts at i (how far a
      greedy `\d*` reaches). */
  function DigitRun(s: string, i: nat): (n: nat)
    requires i <= |s|
    ensures i + n <= |s|
    decreases |s| - i
  {
    if i < |s| && IsDigit(s[i]) then 1 + DigitRun(s, i + 1) else 0
  }

  /** The run is all digits and cannot be extended. */
  lemma {:induction false} DigitRunIsMaximal(s: string, i: nat)
    requires i <= |s|
    ensures AllDigits(s[i..i + DigitRun(s, i)])
    ensures i + DigitRun(s, i) == |s| || !IsDigit(s[i + DigitRun(s, i)])
    decreases |s| - i
  {
    if i < |s| && IsDigit(s[i]) {
      DigitRunIsMaximal(s, i + 1);
      var n := DigitRun(s, i);
      assert s[i..i + n] == [s[i]] + s[i + 1..i + n];
    }
  }

  /** The capture groups of `(\d*)d(\d+)(([+\-*\/])?(\d+))?`: group 1 (the
      count), group 2 (the die size) and group 3 (operator and value). */
  datatype Captures = Captures(count: string, dieSize: string, modifier: Option<string>)

  /** A well-formed modifier capture: one operator followed by digits. */
  predicate IsModifierText(m: string)
  {
    |m| >= 2 && IsOperator(m[0]) && AllDigits(m[1..])
  }

  /** The optional group 3 at position e: an operator followed by the
      whole digit run after it, or absent when no digit follows. */
  function ModifierAt(s: string, e: nat): (r: Option<string>)
    requires e <= |s|
    ensures r.Some? ==> |r.value| >= 2 && IsOperator(r.value[0])
  {
    if e < |s| && IsOperator(s[e]) && DigitRun(s, e + 1) > 0
    then Some(s[e..e + 1 + DigitRun(s, e + 1)])
    else None
  }

  /** The regex matched at position p. Greedy `\d*` takes the whole digit run
      (a shorter run would leave a digit where 'd' is needed), greedy `\d+`
      takes the whole run after 'd', so the optional group 3 is present
      exactly when an operator and at least one digit follow. */
  function MatchAt(s: string, p: nat): (r: Option<Captures>)
    requires p <= |s|
    ensures r.Some? && r.value.modifier.Some? ==>
              |r.value.modifier.value| >= 2 && IsOperator(r.value.modifier.value[0])
  {
    var q := p + DigitRun(s, p);
    if q < |s| && s[q] == 'd' && DigitRun(s, q + 1) > 0 then
      var e := q + 1 + DigitRun(s, q + 1);
      Some(Captures(s[p..q], s[q + 1..e], ModifierAt(s, e)))
    else None
  }

  /** A present group 3 is an operator followed by digits. */
  lemma ModifierAtIsModifierText(s: string, e: nat)
    requires e <= |s| && ModifierAt(s, e).Some?
    ensures IsModifierText(ModifierAt(s, e).value)
  {
    DigitRunIsMaximal(s, e + 1);
    var f := e + 1 + DigitRun(s, e + 1);
    assert ModifierAt(s, e).value[1..] == s[e + 1..f];
  }

  /** Every group of a match is a run of digits (behind the operator for
      group 3), and the die size is not empty. */
  lemma MatchGroupsAreDigits(s: string, p: nat)
    requires p <= |s| && MatchAt(s, p).Some?
    ensures var c := MatchAt(s, p).value;
      && AllDigits(c.count) && AllDigits(c.dieSize) && |c.dieSize| >= 1
      && (c.modifier.Some? ==> IsModifierText(c.modifier.value))
  {
    var q := p + DigitRun(s, p);
    var e := q + 1 + DigitRun(s, q + 1);
    assert MatchAt(s, p).value == Captures(s[p..q], s[q + 1..e], ModifierAt(s, e));
    DigitRunIsMaximal(s, p);
    DigitRunIsMaximal(s, q + 1);
    if ModifierAt(s, e).Some? {
      ModifierAtIsModifierText(s, e);
    }
  }

  /** The leftmost position from p on where the unanchored regex matches. */
  function FirstMatch(s: string, p: nat): (r: Option<nat>)
    requires p <= |s|
    ensures r.Some? ==> p <= r.value <= |s| && MatchAt(s, r.value).Some?
    ensures r.Some? ==> forall k :: p <= k < r.value ==> MatchAt(s, k).None?
    ensures r.None? ==> forall k :: p <= k <= |s| ==> MatchAt(s, k).None?
    decreases |s| - p
  {
    if MatchAt(s, p).Some? then Some(p)
    else if p == |s| then None
    else FirstMatch(s, p + 1)
  }

  /** `re.captures(s)`: the groups of the leftmost match, or None. */
  function CapturesOf(s: string): (r: Option<Captures>)
    ensures r.Some? && r.value.modifier.Some? ==>
              |r.value.modifier.value| >= 2 && IsOperator(r.value.modifier.value[0])
  {
    match FirstMatch(s, 0)
    case None => None
    case Some(p) => MatchAt(s, p)
  }

  /** `str::parse::<i32>()` of text without a sign: a non-empty run of
      digits whose value fits an i32. */
  function ParseI32(t: string): (r: Option<i32>)
    ensures r.Some? ==> r.value >= 0
  {
    if t == [] || !AllDigits(t) || DecimalValue(t) > I32_MAX then None else Some(DecimalValue(t))
  }

  /** `to_string` and `parse` are inverse on the non-negative i32 values. */
  lemma ParseI32OfToString(n: int)
    requires 0 <= n <= I32_MAX
    ensures ParseI32(NatToString(n)) == Some(n)
  {
    NatToStringRoundTrip(n);
  }

  /** The values `roll_dice` reads from the captures (:41-45). */
  datatype ParsedDice = ParsedDice(
    numDice: i32, dieSize: i32, modifier: string, operator: char, value: i32)

  /** Lines 38-45: sanitise, match, and parse the groups. An omitted count
      leaves group 1 empty, which does not parse. */
  function Parse(expression: string): (r: Result<ParsedDice, Panic>)
    ensures r.Ok? ==> r.value.numDice >= 0 && r.value.dieSize >= 0 && r.value.value >= 0
    ensures r.Ok? ==> |r.value.modifier| >= 2 && r.value.modifier[0] == r.value.operator
    ensures r.Ok? ==> IsOperator(r.value.operator)
  {
    match CapturesOf(RemoveSpaces(expression))
    case None => Err(NoMatch)
    case Some(c) => ParseGroups(c)
  }

  /** Lines 41-45: the `parse` of each group, in order. */
  function ParseGroups(c: Captures): (r: Result<ParsedDice, Panic>)
    requires c.modifier.Some? ==> |c.modifier.value| >= 2 && IsOperator(c.modifier.value[0])
    ensures r.Ok? ==> r.value.numDice >= 0 && r.value.dieSize >= 0 && r.value.value >= 0
    ensures r.Ok? ==> |r.value.modifier| >= 2 && r.value.modifier[0] == r.value.operator
    ensures r.Ok? ==> IsOperator(r.value.operator)
  {
    match ParseI32(c.count)
    case None => Err(CountNotANumber)
    case Some(n) =>
      match ParseI32(c.dieSize)
      case None => Err(DieSizeNotANumber)
      case Some(m) =>
        match c.modifier
        case None => Ok(ParsedDice(n, m, "+0", '+', 0))
        case Some(t) =>
          match ParseI32(t[1..])
          case None => Err(ModifierNotANumber)
          case Some(v) => Ok(ParsedDice(n, m, t, t[0], v))
  }

  // ---------------------------------------------------------------------------
  // Drawing, modifying and classifying
  // ---------------------------------------------------------------------------

  /** `rng.gen_range(1..die_size)`: a raw word mapped into the half-open
      range [1, die_size). */
  function Draw(dieSize: int, word: nat): (d: int)
    requires dieSize > 1
    ensures 1 <= d <= dieSize - 1
  {
    1 + word % (dieSize - 1)
  }

  /** The sum of the first n draws. */
  function SumOfDraws(n: nat, dieSize: int, rng: nat -> nat): (sum: int)
    requires dieSize > 1
    ensures sum >= n
  {
    if n == 0 then 0 else SumOfDraws(n - 1, dieSize, rng) + Draw(dieSize, rng(n - 1))
  }

  /** The match on the operator (:53-59) with i32 overflow checks. The total
      and the value are never negative here, so `-` cannot overflow and `/`
      truncates as Euclidean division does. */
  function ApplyModifier(total: int, operator: char, value: int): (r: Result<i32, Panic>)
    requires 0 <= total <= I32_MAX && 0 <= value <= I32_MAX
    ensures r.Err? ==> r.error == Overflow || r.error == DivisionByZero
    ensures r.Err? && r.error == DivisionByZero <==> operator == '/' && value == 0
    ensures operator == '-' ==> r == Ok(total - value)
    ensures !IsOperator(operator) ==> r == Ok(total)
  {
    if operator == '+' then
      if total + value > I32_MAX then Err(Overflow) else Ok(total + value)
    else if operator == '-' then Ok(total - value)
    else if operator == '*' then
      if total * value > I32_MAX then Err(Overflow) else Ok(total * value)
    else if operator == '/' then
      if value == 0 then Err(DivisionByZero) else Ok(TruncDiv(total, value))
    else Ok(total)
  }

  /** The unclamped total after the loop and the modifier (:47-59). The loop
      panics at its first draw when the range is empty, and at the first
      partial sum that overflows; partial sums only grow, so that happens
      exactly when the full sum does not fit an i32. */
  function RawTotal(p: ParsedDice, rng: nat -> nat): (r: Result<i32, Panic>)
    requires p.numDice >= 0 && p.value >= 0
    ensures r.Err? && r.error == EmptyRange <==> p.numDice > 0 && p.dieSize <= 1
    ensures r.Err? ==> r.error in {EmptyRange, Overflow, DivisionByZero}
  {
    if p.numDice == 0 then ApplyModifier(0, p.operator, p.value)
    else if p.dieSize <= 1 then Err(EmptyRange)
    else
      var sum := SumOfDraws(p.numDice, p.dieSize, rng);
      if sum > I32_MAX then Err(Overflow)
      else
        SumOfDrawsBounds(p.numDice, p.dieSize, rng);
        ApplyModifier(sum, p.operator, p.value)
  }

  /** `cmp::max(total, 0)`. */
  function ClampAtZero(total: i32): i32
  {
    if total < 0 then 0 else total
  }

  /** Lines 61-65: pass/fail is decided on the unclamped total, the reported
      total is clamped at zero. */
  function Classify(total: i32, difficultyCheck: i32, modifier: string): (r: DiceRollResult)
    ensures r.Success? <==> total >= difficultyCheck
    ensures r.total >= 0 && (total >= 0 ==> r.total == total) && (total < 0 ==> r.total == 0)
    ensures r.difficultyCheck == difficultyCheck && r.modifier == modifier
  {
    if total >= difficultyCheck
    then Success(ClampAtZero(total), difficultyCheck, modifier)
    else Failure(ClampAtZero(total), difficultyCheck, modifier)
  }

  /** What `roll_dice(dice_expression, difficulty_check)` does. */
  function RollSpec(diceExpression: string, difficultyCheck: i32, rng: nat -> nat): Roll
  {
    match Parse(diceExpression)
    case Err(e) => Panicked(e)
    case Ok(p) => RollParsed(p, difficultyCheck, rng)
  }

  /** The roll once the expression has been parsed. */
  function RollParsed(p: ParsedDice, difficultyCheck: i32, rng: nat -> nat): Roll
    requires p.numDice >= 0 && p.value >= 0
  {
    match RawTotal(p, rng)
    case Err(e) => Panicked(e)
    case Ok(t) => Rolled(Classify(t, difficultyCheck, p.modifier))
  }

  /** `roll_dice`, step by step as the source runs it. */
  method RollDice(diceExpression: string, difficultyCheck: i32, rng: nat -> nat) returns (r: Roll)
    ensures r == RollSpec(diceExpression, difficultyCheck, rng)
  {
    var parsed := Parse(diceExpression);
    if parsed.Err? {
      return Panicked(parsed.error);
    }
    r := RollParsedDice(parsed.value, difficultyCheck, rng);
  }

  /** The body of `roll_dice` after the groups are parsed: the draw loop,
      the modifier and the classification. */
  method RollParsedDice(p: ParsedDice, difficultyCheck: i32, rng: nat -> nat) returns (r: Roll)
    requires p.numDice >= 0 && p.value >= 0
    ensures r == RollParsed(p, difficultyCheck, rng)
  {
    var total: int := 0;
    var i: int := 0;
    while i < p.numDice
      invariant 0 <= i <= p.numDice
      invariant i > 0 ==> p.dieSize > 1
      invariant i > 0 ==> total == SumOfDraws(i, p.dieSize, rng)
      invariant i == 0 ==> total == 0
      invariant 0 <= total <= I32_MAX
      invariant i > 0 ==> i <= total
    {
      if p.dieSize <= 1 {
        return Panicked(EmptyRange);
      }
      var draw := Draw(p.dieSize, rng(i));
      if total + draw > I32_MAX {
        SumOfDrawsMonotone(i + 1, p.numDice, p.dieSize, rng);
        return Panicked(Overflow);
      }
      total := total + draw;
      i := i + 1;
    }
    ghost var sum := total;
    assert RawTotal(p, rng) == ApplyModifier(sum, p.operator, p.value);
    if p.operator == '+' {
      if total + p.value > I32_MAX {
        return Panicked(Overflow);
      }
      total := total + p.value;
    } else if p.operator == '-' {
      total := total - p.value;
    } else if p.operator == '*' {
      if total * p.value > I32_MAX {
        return Panicked(Overflow);
      }
      total := total * p.value;
    } else if p.operator == '/' {
      if p.value == 0 {
        return Panicked(DivisionByZero);
      }
      total := TruncDiv(total, p.value);
    }
    assert ApplyModifier(sum, p.operator, p.value) == Ok(total);
    if total >= difficultyCheck {
      r := Rolled(Success(if total < 0 then 0 else total, difficultyCheck, p.modifier));
    } else {
      r := Rolled(Failure(if total < 0 then 0 else total, difficultyCheck, p.modifier));
    }
  }

  // ---------------------------------------------------------------------------
  // Properties
  // ---------------------------------------------------------------------------

  /** Partial sums of draws never decrease. */
  lemma {:induction false} SumOfDrawsMonotone(i: nat, j: nat, dieSize: int, rng: nat -> nat)
    requires dieSize > 1 && i <= j
    ensures SumOfDraws(i, dieSize, rng) <= SumOfDraws(j, dieSize, rng)
    decreases j - i
  {
    if i < j {
      SumOfDrawsMonotone(i, j - 1, dieSize, rng);
    }
  }

  /** Every draw lies in [1, die_size - 1], so n draws sum to a value in
      [n, n * (die_size - 1)]. */
  lemma {:induction false} SumOfDrawsBounds(n: nat, dieSize: int, rng: nat -> nat)
    requires dieSize > 1
    ensures n <= SumOfDraws(n, dieSize, rng) <= n * (dieSize - 1)
  {
    if n > 0 {
      SumOfDrawsBounds(n - 1, dieSize, rng);
      assert n * (dieSize - 1) == (n - 1) * (dieSize - 1) + (dieSize - 1);
    }
  }

  /** The result reports the clamped total and the given difficulty check,
      and is a Success exactly when the unclamped total reaches the check. */
  lemma RollClassification(diceExpression: string, difficultyCheck: i32, rng: nat -> nat)
    requires RollSpec(diceExpression, difficultyCheck, rng).Rolled?
    ensures Parse(diceExpression).Ok?
    ensures RawTotal(Parse(diceExpression).value, rng).Ok?
    ensures
      var t := RawTotal(Parse(diceExpression).value, rng).value;
      var res := RollSpec(diceExpression, difficultyCheck, rng).result;
      && res.total >= 0
      && res.total == (if t < 0 then 0 else t)
      && res.difficultyCheck == difficultyCheck
      && (res.Success? <==> t >= difficultyCheck)
      && res.modifier == Parse(diceExpression).value.modifier
  {
  }

  /** The modifier text is the matched operator-and-digits substring, or
      "+0" when the expression has no modifier clause. */
  lemma ModifierText(diceExpression: string, difficultyCheck: i32, rng: nat -> nat)
    requires RollSpec(diceExpression, difficultyCheck, rng).Rolled?
    ensures var m := RollSpec(diceExpression, difficultyCheck, rng).result.modifier;
      var c := CapturesOf(RemoveSpaces(diceExpression));
      && c.Some?
      && (c.value.modifier.None? ==> m == "+0")
      && (c.value.modifier.Some? ==> m == c.value.modifier.value && IsModifierText(m))
  {
  }

  /** Without a modifier clause the operator is '+' with value 0, so the
      total is the plain sum of the draws. */
  lemma NoModifierKeepsSum(p: ParsedDice, rng: nat -> nat)
    requires p.numDice >= 1 && p.dieSize > 1 && p.operator == '+' && p.value == 0
    requires SumOfDraws(p.numDice, p.dieSize, rng) <= I32_MAX
    ensures RawTotal(p, rng) == Ok(SumOfDraws(p.numDice, p.dieSize, rng))
    ensures p.numDice <= RawTotal(p, rng).value <= p.numDice * (p.dieSize - 1)
  {
    SumOfDrawsBounds(p.numDice, p.dieSize, rng);
  }

  /** With zero dice no draw happens: the sum is 0 whatever the generator. */
  lemma ZeroDiceDrawNothing(p: ParsedDice, rng1: nat -> nat, rng2: nat -> nat)
    requires p.numDice == 0 && p.value >= 0
    ensures RawTotal(p, rng1) == RawTotal(p, rng2) == ApplyModifier(0, p.operator, p.value)
  {
  }
  /** Euclidean division by a positive number is monotone. */
  lemma DivMonotone(x: int, y: int, v: int)
    requires 0 <= x <= y && v > 0
    ensures x / v <= y / v
  {
    var t := y / v - x / v;
    assert v * t == (y - y % v) - (x - x % v);
    if t <= -1 {
      MulAtLeast(v, -t);
    }
  }

  /** Multiplication by a non-negative number is monotone. */
  lemma MulMonotone(x: int, y: int, v: int)
    requires 0 <= x <= y && v >= 0
    ensures x * v <= y * v
  {
    assert y * v == x * v + (y - x) * v;
  }

  /** Every modifier is monotone in the sum it is applied to, and a larger
      sum that does not fail means no smaller one fails. */
  lemma ApplyModifierMonotone(x: int, y: int, operator: char, value: int)
    requires 0 <= x <= y <= I32_MAX && 0 <= value <= I32_MAX
    requires ApplyModifier(y, operator, value).Ok?
    ensures ApplyModifier(x, operator, value).Ok?
    ensures ApplyModifier(x, operator, value).value <= ApplyModifier(y, operator, value).value
  {
    if operator == '*' {
      MulMonotone(x, y, value);
    } else if operator == '/' {
      DivMonotone(x, y, value);
    }
  }

  /** With at least one die the total lies between the modifier applied to
      the smallest sum N and to the largest sum N * (die_size - 1); when the
      largest fails the check every roll fails, and when the smallest passes
      every roll passes. */
  lemma RollParsedBetween(p: ParsedDice, difficultyCheck: i32, rng: nat -> nat)
    requires p.numDice >= 1 && p.dieSize > 1 && p.value >= 0
    requires p.numDice * (p.dieSize - 1) <= I32_MAX
    requires ApplyModifier(p.numDice * (p.dieSize - 1), p.operator, p.value).Ok?
    ensures ApplyModifier(p.numDice, p.operator, p.value).Ok?
    ensures
      var lo := ApplyModifier(p.numDice, p.operator, p.value).value;
      var hi := ApplyModifier(p.numDice * (p.dieSize - 1), p.operator, p.value).value;
      var r := RollParsed(p, difficultyCheck, rng);
      && r.Rolled?
      && ClampAtZero(lo) <= r.result.total <= ClampAtZero(hi)
      && (hi < difficultyCheck ==> r.result.Failure?)
      && (lo >= difficultyCheck ==> r.result.Success?)
      && r.result.difficultyCheck == difficultyCheck && r.result.modifier == p.modifier
  {
    var sum := SumOfDraws(p.numDice, p.dieSize, rng);
    SumOfDrawsBounds(p.numDice, p.dieSize, rng);
    assert p.numDice <= p.numDice * (p.dieSize - 1);
    ApplyModifierMonotone(sum, p.numDice * (p.dieSize - 1), p.operator, p.value);
    ApplyModifierMonotone(p.numDice, sum, p.operator, p.value);
    assert RawTotal(p, rng) == ApplyModifier(sum, p.operator, p.value);
  }

  // ---------------------------------------------------------------------------
  // Matching lemmas
  // ---------------------------------------------------------------------------

  /** Removing spaces distributes over concatenation. */
  lemma {:induction false} RemoveSpacesAppend(a: string, b: string)
    ensures RemoveSpaces(a + b) == RemoveSpaces(a) + RemoveSpaces(b)
  {
    if a == [] {
      assert a + b == b;
    } else {
      assert (a + b)[1..] == a[1..] + b;
      RemoveSpacesAppend(a[1..], b);
    }
  }

  /** A space anywhere in the expression changes nothing. */
  lemma SpacesAreIgnored(a: string, b: string, difficultyCheck: i32, rng: nat -> nat)
    ensures RollSpec(a + " " + b, difficultyCheck, rng) == RollSpec(a + b, difficultyCheck, rng)
  {
    RemoveSpacesAppend(a + " ", b);
    RemoveSpacesAppend(a, " ");
    RemoveSpacesAppend(a, b);
    assert RemoveSpaces(" ") == [];
    assert RemoveSpaces(a + " " + b) == RemoveSpaces(a + b);
    assert Parse(a + " " + b) == Parse(a + b);
  }

  /** The digit run of a known length. */
  lemma {:induction false} DigitRunOfLength(s: string, i: nat, k: nat)
    requires i + k <= |s|
    requires forall j :: i <= j < i + k ==> IsDigit(s[j])
    requires i + k == |s| || !IsDigit(s[i + k])
    ensures DigitRun(s, i) == k
    decreases k
  {
    if k > 0 {
      DigitRunOfLength(s, i + 1, k - 1);
    }
  }

  /** A match at position 0 is the leftmost one. */
  lemma CapturesAtStart(s: string, c: Captures)
    requires ' ' !in s && MatchAt(s, 0) == Some(c)
    ensures CapturesOf(RemoveSpaces(s)) == Some(c)
  {
  }

  /** The match at p when the digit runs around the 'd' are known. */
  lemma MatchAtRuns(s: string, p: nat, q: nat, e: nat)
    requires p <= q && q + 1 < e <= |s| && s[q] == 'd'
    requires DigitRun(s, p) == q - p && DigitRun(s, q + 1) == e - q - 1
    ensures MatchAt(s, p) == Some(Captures(s[p..q], s[q + 1..e], ModifierAt(s, e)))
  {
  }

  /** Group 3 when the digit run after the operator is known. */
  lemma ModifierAtRun(s: string, e: nat, f: nat)
    requires e + 1 < f <= |s| && IsOperator(s[e])
    requires DigitRun(s, e + 1) == f - e - 1
    ensures ModifierAt(s, e) == Some(s[e..f])
  {
  }

  /** An expression with the count on 0 .. d, 'd' at d, the die size on
      d + 1 .. e and an operator at e followed by the value on e + 1 .. f:
      the groups are those three slices. */
  lemma ParseWithModifier(s: string, d: nat, e: nat, f: nat)
    requires ' ' !in s && d + 1 < e && e + 1 < f <= |s| && s[d] == 'd' && IsOperator(s[e])
    requires DigitRun(s, 0) == d && DigitRun(s, d + 1) == e - d - 1
    requires DigitRun(s, e + 1) == f - e - 1
    ensures CapturesOf(RemoveSpaces(s)) == Some(Captures(s[0..d], s[d + 1..e], Some(s[e..f])))
  {
    MatchAtRuns(s, 0, d, e);
    ModifierAtRun(s, e, f);
    CapturesAtStart(s, Captures(s[0..d], s[d + 1..e], Some(s[e..f])));
  }

  /** As above with no operator-and-digits clause after the die size. */
  lemma ParseWithoutModifier(s: string, d: nat, e: nat)
    requires ' ' !in s && d + 1 < e <= |s| && s[d] == 'd'
    requires DigitRun(s, 0) == d && DigitRun(s, d + 1) == e - d - 1
    requires e < |s| ==> !IsOperator(s[e]) || DigitRun(s, e + 1) == 0
    ensures CapturesOf(RemoveSpaces(s)) == Some(Captures(s[0..d], s[d + 1..e], None))
  {
    MatchAtRuns(s, 0, d, e);
    assert ModifierAt(s, e) == None;
    CapturesAtStart(s, Captures(s[0..d], s[d + 1..e], None));
  }

  /** With the count omitted ("d20") group 1 is empty and `parse` panics. */
  lemma OmittedCountPanics(m: string, rest: string, difficultyCheck: i32, rng: nat -> nat)
    requires AllDigits(m) && |m| >= 1
    requires ' ' !in "d" + m + rest
    ensures RollSpec("d" + m + rest, difficultyCheck, rng) == Panicked(CountNotANumber)
  {
    var s := "d" + m + rest;
    DigitRunOfLength(s, 0, 0);
    assert s[1] == m[0];
  }

  /** `parse` of a one-character digit string. */
  lemma ParseOneDigit(c: char)
    requires IsDigit(c)
    ensures ParseI32([c]) == Some(DigitValue(c))
  {
    assert [c][..0] == [];
    assert AllDigits([c]);
    assert DecimalValue([c]) == DigitValue(c);
  }

  /** `parse` of a two-character digit string. */
  lemma ParseTwoDigits(c: char, c2: char)
    requires IsDigit(c) && IsDigit(c2)
    ensures ParseI32([c, c2]) == Some(DigitValue(c) * 10 + DigitValue(c2))
  {
    assert [c, c2][..1] == [c];
    ParseOneDigit(c);
    assert AllDigits([c, c2]);
    assert DecimalValue([c, c2]) == DecimalValue([c]) * 10 + DigitValue(c2);
  }

  /** "XdYoZ..." with one-digit count, die size and value, where the text
      after Z does not continue the value. */
  lemma ParseOneDigitEach(s: string, n: int, m: int, v: int)
    requires |s| >= 5 && IsDigit(s[0]) && s[1] == 'd' && IsDigit(s[2]) && IsOperator(s[3])
    requires IsDigit(s[4]) && (|s| == 5 || !IsDigit(s[5])) && ' ' !in s
    requires n == DigitValue(s[0]) && m == DigitValue(s[2]) && v == DigitValue(s[4])
    ensures Parse(s) == Ok(ParsedDice(n, m, s[3..5], s[3], v))
  {
    assert DigitRun(s, 5) == 0;
    assert DigitRun(s, 4) == 1;
    assert DigitRun(s, 2) == 1;
    assert DigitRun(s, 0) == 1;
    ParseWithModifier(s, 1, 3, 5);
    assert s[0..1] == [s[0]] && s[2..3] == [s[2]] && s[3..5][1..] == [s[4]];
    ParseOneDigit(s[0]);
    ParseOneDigit(s[2]);
    ParseOneDigit(s[4]);
  }

  /** "XdYYoZ..." with a two-digit die size. */
  lemma ParseTwoDigitDie(s: string, n: int, m: int, v: int)
    requires |s| >= 6 && IsDigit(s[0]) && s[1] == 'd' && IsDigit(s[2]) && IsDigit(s[3])
    requires IsOperator(s[4]) && IsDigit(s[5]) && (|s| == 6 || !IsDigit(s[6])) && ' ' !in s
    requires n == DigitValue(s[0]) && m == DigitValue(s[2]) * 10 + DigitValue(s[3]) && v == DigitValue(s[5])
    ensures Parse(s) == Ok(ParsedDice(n, m, s[4..6], s[4], v))
  {
    assert DigitRun(s, 6) == 0;
    assert DigitRun(s, 5) == 1;
    assert DigitRun(s, 3) == 1;
    assert DigitRun(s, 2) == 2;
    assert DigitRun(s, 0) == 1;
    ParseWithModifier(s, 1, 4, 6);
    assert s[0..1] == [s[0]] && s[2..4] == [s[2], s[3]] && s[4..6][1..] == [s[5]];
    ParseOneDigit(s[0]);
    ParseTwoDigits(s[2], s[3]);
    ParseOneDigit(s[5]);
  }

  /** "XdY" with nothing after it: no modifier clause. */
  lemma ParseNoModifier(s: string, n: int, m: int)
    requires |s| == 3 && IsDigit(s[0]) && s[1] == 'd' && IsDigit(s[2])
    requires n == DigitValue(s[0]) && m == DigitValue(s[2])
    ensures Parse(s) == Ok(ParsedDice(n, m, "+0", '+', 0))
  {
    assert DigitRun(s, 3) == 0;
    assert DigitRun(s, 2) == 1;
    assert DigitRun(s, 0) == 1;
    ParseWithoutModifier(s, 1, 3);
    assert s[0..1] == [s[0]] && s[2..3] == [s[2]];
    ParseOneDigit(s[0]);
    ParseOneDigit(s[2]);
  }
}

/** The expressions used by the tests of `roll_dice` (dice_roller.rs:68-190). */
module DiceRollerExamples {

  import opened Wrappers
  import opened Numbers
  import opened DiceRoller

  lemma ParseAddition()
    ensures Parse("2d6+5") == Ok(ParsedDice(2, 6, "+5", '+', 5))
  {
    var s := "2d6+5";
    assert s[3..5] == "+5";
    ParseOneDigitEach(s, 2, 6, 5);
  }

  lemma ParseMultiplication()
    ensures Parse("2d6*5") == Ok(ParsedDice(2, 6, "*5", '*', 5))
  {
    var s := "2d6*5";
    assert s[3..5] == "*5";
    ParseOneDigitEach(s, 2, 6, 5);
  }

  lemma ParseSubtraction()
    ensures Parse("2d6-5") == Ok(ParsedDice(2, 6, "-5", '-', 5))
  {
    var s := "2d6-5";
    assert s[3..5] == "-5";
    ParseOneDigitEach(s, 2, 6, 5);
  }

  lemma ParseDivision()
    ensures Parse("2d20/5") == Ok(ParsedDice(2, 20, "/5", '/', 5))
  {
    var s := "2d20/5";
    assert s[4..6] == "/5";
    ParseTwoDigitDie(s, 2, 20, 5);
  }

  /** Text after the first match is ignored: "2d6+5+5" parses as "2d6+5". */
  lemma TrailingTextIgnored()
    ensures Parse("2d6+5+5") == Parse("2d6+5")
  {
    var s := "2d6+5+5";
    assert s[3..5] == "+5";
    ParseOneDigitEach(s, 2, 6, 5);
    ParseAddition();
  }

  /** Test at :83-105: "2d6+5" is two draws in [1, 5] plus 5, a total in
      [7, 15], inside the bounds [7, 17] the test asserts. */
  lemma RollAddition(rng: nat -> nat)
    ensures var r := RollSpec("2d6+5", 10, rng);
      && r.Rolled? && 7 <= r.result.total <= 15
      && r.result.difficultyCheck == 10 && r.result.modifier == "+5"
  {
    assert ApplyModifier(2, '+', 5) == Ok(7) && ApplyModifier(10, '+', 5) == Ok(15);
    RollParsedBetween(ParsedDice(2, 6, "+5", '+', 5), 10, rng);
    ParseAddition();
  }

  /** Test at :110-132: "2d6*5" gives a total in [10, 50], inside [10, 60]. */
  lemma RollMultiplication(rng: nat -> nat)
    ensures var r := RollSpec("2d6*5", 10, rng);
      && r.Rolled? && 10 <= r.result.total <= 50
      && r.result.difficultyCheck == 10 && r.result.modifier == "*5"
  {
    assert ApplyModifier(2, '*', 5) == Ok(10) && ApplyModifier(10, '*', 5) == Ok(50);
    RollParsedBetween(ParsedDice(2, 6, "*5", '*', 5), 10, rng);
    ParseMultiplication();
  }

  /** Test at :137-159: "2d6-5" has an unclamped total in [-3, 5], so the
      reported total is in [0, 5], inside [0, 10], and always a Failure. */
  lemma RollSubtraction(rng: nat -> nat)
    ensures var r := RollSpec("2d6-5", 10, rng);
      && r.Rolled? && r.result.Failure? && 0 <= r.result.total <= 5
      && r.result.difficultyCheck == 10 && r.result.modifier == "-5"
  {
    assert ApplyModifier(2, '-', 5) == Ok(-3) && ApplyModifier(10, '-', 5) == Ok(5);
    RollParsedBetween(ParsedDice(2, 6, "-5", '-', 5), 10, rng);
    ParseSubtraction();
  }

  /** Test at :164-188: "2d20/5" is two draws in [1, 19] divided by 5, a total
      in [0, 7], inside [0, 8]. */
  lemma RollDivision(rng: nat -> nat)
    ensures var r := RollSpec("2d20/5", 10, rng);
      && r.Rolled? && r.result.Failure? && 0 <= r.result.total <= 7
      && r.result.difficultyCheck == 10 && r.result.modifier == "/5"
  {
    assert ApplyModifier(2, '/', 5) == Ok(0) && ApplyModifier(38, '/', 5) == Ok(7);
    RollParsedBetween(ParsedDice(2, 20, "/5", '/', 5), 10, rng);
    ParseDivision();
  }

  /** Test at :74-79: "2d6" has no modifier clause, so the text is "+0". */
  lemma RollPlain(rng: nat -> nat)
    ensures var r := RollSpec("2d6", 10, rng);
      && r.Rolled? && 2 <= r.result.total <= 10 && r.result.modifier == "+0"
  {
    assert ApplyModifier(2, '+', 0) == Ok(2) && ApplyModifier(10, '+', 0) == Ok(10);
    RollParsedBetween(ParsedDice(2, 6, "+0", '+', 0), 10, rng);
    ParseNoModifier("2d6", 2, 6);
  }

  /** "1d1": the range 1..1 is empty, so `gen_range` panics. */
  lemma DieOfOnePanics(rng: nat -> nat)
    ensures RollSpec("1d1", 10, rng) == Panicked(EmptyRange)
  {
    ParseNoModifier("1d1", 1, 1);
  }

  /** "0d6" against 1: no draw, total 0, a Failure. */
  lemma ZeroDice(rng: nat -> nat)
    ensures RollSpec("0d6", 1, rng) == Rolled(Failure(0, 1, "+0"))
  {
    ParseNoModifier("0d6", 0, 6);
  }

  /** "1d6/0": dividing by zero panics. */
  lemma DivisionByZeroPanics(rng: nat -> nat)
    ensures RollSpec("1d6/0", 1, rng) == Panicked(DivisionByZero)
  {
    var s := "1d6/0";
    assert s[3..5] == "/0";
    SumOfDrawsBounds(1, 6, rng);
    ParseOneDigitEach(s, 1, 6, 0);
  }
}
