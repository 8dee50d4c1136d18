/** `ExpressionContext` (logic/src/utilities/expression_parser.rs): a map from
    variable names to text, `$name` / `${name}` substitution, and the
    calculation pipeline substitute -> extract and roll one `roll(...)` span
    -> replace it -> evaluate -> round.

    Three collaborators are not part of this model and are parameters: the
    roller called on the `roll(...)` text (`roll`), the arithmetic evaluator
    (`eval`), and, inside substitution, nothing else: `subst::substitute` is
    modelled here for the reference forms only. */
module ExpressionParser {

  import opened Wrappers
  import opened Numbers

  // ---------------------------------------------------------------------------
  // Substitution (`subst::substitute`)
  // ---------------------------------------------------------------------------

  /** A character that may appear in a variable name. */
  predicate IsNameChar(c: char)
  {
    'a' <= c <= 'z' || 'A' <= c <= 'Z' || '0' <= c <= '9' || c == '_'
  }

  predicate IsName(name: string)
  {
    |name| >= 1 && forall i :: 0 <= i < |name| ==> IsNameChar(name[i])
  }

  /** The length of the longest prefix of s made of name characters. */
  function NameLength(s: string): (n: nat)
    ensures n <= |s|
  {
    if s != [] && IsNameChar(s[0]) then 1 + NameLength(s[1..]) else 0
  }

  /** The prefix is a name (when not empty) and it cannot be extended. */
  lemma {:induction false} NameLengthIsMaximal(s: string)
    ensures NameLength(s) >= 1 ==> IsName(s[..NameLength(s)])
    ensures NameLength(s) < |s| ==> !IsNameChar(s[NameLength(s)])
  {
    if s != [] && IsNameChar(s[0]) {
      NameLengthIsMaximal(s[1..]);
      var n := NameLength(s);
      assert s[..n] == [s[0]] + s[1..][..n - 1];
    }
  }

  /** A name followed by a character that cannot continue it is read whole. */
  lemma {:induction false} NameLengthOf(name: string, rest: string)
    requires IsName(name) && (rest == [] || !IsNameChar(rest[0]))
    ensures NameLength(name + rest) == |name|
  {
    if |name| == 1 {
      assert (name + rest)[1..] == rest;
    } else {
      assert (name + rest)[1..] == name[1..] + rest;
      NameLengthOf(name[1..], rest);
    }
  }

  /** Why a substitution fails. */
  datatype SubstError =
    | MissingVariableName        // a `$` not followed by a name or by `{name`
    | UnexpectedCharacter        // `${name` followed by something other than `}`
    | MissingClosingBrace        // `${name` at the end of the text
    | NoSuchVariable(name: string)

  /** Puts `p` in front of a successful result. */
  function Prepend(p: string, r: Result<string, SubstError>): Result<string, SubstError>
  {
    match r
    case Ok(t) => Ok(p + t)
    case Err(e) => Err(e)
  }

  /** The value of `name` in front of the rest, or the unbound name. The
      name is looked up before the rest is read, so the leftmost failure is
      the one reported. */
  function Bind(name: string, vars: map<string, string>, rest: Result<string, SubstError>)
    : Result<string, SubstError>
  {
    if name in vars then Prepend(vars[name], rest) else Err(NoSuchVariable(name))
  }

  /** `substitute(s, vars)`: replaces each `$name` (the longest run of name
      characters) and each `${name}` by the variable's value, once, without
      substituting again inside the inserted values. Any other text is
      copied. An unbound name is an error naming it. */
  function Substitute(s: string, vars: map<string, string>): (r: Result<string, SubstError>)
    ensures '$' !in s ==> r == Ok(s)
    ensures r.Err? && r.error.NoSuchVariable? ==> IsName(r.error.name) && r.error.name !in vars
    decreases |s|, 1
  {
    if s == [] then Ok([])
    else if s[0] != '$' then
      assert s == [s[0]] + s[1..];
      Prepend([s[0]], Substitute(s[1..], vars))
    else SubstituteReference(s, vars)
  }

  /** The reference at the front of s (which starts with `$`) and then the
      rest of the text. */
  function SubstituteReference(s: string, vars: map<string, string>): (r: Result<string, SubstError>)
    requires s != [] && s[0] == '$'
    ensures r.Err? && r.error.NoSuchVariable? ==> IsName(r.error.name) && r.error.name !in vars
    decreases |s|, 0
  {
    if |s| >= 2 && s[1] == '{' then
      var t := s[2..];
      var n := NameLength(t);
      NameLengthIsMaximal(t);
      if n == 0 then Err(MissingVariableName)
      else if n == |t| then Err(MissingClosingBrace)
      else if t[n] != '}' then Err(UnexpectedCharacter)
      else Bind(t[..n], vars, Substitute(t[n + 1..], vars))
    else
      var t := s[1..];
      var n := NameLength(t);
      NameLengthIsMaximal(t);
      if n == 0 then Err(MissingVariableName)
      else Bind(t[..n], vars, Substitute(t[n..], vars))
  }

  // ---------------------------------------------------------------------------
  // Templates: an independent description of what substitution produces
  // ---------------------------------------------------------------------------

  /** A piece of a template: plain text, `$name` or `${name}`. */
  datatype Piece = Text(text: string) | Ref(name: string) | BracedRef(name: string)

  /** The text of a template. */
  function Spell(ps: seq<Piece>): string
  {
    if ps == [] then []
    else PieceText(ps[0]) + Spell(ps[1..])
  }

  /** The template with every reference replaced by its value, or the first
      unbound name. */
  function Expand(ps: seq<Piece>, vars: map<string, string>): Result<string, SubstError>
  {
    if ps == [] then Ok([])
    else
      match ps[0]
      case Text(t) => Prepend(t, Expand(ps[1..], vars))
      case Ref(name) => Bind(name, vars, Expand(ps[1..], vars))
      case BracedRef(name) => Bind(name, vars, Expand(ps[1..], vars))
  }

  /** A piece whose text reads back as the piece: text is not empty and
      holds no `$`, and names are names. */
  predicate PieceOk(p: Piece)
  {
    match p
    case Text(t) => t != [] && '$' !in t
    case Ref(name) => IsName(name)
    case BracedRef(name) => IsName(name)
  }

  /** A `$name` is not directly followed by text that would continue it. */
  predicate Separated(p: Piece, q: Piece)
  {
    p.Ref? && q.Text? && q.text != [] ==> !IsNameChar(q.text[0])
  }

  /** A template whose text reads back as its pieces. */
  predicate WellFormed(ps: seq<Piece>)
  {
    ps == [] || (PieceOk(ps[0]) && (|ps| >= 2 ==> Separated(ps[0], ps[1])) && WellFormed(ps[1..]))
  }

  /** A first character other than `$` is copied. */
  lemma SubstituteCopies(s: string, vars: map<string, string>)
    requires s != [] && s[0] != '$'
    ensures Substitute(s, vars) == Prepend([s[0]], Substitute(s[1..], vars))
  {
  }

  /** Plain text in front of the rest is copied. */
  lemma {:induction false} SubstituteText(t: string, rest: string, vars: map<string, string>)
    requires '$' !in t
    ensures Substitute(t + rest, vars) == Prepend(t, Substitute(rest, vars))
  {
    if t == [] {
      assert t + rest == rest;
      match Substitute(rest, vars)
      case Ok(x) =>
        assert [] + x == x;
      case Err(_) =>
    } else {
      var u := t + rest;
      assert u[0] == t[0] && u[1..] == t[1..] + rest;
      assert t[0] != '$' && '$' !in t[1..] by { assert t[0] in t; }
      SubstituteCopies(u, vars);
      SubstituteText(t[1..], rest, vars);
      match Substitute(rest, vars)
      case Ok(x) =>
        assert [t[0]] + (t[1..] + x) == t + x;
      case Err(_) =>
    }
  }

  /** `$name` in front of text that does not continue the name. */
  lemma SubstituteRef(name: string, rest: string, vars: map<string, string>)
    requires IsName(name) && (rest == [] || !IsNameChar(rest[0]))
    ensures Substitute("$" + name + rest, vars) == Bind(name, vars, Substitute(rest, vars))
  {
    var t := ("$" + name + rest)[1..];
    assert t == name + rest;
    NameLengthOf(name, rest);
    assert t[..|name|] == name;
    assert t[|name|..] == rest;
  }

  /** `${name}` in front of any text. */
  lemma SubstituteBracedRef(name: string, rest: string, vars: map<string, string>)
    requires IsName(name)
    ensures Substitute("${" + name + "}" + rest, vars) == Bind(name, vars, Substitute(rest, vars))
  {
    var t := ("${" + name + "}" + rest)[2..];
    assert t == name + ("}" + rest);
    NameLengthOf(name, "}" + rest);
    assert t[..|name|] == name;
    assert t[|name|] == '}';
    assert t[|name| + 1..] == rest;
  }

  /** The text of the first piece. */
  function PieceText(p: Piece): string
  {
    match p
    case Text(t) => t
    case Ref(name) => "$" + name
    case BracedRef(name) => "${" + name + "}"
  }

  /** Substitution meets its reference: the text of a well-formed template
      substitutes to the template's expansion. */
  lemma {:induction false} SubstituteSpelled(ps: seq<Piece>, vars: map<string, string>)
    requires WellFormed(ps)
    ensures Substitute(Spell(ps), vars) == Expand(ps, vars)
  {
    if ps != [] {
      var rest := Spell(ps[1..]);
      assert Spell(ps) == PieceText(ps[0]) + rest;
      SubstituteSpelled(ps[1..], vars);
      match ps[0]
      case Text(t) =>
        SubstituteText(t, rest, vars);
      case Ref(name) =>
        assert rest == [] || !IsNameChar(rest[0]) by {
          if rest != [] {
            assert ps[1..][1..] == ps[2..];
            assert rest == PieceText(ps[1]) + Spell(ps[2..]);
            assert PieceOk(ps[1]) && Separated(ps[0], ps[1]);
            assert PieceText(ps[1]) != [] && rest[0] == PieceText(ps[1])[0];
          }
        }
        SubstituteRef(name, rest, vars);
      case BracedRef(name) =>
        SubstituteBracedRef(name, rest, vars);
    }
  }

  // ---------------------------------------------------------------------------
  // The `roll(...)` span: `.*(?P<roll>roll\(.*\)).*`
  // ---------------------------------------------------------------------------

  /** "roll(" starts at k. */
  predicate RollOpenAt(s: string, k: nat)
  {
    k + 5 <= |s| && s[k] == 'r' && s[k + 1] == 'o' && s[k + 2] == 'l' && s[k + 3] == 'l' && s[k + 4] == '('
  }

  /** No line break in s[i..j] (the regex's `.` does not match '\n'). */
  predicate NoBreak(s: string, i: nat, j: nat)
    requires i <= j <= |s|
  {
    forall t :: i <= t < j ==> s[t] != '\n'
  }

  /** s[k..e] can be the group: "roll(", anything on the same line, ")". */
  predicate SpanAt(s: string, k: nat, e: nat)
  {
    k + 6 <= e <= |s| && RollOpenAt(s, k) && s[e - 1] == ')' && NoBreak(s, k, e)
  }

  /** The end of the line that starts at a: the first '\n' from a, or |s|. */
  function LineEnd(s: string, a: nat): (b: nat)
    requires a <= |s|
    ensures a <= b <= |s| && NoBreak(s, a, b) && (b < |s| ==> s[b] == '\n')
    decreases |s| - a
  {
    if a == |s| || s[a] == '\n' then a else LineEnd(s, a + 1)
  }

  /** The last ')' in s[a..b]. */
  function LastClose(s: string, a: nat, b: nat): (r: Option<nat>)
    requires a <= b <= |s|
    ensures r.Some? ==> a <= r.value < b && s[r.value] == ')'
    ensures r.Some? ==> forall i :: r.value < i < b ==> s[i] != ')'
    ensures r.None? ==> forall i :: a <= i < b ==> s[i] != ')'
    decreases b - a
  {
    if a == b then None
    else if s[b - 1] == ')' then Some(b - 1)
    else LastClose(s, a, b - 1)
  }

  /** The last "roll(" that starts at or after a and ends by c. */
  function LastRollOpen(s: string, a: nat, c: nat): (r: Option<nat>)
    requires a <= c <= |s|
    ensures r.Some? ==> a <= r.value && r.value + 5 <= c && RollOpenAt(s, r.value)
    ensures r.Some? ==> forall k :: r.value < k && k + 5 <= c ==> !RollOpenAt(s, k)
    ensures r.None? ==> forall k :: a <= k && k + 5 <= c ==> !RollOpenAt(s, k)
    decreases c - a
  {
    if c < a + 5 then None
    else if RollOpenAt(s, c - 5) then Some(c - 5)
    else LastRollOpen(s, a, c - 1)
  }

  /** The group within the line s[a..b]: greedy `.*` in front of it makes it
      start at the last "roll(" that a ')' follows, greedy `.*` inside makes
      it end at the last ')'. */
  function SpanInLine(s: string, a: nat, b: nat): (r: Option<(nat, nat)>)
    requires a <= b <= |s| && NoBreak(s, a, b)
    ensures r.Some? ==> a <= r.value.0 && r.value.1 <= b && SpanAt(s, r.value.0, r.value.1)
  {
    match LastClose(s, a, b)
    case None => None
    case Some(c) =>
      match LastRollOpen(s, a, c)
      case None => None
      case Some(k) => Some((k, c + 1))
  }

  /** The group of the leftmost match at or after a: in the first line that
      holds a span. */
  function FindSpan(s: string, a: nat): (r: Option<(nat, nat)>)
    requires a <= |s|
    ensures r.Some? ==> a <= r.value.0 && SpanAt(s, r.value.0, r.value.1)
    decreases |s| - a
  {
    var b := LineEnd(s, a);
    match SpanInLine(s, a, b)
    case Some(span) => Some(span)
    case None => if b < |s| then FindSpan(s, b + 1) else None
  }

  /** `re.captures(text)` and its group "roll", as start and end positions. */
  function RollSpan(s: string): (r: Option<(nat, nat)>)
    ensures r.Some? ==> SpanAt(s, r.value.0, r.value.1)
  {
    FindSpan(s, 0)
  }

  /** What SpanInLine finds, and that nothing else in the line is preferred. */
  lemma SpanInLineIsGreedy(s: string, a: nat, b: nat)
    requires a <= b <= |s| && NoBreak(s, a, b) && (b < |s| ==> s[b] == '\n')
    ensures SpanInLine(s, a, b).None? ==> forall k: nat, e: nat :: a <= k < b && SpanAt(s, k, e) ==> false
    ensures SpanInLine(s, a, b).Some? ==>
      var (k, e) := SpanInLine(s, a, b).value;
      && a <= k && e <= b && SpanAt(s, k, e)
      && forall k': nat, e': nat :: a <= k' < b && SpanAt(s, k', e') ==> k' <= k && e' <= e
  {
    forall k': nat, e': nat | a <= k' < b && SpanAt(s, k', e')
      ensures e' <= b && LastClose(s, a, b).Some? && e' - 1 <= LastClose(s, a, b).value
    {
      assert s[e' - 1] == ')';
    }
  }

  /** Leftmost-first preference between the chosen span (k, e) and another
      span (k', e'): the other one lies in a later line, or in the same line
      and starts and ends no later. */
  predicate Preferred(s: string, k: nat, e: nat, k': nat, e': nat)
    requires k <= |s| && k' <= |s|
  {
    (k' <= k && e' <= e && NoBreak(s, k', k)) || (k < k' && !NoBreak(s, k, k'))
  }

  /** The leftmost-first match: the result (a span, by FindSpan's contract)
      is preferred to every other span from a on; no span at all means no
      match. */
  lemma {:induction false} FindSpanIsLeftmost(s: string, a: nat)
    requires a <= |s|
    ensures FindSpan(s, a).None? ==> forall k: nat, e: nat :: a <= k && SpanAt(s, k, e) ==> false
    ensures FindSpan(s, a).Some? ==>
      var (k, e) := FindSpan(s, a).value;
      forall k': nat, e': nat :: a <= k' && SpanAt(s, k', e') ==> Preferred(s, k, e, k', e')
    decreases |s| - a
  {
    var b := LineEnd(s, a);
    SpanInLineIsGreedy(s, a, b);
    if SpanInLine(s, a, b).Some? {
      assert FindSpan(s, a) == SpanInLine(s, a, b);
      InLinePreferred(s, a, b);
    } else if b < |s| {
      assert FindSpan(s, a) == FindSpan(s, b + 1);
      FindSpanIsLeftmost(s, b + 1);
      forall k': nat, e': nat | a <= k' && SpanAt(s, k', e')
        ensures b + 1 <= k'
      {
      }
    }
  }

  /** A span found in the line [a, b) is preferred to every span from a on. */
  lemma InLinePreferred(s: string, a: nat, b: nat)
    requires a <= b <= |s| && NoBreak(s, a, b) && (b < |s| ==> s[b] == '\n')
    requires SpanInLine(s, a, b).Some?
    ensures
      var (k, e) := SpanInLine(s, a, b).value;
      forall k': nat, e': nat :: a <= k' && SpanAt(s, k', e') ==> Preferred(s, k, e, k', e')
  {
    SpanInLineIsGreedy(s, a, b);
    var (k, e) := SpanInLine(s, a, b).value;
    forall k': nat, e': nat | a <= k' && SpanAt(s, k', e')
      ensures Preferred(s, k, e, k', e')
    {
      if k' >= b {
        assert s[b] == '\n';
        assert !NoBreak(s, k, k');
      }
    }
  }

  /** The same for the whole text. */
  lemma RollSpanIsLeftmost(s: string)
    ensures RollSpan(s).None? <==> forall k: nat, e: nat :: SpanAt(s, k, e) ==> false
    ensures RollSpan(s).Some? ==>
      var (k, e) := RollSpan(s).value;
      && SpanAt(s, k, e)
      && forall k': nat, e': nat :: SpanAt(s, k', e') ==> Preferred(s, k, e, k', e')
  {
    FindSpanIsLeftmost(s, 0);
  }

  // ---------------------------------------------------------------------------
  // Textual replacement (`str::replace`)
  // ---------------------------------------------------------------------------

  /** `from` occurs in s at i. */
  predicate OccursAt(s: string, i: nat, from: string)
  {
    i + |from| <= |s| && s[i..i + |from|] == from
  }

  /** An empty pattern matches before every character and at the end. */
  function InsertEverywhere(s: string, to: string): (r: string)
    ensures |r| == |s| + (|s| + 1) * |to|
  {
    if s == [] then to else to + [s[0]] + InsertEverywhere(s[1..], to)
  }

  /** `s.replace(from, to)`: every occurrence of `from`, taken left to right
      without overlapping, becomes `to`. */
  function Replace(s: string, from: string, to: string): string
    decreases |s|
  {
    if from == [] then InsertEverywhere(s, to)
    else if |s| < |from| then s
    else if s[..|from|] == from then to + Replace(s[|from|..], from, to)
    else [s[0]] + Replace(s[1..], from, to)
  }

  /** Replacing a pattern by itself changes nothing. */
  lemma {:induction false} ReplaceByItself(s: string, from: string)
    ensures Replace(s, from, from) == s
    decreases |s|
  {
    if from == [] {
      InsertNothing(s);
    } else if |s| >= |from| {
      if s[..|from|] == from {
        ReplaceByItself(s[|from|..], from);
        assert s == s[..|from|] + s[|from|..];
      } else {
        ReplaceByItself(s[1..], from);
        assert s == [s[0]] + s[1..];
      }
    }
  }

  lemma {:induction false} InsertNothing(s: string)
    ensures InsertEverywhere(s, []) == s
  {
    if s != [] {
      InsertNothing(s[1..]);
      assert s == [s[0]] + s[1..];
    }
  }

  /** Text in which the pattern does not occur is left as it is. */
  lemma {:induction false} ReplaceAbsent(s: string, from: string, to: string)
    requires from != [] && forall i: nat :: !OccursAt(s, i, from)
    ensures Replace(s, from, to) == s
    decreases |s|
  {
    if |s| >= |from| {
      assert !OccursAt(s, 0, from);
      forall i: nat
        ensures !OccursAt(s[1..], i, from)
      {
        if OccursAt(s[1..], i, from) {
          assert s[1..][i..i + |from|] == s[i + 1..i + 1 + |from|];
          assert OccursAt(s, i + 1, from);
        }
      }
      ReplaceAbsent(s[1..], from, to);
      assert s == [s[0]] + s[1..];
    }
  }

  /** The first occurrence is replaced and the scan goes on after it. */
  lemma {:induction false} ReplaceFirst(a: string, from: string, b: string, to: string)
    requires from != []
    requires forall i: nat :: i < |a| ==> !OccursAt(a + from + b, i, from)
    ensures Replace(a + from + b, from, to) == a + to + Replace(b, from, to)
    decreases |a|
  {
    var s := a + from + b;
    if a == [] {
      assert s == from + b;
      assert s[..|from|] == from && s[|from|..] == b;
    } else {
      assert !OccursAt(s, 0, from);
      assert s[1..] == a[1..] + from + b;
      forall i: nat | i < |a[1..]|
        ensures !OccursAt(a[1..] + from + b, i, from)
      {
        assert !OccursAt(s, i + 1, from);
        assert s[1..][i..i + |from|] == s[i + 1..i + 1 + |from|];
      }
      ReplaceFirst(a[1..], from, b, to);
      assert [a[0]] + (a[1..] + to + Replace(b, from, to)) == a + to + Replace(b, from, to);
    }
  }

  // ---------------------------------------------------------------------------
  // Evaluation and rounding (`eval`, `as_number`, `round() as i64`)
  // ---------------------------------------------------------------------------

  /** An `f64`: a finite value, NaN or an infinity. */
  datatype Float = Finite(x: real) | NaN | Infinite(negative: bool)

  /** The evaluator's value: an integer, a float, or a value that is not a
      number (boolean, string, tuple, empty). */
  datatype Value = IntValue(i: i64) | FloatValue(f: Float) | NonNumber

  /** Why `resolve_calculate` fails. */
  datatype CalcError =
    | Substitution(cause: SubstError)   // `substitute` failed
    | Evaluation(message: string)       // `eval` failed
    | ExpectedNumber                    // `as_number` on a non-number

  /** `as_number`: integers are widened to floats. */
  function AsNumber(v: Value): (r: Result<Float, CalcError>)
    ensures r.Err? <==> v.NonNumber?
  {
    match v
    case IntValue(i) => Ok(Finite(i as real))
    case FloatValue(f) => Ok(f)
    case NonNumber => Err(ExpectedNumber)
  }

  /** `f64::round`: the nearest integer, halves away from zero. */
  function Round(x: real): (n: int)
    ensures x >= 0.0 ==> -0.5 <= x - n as real < 0.5
    ensures x < 0.0 ==> -0.5 < x - n as real <= 0.5
  {
    if x >= 0.0 then (x + 0.5).Floor else -((-x + 0.5).Floor)
  }

  /** Rounding is symmetric about zero and exact on integers. */
  lemma RoundSymmetric(x: real)
    ensures Round(-x) == -Round(x)
    ensures Round(x.Floor as real) == x.Floor
  {
  }

  /** The nearest integer is unique: a non-negative x within a half below
      and less than a half above n rounds to n. */
  lemma RoundNearest(x: real, n: int)
    requires x >= 0.0 && n as real - 0.5 <= x < n as real + 0.5
    ensures Round(x) == n
  {
  }

  /** `as i64` on a float: saturates at the bounds, NaN becomes 0. */
  function ToI64(f: Float): (r: i64)
    ensures f.Finite? && I64_MIN <= Round(f.x) <= I64_MAX ==> r == Round(f.x)
    ensures f.Finite? && Round(f.x) < I64_MIN ==> r == I64_MIN
    ensures f.Finite? && Round(f.x) > I64_MAX ==> r == I64_MAX
    ensures f.NaN? ==> r == 0
    ensures f.Infinite? ==> r == if f.negative then I64_MIN else I64_MAX
  {
    match f
    case Finite(x) =>
      var n := Round(x);
      if n < I64_MIN then I64_MIN else if n > I64_MAX then I64_MAX else n
    case NaN => 0
    case Infinite(negative) => if negative then I64_MIN else I64_MAX
  }

  /** Lines 113-121: evaluate the text, require a number, round it. */
  function Evaluate(text: string, eval: string -> Result<Value, string>): Result<i64, CalcError>
  {
    match eval(text)
    case Err(m) => Err(Evaluation(m))
    case Ok(v) =>
      match AsNumber(v)
      case Err(e) => Err(e)
      case Ok(f) => Ok(ToI64(f))
  }

  /** Lines 101-110: when the text has a `roll(...)` group, every occurrence
      of the group's text is replaced by the decimal text of the roller's
      result on it (the whole group, "roll(" and ")" included, is what the
      roller receives); otherwise the text is unchanged. */
  function ResolveRoll(text: string, roll: string -> int): string
  {
    match RollSpan(text)
    case None => text
    case Some((k, e)) =>
      var group := text[k..e];
      Replace(text, group, IntToString(roll(group)))
  }

  /** `resolve_calculate(expression)`: substitute, resolve the roll, evaluate. */
  function Calculate(expression: string, vars: map<string, string>, roll: string -> int,
                     eval: string -> Result<Value, string>): Result<i64, CalcError>
  {
    match Substitute(expression, vars)
    case Err(e) => Err(Substitution(e))
    case Ok(t) => Evaluate(ResolveRoll(t, roll), eval)
  }

  /** A substitution failure is reported before anything is rolled or
      evaluated: the result does not depend on the roller or the evaluator. */
  lemma SubstitutionFailsFirst(expression: string, vars: map<string, string>,
                               roll1: string -> int, eval1: string -> Result<Value, string>,
                               roll2: string -> int, eval2: string -> Result<Value, string>)
    requires Substitute(expression, vars).Err?
    ensures Calculate(expression, vars, roll1, eval1) == Calculate(expression, vars, roll2, eval2)
    ensures Calculate(expression, vars, roll1, eval1) == Err(Substitution(Substitute(expression, vars).error))
  {
  }

  /** Text without "roll(" reaches the evaluator unchanged, and the roller
      is never called. */
  lemma WithoutRoll(text: string, roll: string -> int)
    requires forall k: nat :: !RollOpenAt(text, k)
    ensures ResolveRoll(text, roll) == text
  {
    RollSpanIsLeftmost(text);
  }

  /** In particular text without an opening parenthesis. */
  lemma WithoutParenthesis(text: string, roll: string -> int)
    requires '(' !in text
    ensures ResolveRoll(text, roll) == text
  {
    forall k: nat
      ensures !RollOpenAt(text, k)
    {
      if k + 5 <= |text| {
        assert text[k + 4] in text;
      }
    }
    WithoutRoll(text, roll);
  }

  /** A roll group that is the only occurrence of its text is replaced by
      the roller's result and the text around it is kept. */
  lemma WithRoll(s: string, a: string, group: string, b: string, roll: string -> int)
    requires s == a + group + b
    requires RollSpan(s) == Some((|a|, |a| + |group|))
    requires forall i: nat :: i < |a| ==> !OccursAt(s, i, group)
    requires forall i: nat :: !OccursAt(b, i, group)
    ensures ResolveRoll(s, roll) == a + IntToString(roll(group)) + b
  {
    assert s[|a|..|a| + |group|] == group;
    ReplaceFirst(a, group, b, IntToString(roll(group)));
    ReplaceAbsent(b, group, IntToString(roll(group)));
  }

  /** The stages of the calculation, one after the other. */
  lemma CalculateStages(expression: string, vars: map<string, string>, roll: string -> int,
                        eval: string -> Result<Value, string>, substituted: string, resolved: string)
    requires Substitute(expression, vars) == Ok(substituted)
    requires ResolveRoll(substituted, roll) == resolved
    ensures Calculate(expression, vars, roll, eval) == Evaluate(resolved, eval)
  {
  }

  /** In a one-line text, a span from the last "roll(" to the last ')' is
      the result. */
  lemma LastSpan(s: string, k: nat, e: nat)
    requires SpanAt(s, k, e) && NoBreak(s, 0, |s|)
    requires forall k': nat :: RollOpenAt(s, k') ==> k' <= k
    requires forall i :: e <= i < |s| ==> s[i] != ')'
    ensures RollSpan(s) == Some((k, e))
  {
    RollSpanIsLeftmost(s);
    var (k0, e0) := RollSpan(s).value;
    assert Preferred(s, k0, e0, k, e);
  }

  /** A pattern cannot occur before itself when the text in front of it
      lacks the pattern's first character. */
  lemma NotBefore(a: string, from: string, b: string)
    requires from != [] && from[0] !in a
    ensures forall i: nat :: i < |a| ==> !OccursAt(a + from + b, i, from)
  {
    var s := a + from + b;
    forall i: nat | i < |a|
      ensures !OccursAt(s, i, from)
    {
      assert s[i] == a[i];
      assert s[i..i + |from|][0] == s[i];
    }
  }

  /** The same with one exception j, where the pattern's character d
      differs from the text's. */
  lemma NotBeforeExcept(s: string, k: nat, from: string, j: nat, d: nat)
    requires from != [] && j < k && d < |from| && j + d < |s| && s[j + d] != from[d]
    requires forall i :: 0 <= i < k && i < |s| && i != j ==> s[i] != from[0]
    ensures forall i: nat :: i < k ==> !OccursAt(s, i, from)
  {
    forall i: nat | i < k
      ensures !OccursAt(s, i, from)
    {
      if i + |from| <= |s| {
        assert s[i..i + |from|][0] == s[i];
        assert s[i..i + |from|][d] == s[i + d];
      }
    }
  }

  /** Nor in a text shorter than itself. */
  lemma TooShort(s: string, from: string)
    requires |s| < |from|
    ensures forall i: nat :: !OccursAt(s, i, from)
  {
  }

  // ---------------------------------------------------------------------------
  // The context
  // ---------------------------------------------------------------------------

  /** `ExpressionContext`: the variables, a `HashMap<String, String>`. */
  class ExpressionContext {

    var data: map<string, string>

    /** `new()`: no variable is bound. */
    constructor ()
      ensures data == map[]
      ensures forall key :: Get(key) == None
    {
      data := map[];
    }

    /** `set(key, value)`: binds key to value, replacing any earlier value,
        and leaves every other binding as it was. */
    method Set(key: string, value: string)
      modifies this
      ensures data == old(data)[key := value]
      ensures Get(key) == Some(value)
      ensures forall k :: k != key ==> Get(k) == old(Get(k))
    {
      data := data[key := value];
    }

    /** `get(key)`: the bound value, or None for a key never set. */
    function Get(key: string): (r: Option<string>)
      reads this
      ensures r.Some? <==> key in data
      ensures r.Some? ==> r.value == data[key]
    {
      if key in data then Some(data[key]) else None
    }

    /** `resolve(expression)`: substitution with this context's variables. */
    function Resolve(expression: string): (r: Result<string, SubstError>)
      reads this
      ensures '$' !in expression ==> r == Ok(expression)
      ensures r.Err? && r.error.NoSuchVariable? ==> Get(r.error.name) == None
    {
      Substitute(expression, data)
    }

    /** `resolve_calculate(expression)` with the roller and evaluator given. */
    function ResolveCalculate(expression: string, roll: string -> int,
                              eval: string -> Result<Value, string>): (r: Result<i64, CalcError>)
      reads this
      ensures Resolve(expression).Err? ==> r == Err(Substitution(Resolve(expression).error))
    {
      Calculate(expression, data, roll, eval)
    }
  }
}

/** The scenarios of the tests of `ExpressionContext`
    (expression_parser.rs:127-202). */
module ExpressionParserExamples {

  import opened Wrappers
  import opened Numbers
  import opened ExpressionParser

  /** Text, `$n`, text, `$g`, text. */
  lemma TwoReferences(a: string, n: string, b: string, g: string, c: string, vars: map<string, string>)
    requires '$' !in a && '$' !in b && '$' !in c
    requires IsName(n) && IsName(g) && n in vars && g in vars
    requires b != [] && !IsNameChar(b[0]) && (c == [] || !IsNameChar(c[0]))
    ensures Substitute(a + ("$" + n + (b + ("$" + g + c))), vars) == Ok(a + (vars[n] + (b + (vars[g] + c))))
  {
    var s3 := "$" + g + c;
    SubstituteRef(g, c, vars);
    assert Substitute(s3, vars) == Ok(vars[g] + c);
    var s2 := b + s3;
    SubstituteText(b, s3, vars);
    assert Substitute(s2, vars) == Ok(b + (vars[g] + c));
    var s1 := "$" + n + s2;
    SubstituteRef(n, s2, vars);
    assert Substitute(s1, vars) == Ok(vars[n] + (b + (vars[g] + c)));
    SubstituteText(a, s1, vars);
    assert Substitute(a + s1, vars) == Ok(a + (vars[n] + (b + (vars[g] + c))));
  }

  /** The variables of the first tests. */
  function Vars(): map<string, string>
  {
    map["name" := "Alice", "age" := "30"]
  }

  /** Test at :132-142. */
  lemma Greeting()
    ensures Substitute("Hello, $name! You are $age years old.", Vars())
            == Ok("Hello, Alice! You are 30 years old.")
  {
    assert IsName("name") && IsName("age");
    TwoReferences("Hello, ", "name", "! You are ", "age", " years old.", Vars());
    GreetingTemplate();
    GreetingText();
  }

  lemma GreetingTemplate()
    ensures "Hello, $name! You are $age years old."
            == "Hello, " + ("$" + "name" + ("! You are " + ("$" + "age" + " years old.")))
  {
  }

  lemma GreetingText()
    ensures "Hello, Alice! You are 30 years old."
            == "Hello, " + ("Alice" + ("! You are " + ("30" + " years old.")))
  {
  }

  /** Text and `${g}` in front of the rest. */
  lemma TextBraced(a: string, g: string, c: string, vars: map<string, string>)
    requires '$' !in a && '$' !in c && IsName(g) && g in vars
    ensures Substitute(a + ("${" + g + "}" + c), vars) == Ok(a + (vars[g] + c))
  {
    SubstituteBracedRef(g, c, vars);
    SubstituteText(a, "${" + g + "}" + c, vars);
  }

  /** `$n`, text, `${g}`. */
  lemma RefTextBraced(n: string, b: string, g: string, vars: map<string, string>)
    requires '$' !in b && b != [] && !IsNameChar(b[0]) && IsName(n) && IsName(g)
    requires n in vars && g in vars
    ensures Substitute("$" + n + (b + ("${" + g + "}")), vars) == Ok(vars[n] + (b + vars[g]))
  {
    TextBraced(b, g, [], vars);
    assert "${" + g + "}" + [] == "${" + g + "}";
    assert vars[g] + [] == vars[g];
    SubstituteRef(n, b + ("${" + g + "}"), vars);
  }

  /** Test at :145-153, given an evaluator that reads "2 + 2" as 4. */
  lemma PlainArithmetic(roll: string -> int, eval: string -> Result<Value, string>)
    requires eval("2 + 2") == Ok(IntValue(4))
    ensures Calculate("2 + 2", Vars(), roll, eval) == Ok(4)
  {
    WithoutParenthesis("2 + 2", roll);
    CalculateStages("2 + 2", Vars(), roll, eval, "2 + 2", "2 + 2");
  }

  lemma AgeSubstituted()
    ensures Substitute("2 + ${age}", Vars()) == Ok("2 + 30")
  {
    assert IsName("age");
    TextBraced("2 + ", "age", "", Vars());
    AgeTexts();
  }

  lemma AgeTexts()
    ensures "2 + ${age}" == "2 + " + ("${" + "age" + "}" + "")
    ensures "2 + 30" == "2 + " + ("30" + "")
  {
  }

  /** Test at :155-164: "2 + ${age}" becomes "2 + 30" before evaluation. */
  lemma ArithmeticWithContext(roll: string -> int, eval: string -> Result<Value, string>)
    requires eval("2 + 30") == Ok(IntValue(32))
    ensures Calculate("2 + ${age}", Vars(), roll, eval) == Ok(32)
  {
    WithoutParenthesis("2 + 30", roll);
    AgeSubstituted();
    CalculateStages("2 + ${age}", Vars(), roll, eval, "2 + 30", "2 + 30");
  }

  /** The roll group of "2 + roll(2d6)" is the text from position 4 on. */
  lemma RollGroupAtEnd(roll: string -> int)
    ensures ResolveRoll("2 + roll(2d6)", roll) == "2 + " + IntToString(roll("roll(2d6)")) + ""
  {
    var s := "2 + roll(2d6)";
    LastSpan(s, 4, 13);
    RollGroupPieces();
    NotBefore("2 + ", "roll(2d6)", "");
    TooShort("", "roll(2d6)");
    WithRoll(s, "2 + ", "roll(2d6)", "", roll);
  }

  lemma RollGroupPieces()
    ensures "2 + roll(2d6)" == "2 + " + "roll(2d6)" + ""
  {
  }

  /** Test at :166-175: with a roller whose 2d6 result lies in [2, 12] and an
      evaluator for "2 + n", the result lies in [4, 14]. */
  lemma ArithmeticWithRoll(roll: string -> int, eval: string -> Result<Value, string>)
    requires 2 <= roll("roll(2d6)") <= 12
    requires forall n :: 2 <= n <= 12 ==> eval("2 + " + IntToString(n) + "") == Ok(IntValue(2 + n))
    ensures Calculate("2 + roll(2d6)", Vars(), roll, eval).Ok?
    ensures 4 <= Calculate("2 + roll(2d6)", Vars(), roll, eval).value <= 14
  {
    var r := roll("roll(2d6)");
    assert '$' !in "2 + roll(2d6)";
    RollGroupAtEnd(roll);
    CalculateStages("2 + roll(2d6)", Vars(), roll, eval, "2 + roll(2d6)", "2 + " + IntToString(r) + "");
    assert eval("2 + " + IntToString(r) + "") == Ok(IntValue(2 + r));
  }

  /** The variables of the last two tests. */
  function Abilities(): map<string, string>
  {
    map["intelligence" := "10", "dexterity" := "10", "luck" := ".7"]
  }

  lemma RollAndContextSubstituted()
    ensures Substitute("$dexterity + roll(2d6) + ${intelligence}", Abilities())
            == Ok("10 + roll(2d6) + 10")
  {
    assert IsName("dexterity") && IsName("intelligence");
    RefTextBraced("dexterity", " + roll(2d6) + ", "intelligence", Abilities());
    RollAndContextTemplate();
    RollAndContextText();
  }

  lemma RollAndContextTemplate()
    ensures "$dexterity + roll(2d6) + ${intelligence}"
            == "$" + "dexterity" + (" + roll(2d6) + " + ("${" + "intelligence" + "}"))
  {
    RollAndContextParts();
    assert "$dexterity" == "$" + "dexterity";
    assert "${intelligence}" == "${" + "intelligence" + "}";
  }

  lemma RollAndContextParts()
    ensures "$dexterity + roll(2d6) + ${intelligence}"
            == "$dexterity" + " + roll(2d6) + " + "${intelligence}"
  {
  }

  lemma RollAndContextText()
    ensures "10 + roll(2d6) + 10" == "10" + (" + roll(2d6) + " + "10")
  {
  }

  lemma RollAndContextResolved(roll: string -> int)
    ensures ResolveRoll("10 + roll(2d6) + 10", roll) == "10 + " + IntToString(roll("roll(2d6)")) + " + 10"
  {
    RollAndContextSpan();
    RollAndContextPieces();
    NotBefore("10 + ", "roll(2d6)", " + 10");
    TooShort(" + 10", "roll(2d6)");
    WithRoll("10 + roll(2d6) + 10", "10 + ", "roll(2d6)", " + 10", roll);
  }

  lemma RollAndContextSpan()
    ensures RollSpan("10 + roll(2d6) + 10") == Some((5, 14))
  {
    LastSpan("10 + roll(2d6) + 10", 5, 14);
  }

  lemma RollAndContextPieces()
    ensures "10 + roll(2d6) + 10" == "10 + " + "roll(2d6)" + " + 10"
  {
  }

  /** Test at :177-188: the roll and both variables, [22, 34]. */
  lemma ArithmeticWithRollAndContext(roll: string -> int, eval: string -> Result<Value, string>)
    requires 2 <= roll("roll(2d6)") <= 12
    requires forall n :: 2 <= n <= 12 ==> eval("10 + " + IntToString(n) + " + 10") == Ok(IntValue(20 + n))
    ensures Calculate("$dexterity + roll(2d6) + ${intelligence}", Abilities(), roll, eval).Ok?
    ensures 22 <= Calculate("$dexterity + roll(2d6) + ${intelligence}", Abilities(), roll, eval).value <= 34
  {
    var r := roll("roll(2d6)");
    RollAndContextSubstituted();
    RollAndContextResolved(roll);
    CalculateStages("$dexterity + roll(2d6) + ${intelligence}", Abilities(), roll, eval,
                    "10 + roll(2d6) + 10", "10 + " + IntToString(r) + " + 10");
    assert eval("10 + " + IntToString(r) + " + 10") == Ok(IntValue(20 + r));
  }

  lemma DecimalsSubstituted()
    ensures Substitute("$intelligence  * ${luck}", Abilities()) == Ok("10  * .7")
  {
    assert IsName("intelligence") && IsName("luck");
    RefTextBraced("intelligence", "  * ", "luck", Abilities());
    DecimalsTexts();
  }

  lemma DecimalsTexts()
    ensures "$intelligence  * ${luck}" == "$" + "intelligence" + ("  * " + ("${" + "luck" + "}"))
    ensures "10  * .7" == "10" + ("  * " + ".7")
  {
  }

  /** An evaluator's finite non-negative float result within a half of n
      gives n. */
  lemma EvaluatesNear(text: string, eval: string -> Result<Value, string>, x: real, n: nat)
    requires eval(text) == Ok(FloatValue(Finite(x)))
    requires n <= I64_MAX && x >= 0.0 && n as real - 0.5 <= x < n as real + 0.5
    ensures Evaluate(text, eval) == Ok(n)
  {
    RoundNearest(x, n);
  }

  lemma DecimalsEvaluated(eval: string -> Result<Value, string>, x: real)
    requires eval("10  * .7") == Ok(FloatValue(Finite(x))) && 6.5 <= x < 7.5
    ensures Evaluate("10  * .7", eval) == Ok(7)
  {
    EvaluatesNear("10  * .7", eval, x, 7);
  }

  /** Test at :190-201: "10  * .7" evaluates to a float near 7, which rounds
      to 7. */
  lemma ArithmeticWithDecimals(roll: string -> int, eval: string -> Result<Value, string>, x: real)
    requires eval("10  * .7") == Ok(FloatValue(Finite(x))) && 6.5 <= x < 7.5
    ensures Calculate("$intelligence  * ${luck}", Abilities(), roll, eval) == Ok(7)
  {
    WithoutParenthesis("10  * .7", roll);
    DecimalsEvaluated(eval, x);
    DecimalsSubstituted();
    CalculateStages("$intelligence  * ${luck}", Abilities(), roll, eval, "10  * .7", "10  * .7");
  }

  /** An unbound variable fails the calculation whatever the roller and the
      evaluator would do. */
  lemma UnboundVariable(roll: string -> int, eval: string -> Result<Value, string>)
    ensures Calculate("2 + $strength", Vars(), roll, eval) == Err(Substitution(NoSuchVariable("strength")))
  {
    var n := "strength";
    assert IsName(n);
    SubstituteRef(n, [], Vars());
    SubstituteText("2 + ", "$" + n + [], Vars());
    UnboundText();
  }

  lemma UnboundText()
    ensures "2 + $strength" == "2 + " + ("$" + "strength" + [])
  {
  }

  /** Only the last roll group of the line is rolled: in
      "roll(1d4) + roll(2d6)" the first one reaches the evaluator as text. */
  lemma LastRollOnly(roll: string -> int)
    ensures ResolveRoll("roll(1d4) + roll(2d6)", roll) == "roll(1d4) + " + IntToString(roll("roll(2d6)")) + ""
  {
    LastRollSpan();
    LastRollPieces();
    LastRollNotBefore();
    TooShort("", "roll(2d6)");
    WithRoll("roll(1d4) + roll(2d6)", "roll(1d4) + ", "roll(2d6)", "", roll);
  }

  lemma LastRollNotBefore()
    ensures forall i: nat :: i < 12 ==> !OccursAt("roll(1d4) + roll(2d6)", i, "roll(2d6)")
  {
    NotBeforeExcept("roll(1d4) + roll(2d6)", 12, "roll(2d6)", 0, 5);
  }

  lemma LastRollSpan()
    ensures RollSpan("roll(1d4) + roll(2d6)") == Some((12, 21))
  {
    LastSpan("roll(1d4) + roll(2d6)", 12, 21);
  }

  lemma LastRollPieces()
    ensures "roll(1d4) + roll(2d6)" == "roll(1d4) + " + "roll(2d6)" + ""
  {
  }

  /** The same through the class: new, set, set, resolve. */
  method GreetingThroughContext() returns (r: Result<string, SubstError>)
    ensures r == Ok("Hello, Alice! You are 30 years old.")
  {
    var context := new ExpressionContext();
    context.Set("name", "Alice");
    context.Set("age", "30");
    assert context.data == Vars();
    r := context.Resolve("Hello, $name! You are $age years old.");
    Greeting();
  }

  /** A later `set` of the same key overwrites, other keys are unaffected,
      and a key never set is absent. */
  method Overwrite() returns (age: Option<string>, name: Option<string>, missing: Option<string>)
    ensures age == Some("31") && name == Some("Alice") && missing == None
  {
    var context := new ExpressionContext();
    context.Set("name", "Alice");
    context.Set("age", "30");
    context.Set("age", "31");
    age := context.Get("age");
    name := context.Get("name");
    missing := context.Get("luck");
  }
}
