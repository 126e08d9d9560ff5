/**
 * The duration argument grammar: `y, mo, w, d, h, m, s`, each optional, each
 * at most once and in this order, each written as a number followed by the
 * unit key and one of its suffix forms; a trailing number without a unit is
 * seconds. Parsing sums coefficient * unit-seconds per present component and
 * checks an optional `[minimum, maximum)` range; completion proposes the units
 * that may follow a trailing bare number.
 */
module DurationArgumentType {
  import opened Wrappers
  import opened JavaLang

  /** The scale keys in canonical (and suggestion) order. */
  const SCALES: seq<string> := ["y", "mo", "w", "d", "h", "m", "s"]

  /** ChronoUnit durations in seconds: a year is 365.2425 days, a month a twelfth of it. */
  const UNIT_SECONDS: seq<nat> := [31556952, 2629746, 604800, 86400, 3600, 60, 1]

  const SECONDS_INDEX: nat := 6

  /** Every spelling the pattern accepts after the number of component u. */
  function UnitTokens(u: nat): seq<string>
    requires u < 7
  {
    [ ["y", "ys", "year", "years"],
      ["mo", "mos", "month", "months"],
      ["w", "ws", "week", "weeks"],
      ["d", "ds", "day", "days"],
      ["h", "hs", "hr", "hrs", "hour", "hours"],
      ["m", "ms", "min", "mins", "minute", "minutes"],
      ["s", "ss", "sec", "secs", "second", "seconds"] ][u]
  }

  /** Which component a unit token belongs to: the first whose spellings include it. */
  function UnitOf(tok: string): (r: Option<nat>)
    ensures r.Some? ==> r.value < 7
  {
    UnitFrom(tok, 0)
  }

  function UnitFrom(tok: string, u: nat): (r: Option<nat>)
    requires u <= 7
    ensures r.Some? ==> u <= r.value < 7
    decreases 7 - u
  {
    if u == 7 then None else if tok in UnitTokens(u) then Some(u) else UnitFrom(tok, u + 1)
  }

  lemma {:induction false} UnitFromSpec(tok: string, u: nat)
    requires u <= 7
    ensures UnitFrom(tok, u).Some? ==> tok in UnitTokens(UnitFrom(tok, u).value)
    ensures UnitFrom(tok, u).None? ==> forall v :: u <= v < 7 ==> tok !in UnitTokens(v)
    decreases 7 - u
  {
    if u < 7 && tok !in UnitTokens(u) {
      UnitFromSpec(tok, u + 1);
    }
  }

  /** No spelling belongs to two components. */
  lemma TokensDisjoint(u: nat, v: nat, tok: string)
    requires u < v < 7 && tok in UnitTokens(u)
    ensures tok !in UnitTokens(v)
  {
    if u == 5 { assert tok in ["m", "ms", "min", "mins", "minute", "minutes"]; }
  }

  /** A token is recognised as unit u exactly when it is one of the spellings of u. */
  lemma UnitOfToken(u: nat, tok: string)
    requires u < 7
    ensures UnitOf(tok) == Some(u) <==> tok in UnitTokens(u)
  {
    UnitFromSpec(tok, 0);
    var r := UnitOf(tok);
    if r.Some? && r.value < u && tok in UnitTokens(u) { TokensDisjoint(r.value, u, tok); }
    if r.Some? && r.value > u && tok in UnitTokens(u) { TokensDisjoint(u, r.value, tok); }
  }

  /** Length of the longest prefix of s made of digits. */
  function DigitRun(s: string): (n: nat)
    ensures n <= |s| && AllDigits(s[..n])
    ensures n < |s| ==> !IsDigit(s[n])
  {
    if s == [] || !IsDigit(s[0]) then 0
    else var n := 1 + DigitRun(s[1..]); assert s[..n] == [s[0]] + s[1..][..n - 1]; n
  }

  /** Length of the longest prefix of s made of non-digits. */
  function NonDigitRun(s: string): (n: nat)
    ensures n <= |s|
    ensures forall k :: 0 <= k < n ==> !IsDigit(s[k])
    ensures n < |s| ==> IsDigit(s[n])
  {
    if s == [] || IsDigit(s[0]) then 0 else 1 + NonDigitRun(s[1..])
  }

  /** Length of the text `\d+(\.\d+)?` matches at the start of s, if any. */
  function NumberLength(s: string): (r: Option<nat>)
    ensures r.Some? ==> 0 < r.value <= |s| && IsNumber(s[..r.value])
    ensures r.Some? && r.value < |s| ==> !IsDigit(s[r.value])
  {
    var a := DigitRun(s);
    if a == 0 then None
    else if a < |s| && s[a] == '.' && DigitRun(s[a + 1..]) > 0 then
      var b := DigitRun(s[a + 1..]);
      assert s[..a + 1 + b][..a] == s[..a];
      assert s[..a + 1 + b][a + 1..] == s[a + 1..][..b];
      Some(a + 1 + b)
    else
      assert s[..a][..a] == s[..a];
      Some(a)
  }

  /** Text matched by `\d+(\.\d+)?` as a whole. */
  predicate IsNumber(t: string) {
    var a := DigitRun(t);
    a > 0 && (a == |t| || (t[a] == '.' && a + 1 < |t| && AllDigits(t[a + 1..])))
  }

  /** One component of the pattern: its number group and its unit group (`Matcher.group(2i-1)`, `group(2i)`). */
  datatype Slot = Slot(number: Option<string>, unit: Option<string>)

  /** What a matched component u looks like: a unit group only beside a number, always the unit key, and only
      the seconds component may have a number without a unit. */
  predicate SlotShape(sl: Slot, u: nat) {
    && u < 7
    && (sl.number.None? ==> sl.unit.None?)
    && (sl.number.Some? ==> IsNumber(sl.number.value))
    && (sl.unit.Some? ==> sl.unit.value == SCALES[u])
    && (sl.number.Some? && u < SECONDS_INDEX ==> sl.unit.Some?)
  }

  predicate Shaped(slots: seq<Slot>, first: nat) {
    forall k :: 0 <= k < |slots| ==> SlotShape(slots[k], first + k)
  }

  function Absent(n: nat): (r: seq<Slot>)
    ensures |r| == n && forall k :: 0 <= k < n ==> r[k] == Slot(None, None)
  {
    seq(n, _ => Slot(None, None))
  }

  /** One component as the pattern reads it: a number, the run of non-digits after it, and what follows. */
  datatype Lexeme = Lexeme(number: string, token: string, tail: string)

  function Lex(s: string): (r: Option<Lexeme>)
    ensures r.Some? ==> IsNumber(r.value.number) && |r.value.tail| < |s|
    ensures r.Some? ==> r.value.tail == [] || IsDigit(r.value.tail[0])
  {
    match NumberLength(s)
    case None => None
    case Some(k) =>
      var rest := s[k..];
      var j := NonDigitRun(rest);
      Some(Lexeme(s[..k], rest[..j], rest[j..]))
  }

  /** The anchored DURATION_PATTERN applied to s, for components first..6. A unit token runs from the end of a
      number to the next digit (no token contains a digit, and every component starts with one). */
  function MatchFrom(s: string, first: nat): (r: Option<seq<Slot>>)
    requires first <= 7
    ensures r.Some? ==> |r.value| == 7 - first && Shaped(r.value, first)
    decreases |s|
  {
    if s == [] then Some(Absent(7 - first))
    else match Lex(s)
      case None => None
      case Some(x) =>
        if x.token == [] then
          if x.tail == [] && first <= SECONDS_INDEX then
            ShapedBare(first, x.number);
            Some(Absent(SECONDS_INDEX - first) + [Slot(Some(x.number), None)])
          else None
        else match UnitOf(x.token)
          case None => None
          case Some(u) =>
            if u < first then None else Placed(first, u, x.number, MatchFrom(x.tail, u + 1))
  }

  /** Components first..u-1 absent, component u the number with its unit key, then the later components. */
  function Placed(first: nat, u: nat, num: string, later: Option<seq<Slot>>): (r: Option<seq<Slot>>)
    requires first <= u < 7 && IsNumber(num)
    requires later.Some? ==> |later.value| == 6 - u && Shaped(later.value, u + 1)
    ensures r.Some? ==> |r.value| == 7 - first && Shaped(r.value, first)
  {
    match later
    case None => None
    case Some(g) =>
      ShapedConcat(first, u, num, g);
      Some(Absent(u - first) + [Slot(Some(num), Some(SCALES[u]))] + g)
  }

  lemma ShapedConcat(first: nat, u: nat, num: string, g: seq<Slot>)
    requires first <= u < 7 && IsNumber(num) && |g| == 6 - u && Shaped(g, u + 1)
    ensures Shaped(Absent(u - first) + [Slot(Some(num), Some(SCALES[u]))] + g, first)
  {
    var r := Absent(u - first) + [Slot(Some(num), Some(SCALES[u]))] + g;
    forall k | 0 <= k < |r| ensures SlotShape(r[k], first + k) {
      if k > u - first { assert r[k] == g[k - (u - first) - 1]; }
    }
  }

  lemma ShapedBare(first: nat, num: string)
    requires first <= SECONDS_INDEX && IsNumber(num)
    ensures Shaped(Absent(SECONDS_INDEX - first) + [Slot(Some(num), None)], first)
  {
  }

  /** The whole-input match; None when the pattern does not match. */
  function Match(s: string): (r: Option<seq<Slot>>)
    ensures r.Some? ==> |r.value| == 7 && Shaped(r.value, 0)
  {
    MatchFrom(s, 0)
  }

  /** Matcher.group(1), ..., Matcher.group(2 * |slots|): number and unit group of each component in turn. */
  function Groups(slots: seq<Slot>): (gs: seq<Option<string>>)
    ensures |gs| == 2 * |slots|
  {
    seq(2 * |slots|, k requires 0 <= k < 2 * |slots| => if k % 2 == 0 then slots[k / 2].number else slots[k / 2].unit)
  }

  /** Matcher.group(i) for 1 <= i <= 14. */
  function Group(slots: seq<Slot>, i: nat): Option<string>
    requires |slots| == 7 && 1 <= i <= 14
  {
    Groups(slots)[i - 1]
  }

  lemma GroupsCons(slots: seq<Slot>)
    requires |slots| > 0
    ensures Groups(slots) == [slots[0].number, slots[0].unit] + Groups(slots[1..])
  {
    var a := Groups(slots);
    var b := [slots[0].number, slots[0].unit] + Groups(slots[1..]);
    assert |a| == |b|;
    forall k | 2 <= k < |a| ensures a[k] == b[k] {
      assert (k - 2) % 2 == k % 2 && (k - 2) / 2 == k / 2 - 1;
    }
  }

  lemma GroupsOfSlot(slots: seq<Slot>, i: nat)
    requires |slots| == 7 && 1 <= i <= 7
    ensures Group(slots, i * 2 - 1) == slots[i - 1].number
    ensures Group(slots, i * 2) == slots[i - 1].unit
  {
    assert (i * 2 - 2) % 2 == 0 && (i * 2 - 2) / 2 == i - 1;
    assert (i * 2 - 1) % 2 == 1 && (i * 2 - 1) / 2 == i - 1;
  }

  function Pow10(e: nat): (r: nat)
    ensures r >= 1
  {
    if e == 0 then 1 else 10 * Pow10(e - 1)
  }

  /** A matched number as mantissa / 10^exponent. */
  datatype Decimal = Decimal(mantissa: nat, exponent: nat)

  function DecimalOf(t: string): (d: Decimal)
    requires IsNumber(t)
    ensures AllDigits(t) ==> d == Decimal(DigitsValue(t), 0)
  {
    var a := DigitRun(t);
    if a == |t| then assert t[..a] == t; Decimal(DigitsValue(t), 0)
    else
      var frac := t[a + 1..];
      assert !AllDigits(t) by { assert !IsDigit(t[a]); }
      Decimal(DigitsValue(t[..a]) * Pow10(|frac|) + DigitsValue(frac), |frac|)
  }

  /** Math.round(coefficient * unitSeconds) computed exactly: floor(x + 1/2) of the rational product. */
  function RoundedProduct(d: Decimal, unitSeconds: nat): nat {
    var p := Pow10(d.exponent);
    var product: nat := NatProduct(d.mantissa, unitSeconds);
    NatQuotient(2 * product + p, 2 * p)
  }

  function NatProduct(a: nat, b: nat): (r: nat)
    ensures r == a * b
  {
    a * b
  }

  function NatQuotient(a: nat, b: nat): (r: nat)
    requires b > 0
    ensures r == a / b
  {
    a / b
  }

  lemma RoundedProductWhole(n: nat, unitSeconds: nat)
    ensures RoundedProduct(Decimal(n, 0), unitSeconds) == n * unitSeconds
  {
    var x := n * unitSeconds;
    assert 2 * x + 1 == 2 * x + 1;
    assert (2 * x + 1) / 2 == x;
  }

  /** SCALES.getOrDefault(unitGroup, SECONDS), in seconds. */
  function KeySeconds(unit: Option<string>): (r: nat)
    ensures unit.Some? ==> forall u :: 0 <= u < 7 && unit.value == SCALES[u] ==> r == UNIT_SECONDS[u]
  {
    if unit == Some("y") then UNIT_SECONDS[0]
    else if unit == Some("mo") then UNIT_SECONDS[1]
    else if unit == Some("w") then UNIT_SECONDS[2]
    else if unit == Some("d") then UNIT_SECONDS[3]
    else if unit == Some("h") then UNIT_SECONDS[4]
    else if unit == Some("m") then UNIT_SECONDS[5]
    else UNIT_SECONDS[6]
  }

  predicate WellFormed(slots: seq<Slot>) {
    forall k :: 0 <= k < |slots| ==> slots[k].number.Some? ==> IsNumber(slots[k].number.value)
  }

  /** Seconds contributed by one component. */
  function SlotSeconds(sl: Slot): nat
    requires sl.number.Some? ==> IsNumber(sl.number.value)
  {
    if sl.number.None? then 0 else RoundedProduct(DecimalOf(sl.number.value), KeySeconds(sl.unit))
  }

  /** Sum of the components, accumulated from the first component on. */
  function SlotsSeconds(slots: seq<Slot>): nat
    requires WellFormed(slots)
  {
    if slots == [] then 0 else SlotsSeconds(slots[..|slots| - 1]) + SlotSeconds(slots[|slots| - 1])
  }

  lemma {:induction false} SlotsSecondsAppend(a: seq<Slot>, b: seq<Slot>)
    requires WellFormed(a) && WellFormed(b)
    ensures WellFormed(a + b) && SlotsSeconds(a + b) == SlotsSeconds(a) + SlotsSeconds(b)
    decreases |b|
  {
    if b != [] {
      assert (a + b)[..|a + b| - 1] == a + b[..|b| - 1];
      SlotsSecondsAppend(a, b[..|b| - 1]);
    } else {
      assert a + b == a;
    }
  }

  lemma {:induction false} SlotsSecondsAbsent(n: nat)
    ensures WellFormed(Absent(n)) && SlotsSeconds(Absent(n)) == 0
  {
    if n > 0 {
      assert Absent(n)[..n - 1] == Absent(n - 1);
      SlotsSecondsAbsent(n - 1);
    }
  }

  datatype ParseError =
    | UnknownArgument                  // dispatcherUnknownArgument: empty or not matching
    | TooSmall(found: int, min: int)   // DURATION_TOO_SMALL, rendered with shortDuration in the message
    | TooBig(found: int, max: int)     // DURATION_TOO_BIG

  /** What parse returns for the token `input` with the given bounds. */
  function ParseSpec(input: string, minimum: Option<int>, maximum: Option<int>): (r: Result<int, ParseError>)
    ensures ToLower(input) == [] ==> r == Err(UnknownArgument)
    ensures Match(ToLower(input)).None? ==> r == Err(UnknownArgument)
    ensures r.Ok? ==> r.value >= 0
    ensures r.Ok? ==> (minimum.Some? ==> minimum.value <= r.value) && (maximum.Some? ==> r.value < maximum.value)
    ensures r.Err? && r.error.TooSmall? ==> minimum.Some? && r.error.found < minimum.value && r.error.min == minimum.value
    ensures r.Err? && r.error.TooBig? ==> maximum.Some? && r.error.found >= maximum.value && r.error.max == maximum.value
  {
    var lower := ToLower(input);
    if lower == [] then Err(UnknownArgument)
    else match Match(lower)
      case None => Err(UnknownArgument)
      case Some(slots) =>
        var duration := SlotsSeconds(slots);
        if minimum.Some? && duration < minimum.value then Err(TooSmall(duration, minimum.value))
        else if maximum.Some? && duration >= maximum.value then Err(TooBig(duration, maximum.value))
        else Ok(duration)
  }

  /** The bounds only filter the unbounded parse: the minimum is inclusive and the maximum exclusive, a
      duration below the minimum is too small and one at or above the maximum too big, each carrying the
      duration found, and any other result is the unbounded one unchanged. */
  lemma BoundsFilter(input: string, minimum: Option<int>, maximum: Option<int>)
    ensures var u := ParseSpec(input, None, None);
            var r := ParseSpec(input, minimum, maximum);
            && (u.Err? ==> r == u)
            && (u.Ok? ==>
                  if minimum.Some? && u.value < minimum.value then r == Err(TooSmall(u.value, minimum.value))
                  else if maximum.Some? && u.value >= maximum.value then r == Err(TooBig(u.value, maximum.value))
                  else r == u)
  {
    var lower := ToLower(input);
    if lower != [] && Match(lower).Some? {
      assert ParseSpec(input, None, None) == Ok(SlotsSeconds(Match(lower).value));
    }
  }

  /** DurationArgumentType.parse for an argument whose token is the whole input. */
  method Parse(input: string, minimum: Option<int>, maximum: Option<int>) returns (r: Result<int, ParseError>)
    ensures r == ParseSpec(input, minimum, maximum)
  {
    var lower := ToLower(input);
    if lower == [] {
      return Err(UnknownArgument);
    }
    var matched := Match(lower);
    if matched.None? {
      return Err(UnknownArgument);
    }
    var duration := SumComponents(matched.value);
    if minimum.Some? && duration < minimum.value {
      return Err(TooSmall(duration, minimum.value));
    }
    if maximum.Some? && duration >= maximum.value {
      return Err(TooBig(duration, maximum.value));
    }
    return Ok(duration);
  }

  /** The loop of parse over the seven components: each present number times the seconds of its unit. */
  method SumComponents(slots: seq<Slot>) returns (duration: nat)
    requires |slots| == 7 && WellFormed(slots)
    ensures duration == SlotsSeconds(slots)
  {
    duration := 0;
    for i := 1 to 8
      invariant duration == SlotsSeconds(slots[..i - 1])
    {
      assert slots[..i][..i - 1] == slots[..i - 1];
      GroupsOfSlot(slots, i);
      var current := Group(slots, i * 2 - 1);
      if current.None? {
        continue;
      }
      var scale := KeySeconds(Group(slots, i * 2));
      duration := duration + RoundedProduct(DecimalOf(current.value), scale);
    }
    assert slots[..7] == slots;
  }

  // ---------------------------------------------------------------------------
  // listSuggestions

  /** How many of the groups did not participate in the match. */
  function CountNone(gs: seq<Option<string>>): nat {
    if gs == [] then 0 else (if gs[0].None? then 1 else 0) + CountNone(gs[1..])
  }

  /** The scale key nearest the end of gs: the value the reverse loop leaves in lastScale. */
  function LastScale(gs: seq<Option<string>>): Option<string> {
    if gs == [] then None
    else
      var later := LastScale(gs[1..]);
      if later.Some? then later
      else if gs[0].Some? && gs[0].value in SCALES then gs[0]
      else None
  }

  /** ImmutableList.indexOf, with -1 for an absent (or null) element. */
  function IndexOf(keys: seq<string>, key: Option<string>): (r: int)
    ensures -1 <= r < |keys|
    ensures r >= 0 ==> key == Some(keys[r])
    ensures r == -1 ==> key.None? || key.value !in keys
  {
    if key.None? || key.value !in keys then -1
    else if keys[0] == key.value then 0
    else 1 + IndexOf(keys[1..], key)
  }

  /** The suggestions listSuggestions builds for the remaining input. */
  function SuggestionsSpec(remaining: string): seq<string> {
    var current := ToLower(remaining);
    match Match(current)
    case None => []
    case Some(slots) => SuggestionsOf(current, slots)
  }

  /** The suggestions for a matched input: only after a trailing number without a unit, the units after the
      last scale key present. */
  function SuggestionsOf(current: string, slots: seq<Slot>): seq<string> {
    if CountNone(Groups(slots)) % 2 == 1 then UnitsFrom(current, IndexOf(SCALES, LastScale(Groups(slots))) + 1)
    else []
  }

  /** input + SCALES[k] for every k from index on, in canonical order. */
  function UnitsFrom(current: string, index: nat): (r: seq<string>)
    requires index <= 7
    ensures |r| == 7 - index
    ensures forall k :: 0 <= k < |r| ==> r[k] == current + SCALES[index + k]
  {
    seq(7 - index, k requires 0 <= k < 7 - index => current + SCALES[index + k])
  }

  /** The reverse loop over the groups: how many are null, and the scale key nearest the end. */
  method CountGroups(gs: seq<Option<string>>) returns (nullGroups: nat, lastScale: Option<string>)
    ensures nullGroups == CountNone(gs) && lastScale == LastScale(gs)
  {
    nullGroups := 0;
    lastScale := None;
    var i := |gs|;
    while i > 0
      invariant 0 <= i <= |gs|
      invariant nullGroups == CountNone(gs[i..])
      invariant lastScale == LastScale(gs[i..])
    {
      var currentGroup := gs[i - 1];
      assert gs[i - 1..][1..] == gs[i..];
      if currentGroup.None? {
        nullGroups := nullGroups + 1;
      } else if currentGroup.value in SCALES && lastScale.None? {
        lastScale := currentGroup;
      }
      i := i - 1;
    }
    assert gs[0..] == gs;
  }

  /** DurationArgumentType.listSuggestions on the remaining input. */
  method ListSuggestions(remaining: string) returns (suggestions: seq<string>)
    ensures suggestions == SuggestionsSpec(remaining)
  {
    var current := ToLower(remaining);
    var matched := Match(current);
    if matched.Some? {
      suggestions := SuggestFromGroups(current, matched.value);
    } else {
      suggestions := [];
    }
  }

  /** The body of listSuggestions once the input matched: count the null groups, then append the units. */
  method SuggestFromGroups(current: string, slots: seq<Slot>) returns (suggestions: seq<string>)
    ensures suggestions == SuggestionsOf(current, slots)
  {
    var nullGroups, lastScale := CountGroups(Groups(slots));
    suggestions := [];
    if nullGroups % 2 == 1 {
      var index := IndexOf(SCALES, lastScale) + 1;
      for j := index to |SCALES|
        invariant suggestions == UnitsFrom(current, index)[..j - index]
      {
        assert UnitsFrom(current, index)[..j + 1 - index] == UnitsFrom(current, index)[..j - index] + [current + SCALES[j]];
        suggestions := suggestions + [current + SCALES[j]];
      }
      assert UnitsFrom(current, index)[..7 - index] == UnitsFrom(current, index);
    }
  }

  // ---------------------------------------------------------------------------
  // What the suggestions are, in terms of the matched components

  lemma ShapedTail(slots: seq<Slot>, first: nat)
    requires |slots| > 0 && Shaped(slots, first)
    ensures SlotShape(slots[0], first) && Shaped(slots[1..], first + 1)
  {
    assert SlotShape(slots[0], first + 0);
    forall k | 0 <= k < |slots| - 1 ensures SlotShape(slots[1..][k], first + 1 + k) {
      assert SlotShape(slots[k + 1], first + (k + 1));
    }
  }

  /** The first component after the last one written with a unit (0 when none is). */
  function NextUnit(slots: seq<Slot>, first: nat): (n: nat)
    ensures first <= n <= first + |slots|
  {
    if slots == [] then first
    else
      var later := NextUnit(slots[1..], first + 1);
      if later > first + 1 then later else if slots[0].unit.Some? then first + 1 else first
  }

  lemma {:induction false} NextUnitSpec(slots: seq<Slot>, first: nat)
    ensures forall k :: NextUnit(slots, first) - first <= k < |slots| ==> slots[k].unit.None?
    ensures NextUnit(slots, first) > first ==> slots[NextUnit(slots, first) - first - 1].unit.Some?
    decreases |slots|
  {
    if slots != [] {
      NextUnitSpec(slots[1..], first + 1);
      var n := NextUnit(slots, first);
      forall k | n - first <= k < |slots| ensures slots[k].unit.None? {
        if k > 0 { assert slots[k] == slots[1..][k - 1]; }
      }
      if n > first + 1 { assert slots[n - first - 1] == slots[1..][n - (first + 1) - 1]; }
    }
  }

  /** An odd number of null groups means exactly that the input ends in a number without a unit. */
  lemma {:induction false} NullGroupsParity(slots: seq<Slot>, first: nat)
    requires |slots| > 0 && first + |slots| == 7 && Shaped(slots, first)
    ensures CountNone(Groups(slots)) % 2 == 1 <==>
              slots[|slots| - 1].number.Some? && slots[|slots| - 1].unit.None?
    decreases |slots|
  {
    GroupsCons(slots);
    ShapedTail(slots, first);
    var gs := Groups(slots);
    assert gs[1..] == [slots[0].unit] + Groups(slots[1..]);
    assert ([slots[0].unit] + Groups(slots[1..]))[1..] == Groups(slots[1..]);
    var head := (if slots[0].number.None? then 1 else 0) + (if slots[0].unit.None? then 1 else 0);
    assert CountNone(gs) == head + CountNone(Groups(slots[1..]));
    if |slots| > 1 {
      NullGroupsParity(slots[1..], first + 1);
      assert slots[1..][|slots[1..]| - 1] == slots[|slots| - 1];
      assert head == 0 || head == 2;
    } else {
      assert Groups(slots[1..]) == [];
    }
  }

  lemma ScaleKeyIsNotNumber(t: string)
    requires IsNumber(t)
    ensures t !in SCALES
  {
    assert IsDigit(t[..DigitRun(t)][0]);
  }

  /** The scale key the reverse loop keeps is the key of the last component written with a unit. */
  lemma {:induction false} LastScaleOfGroups(slots: seq<Slot>, first: nat)
    requires first + |slots| <= 7 && Shaped(slots, first)
    ensures LastScale(Groups(slots)) ==
              if NextUnit(slots, first) > first then Some(SCALES[NextUnit(slots, first) - 1]) else None
    decreases |slots|
  {
    if slots != [] {
      GroupsCons(slots);
      ShapedTail(slots, first);
      LastScaleOfGroups(slots[1..], first + 1);
      LastScaleCons(slots[0].number, slots[0].unit, Groups(slots[1..]));
      if slots[0].number.Some? { ScaleKeyIsNotNumber(slots[0].number.value); }
    }
  }

  lemma LastScaleCons(a: Option<string>, b: Option<string>, rest: seq<Option<string>>)
    ensures LastScale([a, b] + rest) ==
              if LastScale(rest).Some? then LastScale(rest)
              else if b.Some? && b.value in SCALES then b
              else if a.Some? && a.value in SCALES then a
              else None
  {
    assert ([a, b] + rest)[1..] == [b] + rest;
    assert ([b] + rest)[1..] == rest;
  }

  lemma IndexOfScale(u: nat)
    requires u < 7
    ensures IndexOf(SCALES, Some(SCALES[u])) == u
  {
    var s := SCALES;
    assert s[1..] == ["mo", "w", "d", "h", "m", "s"];
    assert s[2..] == ["w", "d", "h", "m", "s"];
    assert s[3..] == ["d", "h", "m", "s"];
    assert s[4..] == ["h", "m", "s"];
    assert s[5..] == ["m", "s"];
    assert s[6..] == ["s"];
  }

  /** When the input matches, listSuggestions proposes input + unit for exactly the units after the last unit
      present (NextUnitSpec), and only when the input ends in a number without a unit. */
  lemma SuggestionsAfterLastUnit(remaining: string, slots: seq<Slot>)
    requires Match(ToLower(remaining)) == Some(slots)
    ensures SuggestionsSpec(remaining) ==
              if slots[6].number.Some? && slots[6].unit.None? then UnitsFrom(ToLower(remaining), NextUnit(slots, 0))
              else []
  {
    NullGroupsParity(slots, 0);
    SuggestionIndex(slots);
    SuggestionsOfMatch(remaining, slots);
  }

  lemma SuggestionIndex(slots: seq<Slot>)
    requires |slots| == 7 && Shaped(slots, 0)
    ensures IndexOf(SCALES, LastScale(Groups(slots))) + 1 == NextUnit(slots, 0)
  {
    LastScaleOfGroups(slots, 0);
    var n := NextUnit(slots, 0);
    if n > 0 { IndexOfScale(n - 1); }
  }

  lemma SuggestionsOfMatch(remaining: string, slots: seq<Slot>)
    requires Match(ToLower(remaining)) == Some(slots)
    ensures SuggestionsSpec(remaining) ==
              if CountNone(Groups(slots)) % 2 == 1
              then UnitsFrom(ToLower(remaining), IndexOf(SCALES, LastScale(Groups(slots))) + 1)
              else []
  {
    var current := ToLower(remaining);
    var gs := Groups(slots);
    if CountNone(gs) % 2 == 1 {
      assert SuggestionsSpec(remaining) == UnitsFrom(current, IndexOf(SCALES, LastScale(gs)) + 1);
    } else {
      assert SuggestionsSpec(remaining) == [];
    }
  }
}
