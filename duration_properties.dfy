/**
 * Properties that relate the duration parser to concrete inputs and to the short rendering of Utils.
 *
 * A rendering made of whole, non-negative components in canonical order is matched component by component
 * and parses back to the weighted sum of its components. Below four weeks the rendering is exact, so
 * parse(shortDuration(d)) == d; from four weeks on, weeks wrap and amount is lost. The documented
 * listSuggestions examples are derived here from the general characterisation of the suggestions.
 */
module DurationProperties {
  import opened Wrappers
  import opened JavaLang
  import opened DurationArgumentType
  import opened Utils

  predicate NonNegative(cs: seq<int>) {
    forall k :: 0 <= k < |cs| ==> cs[k] >= 0
  }

  /** The text of the non-zero components from `first` on, each as digits followed by its scale key. */
  function RenderFrom(cs: seq<int>, first: nat): string
    requires |cs| == 7 && first <= 7 && NonNegative(cs)
    decreases 7 - first
  {
    if first == 7 then ""
    else (if cs[first] != 0 then NatStr(cs[first]) + SCALES[first] else "") + RenderFrom(cs, first + 1)
  }

  /** The component the pattern reports for an amount c of unit k. */
  function SlotFor(c: nat, k: nat): Slot
    requires k < 7
  {
    if c == 0 then Slot(None, None) else Slot(Some(NatStr(c)), Some(SCALES[k]))
  }

  function SlotsOf(cs: seq<int>, first: nat): (r: seq<Slot>)
    requires |cs| == 7 && first <= 7 && NonNegative(cs)
    ensures |r| == 7 - first && forall i :: 0 <= i < 7 - first ==> r[i] == SlotFor(cs[first + i], first + i)
  {
    seq(7 - first, i requires 0 <= i < 7 - first => SlotFor(cs[first + i], first + i))
  }

  /** Sum of cs[k] * UNIT_SECONDS[k] over the first n components. */
  function Weighted(cs: seq<int>, n: nat): int
    requires n <= |cs| <= 7
  {
    if n == 0 then 0 else Weighted(cs, n - 1) + cs[n - 1] * UNIT_SECONDS[n - 1]
  }

  // ---------------------------------------------------------------------------
  // Scanning rendered text

  lemma {:induction false} DigitRunOfDigits(a: string, b: string)
    requires AllDigits(a) && (b == [] || !IsDigit(b[0]))
    ensures DigitRun(a + b) == |a|
  {
    if a != [] {
      assert (a + b)[1..] == a[1..] + b;
      DigitRunOfDigits(a[1..], b);
    } else {
      assert a + b == b;
    }
  }

  lemma {:induction false} NonDigitRunOfKey(a: string, b: string)
    requires forall k :: 0 <= k < |a| ==> !IsDigit(a[k])
    requires b == [] || IsDigit(b[0])
    ensures NonDigitRun(a + b) == |a|
  {
    if a != [] {
      assert (a + b)[1..] == a[1..] + b;
      NonDigitRunOfKey(a[1..], b);
    } else {
      assert a + b == b;
    }
  }

  lemma NatStrIsNumber(c: nat)
    ensures IsNumber(NatStr(c))
  {
    DigitRunOfDigits(NatStr(c), []);
    assert NatStr(c) + [] == NatStr(c);
  }

  lemma {:induction false} RenderStartsWithDigit(cs: seq<int>, first: nat)
    requires |cs| == 7 && first <= 7 && NonNegative(cs)
    ensures RenderFrom(cs, first) == [] || IsDigit(RenderFrom(cs, first)[0])
    decreases 7 - first
  {
    if first < 7 && cs[first] == 0 {
      RenderStartsWithDigit(cs, first + 1);
    }
  }

  lemma ScaleKeyShape(k: nat)
    requires k < 7
    ensures |SCALES[k]| > 0 && SCALES[k][0] != '.'
    ensures forall i :: 0 <= i < |SCALES[k]| ==> !IsDigit(SCALES[k][i]) && !('A' <= SCALES[k][i] <= 'Z')
    ensures UnitOf(SCALES[k]) == Some(k)
  {
    assert SCALES[k] == UnitTokens(k)[0];
    UnitOfToken(k, SCALES[k]);
  }

  // ---------------------------------------------------------------------------
  // Matching rendered text

  /** A leading component that is absent can be added in front of any successful match. */
  lemma MatchFromShift(s: string, first: nat)
    requires first < 7 && MatchFrom(s, first + 1).Some?
    ensures MatchFrom(s, first) == Some([Slot(None, None)] + MatchFrom(s, first + 1).value)
  {
    if s == [] {
      ShiftEmpty(first);
    } else {
      ShiftLexed(s, first, Lex(s).value);
    }
  }

  lemma ShiftLexed(s: string, first: nat, x: Lexeme)
    requires first < 7 && s != [] && Lex(s) == Some(x) && MatchFrom(s, first + 1).Some?
    ensures MatchFrom(s, first) == Some([Slot(None, None)] + MatchFrom(s, first + 1).value)
  {
    if x.token == [] {
      BareCase(s, first + 1, x);
      ShiftBare(s, first, x);
    } else {
      UnitCase(s, first + 1, x);
      var u := UnitOf(x.token).value;
      ShiftUnit(s, first, x, u, MatchFrom(x.tail, u + 1).value);
    }
  }

  /** What a match starting with a component that has a unit token tells about that token. */
  lemma UnitCase(s: string, first: nat, x: Lexeme)
    requires first <= 7 && s != [] && Lex(s) == Some(x) && x.token != [] && MatchFrom(s, first).Some?
    ensures UnitOf(x.token).Some? && first <= UnitOf(x.token).value
    ensures MatchFrom(x.tail, UnitOf(x.token).value + 1).Some?
  {
  }

  /** What a match starting with a component without a unit token tells about the rest. */
  lemma BareCase(s: string, first: nat, x: Lexeme)
    requires first <= 7 && s != [] && Lex(s) == Some(x) && x.token == [] && MatchFrom(s, first).Some?
    ensures x.tail == [] && first <= SECONDS_INDEX
  {
  }

  lemma ShiftEmpty(first: nat)
    requires first < 7
    ensures MatchFrom([], first) == Some([Slot(None, None)] + MatchFrom([], first + 1).value)
  {
    AbsentCons(7 - first);
  }

  lemma AbsentCons(n: nat)
    requires n > 0
    ensures Absent(n) == [Slot(None, None)] + Absent(n - 1)
  {
  }

  lemma ShiftBare(s: string, first: nat, x: Lexeme)
    requires first < SECONDS_INDEX && s != [] && Lex(s) == Some(x) && x.token == [] && x.tail == []
    ensures MatchFrom(s, first + 1) == Some(Absent(SECONDS_INDEX - (first + 1)) + [Slot(Some(x.number), None)])
    ensures MatchFrom(s, first) == Some([Slot(None, None)] + MatchFrom(s, first + 1).value)
  {
    var b := Slot(Some(x.number), None);
    AbsentCons(SECONDS_INDEX - first);
    assert Absent(SECONDS_INDEX - first) + [b] == [Slot(None, None)] + (Absent(SECONDS_INDEX - (first + 1)) + [b]);
  }

  lemma ShiftUnit(s: string, first: nat, x: Lexeme, u: nat, g: seq<Slot>)
    requires first < u < 7 && s != [] && Lex(s) == Some(x) && x.token != [] && UnitOf(x.token) == Some(u)
    requires MatchFrom(x.tail, u + 1) == Some(g)
    ensures MatchFrom(s, first + 1) == Some(Absent(u - (first + 1)) + [Slot(Some(x.number), Some(SCALES[u]))] + g)
    ensures MatchFrom(s, first) == Some([Slot(None, None)] + MatchFrom(s, first + 1).value)
  {
    MatchLater(s, first + 1, x, u, g);
    MatchLater(s, first, x, u, g);
    PlacedShift(first, u, x.number, g);
  }

  lemma PlacedShift(first: nat, u: nat, num: string, g: seq<Slot>)
    requires first < u < 7 && IsNumber(num) && |g| == 6 - u && Shaped(g, u + 1)
    ensures Placed(first + 1, u, num, Some(g)) == Some(Absent(u - (first + 1)) + [Slot(Some(num), Some(SCALES[u]))] + g)
    ensures Placed(first, u, num, Some(g)) == Some([Slot(None, None)] + Placed(first + 1, u, num, Some(g)).value)
  {
    var c := Slot(Some(num), Some(SCALES[u]));
    AbsentCons(u - first);
    assert Absent(u - first) + [c] + g == [Slot(None, None)] + (Absent(u - (first + 1)) + [c] + g);
  }

  /** The pattern splits a rendering into exactly its components. */
  lemma {:induction false} MatchRender(cs: seq<int>, first: nat)
    requires |cs| == 7 && first <= 7 && NonNegative(cs)
    ensures MatchFrom(RenderFrom(cs, first), first) == Some(SlotsOf(cs, first))
    decreases 7 - first
  {
    if first == 7 {
      assert Absent(0) == [];
    } else {
      MatchRender(cs, first + 1);
      var tail := RenderFrom(cs, first + 1);
      SlotsOfCons(cs, first);
      if cs[first] == 0 {
        MatchFromShift(tail, first);
        assert RenderFrom(cs, first) == tail;
      } else {
        var num := NatStr(cs[first]);
        RenderStartsWithDigit(cs, first + 1);
        MatchComponent(first, num, tail);
        assert RenderFrom(cs, first) == num + SCALES[first] + tail;
        assert SlotFor(cs[first], first) == Slot(Some(num), Some(SCALES[first]));
      }
    }
  }

  lemma SlotsOfCons(cs: seq<int>, first: nat)
    requires |cs| == 7 && first < 7 && NonNegative(cs)
    ensures SlotsOf(cs, first) == [SlotFor(cs[first], first)] + SlotsOf(cs, first + 1)
    ensures RenderFrom(cs, first)
         == (if cs[first] != 0 then NatStr(cs[first]) + SCALES[first] else "") + RenderFrom(cs, first + 1)
  {
    assert SlotsOf(cs, first)[1..] == SlotsOf(cs, first + 1);
  }

  /** A component written as digits and its scale key, followed by a match of the later components. */
  lemma MatchComponent(first: nat, num: string, tail: string)
    requires first < 7 && |num| > 0 && AllDigits(num)
    requires tail == [] || IsDigit(tail[0])
    requires MatchFrom(tail, first + 1).Some?
    ensures MatchFrom(num + SCALES[first] + tail, first)
         == Some([Slot(Some(num), Some(SCALES[first]))] + MatchFrom(tail, first + 1).value)
  {
    ScaleKeyShape(first);
    LexComponent(num, SCALES[first], tail);
    MatchStep(num + SCALES[first] + tail, first, Lexeme(num, SCALES[first], tail), MatchFrom(tail, first + 1).value);
  }

  /** A component written with the unit of slot `first` fills that slot. */
  lemma MatchStep(s: string, first: nat, x: Lexeme, g: seq<Slot>)
    requires first < 7 && s != [] && Lex(s) == Some(x) && x.token != [] && UnitOf(x.token) == Some(first)
    requires MatchFrom(x.tail, first + 1) == Some(g)
    ensures MatchFrom(s, first) == Some([Slot(Some(x.number), Some(SCALES[first]))] + g)
  {
    MatchLater(s, first, x, first, g);
    PlacedSome(first, first, x.number, g);
    AbsentNone(Slot(Some(x.number), Some(SCALES[first])), g);
  }

  /** A whole input whose first component is written with the unit u. */
  lemma MatchFirstLexeme(s: string, x: Lexeme, u: nat, g: seq<Slot>)
    requires u < 7 && s != [] && Lex(s) == Some(x) && x.token != [] && UnitOf(x.token) == Some(u)
    requires MatchFrom(x.tail, u + 1) == Some(g)
    ensures Match(s) == Some(Absent(u) + [Slot(Some(x.number), Some(SCALES[u]))] + g)
  {
    MatchLater(s, 0, x, u, g);
    PlacedSome(0, u, x.number, g);
  }

  lemma PlacedIndex(u: nat, c: Slot, g: seq<Slot>)
    requires u < 7 && |g| == 6 - u
    ensures (Absent(u) + [c] + g)[u] == c
    ensures forall k :: u < k < 7 ==> (Absent(u) + [c] + g)[k] == g[k - u - 1]
  {
  }

  /** The lexeme of a number followed by a unit spelling and nothing else. */
  lemma LexLast(num: string, tok: string)
    requires |num| > 0 && AllDigits(num)
    requires |tok| > 0 && tok[0] != '.' && forall i :: 0 <= i < |tok| ==> !IsDigit(tok[i])
    ensures Lex(num + tok) == Some(Lexeme(num, tok, []))
  {
    LexComponent(num, tok, []);
    assert num + tok + [] == num + tok;
  }

  lemma MatchEmpty(first: nat)
    requires first <= 7
    ensures MatchFrom([], first) == Some(Absent(7 - first))
  {
  }

  lemma AbsentNone(c: Slot, g: seq<Slot>)
    ensures Absent(0) + [c] + g == [c] + g
  {
    assert Absent(0) == [];
  }

  /** One step of the matcher on a component written with the unit u, at or after slot `first`. */
  lemma MatchLater(s: string, first: nat, x: Lexeme, u: nat, g: seq<Slot>)
    requires first <= u < 7 && s != [] && Lex(s) == Some(x) && x.token != [] && UnitOf(x.token) == Some(u)
    requires MatchFrom(x.tail, u + 1) == Some(g)
    ensures MatchFrom(s, first) == Placed(first, u, x.number, Some(g))
  {
  }

  lemma PlacedSome(first: nat, u: nat, num: string, g: seq<Slot>)
    requires first <= u < 7 && IsNumber(num) && |g| == 6 - u && Shaped(g, u + 1)
    ensures Placed(first, u, num, Some(g)) == Some(Absent(u - first) + [Slot(Some(num), Some(SCALES[u]))] + g)
  {
  }

  lemma MatchBare(s: string, first: nat, x: Lexeme)
    requires first <= SECONDS_INDEX && s != [] && Lex(s) == Some(x) && x.token == [] && x.tail == []
    ensures MatchFrom(s, first) == Some(Absent(SECONDS_INDEX - first) + [Slot(Some(x.number), None)])
  {
  }

  lemma LexComponent(num: string, key: string, tail: string)
    requires |num| > 0 && AllDigits(num)
    requires |key| > 0 && key[0] != '.' && forall i :: 0 <= i < |key| ==> !IsDigit(key[i])
    requires tail == [] || IsDigit(tail[0])
    ensures Lex(num + key + tail) == Some(Lexeme(num, key, tail))
  {
    var s := num + key + tail;
    assert s == num + (key + tail);
    DigitRunOfDigits(num, key + tail);
    assert NumberLength(s) == Some(|num|);
    assert s[..|num|] == num && s[|num|..] == key + tail;
    NonDigitRunOfKey(key, tail);
    assert (key + tail)[..|key|] == key && (key + tail)[|key|..] == tail;
  }

  /** The parsed value of the matched components is their weighted sum. */
  lemma {:induction false} SlotsSecondsOfRender(cs: seq<int>, n: nat)
    requires |cs| == 7 && n <= 7 && NonNegative(cs)
    ensures WellFormed(SlotsOf(cs, 0)[..n]) && SlotsSeconds(SlotsOf(cs, 0)[..n]) == Weighted(cs, n)
  {
    var slots := SlotsOf(cs, 0);
    forall k | 0 <= k < 7 && slots[k].number.Some? ensures IsNumber(slots[k].number.value) {
      NatStrIsNumber(cs[k]);
    }
    if n > 0 {
      SlotsSecondsOfRender(cs, n - 1);
      assert slots[..n][..n - 1] == slots[..n - 1];
      var c: nat := cs[n - 1];
      if c != 0 {
        DigitsValueOfNatStr(c);
        RoundedProductWhole(c, UNIT_SECONDS[n - 1]);
        assert KeySeconds(Some(SCALES[n - 1])) == UNIT_SECONDS[n - 1];
      }
    }
  }

  lemma {:induction false} RenderHasNoCapitals(cs: seq<int>, first: nat)
    requires |cs| == 7 && first <= 7 && NonNegative(cs)
    ensures forall i :: 0 <= i < |RenderFrom(cs, first)| ==> !('A' <= RenderFrom(cs, first)[i] <= 'Z')
    decreases 7 - first
  {
    if first < 7 {
      RenderHasNoCapitals(cs, first + 1);
      ScaleKeyShape(first);
    }
  }

  /** A rendering of non-negative components parses (unbounded) to their weighted sum, or fails when it is
      empty. */
  lemma ParseRender(cs: seq<int>)
    requires |cs| == 7 && NonNegative(cs)
    ensures RenderFrom(cs, 0) != [] ==> ParseSpec(RenderFrom(cs, 0), None, None) == Ok(Weighted(cs, 7))
  {
    var s := RenderFrom(cs, 0);
    if s != [] {
      RenderHasNoCapitals(cs, 0);
      ToLowerOfLower(s);
      MatchOfRender(cs);
      SlotsSecondsOfWholeRender(cs);
      UnboundedParseOfMatch(s, SlotsOf(cs, 0));
    }
  }

  lemma MatchOfRender(cs: seq<int>)
    requires |cs| == 7 && NonNegative(cs)
    ensures Match(RenderFrom(cs, 0)) == Some(SlotsOf(cs, 0))
  {
    MatchRender(cs, 0);
  }

  lemma SlotsSecondsOfWholeRender(cs: seq<int>)
    requires |cs| == 7 && NonNegative(cs)
    ensures WellFormed(SlotsOf(cs, 0)) && SlotsSeconds(SlotsOf(cs, 0)) == Weighted(cs, 7)
  {
    SlotsSecondsOfRender(cs, 7);
    assert SlotsOf(cs, 0)[..7] == SlotsOf(cs, 0);
  }

  /** A single component, written with any accepted spelling of its unit ("24hs", "30min"), parses to
      number x unit seconds. */
  lemma ParseOneComponent(num: string, tok: string, u: nat)
    requires |num| > 0 && AllDigits(num) && u < 7 && tok in UnitTokens(u)
    requires |tok| > 0 && tok[0] != '.'
    requires forall i :: 0 <= i < |tok| ==> !IsDigit(tok[i]) && !('A' <= tok[i] <= 'Z')
    ensures ParseSpec(num + tok, None, None) == Ok(DigitsValue(num) * UNIT_SECONDS[u])
  {
    var s := num + tok;
    LowerComponent(num, tok);
    var slots := MatchOneComponent(num, tok, u);
    OneComponentSeconds(num, u);
    UnboundedParseOfMatch(s, slots);
  }

  /** parse lower-cases its input before matching, so unit letters may be written in any case: "24H" parses
      as "24h", with or without bounds. */
  lemma CaseInsensitive(input: string, minimum: Option<int>, maximum: Option<int>)
    ensures ParseSpec(input, minimum, maximum) == ParseSpec(ToLower(input), minimum, maximum)
  {
    ToLowerOfLower(ToLower(input));
  }

  /** Without bounds, parsing lower-case text that matches yields the sum of its components. */
  lemma UnboundedParseOfMatch(s: string, slots: seq<Slot>)
    requires s != [] && ToLower(s) == s && Match(s) == Some(slots) && WellFormed(slots)
    ensures ParseSpec(s, None, None) == Ok(SlotsSeconds(slots))
  {
  }

  lemma LowerComponent(num: string, tok: string)
    requires AllDigits(num)
    requires forall i :: 0 <= i < |tok| ==> !('A' <= tok[i] <= 'Z')
    ensures ToLower(num + tok) == num + tok
  {
    var s := num + tok;
    assert forall i :: |num| <= i < |s| ==> s[i] == tok[i - |num|];
    ToLowerOfLower(s);
  }

  lemma MatchOneComponent(num: string, tok: string, u: nat) returns (slots: seq<Slot>)
    requires |num| > 0 && AllDigits(num) && u < 7 && tok in UnitTokens(u)
    requires |tok| > 0 && tok[0] != '.'
    requires forall i :: 0 <= i < |tok| ==> !IsDigit(tok[i])
    ensures slots == Absent(u) + [Slot(Some(num), Some(SCALES[u]))] + Absent(SECONDS_INDEX - u)
    ensures Match(num + tok) == Some(slots)
  {
    UnitOfToken(u, tok);
    LexLast(num, tok);
    MatchOneLexeme(num + tok, num, tok, u);
    slots := Absent(u) + [Slot(Some(num), Some(SCALES[u]))] + Absent(SECONDS_INDEX - u);
  }

  /** Text that lexes as one component with a unit matches as that component alone. */
  lemma MatchOneLexeme(s: string, num: string, tok: string, u: nat)
    requires u < 7 && s != [] && Lex(s) == Some(Lexeme(num, tok, [])) && tok != [] && UnitOf(tok) == Some(u)
    ensures Match(s) == Some(Absent(u) + [Slot(Some(num), Some(SCALES[u]))] + Absent(SECONDS_INDEX - u))
  {
    MatchEmpty(u + 1);
    MatchFirstLexeme(s, Lexeme(num, tok, []), u, Absent(SECONDS_INDEX - u));
  }

  lemma OneComponentSeconds(num: string, u: nat)
    requires |num| > 0 && AllDigits(num) && u < 7
    ensures WellFormed(Absent(u) + [Slot(Some(num), Some(SCALES[u]))] + Absent(SECONDS_INDEX - u))
    ensures SlotsSeconds(Absent(u) + [Slot(Some(num), Some(SCALES[u]))] + Absent(SECONDS_INDEX - u))
         == DigitsValue(num) * UNIT_SECONDS[u]
  {
    SlotsSecondsAbsent(u);
    SlotsSecondsAbsent(SECONDS_INDEX - u);
    SingleSlotSeconds(num, u);
    SumAroundOne(Absent(u), Slot(Some(num), Some(SCALES[u])), Absent(SECONDS_INDEX - u));
  }

  lemma SingleSlotSeconds(num: string, u: nat)
    requires |num| > 0 && AllDigits(num) && u < 7
    ensures WellFormed([Slot(Some(num), Some(SCALES[u]))])
    ensures SlotsSeconds([Slot(Some(num), Some(SCALES[u]))]) == DigitsValue(num) * UNIT_SECONDS[u]
  {
    var c := Slot(Some(num), Some(SCALES[u]));
    assert IsNumber(num) by { DigitRunOfDigits(num, []); assert num + [] == num; }
    assert [c][..0] == [];
    RoundedProductWhole(DigitsValue(num), UNIT_SECONDS[u]);
  }

  lemma SumAroundOne(a: seq<Slot>, c: Slot, b: seq<Slot>)
    requires WellFormed(a) && WellFormed([c]) && WellFormed(b)
    requires SlotsSeconds(a) == 0 && SlotsSeconds(b) == 0
    ensures WellFormed(a + [c] + b) && SlotsSeconds(a + [c] + b) == SlotsSeconds([c])
  {
    SlotsSecondsAppend(a, [c]);
    SlotsSecondsAppend(a + [c], b);
  }

  // ---------------------------------------------------------------------------
  // shortDuration as a rendering

  function ShortText(es: seq<Entry>): string
  {
    if es == [] then "" else ShortPart(es[0]) + ShortText(es[1..])
  }

  lemma {:induction false} JoinShortParts(ps: seq<string>, es: seq<Entry>)
    requires |ps| == |es| && forall i :: 0 <= i < |ps| ==> ps[i] == ShortPart(es[i])
    ensures Join(ps, "") == ShortText(es)
  {
    if es != [] {
      JoinShortParts(ps[1..], es[1..]);
      assert ps[0] + "" + Join(ps[1..], "") == ps[0] + Join(ps[1..], "");
    }
  }

  lemma {:induction false} ShortTextOfEntries(cs: seq<int>, first: nat)
    requires |cs| == 7 && first <= 7 && NonNegative(cs)
    ensures ShortText(EntriesFrom(cs, first)) == RenderFrom(cs, first)
    decreases 7 - first
  {
    if first < 7 {
      ShortTextOfEntries(cs, first + 1);
      var es := EntriesFrom(cs, first);
      if cs[first] != 0 {
        assert es[1..] == EntriesFrom(cs, first + 1);
      } else {
        assert es == EntriesFrom(cs, first + 1);
      }
    }
  }

  /** For a non-negative total, shortDuration is the rendering of its components. */
  lemma ShortDurationIsRender(total: int)
    requires total >= 0
    ensures NonNegative(Components(total))
    ensures ShortDuration(total) == RenderFrom(Components(total), 0)
  {
    var cs := Components(total);
    forall k | 0 <= k < 7 ensures cs[k] >= 0 {
      if k > 0 { ComponentBounds(total, k); }
    }
    JoinShortParts(ShortParts(total), Entries(total));
    ShortTextOfEntries(cs, 0);
  }

  lemma MinutesOfHours(t: int)
    requires t >= 0
    ensures (t / 60) / 60 == t / 3600
  {
  }

  lemma HoursOfDays(t: int)
    requires t >= 0
    ensures (t / 3600) / 24 == t / 86400
  {
  }

  lemma DaysOfWeeks(t: int)
    requires t >= 0
    ensures (t / 86400) / 7 == t / 604800
  {
  }

  /** Below four weeks no component wraps, so the components add back up to the total. */
  lemma ComponentsBelowFourWeeks(total: int)
    requires 0 <= total < 2419200
    ensures NonNegative(Components(total)) && Weighted(Components(total), 7) == total
  {
    var w, d, h, m := total / 604800, total / 86400, total / 3600, total / 60;
    var cs := Components(total);
    ComponentsBelow(total);
    assert cs == [0, 0, w, d % 7, h % 24, m % 60, total % 60];
    WeightedSeven(cs);
    MinutesOfHours(total);
    HoursOfDays(total);
    DaysOfWeeks(total);
    Recompose(total, w, d, h, m);
  }

  lemma ComponentsBelow(total: int)
    requires 0 <= total < 2419200
    ensures Components(total)
         == [0, 0, total / 604800, (total / 86400) % 7, (total / 3600) % 24, (total / 60) % 60, total % 60]
  {
  }

  lemma WeightedSeven(cs: seq<int>)
    requires |cs| == 7
    ensures Weighted(cs, 7) == cs[0] * 31556952 + cs[1] * 2629746 + cs[2] * 604800 + cs[3] * 86400
                             + cs[4] * 3600 + cs[5] * 60 + cs[6]
  {
    assert Weighted(cs, 1) == cs[0] * 31556952;
    assert Weighted(cs, 2) == Weighted(cs, 1) + cs[1] * 2629746;
    assert Weighted(cs, 3) == Weighted(cs, 2) + cs[2] * 604800;
    assert Weighted(cs, 4) == Weighted(cs, 3) + cs[3] * 86400;
    assert Weighted(cs, 5) == Weighted(cs, 4) + cs[4] * 3600;
    assert Weighted(cs, 6) == Weighted(cs, 5) + cs[5] * 60;
  }

  lemma Recompose(t: int, w: int, d: int, h: int, m: int)
    requires t >= 0 && w == t / 604800 && d == t / 86400 && h == t / 3600 && m == t / 60
    requires m / 60 == h && h / 24 == d && d / 7 == w
    ensures w * 604800 + (d % 7) * 86400 + (h % 24) * 3600 + (m % 60) * 60 + t % 60 == t
  {
    assert t == 60 * m + t % 60;
    assert m == 60 * h + m % 60;
    assert h == 24 * d + h % 24;
    assert d == 7 * w + d % 7;
  }

  /** The short rendering round-trips through the unbounded parser for every duration strictly between zero
      and four weeks. */
  lemma ShortDurationRoundTrip(total: int)
    requires 0 < total < 2419200
    ensures ParseSpec(ShortDuration(total), None, None) == Ok(total)
    ensures ParseDuration(ShortDuration(total)) == total
  {
    RenderNonEmpty(total);
    ShortDurationIsRender(total);
    ComponentsBelowFourWeeks(total);
    ParseRender(Components(total));
  }

  /** A positive total below four weeks has a non-empty rendering. */
  lemma RenderNonEmpty(total: int)
    requires 0 < total < 2419200
    ensures ShortDuration(total) != []
  {
    RenderingEmpty(total);
    ComponentsBelowFourWeeks(total);
    if forall k :: 0 <= k < 7 ==> Component(total, k) == 0 {
      WeightedOfZeros(Components(total), 7);
    }
  }

  lemma {:induction false} WeightedOfZeros(cs: seq<int>, n: nat)
    requires n <= |cs| <= 7 && forall k :: 0 <= k < n ==> cs[k] == 0
    ensures Weighted(cs, n) == 0
  {
    if n > 0 { WeightedOfZeros(cs, n - 1); }
  }

  /** Thirty days renders as "2d", which parses back to two days: the four whole weeks are lost. */
  lemma ThirtyDaysLosesWeeks()
    ensures ParseDuration(ShortDuration(2592000)) == 172800
  {
    WeeksWrap();
    TwoDays();
  }

  lemma TwoDays()
    ensures ParseDuration("2d") == 172800
  {
    var cs := [0, 0, 0, 2, 0, 0, 0];
    TwoDaysRender(cs);
    WeightedSeven(cs);
    ParseRender(cs);
  }

  lemma TwoDaysRender(cs: seq<int>)
    requires cs == [0, 0, 0, 2, 0, 0, 0]
    ensures NonNegative(cs) && RenderFrom(cs, 0) == "2d"
  {
    assert NatStr(2) == "2";
    assert RenderFrom(cs, 4) == "";
    assert RenderFrom(cs, 3) == "2d";
    assert RenderFrom(cs, 2) == "2d";
    assert RenderFrom(cs, 1) == "2d";
  }

  // ---------------------------------------------------------------------------
  // listSuggestions on the shapes its documentation shows ("123", "123ws4", "123mo")

  lemma LexBare(num: string)
    requires |num| > 0 && AllDigits(num)
    ensures Lex(num) == Some(Lexeme(num, "", ""))
  {
    DigitRunOfDigits(num, []);
    assert num + [] == num;
    assert num[..|num|] == num;
  }

  lemma DigitsHaveNoCapitals(num: string)
    requires AllDigits(num)
    ensures ToLower(num) == num
  {
    ToLowerOfLower(num);
  }

  /** A bare number may be followed by any of the seven units. */
  lemma SuggestAfterNumber(num: string)
    requires |num| > 0 && AllDigits(num)
    ensures SuggestionsSpec(num) == UnitsFrom(num, 0)
  {
    DigitsHaveNoCapitals(num);
    LexBare(num);
    MatchBare(num, 0, Lexeme(num, "", ""));
    var slots := Absent(SECONDS_INDEX) + [Slot(Some(num), None)];
    assert forall k :: 0 <= k < 7 ==> slots[k].unit.None?;
    SuggestionsAfterLastUnit(num, slots);
    NextUnitSpec(slots, 0);
    assert NextUnit(slots, 0) == 0;
  }

  lemma ComponentThenNumberShape(num: string, u: nat, rest: string)
    requires |num| > 0 && AllDigits(num) && |rest| > 0 && AllDigits(rest) && u < 7
    ensures forall i :: 0 <= i < |num + SCALES[u] + rest| ==> !('A' <= (num + SCALES[u] + rest)[i] <= 'Z')
  {
    ScaleKeyShape(u);
  }

  /** The slots of number + unit key + number when the unit is not the last one. */
  lemma MatchComponentThenNumber(num: string, u: nat, rest: string) returns (slots: seq<Slot>)
    requires |num| > 0 && AllDigits(num) && |rest| > 0 && AllDigits(rest) && u < SECONDS_INDEX
    ensures Match(num + SCALES[u] + rest) == Some(slots)
    ensures slots[6].number.Some? && slots[6].unit.None? && slots[u].unit.Some?
    ensures forall k :: u + 1 <= k < 7 ==> slots[k].unit.None?
  {
    ScaleKeyShape(u);
    LexComponent(num, SCALES[u], rest);
    slots := MatchLexemeThenBare(num + SCALES[u] + rest, Lexeme(num, SCALES[u], rest), u);
  }

  lemma MatchLexemeThenBare(s: string, x: Lexeme, u: nat) returns (slots: seq<Slot>)
    requires u < SECONDS_INDEX && s != [] && Lex(s) == Some(x) && x.token != [] && UnitOf(x.token) == Some(u)
    requires |x.tail| > 0 && AllDigits(x.tail)
    ensures Match(s) == Some(slots)
    ensures slots[6].number.Some? && slots[6].unit.None? && slots[u].unit.Some?
    ensures forall k :: u + 1 <= k < 7 ==> slots[k].unit.None?
  {
    var g := MatchBareAt(x.tail, u + 1);
    MatchFirstLexeme(s, x, u, g);
    slots := Absent(u) + [Slot(Some(x.number), Some(SCALES[u]))] + g;
    PlacedTrailing(u, Slot(Some(x.number), Some(SCALES[u])), g);
  }

  lemma PlacedTrailing(u: nat, c: Slot, g: seq<Slot>)
    requires u < SECONDS_INDEX && |g| == 6 - u && c.unit.Some?
    requires g[5 - u].number.Some? && forall k :: 0 <= k < |g| ==> g[k].unit.None?
    ensures var slots := Absent(u) + [c] + g;
            slots[6].number.Some? && slots[6].unit.None? && slots[u].unit.Some? &&
            forall k :: u + 1 <= k < 7 ==> slots[k].unit.None?
  {
    PlacedIndex(u, c, g);
  }

  /** After "<n><unit><m>" come exactly the units smaller than that unit ("123ws4" -> d, h, m, s). */
  lemma SuggestAfterComponentThenNumber(num: string, u: nat, rest: string)
    requires |num| > 0 && AllDigits(num) && |rest| > 0 && AllDigits(rest) && u < SECONDS_INDEX
    ensures SuggestionsSpec(num + SCALES[u] + rest) == UnitsFrom(num + SCALES[u] + rest, u + 1)
  {
    var s := num + SCALES[u] + rest;
    ComponentThenNumberShape(num, u, rest);
    ToLowerOfLower(s);
    var slots := MatchComponentThenNumber(num, u, rest);
    SuggestionsAfterLastUnit(s, slots);
    NextUnitAfter(slots, u);
  }

  lemma NextUnitAfter(slots: seq<Slot>, u: nat)
    requires |slots| == 7 && u < 7 && slots[u].unit.Some?
    requires forall k :: u + 1 <= k < 7 ==> slots[k].unit.None?
    ensures NextUnit(slots, 0) == u + 1
  {
    NextUnitSpec(slots, 0);
  }

  /** Text that ends in a unit ("123mo") gets no suggestions. */
  lemma SuggestNothingAfterComponent(num: string, u: nat)
    requires |num| > 0 && AllDigits(num) && u < 7
    ensures SuggestionsSpec(num + SCALES[u]) == []
  {
    var s := num + SCALES[u];
    ScaleKeyShape(u);
    ToLowerOfLower(s);
    LexLast(num, SCALES[u]);
    MatchOneLexeme(s, num, SCALES[u], u);
    var g := Absent(SECONDS_INDEX - u);
    var slots := Absent(u) + [Slot(Some(num), Some(SCALES[u]))] + g;
    PlacedIndex(u, Slot(Some(num), Some(SCALES[u])), g);
    SuggestionsAfterLastUnit(s, slots);
  }

  lemma MatchBareAt(num: string, first: nat) returns (g: seq<Slot>)
    requires |num| > 0 && AllDigits(num) && first <= SECONDS_INDEX
    ensures MatchFrom(num, first) == Some(g)
    ensures |g| == 7 - first && g[6 - first] == Slot(Some(num), None)
    ensures forall k :: 0 <= k < |g| ==> g[k].unit.None?
  {
    LexBare(num);
    MatchBare(num, first, Lexeme(num, "", ""));
    g := Absent(SECONDS_INDEX - first) + [Slot(Some(num), None)];
  }

  /** Text that is not a sequence of components, such as a unit with no number, gets no suggestions. */
  lemma SuggestNothingWhenUnmatched()
    ensures SuggestionsSpec("h") == []
  {
    assert ToLower("h") == "h";
    assert NumberLength("h") == None;
  }
}
