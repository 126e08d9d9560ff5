/**
 * Utils: rendering a duration in short ("1d2h") and long ("1 day, 2 hours") form, placeholder substitution,
 * the lenient duration parser, sanitising of user input and prefix filtering of suggestions.
 */
module Utils {
  import opened Wrappers
  import opened JavaLang
  import opened DurationArgumentType

  // The three placeholder patterns; each is a literal text once its escaped brace is read.
  const TIME_LEFT: string := "{time-left}"
  const TIME_LEFT_LONG: string := "{time-left-long}"
  const WORLD_NAME: string := "{world}"

  /** Singular unit names used by longDuration, indexed like SCALES. */
  const LONG_NAMES: seq<string> := ["year", "month", "week", "day", "hour", "minute", "second"]

  // ---------------------------------------------------------------------------
  // Decomposition into components

  /** ratio(dividend, divisor): whole number of divisor units in one dividend unit (integer division). */
  function Ratio(dividend: nat, divisor: nat): (r: nat)
    requires dividend < 7 && divisor < 7
    ensures dividend == 0 && divisor == 1 ==> r == 12
    ensures dividend == 1 && divisor == 2 ==> r == 4
    ensures dividend == 2 && divisor == 3 ==> r == 7
    ensures dividend == 3 && divisor == 4 ==> r == 24
    ensures dividend == 4 && divisor == 5 ==> r == 60
    ensures dividend == 5 && divisor == 6 ==> r == 60
  {
    UNIT_SECONDS[dividend] / UNIT_SECONDS[divisor]
  }

  /** Component k of a duration of `total` seconds (k indexes SCALES): all but years wrap at the ratio to the
      next larger unit; Java's truncating / and % are used, so negative totals give non-positive components. */
  function Component(total: int, k: nat): int
    requires k < 7
  {
    if k == 0 then JDiv(total, UNIT_SECONDS[0])
    else JRem(JDiv(total, UNIT_SECONDS[k]), Ratio(k - 1, k))
  }

  function Components(total: int): (cs: seq<int>)
    ensures |cs| == 7 && forall k :: 0 <= k < 7 ==> cs[k] == Component(total, k)
  {
    seq(7, k requires 0 <= k < 7 => Component(total, k))
  }

  /** Each component below years is bounded by its ratio: seconds and minutes < 60, hours < 24, days < 7,
      weeks < 4 and months < 12, and it has the sign of the total. */
  lemma ComponentBounds(total: int, k: nat)
    requires 0 < k < 7
    ensures total >= 0 ==> 0 <= Component(total, k) < Ratio(k - 1, k)
    ensures total <= 0 ==> -(Ratio(k - 1, k) as int) < Component(total, k) <= 0
    ensures Ratio(k - 1, k) == [12, 4, 7, 24, 60, 60][k - 1]
  {
  }

  // ---------------------------------------------------------------------------
  // Rendering

  /** An index into SCALES. */
  type UnitIndex = u: nat | u < 7

  /** One joiner entry: a non-zero amount of unit SCALES[unit]. */
  datatype Entry = Entry(amount: int, unit: UnitIndex)

  /** The non-zero components from `first` on, largest unit first: what the `if (x != 0)` chain adds. */
  function EntriesFrom(cs: seq<int>, first: nat): (r: seq<Entry>)
    requires |cs| == 7 && first <= 7
    decreases 7 - first
  {
    if first == 7 then []
    else (if cs[first] != 0 then [Entry(cs[first], first)] else []) + EntriesFrom(cs, first + 1)
  }

  /** Every entry from `first` on is a non-zero component at or after `first`. */
  lemma {:induction false} EntriesFromSound(cs: seq<int>, first: nat)
    requires |cs| == 7 && first <= 7
    ensures forall i :: 0 <= i < |EntriesFrom(cs, first)| ==>
              first <= EntriesFrom(cs, first)[i].unit && EntriesFrom(cs, first)[i].amount == cs[EntriesFrom(cs, first)[i].unit] &&
              EntriesFrom(cs, first)[i].amount != 0
    decreases 7 - first
  {
    if first < 7 {
      EntriesFromSound(cs, first + 1);
    }
  }

  /** The entries come largest unit first, each unit at most once. */
  lemma {:induction false} EntriesFromOrdered(cs: seq<int>, first: nat)
    requires |cs| == 7 && first <= 7
    ensures forall i, j :: 0 <= i < j < |EntriesFrom(cs, first)| ==>
              EntriesFrom(cs, first)[i].unit < EntriesFrom(cs, first)[j].unit
    decreases 7 - first
  {
    if first < 7 {
      EntriesFromSound(cs, first + 1);
      EntriesFromOrdered(cs, first + 1);
    }
  }

  /** Every non-zero component from `first` on has its entry. */
  lemma {:induction false} EntriesFromComplete(cs: seq<int>, first: nat, k: nat)
    requires |cs| == 7 && first <= k < 7 && cs[k] != 0
    ensures Entry(cs[k], k) in EntriesFrom(cs, first)
    decreases 7 - first
  {
    if first < k {
      EntriesFromComplete(cs, first + 1, k);
    }
  }

  function Entries(total: int): seq<Entry> {
    EntriesFrom(Components(total), 0)
  }

  /** StringJoiner.toString: the added parts separated by sep, "" when nothing was added. */
  function Join(parts: seq<string>, sep: string): string {
    if parts == [] then ""
    else if |parts| == 1 then parts[0]
    else parts[0] + sep + Join(parts[1..], sep)
  }

  lemma {:induction false} JoinEmpty(parts: seq<string>, sep: string)
    requires forall i :: 0 <= i < |parts| ==> parts[i] != []
    ensures Join(parts, sep) == [] <==> parts == []
  {
    if parts != [] {
      assert |Join(parts, sep)| >= |parts[0]|;
    }
  }

  /** `amount + "y"`. */
  function ShortPart(e: Entry): (s: string)
    ensures |s| > 0
  {
    LongToString(e.amount) + SCALES[e.unit]
  }

  /** `amount + " year" + (amount > 1 ? "s" : "")`. */
  function LongPart(e: Entry): (s: string)
    ensures |s| > 0
  {
    LongToString(e.amount) + " " + LONG_NAMES[e.unit] + (if e.amount > 1 then "s" else "")
  }

  function ShortParts(total: int): (ps: seq<string>)
  {
    var es := Entries(total);
    seq(|es|, i requires 0 <= i < |es| => ShortPart(es[i]))
  }

  function LongParts(total: int): (ps: seq<string>)
  {
    var es := Entries(total);
    seq(|es|, i requires 0 <= i < |es| => LongPart(es[i]))
  }

  /** Utils.shortDuration for a duration of `total` whole seconds. */
  function ShortDuration(total: int): string {
    Join(ShortParts(total), "")
  }

  /** Utils.longDuration for a duration of `total` whole seconds. */
  function LongDuration(total: int): string {
    Join(LongParts(total), ", ")
  }

  /** No entry is added exactly when every component is zero. */
  lemma EntriesEmpty(cs: seq<int>)
    requires |cs| == 7
    ensures EntriesFrom(cs, 0) == [] <==> forall k :: 0 <= k < 7 ==> cs[k] == 0
  {
    if EntriesFrom(cs, 0) != [] {
      var e := EntriesFrom(cs, 0)[0];
      assert cs[e.unit] != 0;
    }
    if k :| 0 <= k < 7 && cs[k] != 0 {
      EntriesFromComplete(cs, 0, k);
    }
  }

  /** Both renderings are empty exactly when every component is zero, and a zero duration renders as "". */
  lemma RenderingEmpty(total: int)
    ensures ShortDuration(total) == "" <==> forall k :: 0 <= k < 7 ==> Component(total, k) == 0
    ensures LongDuration(total) == "" <==> forall k :: 0 <= k < 7 ==> Component(total, k) == 0
    ensures total == 0 ==> ShortDuration(total) == "" && LongDuration(total) == ""
  {
    ShortRenderingEmpty(total);
    LongRenderingEmpty(total);
  }

  lemma ShortRenderingEmpty(total: int)
    ensures ShortDuration(total) == "" <==> forall k :: 0 <= k < 7 ==> Component(total, k) == 0
  {
    JoinEmpty(ShortParts(total), "");
    EntriesEmpty(Components(total));
  }

  lemma LongRenderingEmpty(total: int)
    ensures LongDuration(total) == "" <==> forall k :: 0 <= k < 7 ==> Component(total, k) == 0
  {
    JoinEmpty(LongParts(total), ", ");
    EntriesEmpty(Components(total));
  }

  /** Weeks wrap at four and months are longer than four weeks, so exactly four weeks renders as nothing and
      thirty days as two days. */
  lemma WeeksWrap()
    ensures ShortDuration(2419200) == ""
    ensures ShortDuration(2592000) == "2d"
  {
    FourWeeksComponents();
    ThirtyDaysComponents();
    var thirty := Components(2592000);
    assert EntriesFrom(thirty, 4) == [];
    assert EntriesFrom(thirty, 3) == [Entry(2, 3)];
    assert Entries(2592000) == [Entry(2, 3)];
    assert ShortParts(2592000) == [ShortPart(Entry(2, 3))];
    assert NatStr(2) == "2";
  }

  lemma FourWeeksComponents()
    ensures Components(2419200) == [0, 0, 0, 0, 0, 0, 0]
  {
    assert JDiv(2419200, 604800) == 4;
    assert JDiv(2419200, 86400) == 28;
    assert JDiv(2419200, 3600) == 672;
    assert JDiv(2419200, 60) == 40320;
  }

  lemma ThirtyDaysComponents()
    ensures Components(2592000) == [0, 0, 0, 2, 0, 0, 0]
  {
    assert JDiv(2592000, 604800) == 4;
    assert JDiv(2592000, 86400) == 30;
    assert JDiv(2592000, 3600) == 720;
    assert JDiv(2592000, 60) == 43200;
  }

  /** longDuration writes the components as "n unit", plural only above one, separated by ", "; see
      ShortDurationExample for the same duration in short form. */
  lemma LongDurationExample()
    ensures LongDuration(7260) == "2 hours, 1 minute"
  {
    MixedLongParts();
    LongJoin();
  }

  lemma LongJoin()
    ensures Join(["2 hours", "1 minute"], ", ") == "2 hours, 1 minute"
  {
    JoinTwo("2 hours", "1 minute", ", ");
  }

  /** shortDuration writes the same components as "nu", with no separator. */
  lemma ShortDurationExample()
    ensures ShortDuration(7260) == "2h1m"
  {
    MixedShortParts();
    ShortJoin();
  }

  lemma ShortJoin()
    ensures Join(["2h", "1m"], "") == "2h1m"
  {
    JoinTwo("2h", "1m", "");
  }

  lemma JoinTwo(a: string, b: string, sep: string)
    ensures Join([a, b], sep) == a + sep + b
  {
    assert [a, b][1..] == [b];
  }

  lemma MixedLongParts()
    ensures LongParts(7260) == ["2 hours", "1 minute"]
  {
    var es := MixedEntries();
    assert LongPart(es[0]) == "2 hours" by { assert LongToString(2) == "2"; }
    assert LongPart(es[1]) == "1 minute" by { assert LongToString(1) == "1"; }
  }

  lemma MixedShortParts()
    ensures ShortParts(7260) == ["2h", "1m"]
  {
    var es := MixedEntries();
    assert ShortPart(es[0]) == "2h" by { assert LongToString(2) == "2"; }
    assert ShortPart(es[1]) == "1m" by { assert LongToString(1) == "1"; }
  }

  lemma MixedEntries() returns (es: seq<Entry>)
    ensures es == Entries(7260) == [Entry(2, 4), Entry(1, 5)]
  {
    MixedComponents();
    var cs := Components(7260);
    assert EntriesFrom(cs, 6) == [];
    assert EntriesFrom(cs, 5) == [Entry(1, 5)];
    assert EntriesFrom(cs, 4) == [Entry(2, 4), Entry(1, 5)];
    es := Entries(7260);
  }

  lemma MixedComponents()
    ensures Components(7260) == [0, 0, 0, 0, 2, 1, 0]
  {
    assert JDiv(7260, 604800) == 0;
    assert JDiv(7260, 86400) == 0;
    assert JDiv(7260, 3600) == 2;
    assert JDiv(7260, 60) == 121;
  }

  // ---------------------------------------------------------------------------
  // Placeholder substitution

  /** The literal pattern p occurs in s at position j. */
  predicate OccursAt(s: string, p: string, j: int) {
    0 <= j && j + |p| <= |s| && s[j..j + |p|] == p
  }

  /** The first position at or after `from` where the literal pattern p occurs in s (Matcher.find). */
  function FindFrom(s: string, p: string, from: nat): (r: Option<nat>)
    requires |p| > 0 && from <= |s|
    ensures r.Some? ==> from <= r.value && r.value + |p| <= |s|
    decreases |s| - from
  {
    if from + |p| > |s| then None
    else if s[from..from + |p|] == p then Some(from)
    else FindFrom(s, p, from + 1)
  }

  /** Matcher.find finds the first occurrence at or after `from`, and none means there is none. */
  lemma {:induction false} FindFromSpec(s: string, p: string, from: nat)
    requires |p| > 0 && from <= |s|
    ensures FindFrom(s, p, from).Some? ==> OccursAt(s, p, FindFrom(s, p, from).value)
    ensures FindFrom(s, p, from).Some? ==> forall j :: from <= j < FindFrom(s, p, from).value ==> !OccursAt(s, p, j)
    ensures FindFrom(s, p, from).None? ==> forall j :: from <= j ==> !OccursAt(s, p, j)
    decreases |s| - from
  {
    if from + |p| <= |s| && s[from..from + |p|] != p {
      FindFromSpec(s, p, from + 1);
    }
  }

  /** s[from..] with every non-overlapping occurrence of p, found left to right, replaced by r. */
  function ReplacedFrom(s: string, p: string, r: string, from: nat): string
    requires |p| > 0 && from <= |s|
    decreases |s| - from
  {
    match FindFrom(s, p, from)
    case None => s[from..]
    case Some(i) => s[from..i] + r + ReplacedFrom(s, p, r, i + |p|)
  }

  function Replaced(s: string, p: string, r: string): string
    requires |p| > 0
  {
    ReplacedFrom(s, p, r, 0)
  }

  /** The replacement text contains no '$' or '\', which appendReplacement would interpret. */
  predicate Literal(r: string) {
    forall i :: 0 <= i < |r| ==> r[i] != '$' && r[i] != '\\'
  }

  lemma LiteralConcat(a: string, b: string)
    requires Literal(a) && Literal(b)
    ensures Literal(a + b)
  {
    assert forall i :: |a| <= i < |a + b| ==> (a + b)[i] == b[i - |a|];
  }

  lemma {:induction false} JoinLiteral(parts: seq<string>, sep: string)
    requires Literal(sep) && forall i :: 0 <= i < |parts| ==> Literal(parts[i])
    ensures Literal(Join(parts, sep))
  {
    if |parts| > 1 {
      JoinLiteral(parts[1..], sep);
      LiteralConcat(parts[0], sep);
      LiteralConcat(parts[0] + sep, Join(parts[1..], sep));
    }
  }

  lemma NumberLiteral(n: int)
    ensures Literal(LongToString(n))
  {
  }

  lemma PartLiteral(e: Entry)
    ensures Literal(ShortPart(e)) && Literal(LongPart(e))
  {
    var n := LongToString(e.amount);
    NumberLiteral(e.amount);
    assert Literal(SCALES[e.unit]) && Literal(LONG_NAMES[e.unit]);
    LiteralConcat(n, SCALES[e.unit]);
    LiteralConcat(n, " ");
    LiteralConcat(n + " ", LONG_NAMES[e.unit]);
    LiteralConcat(n + " " + LONG_NAMES[e.unit], if e.amount > 1 then "s" else "");
  }

  /** Both renderings consist of digits, '-', letters, spaces and commas, which appendReplacement copies as-is. */
  lemma RenderingsLiteral(total: int)
    ensures Literal(ShortDuration(total)) && Literal(LongDuration(total))
  {
    var es := Entries(total);
    var sp, lp := ShortParts(total), LongParts(total);
    forall i | 0 <= i < |sp|
      ensures Literal(sp[i]) && Literal(lp[i])
    {
      PartLiteral(es[i]);
    }
    JoinLiteral(sp, "");
    JoinLiteral(lp, ", ");
  }

  /** Utils.replaceAll with a replacer that always yields `replacement`. */
  method ReplaceAll(pattern: string, base: string, replacement: string) returns (result: string)
    requires |pattern| > 0 && Literal(replacement)
    ensures result == Replaced(base, pattern, replacement)
  {
    var m := FindFrom(base, pattern, 0);
    if m.None? {
      ReplacedUnmatched(base, pattern, replacement);
      return base;
    }
    var buffer := "";
    var appendPosition := 0;
    EmptyBuffer(base, pattern, replacement);
    while m.Some?
      invariant appendPosition <= |base|
      invariant m == FindFrom(base, pattern, appendPosition)
      invariant buffer + ReplacedFrom(base, pattern, replacement, appendPosition) == Replaced(base, pattern, replacement)
      decreases |base| - appendPosition
    {
      var start := m.value;
      ghost var next, after := AppendStep(base, pattern, replacement, buffer, appendPosition);
      buffer := buffer + base[appendPosition..start] + replacement;
      appendPosition := start + |pattern|;
      assert buffer == next && appendPosition == after;
      m := FindFrom(base, pattern, appendPosition);
    }
    ReplacedFromStep(base, pattern, replacement, appendPosition);
    result := buffer + base[appendPosition..];
  }

  /** Without a first match, Matcher.replaceAll returns the text itself. */
  lemma ReplacedUnmatched(s: string, p: string, r: string)
    requires |p| > 0 && FindFrom(s, p, 0).None?
    ensures Replaced(s, p, r) == s
  {
    ReplacedFromStep(s, p, r, 0);
    assert s[0..] == s;
  }

  /** Before the first appendReplacement the buffer is empty and everything is still to be replaced. */
  lemma EmptyBuffer(s: string, p: string, r: string)
    requires |p| > 0
    ensures "" + ReplacedFrom(s, p, r, 0) == Replaced(s, p, r)
  {
    assert "" + ReplacedFrom(s, p, r, 0) == ReplacedFrom(s, p, r, 0);
  }

  /** One appendReplacement: the text before the match and the replacement move into the buffer, and what is
      left to replace starts after the match. */
  lemma AppendStep(s: string, p: string, r: string, buffer: string, from: nat) returns (next: string, after: nat)
    requires |p| > 0 && from <= |s| && FindFrom(s, p, from).Some?
    requires buffer + ReplacedFrom(s, p, r, from) == Replaced(s, p, r)
    ensures var i := FindFrom(s, p, from).value;
            from <= i && after == i + |p| <= |s| && next == buffer + s[from..i] + r
    ensures next + ReplacedFrom(s, p, r, after) == Replaced(s, p, r)
  {
    var i := FindFrom(s, p, from).value;
    var rest := ReplacedFrom(s, p, r, i + |p|);
    ReplacedFromStep(s, p, r, from);
    Regrouped(buffer, s[from..i], r, rest);
    next, after := buffer + s[from..i] + r, i + |p|;
  }

  lemma Regrouped(a: string, b: string, c: string, d: string)
    ensures a + (b + c + d) == (a + b + c) + d
  {
  }

  lemma ReplacedFromStep(s: string, p: string, r: string, from: nat)
    requires |p| > 0 && from <= |s|
    ensures FindFrom(s, p, from).None? ==> ReplacedFrom(s, p, r, from) == s[from..]
    ensures FindFrom(s, p, from).Some? ==>
              var i := FindFrom(s, p, from).value;
              i + |p| <= |s| && ReplacedFrom(s, p, r, from) == s[from..i] + r + ReplacedFrom(s, p, r, i + |p|)
  {
  }

  /** Text without an occurrence of the pattern comes back unchanged. */
  lemma ReplacedNoMatch(s: string, p: string, r: string)
    requires |p| > 0
    requires forall j :: !OccursAt(s, p, j)
    ensures Replaced(s, p, r) == s
  {
    FindFromSpec(s, p, 0);
    assert s[0..] == s;
  }

  /** Replacing the pattern by itself changes nothing. */
  lemma {:induction false} ReplacedBySelf(s: string, p: string, from: nat)
    requires |p| > 0 && from <= |s|
    ensures ReplacedFrom(s, p, p, from) == s[from..]
    decreases |s| - from
  {
    match FindFrom(s, p, from)
    case None =>
    case Some(i) =>
      FindFromSpec(s, p, from);
      ReplacedBySelf(s, p, i + |p|);
      assert s[from..i] + s[i..i + |p|] + s[i + |p|..] == s[from..];
  }

  /** The short placeholder cannot match inside the long one, so substituting it leaves "{time-left-long}"
      intact, while the long placeholder is replaced as a whole. */
  lemma PlaceholdersDistinct(short: string, long: string)
    ensures Replaced(TIME_LEFT_LONG, TIME_LEFT, short) == TIME_LEFT_LONG
    ensures Replaced(TIME_LEFT_LONG, TIME_LEFT_LONG, long) == long
  {
    forall j ensures !OccursAt(TIME_LEFT_LONG, TIME_LEFT, j) {
      if !(0 <= j && j + |TIME_LEFT| <= |TIME_LEFT_LONG|) {
      } else if j == 0 {
        assert TIME_LEFT_LONG[j..j + |TIME_LEFT|][10] == '-';
      } else {
        assert TIME_LEFT_LONG[j..j + |TIME_LEFT|][0] != '{';
      }
    }
    ReplacedNoMatch(TIME_LEFT_LONG, TIME_LEFT, short);
    assert TIME_LEFT_LONG[0..|TIME_LEFT_LONG|] == TIME_LEFT_LONG;
    assert TIME_LEFT_LONG[|TIME_LEFT_LONG|..] == [];
  }

  // ---------------------------------------------------------------------------
  // Lenient parsing, sanitising and filtering

  /** Utils.parseDuration: the unbounded parser's result, or zero on any parse error. */
  function ParseDuration(input: string): (r: nat)
    ensures ParseSpec(input, None, None).Ok? ==> r == ParseSpec(input, None, None).value
    ensures ParseSpec(input, None, None).Err? ==> r == 0
  {
    match ParseSpec(input, None, None)
    case Ok(d) => d
    case Err(_) => 0
  }

  /** Utils.sanitize: lower-cased, then trimmed (a null input is not representable here). */
  function Sanitize(input: string): (r: string)
    ensures |r| <= |input|
    ensures forall i :: 0 <= i < |r| ==> !('A' <= r[i] <= 'Z')
    ensures |r| > 0 ==> r[0] > ' ' && r[|r| - 1] > ' '
  {
    Trim(ToLower(input))
  }

  lemma ToLowerOfLower(s: string)
    requires forall i :: 0 <= i < |s| ==> !('A' <= s[i] <= 'Z')
    ensures ToLower(s) == s
  {
  }

  lemma TrimOfTrimmed(s: string)
    requires |s| > 0 ==> s[0] > ' ' && s[|s| - 1] > ' '
    ensures Trim(s) == s
  {
    assert LeadingBlanks(s) == 0;
    assert s[0..] == s;
    assert TrailingBlanks(s) == 0;
  }

  /** Sanitising twice is sanitising once. */
  lemma SanitizeIdempotent(input: string)
    ensures Sanitize(Sanitize(input)) == Sanitize(input)
  {
    var once := Sanitize(input);
    ToLowerOfLower(once);
    TrimOfTrimmed(once);
  }

  /** The options, in iteration order, whose lower-cased form starts with prefix. */
  function Filtered(options: seq<string>, prefix: string): (r: seq<string>)
    ensures |r| <= |options|
  {
    if options == [] then []
    else Filtered(options[..|options| - 1], prefix)
         + (if StartsWith(ToLower(options[|options| - 1]), prefix) then [options[|options| - 1]] else [])
  }

  /** An option is suggested exactly when its lower-cased form starts with the sanitised base. */
  lemma {:induction false} FilteredMembers(options: seq<string>, prefix: string, x: string)
    ensures x in Filtered(options, prefix) <==> x in options && StartsWith(ToLower(x), prefix)
  {
    if options != [] {
      FilteredMembers(options[..|options| - 1], prefix, x);
      assert options == options[..|options| - 1] + [options[|options| - 1]];
    }
  }

  /** Utils.filterArgs, with the option set given as its iteration order already mapped through toString. */
  method FilterArgs(options: seq<string>, base: string) returns (results: seq<string>)
    ensures results == Filtered(options, Sanitize(base))
  {
    var sanitized := Sanitize(base);
    results := [];
    for i := 0 to |options|
      invariant results == Filtered(options[..i], sanitized)
    {
      assert options[..i + 1][..i] == options[..i];
      if StartsWith(ToLower(options[i]), sanitized) {
        results := results + [options[i]];
      }
    }
    assert options[..|options|] == options;
  }
}
