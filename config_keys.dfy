/** ConfigKeys: the plugin's three configuration keys. */
module ConfigKeys {
  import opened Wrappers
  import opened JavaLang
  import opened Yaml
  import opened ConfigKeyTypes
  import DurationArgumentType
  import Utils
  import DurationProperties

  /** Thirty days. */
  const DEFAULT_INTERVAL_FALLBACK: int := 2592000

  const BROADCAST_MESSAGE_FALLBACK: string := "&7Outer end islands will be reset in &a{time-left}"

  const PRIOR_RESET_FALLBACK: seq<string> :=
    ["24hs", "12hs", "6hs", "3hs", "2hs", "1hs", "30min", "15min", "10min", "5min", "1min", "30s"]

  const DEFAULT_RESET_INTERVAL_NAME: string := "default-reset-interval"
  const BROADCAST_MESSAGE_NAME: string := "broadcast-message"
  const BROADCAST_PRIOR_RESET_NAME: string := "broadcast-prior-reset"

  const DEFAULT_RESET_INTERVAL: ConfigKey :=
    ConfigKey(DEFAULT_RESET_INTERVAL_NAME, DurationSetting(DEFAULT_INTERVAL_FALLBACK), true,
              Bakery(DEFAULT_RESET_INTERVAL_NAME, true))

  const BROADCAST_MESSAGE: ConfigKey :=
    ConfigKey(BROADCAST_MESSAGE_NAME, StringSetting(BROADCAST_MESSAGE_FALLBACK), true,
              Bakery(BROADCAST_MESSAGE_NAME, true))

  const BROADCAST_PRIOR_RESET: ConfigKey :=
    ConfigKey(BROADCAST_PRIOR_RESET_NAME, ListSetting(Strings(PRIOR_RESET_FALLBACK)), false,
              Bakery(BROADCAST_PRIOR_RESET_NAME, false))

  /** YamlConfigAdapter.CONFIG_KEYS, in the order ImmutableSet.of keeps. ImmutableSet.of keeps all three
      only because they are pairwise unequal under ConfigKey.equals, that is, their baked hashes differ; the
      model takes that as given and proves only that their names differ (ConfigKeysRegistrable). */
  const CONFIG_KEYS: seq<ConfigKey> := [DEFAULT_RESET_INTERVAL, BROADCAST_MESSAGE, BROADCAST_PRIOR_RESET]

  function Strings(ss: seq<string>): (r: seq<Value>)
    ensures |r| == |ss| && forall i :: 0 <= i < |ss| ==> r[i] == Str(ss[i])
  {
    seq(|ss|, i requires 0 <= i < |ss| => Str(ss[i]))
  }

  /** The three keys are what the constructor makes of their names, fallbacks and flags. */
  lemma KeysConstructed()
    ensures MakeConfigKey(DEFAULT_RESET_INTERVAL_NAME, DurationSetting(DEFAULT_INTERVAL_FALLBACK), true)
         == Some(DEFAULT_RESET_INTERVAL)
    ensures MakeConfigKey(BROADCAST_MESSAGE_NAME, StringSetting(BROADCAST_MESSAGE_FALLBACK), true)
         == Some(BROADCAST_MESSAGE)
    ensures MakeConfigKey(BROADCAST_PRIOR_RESET_NAME, ListSetting(Strings(PRIOR_RESET_FALLBACK)), false)
         == Some(BROADCAST_PRIOR_RESET)
  {
    KeyNamesValid();
  }

  lemma KeyNameValid(name: string)
    requires 4 <= |name| <= 32 && forall i :: 0 <= i < |name| ==> 'a' <= name[i] <= 'z' || name[i] == '-'
    ensures ValidKeyName(name) && '.' !in name
  {
  }

  /** The three names match the key pattern and have no dot. */
  lemma KeyNamesValid()
    ensures ValidKeyName(DEFAULT_RESET_INTERVAL_NAME) && '.' !in DEFAULT_RESET_INTERVAL_NAME
    ensures ValidKeyName(BROADCAST_MESSAGE_NAME) && '.' !in BROADCAST_MESSAGE_NAME
    ensures ValidKeyName(BROADCAST_PRIOR_RESET_NAME) && '.' !in BROADCAST_PRIOR_RESET_NAME
  {
    KeyNameValid(DEFAULT_RESET_INTERVAL_NAME);
    KeyNameValid(BROADCAST_MESSAGE_NAME);
    KeyNameValid(BROADCAST_PRIOR_RESET_NAME);
  }

  /** No key name has a dot, so looking a key up never fails. */
  lemma KeyPathsDirect(k: ConfigKey, root: map<string, Value>)
    requires k in CONFIG_KEYS
    ensures '.' !in k.key && KeyGet(k, root).Ok?
  {
    KeyNamesValid();
    assert k.key in {DEFAULT_RESET_INTERVAL_NAME, BROADCAST_MESSAGE_NAME, BROADCAST_PRIOR_RESET_NAME};
    DotlessKeyGet(k, root);
  }

  /** The default interval is thirty days; the interval and message keys are reloadable, the moments are not. */
  lemma DefaultIntervalFallback()
    ensures DEFAULT_INTERVAL_FALLBACK == 30 * 86400
    ensures DEFAULT_RESET_INTERVAL.reloadable && BROADCAST_MESSAGE.reloadable && !BROADCAST_PRIOR_RESET.reloadable
  {
  }

  /** A unit spelling the moment parser accepts: one of the spellings of u, lower case, no digits, no dot. */
  predicate UnitSpelling(tok: string, u: nat) {
    u < 7 && tok in DurationArgumentType.UnitTokens(u) && |tok| > 0 && tok[0] != '.' &&
    forall i :: 0 <= i < |tok| ==> !IsDigit(tok[i]) && !('A' <= tok[i] <= 'Z')
  }

  lemma FallbackSpellings()
    ensures UnitSpelling("hs", 4) && UnitSpelling("min", 5) && UnitSpelling("s", 6)
  {
  }

  /** Utils.parseDuration of a number followed by one unit spelling is the number times that unit. */
  lemma MomentParses(num: string, tok: string, u: nat)
    requires |num| > 0 && AllDigits(num) && UnitSpelling(tok, u)
    ensures Utils.ParseDuration(num + tok) == DigitsValue(num) * DurationArgumentType.UNIT_SECONDS[u]
  {
    DurationProperties.ParseOneComponent(num, tok, u);
  }

  /** The seconds the fallback broadcast moments stand for. */
  const PRIOR_RESET_SECONDS: seq<int> := [86400, 43200, 21600, 10800, 7200, 3600, 1800, 900, 600, 300, 60, 30]

  /** Every fallback moment parses to a positive duration below four weeks, the values listed above. */
  lemma PriorResetFallbackParses(i: nat)
    requires i < |PRIOR_RESET_FALLBACK|
    ensures Utils.ParseDuration(PRIOR_RESET_FALLBACK[i]) == PRIOR_RESET_SECONDS[i]
    ensures 0 < Utils.ParseDuration(PRIOR_RESET_FALLBACK[i]) < 2419200
  {
    FallbackSpellings();
    if i == 0 { Moment("24", "hs", 4, PRIOR_RESET_FALLBACK[i], 24); }
    else if i == 1 { Moment("12", "hs", 4, PRIOR_RESET_FALLBACK[i], 12); }
    else if i == 2 { Moment("6", "hs", 4, PRIOR_RESET_FALLBACK[i], 6); }
    else if i == 3 { Moment("3", "hs", 4, PRIOR_RESET_FALLBACK[i], 3); }
    else if i == 4 { Moment("2", "hs", 4, PRIOR_RESET_FALLBACK[i], 2); }
    else if i == 5 { Moment("1", "hs", 4, PRIOR_RESET_FALLBACK[i], 1); }
    else if i == 6 { Moment("30", "min", 5, PRIOR_RESET_FALLBACK[i], 30); }
    else if i == 7 { Moment("15", "min", 5, PRIOR_RESET_FALLBACK[i], 15); }
    else if i == 8 { Moment("10", "min", 5, PRIOR_RESET_FALLBACK[i], 10); }
    else if i == 9 { Moment("5", "min", 5, PRIOR_RESET_FALLBACK[i], 5); }
    else if i == 10 { Moment("1", "min", 5, PRIOR_RESET_FALLBACK[i], 1); }
    else { Moment("30", "s", 6, PRIOR_RESET_FALLBACK[i], 30); }
  }

  /** A one- or two-digit number followed by a unit spelling parses to the number times the unit. */
  lemma Moment(num: string, tok: string, u: nat, text: string, n: nat)
    requires 1 <= |num| <= 2 && AllDigits(num) && UnitSpelling(tok, u)
    requires n == if |num| == 1 then DigitValue(num[0]) else 10 * DigitValue(num[0]) + DigitValue(num[1])
    requires text == num + tok
    ensures Utils.ParseDuration(text) == n * DurationArgumentType.UNIT_SECONDS[u]
  {
    ShortDigitsValue(num);
    MomentParses(num, tok, u);
  }

  lemma ShortDigitsValue(num: string)
    requires 1 <= |num| <= 2 && AllDigits(num)
    ensures DigitsValue(num) == if |num| == 1 then DigitValue(num[0]) else 10 * DigitValue(num[0]) + DigitValue(num[1])
  {
    assert num[..|num| - 1][..0] == [];
    if |num| == 2 {
      assert num[..1] == [num[0]];
    }
  }
}
