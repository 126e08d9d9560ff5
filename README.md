# world-reset, modelled in Dafny

world-reset is a server plugin that periodically wipes the outer region files of a world, keeping the origin
regions. It keeps a store of scheduled resets (world, interval, next reset instant), audits it every five
seconds to broadcast warnings before a reset, rolls overdue resets forward at start-up while deleting the
world's outer regions, and offers a `/worldreset` command to schedule, unschedule and list resets. Durations
are written in a compact grammar (`3mo5ws2days4.045secs`) that a command argument type parses and completes,
and configuration comes from a YAML file through typed, memoised keys.

The model has four parts.

- **Duration codec** (`duration_argument_type.dfy`, `utils.dfy`, `duration_properties.dfy`, `java_lang.dfy`):
  the anchored duration pattern as a deterministic matcher over seven components, the parse with its
  round-half-up of decimal coefficients and its minimum/maximum errors, the suggestion logic, the short and
  long renderings with Java's truncating `/` and `%`, literal `replaceAll`, `parseDuration`, `sanitize` and
  `filterArgs`. The central results are that the short rendering parses back to the same duration for every
  duration strictly between zero and four weeks, that this fails at thirty days because weeks wrap at four,
  and that the suggestions are exactly the units after the last unit written.
- **Schedule store** (`scheduled_reset.dfy`, `worlds_data_handler.dfy`): `ScheduledReset` as a value with its
  `equals`/`hashCode`, and `WorldsDataHandler` as a class whose fields are the two sets and the shutdown flag.
  Its methods are proved against set-valued specification functions (`Scheduled`, `WithoutWorld`, `Rollover`,
  `Pruned`, `AuditBroadcasts`). The clock is an explicit `now` parameter, the JSON document and the files on
  disk are values.
- **Typed config store** (`yaml.dfy`, `yaml_config_lookup.dfy`, `config_key.dfy`, `config_keys.dfy`,
  `yaml_config_adapter.dfy`): YAML values as a datatype, the dotted-path lookup with Java's `Pattern.split`
  behaviour, `ConfigKey` with equality by baked hash, the typed keys' `get`, the three registered keys, and
  `YamlConfigAdapter` as a class holding the root section and the memo (`unwind`).
- **Command outcome logic** (`world_reset_command.dfy`): what each `/worldreset` form does to the store, which
  messages it sends and whether it saves, as outcome functions with lemmas, and a class whose methods run the
  handlers against the data handler and the config adapter.

Behaviour reproduced as the code has it, where the documented intent differs:

- The region file pattern `r(?:\.-?\d){2}\.mca` accepts single-digit coordinates only, so a file such as
  `r.10.0.mca` is never deleted (`WorldsDataHandlers.MultiDigitCoordinateIgnored`); the intent is any integer
  coordinate.
- `deleteAny` adds the rolled-forward entry without removing the overdue one, so the world then has two
  entries (`WorldsDataHandlers.OverdueEntryKept`); the intent is to replace it.
- `schedule` returns `SUCCESS_OTHER` when it removed an existing entry and `SUCCESS_RESCHEDULED` when it did
  not, and the command maps these to "scheduled" and "rescheduled" respectively.
  The names are the wrong way round (`WorldsDataHandlers.WorldsDataHandler.Schedule`,
  `WorldResetCommands.ScheduleReplies`).
- `auditResets` skips overdue entries: it neither deletes regions nor rolls them over
  (`WorldsDataHandlers.OverdueSilent`); only `deleteAny`, run at start-up, does.
- Key identity is the baked hash, not the (name, reloadable) pair, so distinct names can compare equal
  (`ConfigKeyTypes.NameCollision`).
- The parser rejects empty input and any input the anchored pattern does not match as a whole, with the
  unknown-argument error.

## Model

| member | source | states |
|---|---|---|
| JavaLang.ToInt32 | src/main/java/com/github/fefo/worldreset/config/ConfigKey.java:84-88 | the int reduction of a mathematical integer lies in the 32-bit range, agrees with it modulo 2^32 and is the identity on values already in range |
| JavaLang.StringHashCode | src/main/java/com/github/fefo/worldreset/config/ConfigKey.java:84-88 | String.hashCode, the 31-based fold over the UTF-16 code units (a character above U+FFFF counts as its surrogate pair), always yields a 32-bit int |
| JavaLang.SupplementaryHash | src/main/java/com/github/fefo/worldreset/work/ScheduledReset.java:83-89 | a character outside the Basic Multilingual Plane (U+1F30D) is hashed as its two surrogates 0xD83C 0xDF0D, as Java's String.hashCode does |
| JavaLang.HashOfQuad | src/main/java/com/github/fefo/worldreset/config/ConfigKey.java:84-88 | the hash of a four-character ASCII name is 29791·c0 + 961·c1 + 31·c2 + c3, with no wrap-around |
| JavaLang.LongHashCode | src/main/java/com/github/fefo/worldreset/work/ScheduledReset.java:83-89 | the (int)(v ^ (v >>> 32)) hash of a long seconds value is a 32-bit int |
| JavaLang.JDiv | src/main/java/com/github/fefo/worldreset/Utils.java:112-118 | Java's truncating division agrees with Euclidean division for a non-negative dividend and keeps the sign of the dividend otherwise |
| JavaLang.JRem | src/main/java/com/github/fefo/worldreset/Utils.java:112-118 | Java's remainder satisfies a == (a / b)·b + a % b, lies in [0, b) for a non-negative dividend and in (-b, 0] for a non-positive one |
| JavaLang.DigitsValueOfNatStr | src/main/java/com/github/fefo/worldreset/Utils.java:120-140 | reading back Long.toString of a natural number gives the number (decimal rendering round-trip) |
| JavaLang.ToLower | src/main/java/com/github/fefo/worldreset/Utils.java:45-51 | lower-casing keeps the length and maps each ASCII capital to its small letter, leaving every other character alone |
| JavaLang.Trim | src/main/java/com/github/fefo/worldreset/Utils.java:45-51 | String.trim keeps every character above U+0020 and leaves a result that neither starts nor ends with a blank |
| Utils.Ratio | src/main/java/com/github/fefo/worldreset/Utils.java:188-190 | the ratio of each unit to the next smaller one: 12 months a year, 4 weeks a month, 7 days, 24 hours, 60 minutes, 60 seconds |
| Utils.ComponentBounds | src/main/java/com/github/fefo/worldreset/Utils.java:112-118 | every component below years is bounded by its ratio (seconds and minutes under 60, hours under 24, days under 7, weeks under 4, months under 12) and takes the sign of the total |
| Utils.EntriesFromSound | src/main/java/com/github/fefo/worldreset/Utils.java:120-140 | every part the joiners receive is a non-zero component at its own unit |
| Utils.EntriesFromOrdered | src/main/java/com/github/fefo/worldreset/Utils.java:120-140 | the parts come largest unit first, each unit at most once |
| Utils.EntriesFromComplete | src/main/java/com/github/fefo/worldreset/Utils.java:120-140 | every non-zero component gets a part |
| Utils.JoinEmpty | src/main/java/com/github/fefo/worldreset/Utils.java:120-140 | a StringJoiner of non-empty parts is empty exactly when nothing was added |
| Utils.RenderingEmpty | src/main/java/com/github/fefo/worldreset/Utils.java:106-182 | both renderings are empty exactly when every component is zero; a zero duration renders as the empty string |
| Utils.WeeksWrap | src/main/java/com/github/fefo/worldreset/Utils.java:112-118 | weeks wrap at four and a month is longer than four weeks, so exactly four weeks renders as "" and thirty days as "2d" |
| Utils.ShortDurationExample | src/main/java/com/github/fefo/worldreset/Utils.java:106-143 | shortDuration writes each non-zero component as number and letter with no separator: 2 h 1 min is "2h1m" |
| Utils.LongDurationExample | src/main/java/com/github/fefo/worldreset/Utils.java:145-182 | longDuration writes each non-zero component as "n unit", plural only above one, separated by ", ": "2 hours, 1 minute" |
| Utils.FindFromSpec | src/main/java/com/github/fefo/worldreset/Utils.java:82-96 | Matcher.find on a literal pattern returns the first occurrence at or after the start, and none means there is no occurrence |
| Utils.RenderingsLiteral | src/main/java/com/github/fefo/worldreset/Utils.java:106-182 | both renderings contain no '$' or '\\', so appendReplacement copies them as they are |
| Utils.ReplaceAll | src/main/java/com/github/fefo/worldreset/Utils.java:82-96 | the append loop over the matches builds exactly the text with every non-overlapping occurrence, left to right, replaced |
| Utils.ReplacedUnmatched | src/main/java/com/github/fefo/worldreset/Utils.java:82-96 | with no first match the input is returned unchanged |
| Utils.ReplacedNoMatch | src/main/java/com/github/fefo/worldreset/Utils.java:82-96 | text with no occurrence of the pattern comes back unchanged |
| Utils.ReplacedBySelf | src/main/java/com/github/fefo/worldreset/Utils.java:82-96 | replacing the pattern by itself changes nothing |
| Utils.PlaceholdersDistinct | src/main/java/com/github/fefo/worldreset/Utils.java:35-37 | the {time-left} placeholder cannot match inside {time-left-long}, which is replaced as a whole |
| Utils.ParseDuration | src/main/java/com/github/fefo/worldreset/Utils.java:98-104 | parseDuration is the unbounded duration parse on success and zero on any parse error |
| Utils.Sanitize | src/main/java/com/github/fefo/worldreset/Utils.java:45-51 | the sanitised text is no longer than the input, has no capitals and neither starts nor ends with a blank |
| Utils.SanitizeIdempotent | src/main/java/com/github/fefo/worldreset/Utils.java:45-51 | sanitising twice is sanitising once |
| Utils.Filtered | src/main/java/com/github/fefo/worldreset/Utils.java:61-80 | filtering never adds an option |
| Utils.FilteredMembers | src/main/java/com/github/fefo/worldreset/Utils.java:61-80 | an option is kept exactly when its lower-cased form starts with the prefix |
| Utils.FilterArgs | src/main/java/com/github/fefo/worldreset/Utils.java:72-77 | the loop collects, in iteration order, exactly the options whose lower-cased form starts with the sanitised base |
| DurationArgumentType.UnitFromSpec | src/main/java/com/github/fefo/worldreset/commands/DurationArgumentType.java:78-88 | a unit token is looked up among the spellings of the units from the current one on, and reported missing only when no such unit has it |
| DurationArgumentType.TokensDisjoint | src/main/java/com/github/fefo/worldreset/commands/DurationArgumentType.java:78-88 | no spelling belongs to two units, so the lowest-first lookup is unambiguous |
| DurationArgumentType.UnitOfToken | src/main/java/com/github/fefo/worldreset/commands/DurationArgumentType.java:78-88 | a token names unit u exactly when it is one of u's spellings |
| DurationArgumentType.NumberLength | src/main/java/com/github/fefo/worldreset/commands/DurationArgumentType.java:63-72 | the number at the start of a component matches \d+(\.\d+)? and is not followed by another digit |
| DurationArgumentType.MatchFrom | src/main/java/com/github/fefo/worldreset/commands/DurationArgumentType.java:63-72 | a successful match fills one slot per remaining unit, each shaped as the pattern allows: a unit group only beside a number, and a bare number only in the seconds slot |
| DurationArgumentType.Match | src/main/java/com/github/fefo/worldreset/commands/DurationArgumentType.java:63-72 | a whole-input match of DURATION_PATTERN yields seven well-shaped components |
| DurationArgumentType.GroupsOfSlot | src/main/java/com/github/fefo/worldreset/commands/DurationArgumentType.java:63-72 | Matcher.group(2i-1) and group(2i) are the number and the unit of component i |
| DurationArgumentType.RoundedProductWhole | src/main/java/com/github/fefo/worldreset/commands/DurationArgumentType.java:145-148 | rounding number × unit seconds is exact for a whole number |
| DurationArgumentType.KeySeconds | src/main/java/com/github/fefo/worldreset/commands/DurationArgumentType.java:145-148 | a unit group that is a scale key counts that unit's seconds; a missing unit counts seconds |
| DurationArgumentType.SlotsSecondsAppend | src/main/java/com/github/fefo/worldreset/commands/DurationArgumentType.java:136-149 | the parsed total is additive over consecutive components |
| DurationArgumentType.ParseSpec | src/main/java/com/github/fefo/worldreset/commands/DurationArgumentType.java:126-166 | empty or unmatched input is an unknown-argument error; a result is non-negative and within [minimum, maximum); too-small and too-big carry the found value and the violated bound |
| DurationArgumentType.BoundsFilter | src/main/java/com/github/fefo/worldreset/commands/DurationArgumentType.java:155-165 | the bounds filter the unbounded parse: its errors pass through, a duration below the minimum gives too-small with that duration, otherwise one at or above the maximum gives too-big with that duration, and any other duration is returned unchanged |
| DurationArgumentType.Parse | src/main/java/com/github/fefo/worldreset/commands/DurationArgumentType.java:126-166 | parse returns exactly the specified result for every input and bound |
| DurationArgumentType.SumComponents | src/main/java/com/github/fefo/worldreset/commands/DurationArgumentType.java:136-149 | the component loop sums each present number times the seconds of its unit |
| DurationArgumentType.IndexOf | src/main/java/com/github/fefo/worldreset/commands/DurationArgumentType.java:192-198 | indexOf is -1 for a missing or null key and otherwise the position of the key |
| DurationArgumentType.UnitsFrom | src/main/java/com/github/fefo/worldreset/commands/DurationArgumentType.java:192-198 | the suggestions append every unit from the index on, in canonical order |
| DurationArgumentType.CountGroups | src/main/java/com/github/fefo/worldreset/commands/DurationArgumentType.java:179-186 | the reverse loop counts the null groups and keeps the scale key nearest the end |
| DurationArgumentType.ListSuggestions | src/main/java/com/github/fefo/worldreset/commands/DurationArgumentType.java:169-202 | listSuggestions returns exactly the specified suggestions for the remaining input |
| DurationArgumentType.SuggestFromGroups | src/main/java/com/github/fefo/worldreset/commands/DurationArgumentType.java:179-201 | once the input matched, the suggestions are the units after the last scale key, and only when the null-group count is odd |
| DurationArgumentType.NextUnitSpec | src/main/java/com/github/fefo/worldreset/commands/DurationArgumentType.java:192-198 | no component after the last one written with a unit has a unit, and that one does |
| DurationArgumentType.NullGroupsParity | src/main/java/com/github/fefo/worldreset/commands/DurationArgumentType.java:192-198 | an odd number of null groups means exactly that the input ends in a number without a unit |
| DurationArgumentType.LastScaleOfGroups | src/main/java/com/github/fefo/worldreset/commands/DurationArgumentType.java:179-186 | the scale key the reverse loop keeps is the key of the last component written with a unit |
| DurationArgumentType.SuggestionsAfterLastUnit | src/main/java/com/github/fefo/worldreset/commands/DurationArgumentType.java:169-202 | on a matching input the suggestions are input + unit for exactly the units after the last unit written, and only when the input ends in a bare number |
| DurationArgumentType.SuggestionsOfMatch | src/main/java/com/github/fefo/worldreset/commands/DurationArgumentType.java:192-198 | the parity-and-index computation of the code yields those suggestions |
| DurationProperties.MatchRender | src/main/java/com/github/fefo/worldreset/commands/DurationArgumentType.java:63-72 | the pattern splits a rendering of components into exactly those components |
| DurationProperties.ParseRender | src/main/java/com/github/fefo/worldreset/commands/DurationArgumentType.java:126-166 | a non-empty rendering of non-negative components parses, unbounded, to their weighted sum |
| DurationProperties.ParseOneComponent | src/main/java/com/github/fefo/worldreset/commands/DurationArgumentType.java:126-166 | a single component written with any accepted spelling of its unit ("24hs", "30min") parses to number × unit seconds |
| DurationProperties.UnboundedParseOfMatch | src/main/java/com/github/fefo/worldreset/commands/DurationArgumentType.java:126-166 | without bounds, matching lower-case text parses to the sum of its components |
| DurationProperties.CaseInsensitive | src/main/java/com/github/fefo/worldreset/commands/DurationArgumentType.java:126 | the input is lower-cased before matching, so parsing any text gives the same result as parsing its lower-case form, with any bounds |
| DurationProperties.ShortDurationIsRender | src/main/java/com/github/fefo/worldreset/Utils.java:106-143 | for a non-negative total, shortDuration is the rendering of its components |
| DurationProperties.ComponentsBelowFourWeeks | src/main/java/com/github/fefo/worldreset/Utils.java:112-118 | below four weeks no component wraps, so the components add back up to the total |
| DurationProperties.ShortDurationRoundTrip | src/main/java/com/github/fefo/worldreset/Utils.java:98-143 | for every duration strictly between zero and four weeks, parsing the short rendering gives the duration back |
| DurationProperties.RenderNonEmpty | src/main/java/com/github/fefo/worldreset/Utils.java:106-143 | a positive total below four weeks has a non-empty short rendering |
| DurationProperties.ThirtyDaysLosesWeeks | src/main/java/com/github/fefo/worldreset/Utils.java:98-143 | thirty days renders as "2d", which parses back to two days: the round trip fails once the weeks wrap |
| DurationProperties.SuggestAfterNumber | src/main/java/com/github/fefo/worldreset/commands/DurationArgumentType.java:169-202 | a bare number may be followed by any of the seven units |
| DurationProperties.SuggestAfterComponentThenNumber | src/main/java/com/github/fefo/worldreset/commands/DurationArgumentType.java:169-202 | after number, unit, number only the units smaller than that unit are suggested ("123w4" gets d, h, m, s) |
| DurationProperties.SuggestNothingAfterComponent | src/main/java/com/github/fefo/worldreset/commands/DurationArgumentType.java:169-202 | text ending in a unit gets no suggestions |
| DurationProperties.SuggestNothingWhenUnmatched | src/main/java/com/github/fefo/worldreset/commands/DurationArgumentType.java:169-202 | text that is not a sequence of components ("h") gets no suggestions |
| ScheduledResets.NewReset | src/main/java/com/github/fefo/worldreset/work/ScheduledReset.java:46-50 | the next reset of a new entry is one interval after its start, with the world and interval as given |
| ScheduledResets.NewResetNow | src/main/java/com/github/fefo/worldreset/work/ScheduledReset.java:42-44 | the two-argument constructor starts from now, so the next reset is now + interval |
| ScheduledResets.NewResetInjective | src/main/java/com/github/fefo/worldreset/work/ScheduledReset.java:42-50 | different constructor arguments give different entries |
| ScheduledResets.SecondsHashCode | src/main/java/com/github/fefo/worldreset/work/ScheduledReset.java:83-89 | the Duration and Instant hash of a whole number of seconds is a 32-bit int |
| ScheduledResets.HashCode | src/main/java/com/github/fefo/worldreset/work/ScheduledReset.java:83-89 | the 31-based combination of the field hashes is a 32-bit int |
| ScheduledResets.EqualsIsEquality | src/main/java/com/github/fefo/worldreset/work/ScheduledReset.java:68-81 | equals (name, interval and instant) is value equality of the record, so a set of records behaves as a HashSet |
| ScheduledResets.HashCodeConsistent | src/main/java/com/github/fefo/worldreset/work/ScheduledReset.java:83-89 | hashCode is consistent with equals |
| ScheduledResets.CaseSensitiveEquals | src/main/java/com/github/fefo/worldreset/work/ScheduledReset.java:68-81 | names differing only in case give distinct set members |
| ScheduledResets.HashCollision | src/main/java/com/github/fefo/worldreset/work/ScheduledReset.java:83-89 | distinct entries ("Aa", "BB") can share a hash: hashCode is not injective |
| ScheduledResets.FreshResetNotOverdue | src/main/java/com/github/fefo/worldreset/work/ScheduledReset.java:52-54 | an entry made now with a positive interval is not overdue now, and is overdue exactly after its instant |
| ConfigKeyTypes.Bakery | src/main/java/com/github/fefo/worldreset/config/ConfigKey.java:84-88 | the baked hash 31·key.hashCode() + flag is a 32-bit int |
| ConfigKeyTypes.MakeConfigKey | src/main/java/com/github/fefo/worldreset/config/ConfigKey.java:41-50 | the constructor succeeds exactly for a name the key pattern accepts, and then stores name, fallback, flag and the baked hash |
| ConfigKeyTypes.EqualsConsistent | src/main/java/com/github/fefo/worldreset/config/ConfigKey.java:66-82 | equality by baked hash is an equivalence and hashCode is consistent with it |
| ConfigKeyTypes.SameNameAndFlag | src/main/java/com/github/fefo/worldreset/config/ConfigKey.java:66-77 | keys with the same name and flag are equal whatever their fallbacks |
| ConfigKeyTypes.FlagDistinguishes | src/main/java/com/github/fefo/worldreset/config/ConfigKey.java:84-88 | the same name with different flags gives unequal keys |
| ConfigKeyTypes.NameCollision | src/main/java/com/github/fefo/worldreset/config/ConfigKey.java:66-77 | two distinct valid names ("AaAa", "BBBB") give equal keys, because equality compares hashes |
| ConfigKeyTypes.TrailingNewlineAccepted | src/main/java/com/github/fefo/worldreset/config/ConfigKey.java:34 | the `$` of the key pattern also accepts a name with one final line terminator |
| ConfigKeyTypes.Stored | src/main/java/com/github/fefo/worldreset/config/type/DurationConfigKey.java:46-54 | a typed key always yields a value of its own kind |
| ConfigKeyTypes.KeyGet | src/main/java/com/github/fefo/worldreset/config/type/StringConfigKey.java:16-19 | a key's get fails exactly when the path lookup fails, and otherwise yields a value of the key's kind |
| ConfigKeyTypes.DotlessKeyGet | src/main/java/com/github/fefo/worldreset/config/type/BooleanConfigKey.java:15-18 | the lookup of a name without a dot is a direct map lookup and never fails |
| ConfigKeyTypes.KeyGetSpec | src/main/java/com/github/fefo/worldreset/config/type/ListConfigKey.java:41-44 | the fallback is returned exactly when the stored value is absent, of the wrong type or (for a duration) unparsable; otherwise the stored value converted |
| ConfigKeys.KeysConstructed | src/main/java/com/github/fefo/worldreset/config/ConfigKeys.java:38-47 | the three registered keys are what the constructor makes of their names, fallbacks and flags |
| ConfigKeys.KeyNamesValid | src/main/java/com/github/fefo/worldreset/config/ConfigKeys.java:38-47 | the three names pass the key pattern and contain no dot |
| ConfigKeys.KeyPathsDirect | src/main/java/com/github/fefo/worldreset/config/ConfigKeys.java:38-47 | no registered key name has a dot, so looking a registered key up never fails |
| ConfigKeys.DefaultIntervalFallback | src/main/java/com/github/fefo/worldreset/config/ConfigKeys.java:38-39 | the default interval is thirty days; the interval and message keys are reloadable and the moments key is not |
| ConfigKeys.MomentParses | src/main/java/com/github/fefo/worldreset/Utils.java:98-104 | parseDuration of a number followed by one unit spelling is the number times that unit |
| ConfigKeys.PriorResetFallbackParses | src/main/java/com/github/fefo/worldreset/config/ConfigKeys.java:44-47 | every default broadcast moment parses to its listed value, positive and below four weeks |
| YamlConfigLookup.Pieces | src/main/java/com/github/fefo/worldreset/config/YamlConfigAdapter.java:166 | splitting on the literal dot yields pieces that contain no dot |
| YamlConfigLookup.DropTrailingEmpty | src/main/java/com/github/fefo/worldreset/config/YamlConfigAdapter.java:166 | Pattern.split drops exactly the trailing empty strings |
| YamlConfigLookup.Split | src/main/java/com/github/fefo/worldreset/config/YamlConfigAdapter.java:166 | a path without a dot splits into itself; otherwise into pieces with no dot |
| YamlConfigLookup.PiecesOfJoin | src/main/java/com/github/fefo/worldreset/config/YamlConfigAdapter.java:172-175 | splitting a dot-joined list of dotless pieces gives the pieces back |
| YamlConfigLookup.RestShorter | src/main/java/com/github/fefo/worldreset/config/YamlConfigAdapter.java:172-178 | the path handed to the recursive get is shorter than the path itself, so the recursion ends |
| YamlConfigLookup.MapGet | src/main/java/com/github/fefo/worldreset/config/YamlConfigAdapter.java:169 | Map.get on a null map fails; a found value is the map's entry and never an explicit null |
| YamlConfigLookup.Validate | src/main/java/com/github/fefo/worldreset/config/YamlConfigAdapter.java:181-193 | validate keeps a value exactly when it is present and an instance of the expected type |
| YamlConfigLookup.Get | src/main/java/com/github/fefo/worldreset/config/YamlConfigAdapter.java:165-179 | a found value is never null |
| YamlConfigLookup.TypedGet | src/main/java/com/github/fefo/worldreset/config/YamlConfigAdapter.java:118-148 | the typed getters fail exactly when the lookup fails, and otherwise return the looked-up value when it has the type, null when not |
| YamlConfigLookup.DirectLookup | src/main/java/com/github/fefo/worldreset/config/YamlConfigAdapter.java:168-170 | a path without a dot is looked up directly in the map |
| YamlConfigLookup.LookupWalks | src/main/java/com/github/fefo/worldreset/config/YamlConfigAdapter.java:165-179 | a path not ending in a dot is looked up one section per component |
| YamlConfigLookup.LookupStep | src/main/java/com/github/fefo/worldreset/config/YamlConfigAdapter.java:172-178 | the first component names a nested section (validated as a Map), the rest is looked up inside it, and a null map fails |
| YamlConfigLookup.SplitRest | src/main/java/com/github/fefo/worldreset/config/YamlConfigAdapter.java:172-177 | the rest of a dotted path splits into the remaining components |
| YamlConfigLookup.MissingSection | src/main/java/com/github/fefo/worldreset/config/YamlConfigAdapter.java:178 | a missing or non-map intermediate section makes the lookup fail |
| YamlConfigLookup.TrailingDot | src/main/java/com/github/fefo/worldreset/config/YamlConfigAdapter.java:166-170 | a trailing dot is dropped by the split, so "a." is looked up as the key "a." itself |
| YamlConfigLookup.OnlyDots | src/main/java/com/github/fefo/worldreset/config/YamlConfigAdapter.java:166-177 | a path made only of dots splits into nothing and fails |
| YamlConfigAdapters.KeyNames | src/main/java/com/github/fefo/worldreset/config/YamlConfigAdapter.java:51-54 | the names of the registered keys |
| YamlConfigAdapters.ConfigKeysRegistrable | src/main/java/com/github/fefo/worldreset/config/YamlConfigAdapter.java:51-54 | the registered keys have distinct names, none with a dot |
| YamlConfigAdapters.Merged | src/main/java/com/github/fefo/worldreset/config/YamlConfigAdapter.java:109 | putAll: the document's keys take its values, every other key keeps its old one, and a non-map document changes nothing |
| YamlConfigAdapters.DerivedRegistered | src/main/java/com/github/fefo/worldreset/config/YamlConfigAdapter.java:112 | each registered key derives from the root without failing |
| YamlConfigAdapters.RefreshKeysSpec | src/main/java/com/github/fefo/worldreset/config/YamlConfigAdapter.java:110-114 | after one pass, a key that is reloadable or forced maps to its derived value; a skipped key keeps its memoised value or stays absent; other names are untouched |
| YamlConfigAdapters.Refreshed | src/main/java/com/github/fefo/worldreset/config/YamlConfigAdapter.java:106-116 | the memo after reload(force) over the registered keys, stated key by key as above |
| YamlConfigAdapters.MemoStable | src/main/java/com/github/fefo/worldreset/config/YamlConfigAdapter.java:151-159 | a second get of a key returns what the first returned and stores nothing new |
| YamlConfigAdapters.MemoIgnoresRoot | src/main/java/com/github/fefo/worldreset/config/YamlConfigAdapter.java:151-159 | a memoised value wins over the document: get answers from the memo whatever the root now says |
| YamlConfigAdapters.MemoDerives | src/main/java/com/github/fefo/worldreset/config/YamlConfigAdapter.java:151-159 | without a memoised value, get derives the value from the root, stores it and returns it |
| YamlConfigAdapters.LoadDerivesAll | src/main/java/com/github/fefo/worldreset/config/YamlConfigAdapter.java:88-100 | after load every registered key answers get with its value in the merged root, without deriving again |
| YamlConfigAdapters.ReloadKeepsMoments | src/main/java/com/github/fefo/worldreset/config/YamlConfigAdapter.java:102-116 | reload() re-derives the reloadable keys from the new root, while the moments key keeps its earlier value |
| YamlConfigAdapters.RefreshKeysTwice | src/main/java/com/github/fefo/worldreset/config/YamlConfigAdapter.java:110-114 | refreshing the same keys twice from the same root gives what refreshing once gives |
| YamlConfigAdapters.ReloadIdempotent | src/main/java/com/github/fefo/worldreset/config/YamlConfigAdapter.java:106-116 | reloading the same document twice leaves the same state as reloading it once |
| YamlConfigAdapters.RefreshedTyped | src/main/java/com/github/fefo/worldreset/config/YamlConfigAdapter.java:106-116 | a reload keeps every memoised value of its key's type |
| YamlConfigAdapters.MemoTyped | src/main/java/com/github/fefo/worldreset/config/YamlConfigAdapter.java:151-159 | on a typed memo, get of a registered key succeeds with a value of the key's type and keeps the memo typed |
| YamlConfigAdapters.YamlConfigAdapter.Load | src/main/java/com/github/fefo/worldreset/config/YamlConfigAdapter.java:88-100 | load merges the document into the root and re-derives every registered key |
| YamlConfigAdapters.YamlConfigAdapter.Reload | src/main/java/com/github/fefo/worldreset/config/YamlConfigAdapter.java:102-104 | reload() merges the document and re-derives only the reloadable keys |
| YamlConfigAdapters.YamlConfigAdapter.ReloadWith | src/main/java/com/github/fefo/worldreset/config/YamlConfigAdapter.java:106-116 | reload(force) merges the document, then re-derives each key that is reloadable or forced; the memo stays typed |
| YamlConfigAdapters.YamlConfigAdapter.ReloadKeys | src/main/java/com/github/fefo/worldreset/config/YamlConfigAdapter.java:110-114 | the forEach over the keys leaves the memo stated by RefreshKeys and the root unchanged |
| YamlConfigAdapters.YamlConfigAdapter.Get | src/main/java/com/github/fefo/worldreset/config/YamlConfigAdapter.java:151-159 | get returns the memoised value or derives, stores and returns it, leaving the root unchanged |
| YamlConfigAdapters.YamlConfigAdapter.GetTyped | src/main/java/com/github/fefo/worldreset/config/YamlConfigAdapter.java:118-148 | a typed getter fails exactly when the path lookup fails and returns a value only when it has the type |
| WorldsDataHandlers.RegionNameComplete | src/main/java/com/github/fefo/worldreset/work/WorldsDataHandler.java:80-81 | any two one-digit coordinates make a region file name |
| WorldsDataHandlers.RegionNameSound | src/main/java/com/github/fefo/worldreset/work/WorldsDataHandler.java:80-81 | every region file name is r, two one-digit coordinates and .mca |
| WorldsDataHandlers.MultiDigitCoordinateIgnored | src/main/java/com/github/fefo/worldreset/work/WorldsDataHandler.java:80-81 | a two-digit coordinate (r.10.0.mca) is not a region name, so such a file is never deleted |
| WorldsDataHandlers.NegativeZeroIsOuter | src/main/java/com/github/fefo/worldreset/work/WorldsDataHandler.java:82-89 | the inner names are compared as text, so r.-0.0.mca is an outer region |
| WorldsDataHandlers.InnerRegionsKept | src/main/java/com/github/fefo/worldreset/work/WorldsDataHandler.java:82-89 | the four origin regions are never outer |
| WorldsDataHandlers.RegionsOf | src/main/java/com/github/fefo/worldreset/work/WorldsDataHandler.java:242-258 | the files deleted for a world are exactly the outer-region files below its folder |
| WorldsDataHandlers.StoredResets | src/main/java/com/github/fefo/worldreset/work/WorldsDataHandler.java:119-148 | load fails on an empty document; a legacy object contributes its values, an array its elements, and an absent, malformed or other document nothing |
| WorldsDataHandlers.Moments | src/main/java/com/github/fefo/worldreset/work/WorldsDataHandler.java:150-152 | the moments are the parsed list elements, and load fails when an element is not a string |
| WorldsDataHandlers.SaveLoadRoundTrip | src/main/java/com/github/fefo/worldreset/work/WorldsDataHandler.java:140-174 | what save writes is read back by load as the same set of resets |
| WorldsDataHandlers.LegacyKeysIgnored | src/main/java/com/github/fefo/worldreset/work/WorldsDataHandler.java:140-142 | a legacy object contributes only its values; its keys are not used |
| WorldsDataHandlers.WithoutWorld | src/main/java/com/github/fefo/worldreset/work/WorldsDataHandler.java:198-200 | removeIf keeps exactly the entries whose world differs from the name ignoring case |
| WorldsDataHandlers.RemovedIffHasWorld | src/main/java/com/github/fefo/worldreset/work/WorldsDataHandler.java:198-200 | removeIf reports a change exactly when an entry for the world existed |
| WorldsDataHandlers.ScheduleLeavesOne | src/main/java/com/github/fefo/worldreset/work/WorldsDataHandler.java:192-196 | schedule leaves exactly one entry for the world, the new one, and keeps every other world's entries |
| WorldsDataHandlers.UnscheduleUndoesSchedule | src/main/java/com/github/fefo/worldreset/work/WorldsDataHandler.java:192-200 | unscheduling right after scheduling leaves what unscheduling alone leaves |
| WorldsDataHandlers.UnscheduleTwice | src/main/java/com/github/fefo/worldreset/work/WorldsDataHandler.java:198-200 | an immediate second unschedule finds nothing and changes nothing |
| WorldsDataHandlers.RescheduleFindsEntry | src/main/java/com/github/fefo/worldreset/work/WorldsDataHandler.java:192-196 | scheduling again under another casing finds the entry and replaces it |
| WorldsDataHandlers.RollForwardLeast | src/main/java/com/github/fefo/worldreset/work/WorldsDataHandler.java:161-164 | the roll-forward loop stops at the last whole step still before now, or at once |
| WorldsDataHandlers.RolledSpec | src/main/java/com/github/fefo/worldreset/work/WorldsDataHandler.java:161-166 | the added entry is the least nextReset + k·interval with k ≥ 1 that is not before now, so it is not overdue |
| WorldsDataHandlers.Pruned | src/main/java/com/github/fefo/worldreset/work/WorldsDataHandler.java:156-168 | the files deleteAny removes are among the files given |
| WorldsDataHandlers.OverdueEntryKept | src/main/java/com/github/fefo/worldreset/work/WorldsDataHandler.java:158-166 | the overdue entry is not removed, so afterwards its world has two entries |
| WorldsDataHandlers.RolloverAddsOnlyCurrent | src/main/java/com/github/fefo/worldreset/work/WorldsDataHandler.java:156-168 | entries that are not overdue remain, and every added entry is not overdue |
| WorldsDataHandlers.RolloverIdempotent | src/main/java/com/github/fefo/worldreset/work/WorldsDataHandler.java:156-168 | a second deleteAny at the same instant adds nothing |
| WorldsDataHandlers.Abs | src/main/java/com/github/fefo/worldreset/work/WorldsDataHandler.java:220 | Math.abs returns the value or its negation |
| WorldsDataHandlers.AuditBroadcasts | src/main/java/com/github/fefo/worldreset/work/WorldsDataHandler.java:207-228 | each entry produces at most two broadcasts |
| WorldsDataHandlers.OverdueSilent | src/main/java/com/github/fefo/worldreset/work/WorldsDataHandler.java:208-210 | an overdue entry broadcasts nothing and is not rolled over or pruned by the auditor |
| WorldsDataHandlers.PlainBroadcast | src/main/java/com/github/fefo/worldreset/work/WorldsDataHandler.java:231-240 | a message without placeholders is broadcast as it is |
| WorldsDataHandlers.AuditBroadcastsPlain | src/main/java/com/github/fefo/worldreset/work/WorldsDataHandler.java:202-240 | with no placeholders in the message, every broadcast is the message itself |
| WorldsDataHandlers.ImminentEntry | src/main/java/com/github/fefo/worldreset/work/WorldsDataHandler.java:212-227 | an entry within five seconds of its reset and near a moment yields two broadcasts, "the next restart" first |
| WorldsDataHandlers.MomentWindow | src/main/java/com/github/fefo/worldreset/work/WorldsDataHandler.java:219-227 | with at least five seconds left, the time-left broadcast is sent exactly when some moment is within three seconds, and at most once |
| WorldsDataHandlers.WorldsDataHandler.constructor | src/main/java/com/github/fefo/worldreset/work/WorldsDataHandler.java:94-96 | a new handler has empty sets and is not shutting down |
| WorldsDataHandlers.WorldsDataHandler.Load | src/main/java/com/github/fefo/worldreset/work/WorldsDataHandler.java:110-154 | load adds the stored resets and the parsed moments, and reports failure exactly where the code throws |
| WorldsDataHandlers.WorldsDataHandler.Save | src/main/java/com/github/fefo/worldreset/work/WorldsDataHandler.java:170-174 | save writes every entry exactly once as a JSON array |
| WorldsDataHandlers.WorldsDataHandler.Shutdown | src/main/java/com/github/fefo/worldreset/work/WorldsDataHandler.java:176-186 | shutdown raises the flag and clears both sets |
| WorldsDataHandlers.WorldsDataHandler.GetScheduledResets | src/main/java/com/github/fefo/worldreset/work/WorldsDataHandler.java:188-190 | the copy holds exactly the store's entries |
| WorldsDataHandlers.WorldsDataHandler.Schedule | src/main/java/com/github/fefo/worldreset/work/WorldsDataHandler.java:192-196 | the store becomes the scheduled store, and the result is SUCCESS_OTHER exactly when an entry was removed |
| WorldsDataHandlers.WorldsDataHandler.Unschedule | src/main/java/com/github/fefo/worldreset/work/WorldsDataHandler.java:198-200 | the store loses every entry for the world, and the result says whether there was one |
| WorldsDataHandlers.WorldsDataHandler.DeleteAny | src/main/java/com/github/fefo/worldreset/work/WorldsDataHandler.java:156-168 | the store becomes the rollover (overdue entries kept, rolled ones added) and the deleted files are those of every world with an overdue entry |
| WorldsDataHandlers.WorldsDataHandler.RollOverEntry | src/main/java/com/github/fefo/worldreset/work/WorldsDataHandler.java:158-166 | for an overdue entry the rolled entry is added and the world's outer regions deleted; otherwise nothing happens |
| WorldsDataHandlers.WorldsDataHandler.AuditResets | src/main/java/com/github/fefo/worldreset/work/WorldsDataHandler.java:202-229 | nothing while shutting down; otherwise the broadcasts of every entry in iteration order, with the store only read |
| WorldsDataHandlers.WorldsDataHandler.ResetBroadcasts | src/main/java/com/github/fefo/worldreset/work/WorldsDataHandler.java:208-227 | one entry's broadcasts: none when overdue, otherwise the imminent and the moment checks |
| WorldsDataHandlers.WorldsDataHandler.FirstNearMoment | src/main/java/com/github/fefo/worldreset/work/WorldsDataHandler.java:219-227 | the moment loop finds a moment exactly when some moment is within three seconds of the time left |
| WorldsDataHandlers.WorldsDataHandler.TimeLeftBroadcast | src/main/java/com/github/fefo/worldreset/work/WorldsDataHandler.java:222-224 | the moment broadcast fills the placeholders with the short and the long rendering of the time left |
| WorldsDataHandlers.WorldsDataHandler.Broadcast | src/main/java/com/github/fefo/worldreset/work/WorldsDataHandler.java:231-240 | broadcast substitutes the three placeholders, in the code's order, into the configured message |
| WorldsDataHandlers.RollForwardLoop | src/main/java/com/github/fefo/worldreset/work/WorldsDataHandler.java:161-164 | the while loop computes the roll-forward instant |
| WorldResetCommands.IntervalArgument | src/main/java/com/github/fefo/worldreset/commands/WorldResetCommand.java:114-134 | the interval argument is at least ten seconds, has no maximum, and reports too-small with the value found |
| WorldResetCommands.IntervalArgumentFilters | src/main/java/com/github/fefo/worldreset/commands/WorldResetCommand.java:114-134 | the ten-second minimum only filters the unbounded parse: a shorter duration becomes too-small, everything else passes through |
| WorldResetCommands.IntervalFormSchedules | src/main/java/com/github/fefo/worldreset/commands/WorldResetCommand.java:247-252 | `schedule <world> <interval>` on a known world stores the entry (world, interval, now + interval), and every entry it leaves for that world has an interval of at least ten seconds, the argument's minimum |
| WorldResetCommands.WorldNames | src/main/java/com/github/fefo/worldreset/commands/WorldResetCommand.java:262-269 | the world names of the store, in its iteration order |
| WorldResetCommands.SuggestScheduledWorlds | src/main/java/com/github/fefo/worldreset/commands/WorldResetCommand.java:262-269 | exactly the scheduled world names whose lower-cased form starts with the lower-cased input |
| WorldResetCommands.SuggestWorlds | src/main/java/com/github/fefo/worldreset/commands/WorldResetCommand.java:271-277 | exactly the host's world names whose lower-cased form starts with the lower-cased input |
| WorldResetCommands.SuggestionsExtendInput | src/main/java/com/github/fefo/worldreset/commands/WorldResetCommand.java:262-269 | only worlds of the store are offered for unscheduling, and every offer extends the typed text |
| WorldResetCommands.UnknownWorldUntouched | src/main/java/com/github/fefo/worldreset/commands/WorldResetCommand.java:166-207 | an unknown world is reported and nothing else happens, for schedule and unschedule alike |
| WorldResetCommands.ScheduleReplies | src/main/java/com/github/fefo/worldreset/commands/WorldResetCommand.java:166-188 | a known world ends with one fresh entry and a save; SCHEDULED_SUCCESSFULLY is sent exactly when it already had one, RESCHEDULED_SUCCESSFULLY exactly when not, and ERROR_WHILE_SAVING exactly when saving fails |
| WorldResetCommands.UnscheduleReplies | src/main/java/com/github/fefo/worldreset/commands/WorldResetCommand.java:190-207 | unschedule saves exactly when an entry was removed, replies WASNT_SCHEDULED otherwise, and leaves no entry for the world |
| WorldResetCommands.UnscheduleRepeat | src/main/java/com/github/fefo/worldreset/commands/WorldResetCommand.java:190-207 | a second unschedule of the same world replies WASNT_SCHEDULED and does not save |
| WorldResetCommands.Elements | src/main/java/com/github/fefo/worldreset/commands/WorldResetCommand.java:146-164 | one listing element per entry |
| WorldResetCommands.ListMessagesSpec | src/main/java/com/github/fefo/worldreset/commands/WorldResetCommand.java:146-164 | the listing starts with the title, says NO_ELEMENT exactly for an empty store, and otherwise names every entry exactly once with its time left and interval |
| WorldResetCommands.UsageMessages | src/main/java/com/github/fefo/worldreset/commands/WorldResetCommand.java:279-284 | the usage title followed by one line per usage |
| WorldResetCommands.ErrorMessages | src/main/java/com/github/fefo/worldreset/commands/WorldResetCommand.java:300-306 | one COMMAND_ERROR per parse exception |
| WorldResetCommands.RejectedRunsNothing | src/main/java/com/github/fefo/worldreset/commands/WorldResetCommand.java:286-316 | a missing permission or a parse failure runs no handler: the store is untouched and nothing is saved |
| WorldResetCommands.ConsoleNeedsWorld | src/main/java/com/github/fefo/worldreset/commands/WorldResetCommand.java:209-237 | the console using a form without a world gets CONSOLE_INCOMPLETE_COMMAND and nothing else happens |
| WorldResetCommands.ConfiguredInterval | src/main/java/com/github/fefo/worldreset/commands/WorldResetCommand.java:227-245 | the configured default interval read through the memo is a duration |
| WorldResetCommands.DefaultIsDuration | src/main/java/com/github/fefo/worldreset/config/ConfigKeys.java:38-39 | the default-interval key is a registered duration key |
| WorldResetCommands.WorldResetCommand.DefaultInterval | src/main/java/com/github/fefo/worldreset/commands/WorldResetCommand.java:230 | reads the default interval through the config memo, keeping the root and the memo's typing |
| WorldResetCommands.WorldResetCommand.Schedule | src/main/java/com/github/fefo/worldreset/commands/WorldResetCommand.java:166-188 | the store, the replies and whether save ran are those of the schedule outcome; what is written lists the new store |
| WorldResetCommands.WorldResetCommand.Unschedule | src/main/java/com/github/fefo/worldreset/commands/WorldResetCommand.java:190-207 | the store, the replies and whether save ran are those of the unschedule outcome |
| WorldResetCommands.WorldResetCommand.List | src/main/java/com/github/fefo/worldreset/commands/WorldResetCommand.java:146-164 | list returns 1 and sends the specified listing |
| WorldResetCommands.WorldResetCommand.Usages | src/main/java/com/github/fefo/worldreset/commands/WorldResetCommand.java:279-284 | usages sends the title and one line per usage |
| WorldResetCommands.WorldResetCommand.Run | src/main/java/com/github/fefo/worldreset/commands/WorldResetCommand.java:209-260 | each handler's outcome; it returns 0 exactly for a console run of a form without a world, and reads the default interval only for the forms that use it |
| WorldResetCommands.WorldResetCommand.Execute | src/main/java/com/github/fefo/worldreset/commands/WorldResetCommand.java:286-316 | execute's checks then the handler: the store, replies and save follow the specified outcome |

## Left out

- File I/O: creating, reading, truncating and backing up `worlds.json` and `config.yml`, copying the bundled `config.yml`, and the backup file's name. The documents are values handed to `Load`/`Reload`. Gson and SnakeYAML decoding is reduced to the shape of the document read.
- The worker thread, `scheduleWithFixedDelay`, `awaitTermination` and the `AtomicBoolean`: concurrency is not modelled, and `AuditResets` is one call with the clock reading as a parameter. The plugin's start-up and shutdown order (`WorldResetPlugin.java:80-99`) is not part of this model beyond `DeleteAny` and `Shutdown`.
- Logging, `printStackTrace`, and `Message` rendering with the legacy colour serializer. Messages are datatype values; `messages/Message.java` and `messages/SubjectFactory.java` are not part of this model.
- `WorldOperationResult.java` is not part of this model. Its two values are a datatype with the names the code uses.
- `util/Pair.java` and `commands/CommandMapHelper.java` are not part of this model.
- Nanoseconds: durations and instants are whole seconds, so `TimeLeft` is whole seconds, matching `getSeconds()`.
- Long overflow of seconds arithmetic: durations are unbounded integers, and only the `int` hashes wrap.
- `Double.parseDouble` and `Math.round` become exact rationals with round half up. This agrees with the code for the decimal coefficients the pattern admits, except where a double would round differently.
- Unicode case folding: `toLowerCase(Locale.ROOT)` and `equalsIgnoreCase` are modelled on ASCII letters only. `trim` is exact.
- Regular expressions are modelled as the deterministic matcher they amount to, not as a regex engine.
- DurationArgumentType.ListSuggestions: does not model the pattern's `$` also matching before a final line terminator in the remaining text.
- `readUnquotedString` is not modelled. `DurationArgumentType.Parse`, `Utils.ParseDuration` and the duration branch of `ConfigKeyTypes.Stored` take the whole string as the token, so a config value such as "1h 30m" is not cut at its first space.
- brigadier's dispatcher, its parse tree and `SuggestionsBuilder` (including its own filtering) are reduced to a `ParseResults` value: node count, exceptions and the chosen form.
- The host's world registry is a set of names, and `Files.walk` is a set of paths, each a sequence of name segments. Symbolic links, path separators, a missing folder and a failing delete are not modelled.
- `YamlConfigAdapter.CONFIG_KEYS` is a sequence of the three keys. `ImmutableSet.of` keeps all three only because their baked hashes differ under `ConfigKey.equals`. The model proves that the names differ, but it does not prove that the hashes differ.
- HashSet iteration order cannot be known. Every loop over a set takes an `order` that enumerates the set exactly once.
- Null arguments are not representable. The corresponding `Validate.notNull` rejections are left out.
- Utils.ReplaceAll: requires a replacement with no `$` or `\`, which `appendReplacement` would interpret. The renderings and "the next restart" are proved to satisfy this.
- WorldsDataHandlers.WorldsDataHandler.AuditResets: requires world names without `$` or `\`, for the same reason.
- WorldsDataHandlers.WorldsDataHandler.TimeLeftBroadcast: requires a world name without `$` or `\`, for the same reason.
- WorldsDataHandlers.WorldsDataHandler.Broadcast: requires its three replacements to be free of `$` and `\`.
- WorldsDataHandlers.WorldsDataHandler.DeleteAny: requires every overdue entry to have a positive interval. For a zero or negative interval the code's roll-forward loop never ends, and that divergence is not modelled.
- WorldsDataHandlers.WorldsDataHandler.RollOverEntry: the same positive-interval requirement for an overdue entry.
- WorldsDataHandlers.RollForwardLoop: the same positive-interval requirement.
- WorldsDataHandlers.WorldsDataHandler.FirstNearMoment: states whether a near moment exists, not which moment the unordered loop stops at. The broadcast text does not depend on the moment.
- WorldsDataHandlers.WorldsDataHandler.Save: states that every entry is written once, in some order. The JSON text is not modelled.
- The constructor arguments of `WorldsDataHandler` and `YamlConfigAdapter` (plugin, data folder, subject factory) are left out, because only their file paths and messaging use them.
