/**
 * ConfigKey and its typed subclasses: a validated key name, a fallback value, a reloadable flag, and
 * equality by a hash baked at construction. Each type of key reads its path from the current root
 * section and keeps the stored value only when it has the key's type.
 */
module ConfigKeyTypes {
  import opened Wrappers
  import opened JavaLang
  import opened Yaml
  import opened YamlConfigLookup
  import DurationArgumentType

  /** The value of a key, tagged with the subclass that produces it. */
  datatype Setting =
    | DurationSetting(seconds: int)
    | BooleanSetting(b: bool)
    | IntegerSetting(i: int)
    | DoubleSetting(f: real)
    | StringSetting(s: string)
    | ListSetting(items: seq<Value>)
    | SectionSetting(entries: map<string, Value>)

  /** Both settings come from the same kind of key. */
  predicate SameKind(a: Setting, b: Setting) {
    match a
    case DurationSetting(_) => b.DurationSetting?
    case BooleanSetting(_) => b.BooleanSetting?
    case IntegerSetting(_) => b.IntegerSetting?
    case DoubleSetting(_) => b.DoubleSetting?
    case StringSetting(_) => b.StringSetting?
    case ListSetting(_) => b.ListSetting?
    case SectionSetting(_) => b.SectionSetting?
  }

  datatype ConfigKey = ConfigKey(key: string, fallback: Setting, reloadable: bool, bakedHashCode: int)

  predicate KeyChar(c: char) {
    'a' <= c <= 'z' || 'A' <= c <= 'Z' || c == '-'
  }

  /** [a-zA-Z-]{4,32} */
  predicate KeyBody(s: string) {
    4 <= |s| <= 32 && forall i :: 0 <= i < |s| ==> KeyChar(s[i])
  }

  predicate LineTerminator(c: char) {
    c == '\n' || c == '\r' || c == '\U{0085}' || c == '\U{2028}' || c == '\U{2029}'
  }

  /** VALID_KEY.asPredicate(): "^[a-zA-Z-]{4,32}$" found in the key. Without MULTILINE, `$` also matches
      just before a line terminator that ends the input ("\r\n" counting as one). */
  predicate ValidKeyName(key: string) {
    || KeyBody(key)
    || (|key| > 0 && LineTerminator(key[|key| - 1]) && KeyBody(key[..|key| - 1]))
    || (|key| > 1 && key[|key| - 2..] == "\r\n" && KeyBody(key[..|key| - 2]))
  }

  /** hashCodeBakery: 31 * key.hashCode() + (reloadable ? 1 : 0) in int arithmetic. */
  function Bakery(key: string, reloadable: bool): (h: int)
    ensures INT_MIN <= h <= INT_MAX
  {
    ToInt32(31 * StringHashCode(key) + (if reloadable then 1 else 0))
  }

  /** The constructor: rejects an invalid key name (Validate.isTrue), otherwise stores its arguments and the
      baked hash. */
  function MakeConfigKey(key: string, fallback: Setting, reloadable: bool): (r: Option<ConfigKey>)
    ensures r.Some? <==> ValidKeyName(key)
    ensures r.Some? ==> r.value.key == key && r.value.fallback == fallback && r.value.reloadable == reloadable
    ensures r.Some? ==> r.value.bakedHashCode == Bakery(key, reloadable)
  {
    if ValidKeyName(key) then Some(ConfigKey(key, fallback, reloadable, Bakery(key, reloadable))) else None
  }

  /** A key as the constructor leaves it. */
  predicate Constructed(k: ConfigKey) {
    ValidKeyName(k.key) && k.bakedHashCode == Bakery(k.key, k.reloadable)
  }

  /** ConfigKey.equals: the baked hashes are equal. */
  predicate Equals(a: ConfigKey, b: ConfigKey) {
    a.bakedHashCode == b.bakedHashCode
  }

  /** ConfigKey.hashCode. */
  function HashCode(k: ConfigKey): int {
    k.bakedHashCode
  }

  /** equals is an equivalence and hashCode is consistent with it. */
  lemma EqualsConsistent(a: ConfigKey, b: ConfigKey, c: ConfigKey)
    ensures Equals(a, a)
    ensures Equals(a, b) ==> Equals(b, a)
    ensures Equals(a, b) && Equals(b, c) ==> Equals(a, c)
    ensures Equals(a, b) ==> HashCode(a) == HashCode(b)
  {
  }

  /** Keys built from the same name and flag are equal, whatever their fallbacks. */
  lemma SameNameAndFlag(key: string, f1: Setting, f2: Setting, reloadable: bool)
    requires ValidKeyName(key)
    ensures Equals(MakeConfigKey(key, f1, reloadable).value, MakeConfigKey(key, f2, reloadable).value)
  {
  }

  /** The flag is part of the identity: the same name with different flags gives unequal keys. */
  lemma FlagDistinguishes(k1: ConfigKey, k2: ConfigKey)
    requires Constructed(k1) && Constructed(k2)
    requires k1.key == k2.key && k1.reloadable != k2.reloadable
    ensures !Equals(k1, k2)
  {
    var h := 31 * StringHashCode(k1.key);
    assert (h + 1 - Bakery(k1.key, true)) % INT_MODULUS == 0;
    assert (h - Bakery(k1.key, false)) % INT_MODULUS == 0;
  }

  /** Equality by hash identifies different names: "AaAa" and "BBBB" are valid, distinct names whose
      String hashes coincide, so their keys compare equal. */
  lemma NameCollision(f1: Setting, f2: Setting)
    ensures ValidKeyName("AaAa") && ValidKeyName("BBBB") && "AaAa" != "BBBB"
    ensures Equals(MakeConfigKey("AaAa", f1, true).value, MakeConfigKey("BBBB", f2, true).value)
  {
    assert "AaAa"[0] != "BBBB"[0];
    HashOfQuad('A', 'a', 'A', 'a');
    HashOfQuad('B', 'B', 'B', 'B');
  }

  /** The `$` of the key pattern lets a name through with a final line terminator. */
  lemma TrailingNewlineAccepted()
    ensures ValidKeyName("abcd\n") && !KeyBody("abcd\n")
  {
    assert "abcd\n"[..4] == "abcd";
    assert !KeyChar("abcd\n"[4]);
  }

  // ---------------------------------------------------------------------------
  // The typed keys' get(configAdapter)

  /** The stored value when it exists and has the type, otherwise the fallback. */
  function Stored(raw: Option<Value>, fallback: Setting): (r: Setting)
    ensures SameKind(r, fallback)
  {
    match raw
    case None => fallback
    case Some(v) =>
      match fallback
      case BooleanSetting(_) => if v.Bool? then BooleanSetting(v.b) else fallback
      case IntegerSetting(_) => if v.Int? then IntegerSetting(v.i) else fallback
      case DoubleSetting(_) => if v.Float? then DoubleSetting(v.f) else fallback
      case StringSetting(_) => if v.Str? then StringSetting(v.s) else fallback
      case ListSetting(_) => if v.List? then ListSetting(v.items) else fallback
      case SectionSetting(_) => if v.Section? then SectionSetting(v.entries) else fallback
      case DurationSetting(_) =>
        if v.Str? then
          match DurationArgumentType.ParseSpec(v.s, None, None)
          case Ok(d) => DurationSetting(d)
          case Err(_) => fallback
        else fallback
  }

  /** The getter each subclass calls: getString for a duration or a string, getBoolean, getInt, getDouble,
      getList, getSection. */
  function GetterType(fallback: Setting): JavaType {
    match fallback
    case DurationSetting(_) => StringType
    case BooleanSetting(_) => BooleanType
    case IntegerSetting(_) => IntegerType
    case DoubleSetting(_) => DoubleType
    case StringSetting(_) => StringType
    case ListSetting(_) => ListType
    case SectionSetting(_) => MapType
  }

  /** ConfigKey.get(configAdapter) on the adapter's root section. A failing path lookup propagates. */
  function KeyGet(k: ConfigKey, root: map<string, Value>): (r: Result<Setting, LookupError>)
    ensures r.Err? <==> Get(k.key, Some(root)).Err?
    ensures r.Ok? ==> SameKind(r.value, k.fallback)
  {
    match TypedGet(root, k.key, GetterType(k.fallback))
    case Err(e) => Err(e)
    case Ok(raw) => Ok(Stored(raw, k.fallback))
  }

  /** A key name without a dot is looked up directly in the root section, which never fails. */
  lemma DotlessKeyGet(k: ConfigKey, root: map<string, Value>)
    requires '.' !in k.key
    ensures Get(k.key, Some(root)) == MapGet(Some(root), k.key)
    ensures KeyGet(k, root).Ok?
  {
    DirectLookup(k.key, root);
  }

  /** When the key's value is the fallback: absent, of the wrong type, or (for a duration) unparsable. */
  predicate FallsBack(raw: Option<Value>, fallback: Setting) {
    || raw.None?
    || !IsInstance(GetterType(fallback), raw.value)
    || (fallback.DurationSetting? && DurationArgumentType.ParseSpec(raw.value.s, None, None).Err?)
  }

  /** Each typed key yields its fallback exactly when the stored value is missing or unusable, and otherwise
      the stored value itself (a duration string through the unbounded parser). */
  lemma KeyGetSpec(k: ConfigKey, root: map<string, Value>)
    requires Get(k.key, Some(root)).Ok?
    ensures var raw := Get(k.key, Some(root)).value;
            && (FallsBack(raw, k.fallback) ==> KeyGet(k, root) == Ok(k.fallback))
            && (!FallsBack(raw, k.fallback) ==> KeyGet(k, root) == Ok(Converted(raw.value, k.fallback)))
  {
  }

  /** The setting a usable stored value converts to. */
  function Converted(v: Value, fallback: Setting): Setting
    requires IsInstance(GetterType(fallback), v)
    requires fallback.DurationSetting? ==> DurationArgumentType.ParseSpec(v.s, None, None).Ok?
  {
    match fallback
    case DurationSetting(_) => DurationSetting(DurationArgumentType.ParseSpec(v.s, None, None).value)
    case BooleanSetting(_) => BooleanSetting(v.b)
    case IntegerSetting(_) => IntegerSetting(v.i)
    case DoubleSetting(_) => DoubleSetting(v.f)
    case StringSetting(_) => StringSetting(v.s)
    case ListSetting(_) => ListSetting(v.items)
    case SectionSetting(_) => SectionSetting(v.entries)
  }
}
