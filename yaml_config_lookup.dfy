/**
 * The read-only half of YamlConfigAdapter: splitting a dotted path the way Pattern.split does,
 * walking nested sections, and validating the type of the value found.
 */
module YamlConfigLookup {
  import opened Wrappers
  import opened JavaLang
  import opened Yaml
  import Utils

  const SEPARATOR: string := "."

  /** The first '.' in s. */
  function FirstDot(s: string): (i: nat)
    requires '.' in s
    ensures i < |s| && s[i] == '.' && '.' !in s[..i]
  {
    if s[0] == '.' then 0
    else
      var j := FirstDot(s[1..]);
      assert s[1..][..j] == s[1..j + 1];
      1 + j
  }

  /** Every piece of s between dots, empty pieces included. */
  function Pieces(s: string): (r: seq<string>)
    ensures |r| > 0
    ensures forall k :: 0 <= k < |r| ==> '.' !in r[k]
    decreases |s|
  {
    if '.' in s then
      var i := FirstDot(s);
      [s[..i]] + Pieces(s[i + 1..])
    else [s]
  }

  /** The trailing empty strings removed. */
  function DropTrailingEmpty(ps: seq<string>): (r: seq<string>)
    ensures |r| <= |ps| && r == ps[..|r|]
    ensures r != [] ==> r[|r| - 1] != []
    ensures forall k :: |r| <= k < |ps| ==> ps[k] == []
  {
    if ps == [] then []
    else if ps[|ps| - 1] == [] then DropTrailingEmpty(ps[..|ps| - 1])
    else ps
  }

  /** Pattern.compile(".", LITERAL).split(path): the path itself when it has no dot, otherwise the pieces
      without the trailing empty ones. */
  function Split(path: string): (r: seq<string>)
    ensures forall k :: 0 <= k < |r| ==> '.' !in r[k]
    ensures '.' !in path ==> r == [path]
  {
    if '.' !in path then [path] else DropTrailingEmpty(Pieces(path))
  }

  /** Total length of the pieces. */
  function Length(ps: seq<string>): nat {
    if ps == [] then 0 else |ps[0]| + Length(ps[1..])
  }

  lemma {:induction false} JoinLength(ps: seq<string>)
    requires ps != []
    ensures |Utils.Join(ps, SEPARATOR)| + 1 == Length(ps) + |ps|
  {
    if |ps| > 1 {
      JoinLength(ps[1..]);
    }
  }

  lemma {:induction false} PiecesLength(s: string)
    ensures Length(Pieces(s)) + |Pieces(s)| == |s| + 1
    decreases |s|
  {
    if '.' in s {
      var i := FirstDot(s);
      PiecesLength(s[i + 1..]);
      assert Pieces(s)[1..] == Pieces(s[i + 1..]);
    }
  }

  lemma {:induction false} PrefixLength(ps: seq<string>, n: nat)
    requires n <= |ps|
    ensures Length(ps[..n]) <= Length(ps)
    decreases n
  {
    if n > 0 {
      assert ps[..n][1..] == ps[1..][..n - 1];
      PrefixLength(ps[1..], n - 1);
    }
  }

  /** The path handed to the recursive call is shorter than the path itself. */
  lemma RestShorter(path: string)
    requires |Split(path)| >= 2
    ensures |Utils.Join(Split(path)[1..], SEPARATOR)| < |path|
  {
    var ps := Pieces(path);
    var cs := Split(path);
    assert '.' in path;
    PiecesLength(path);
    PrefixLength(ps, |cs|);
    JoinLength(cs[1..]);
    assert Length(cs) == |cs[0]| + Length(cs[1..]);
  }

  datatype LookupError =
    | NullSection      // a null dereference: a missing or non-map intermediate section
    | NoComponents     // ArrayIndexOutOfBoundsException: a path made only of dots

  /** Map.get on a map that may be null; an explicit null value reads as absent. */
  function MapGet(m: Option<map<string, Value>>, key: string): (r: Result<Option<Value>, LookupError>)
    ensures r.Err? <==> m.None?
    ensures r.Ok? && r.value.Some? ==> key in m.value && m.value[key] == r.value.value && !r.value.value.Null?
  {
    match m
    case None => Err(NullSection)
    case Some(entries) => Ok(if key in entries && !entries[key].Null? then Some(entries[key]) else None)
  }

  /** The class argument of validate. */
  datatype JavaType = BooleanType | IntegerType | DoubleType | StringType | ListType | MapType

  predicate IsInstance(t: JavaType, v: Value) {
    match t
    case BooleanType => v.Bool?
    case IntegerType => v.Int? && INT_MIN <= v.i <= INT_MAX
    case DoubleType => v.Float?
    case StringType => v.Str?
    case ListType => v.List?
    case MapType => v.Section?
  }

  /** validate: the value when present and of the expected type, null (None) otherwise. */
  function Validate(value: Option<Value>, t: JavaType): (r: Option<Value>)
    ensures r.Some? <==> value.Some? && IsInstance(t, value.value)
    ensures r.Some? ==> r == value
  {
    if value.None? then None
    else if !IsInstance(t, value.value) then None
    else value
  }

  function SectionOf(v: Option<Value>): Option<map<string, Value>> {
    if v.Some? && v.value.Section? then Some(v.value.entries) else None
  }

  /** get(path, map). */
  function Get(path: string, m: Option<map<string, Value>>): (r: Result<Option<Value>, LookupError>)
    ensures r.Ok? && r.value.Some? ==> !r.value.value.Null?
    decreases |path|
  {
    var components := Split(path);
    if |components| == 1 then MapGet(m, path)
    else if |components| == 0 then Err(NoComponents)
    else
      var nested := components[0];
      RestShorter(path);
      match MapGet(m, nested)
      case Err(e) => Err(e)
      case Ok(v) => Get(Utils.Join(components[1..], SEPARATOR), SectionOf(Validate(v, MapType)))
  }

  /** The typed getters getBoolean, getInt, getDouble, getString, getList and getSection. */
  function TypedGet(root: map<string, Value>, key: string, t: JavaType): (r: Result<Option<Value>, LookupError>)
    ensures r.Ok? && r.value.Some? ==> IsInstance(t, r.value.value)
    ensures Get(key, Some(root)).Err? <==> r.Err?
    ensures Get(key, Some(root)).Ok? ==> r == Ok(Validate(Get(key, Some(root)).value, t))
  {
    match Get(key, Some(root))
    case Err(e) => Err(e)
    case Ok(v) => Ok(Validate(v, t))
  }

  // ---------------------------------------------------------------------------
  // The lookup as a walk over the path's components

  /** Looking up the components one section after another. */
  function Walk(components: seq<string>, m: Option<map<string, Value>>): (r: Result<Option<Value>, LookupError>)
    requires components != []
  {
    if |components| == 1 then MapGet(m, components[0])
    else match MapGet(m, components[0])
      case Err(e) => Err(e)
      case Ok(v) => Walk(components[1..], SectionOf(Validate(v, MapType)))
  }

  lemma {:induction false} PiecesOfJoin(ps: seq<string>)
    requires ps != [] && forall k :: 0 <= k < |ps| ==> '.' !in ps[k]
    ensures Pieces(Utils.Join(ps, SEPARATOR)) == ps
  {
    if |ps| > 1 {
      var s := Utils.Join(ps, SEPARATOR);
      var rest := Utils.Join(ps[1..], SEPARATOR);
      assert s == ps[0] + "." + rest;
      assert s[|ps[0]|] == '.';
      assert s[..|ps[0]|] == ps[0];
      var i := FirstDot(s);
      assert i == |ps[0]|;
      assert s[i + 1..] == rest;
      PiecesOfJoin(ps[1..]);
    }
  }

  lemma PiecesLastEmpty(s: string)
    ensures Pieces(s)[|Pieces(s)| - 1] == [] <==> s == [] || s[|s| - 1] == '.'
    decreases |s|
  {
    if '.' in s {
      var i := FirstDot(s);
      PiecesLastEmpty(s[i + 1..]);
    }
  }

  /** A path without a dot is looked up directly. */
  lemma DirectLookup(path: string, m: map<string, Value>)
    requires '.' !in path
    ensures Get(path, Some(m)) == Ok(if path in m && !m[path].Null? then Some(m[path]) else None)
  {
  }

  /** For a path that does not end in a dot, get(path, map) visits its components one section at a time:
      the first component names a nested section, the rest is looked up inside it. */
  lemma {:induction false} LookupWalks(path: string, m: Option<map<string, Value>>)
    requires path != [] && path[|path| - 1] != '.'
    ensures Split(path) != [] && Get(path, m) == Walk(Split(path), m)
    decreases |path|
  {
    if '.' in path {
      var cs := Split(path);
      var rest := SplitRest(path);
      RestShorter(path);
      LookupStep(path, m);
      if MapGet(m, cs[0]).Ok? {
        LookupWalks(rest, SectionOf(Validate(MapGet(m, cs[0]).value, MapType)));
      }
    }
  }

  lemma LookupStep(path: string, m: Option<map<string, Value>>)
    requires |Split(path)| >= 2
    ensures |Utils.Join(Split(path)[1..], SEPARATOR)| < |path|
    ensures MapGet(m, Split(path)[0]).Err? ==> Get(path, m) == Err(MapGet(m, Split(path)[0]).error)
    ensures MapGet(m, Split(path)[0]).Ok? ==>
              (Get(path, m)
               == Get(Utils.Join(Split(path)[1..], SEPARATOR), SectionOf(Validate(MapGet(m, Split(path)[0]).value, MapType))))
  {
    RestShorter(path);
  }

  /** A dotted path that does not end in a dot splits into at least two components, and the rest of the
      path splits into the remaining ones. */
  lemma SplitRest(path: string) returns (rest: string)
    requires '.' in path && path[|path| - 1] != '.'
    ensures |Split(path)| >= 2 && rest == Utils.Join(Split(path)[1..], SEPARATOR)
    ensures rest != [] && rest[|rest| - 1] != '.' && Split(rest) == Split(path)[1..]
  {
    PiecesLastEmpty(path);
    var cs := Split(path);
    assert cs == Pieces(path);
    var i := FirstDot(path);
    assert Pieces(path) == [path[..i]] + Pieces(path[i + 1..]);
    rest := Utils.Join(cs[1..], SEPARATOR);
    PiecesOfJoin(cs[1..]);
    PiecesLastEmpty(rest);
  }

  lemma {:induction false} WalkNull(components: seq<string>)
    requires components != []
    ensures Walk(components, None).Err?
  {
  }

  /** A missing or non-map intermediate section makes the lookup fail. */
  lemma MissingSection(components: seq<string>, m: map<string, Value>)
    requires |components| >= 2
    requires components[0] !in m || !m[components[0]].Section?
    ensures Walk(components, Some(m)) == Err(NullSection)
  {
    WalkNullSection(components[1..]);
  }

  lemma {:induction false} WalkNullSection(components: seq<string>)
    requires components != []
    ensures Walk(components, None) == Err(NullSection)
  {
  }

  /** A trailing dot is dropped by the split, so "a." is looked up as the key "a." itself. */
  lemma TrailingDot(m: map<string, Value>)
    ensures Get("a.", Some(m)) == Ok(if "a." in m && !m["a."].Null? then Some(m["a."]) else None)
  {
    assert "a."[0] != '.' && "a."[1] == '.' && FirstDot("a.") == 1;
    assert "a."[..1] == "a" && "a."[2..] == "";
    assert Pieces("a.") == ["a", ""];
  }

  /** A path made only of dots splits into nothing and fails. */
  lemma OnlyDots(m: map<string, Value>)
    ensures Get(".", Some(m)) == Err(NoComponents)
  {
    assert FirstDot(".") == 0;
    assert Pieces("."[1..]) == [""];
    assert Pieces(".") == ["", ""];
  }
}
