/**
 * A YAML document as SnakeYAML decodes it for the plugin: nested string-keyed maps, lists, strings,
 * booleans, integers and floating-point numbers. Decoding itself is not modelled.
 */
module Yaml {

  datatype Value =
    | Null                                   // an explicit null, which Map.get cannot tell from absence
    | Bool(b: bool)
    | Int(i: int)                            // Integer, or Long/BigInteger when outside the int range
    | Float(f: real)                         // a Double, carried through without arithmetic
    | Str(s: string)
    | List(items: seq<Value>)
    | Section(entries: map<string, Value>)   // a Map with string keys
    | Other(tag: string)                     // timestamps, binary data and other scalar types
}
