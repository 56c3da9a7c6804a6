/** Policy documents, conditions and request contexts: `src/policy-types.ts`. */
module PolicyTypes {
  import opened Prelude

  /** A value as `JSON.parse` returns it. */
  datatype Json =
    | Null
    | Bool(flag: bool)
    | Num(number: real)
    | Str(text: string)
    | Arr(items: seq<Json>)
    | Obj(props: map<string, Json>)

  datatype Operator =
    | Eq | Ne | Contains | NotContains | StartsWith | EndsWith | MatchesRegex | NotMatchesRegex
    | In | NotIn | Wildcard | Exists | NotExists | Lt | Gt | Lte | Gte

  /** A condition has exactly one shape. `value` is None when the leaf has no such property. */
  datatype Condition =
    | Leaf(field: string, operator: Operator, value: Option<Json>)
    | Any(conditions: seq<Condition>)
    | All(conditions: seq<Condition>)
    | Not(condition: Condition)

  datatype Effect = Allow | Deny

  datatype Statement =
    Statement(effect: Effect, actions: seq<string>, resources: seq<string>, conditions: seq<Condition>)

  datatype PolicyDocument = PolicyDocument(statements: seq<Statement>)

  datatype FieldValue = Text(text: string) | Flag(flag: bool)

  datatype RequestContext = RequestContext(action: string, resource: string, fields: map<string, FieldValue>)

  /**
   What every object inherits: `fields[name]` finds these on any context, unless the context has a field of
   its own by that name.
   */
  predicate Inherited(name: string) {
    name in {"constructor", "hasOwnProperty", "isPrototypeOf", "propertyIsEnumerable", "toLocaleString", "toString",
             "valueOf", "__proto__", "__defineGetter__", "__defineSetter__", "__lookupGetter__", "__lookupSetter__"}
  }

  /**
   What the engine takes from the JavaScript runtime: `Number(...)` (None for NaN), regular expressions that
   are not globs, case folding, conversion of a value to a property name, and `String(...)` of what every
   object inherits by a name. The two conversions are asked only for values that `Unconvertible` lets through.
   */
  datatype Runtime =
    Runtime(
      numberOf: Json -> Option<real>,
      regexCompiles: string -> bool,
      regexTest: (string, string) -> bool,
      regexSuspicious: string -> bool,
      regexSlow: string -> bool,
      fold: char -> char,
      propertyName: Json -> string,
      inheritedText: string -> string)

  /**
   Converting the value to a property name or to a number is a TypeError. A value from JSON is converted by
   its `toString`. An object with a `toString` of its own has none that can be called, and the inherited
   `valueOf` only gives the object back; a list converts its items.
   */
  predicate Unconvertible(j: Json)
    decreases j
  {
    match j
    case Obj(props) => "toString" in props
    case Arr(items) => exists i :: 0 <= i < |items| && Unconvertible(items[i])
    case _ => false
  }

  const MAX_REGEX_LENGTH := 256
  const POLICY_VERSION := "2025-01-01"
  const MAX_CONDITION_DEPTH := 20
}
