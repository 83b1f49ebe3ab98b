/**
 * The inputs and outputs of `make`: a Zod schema tree, read through its `_def`,
 * and the JavaScript values `make` builds.
 */
module Zod {

  /** One refinement of a number schema (`{ kind: "min", value: 10 }`, `{ kind: "int" }`, ...). */
  datatype Check = Check(kind: string, value: int)

  /** A member value of a TypeScript enum object: a string or a number. */
  datatype EnumMember = EnumStr(s: string) | EnumNum(n: int)

  /**
   * A schema node, one constructor per `_def.typeName` the switch in `make`
   * names, and `ZodOther` for every other type name (ZodLazy, ZodPromise,
   * ZodBranded, ZodCatch, ZodPipeline, ZodSymbol, ...). Thunks of the schema
   * (`shape()`, `defaultValue()`) are stored as the data they produce; child
   * schemas that `make` never reads are kept so that the model shows they are
   * ignored.
   */
  datatype Schema =
    | ZodObject(shape: seq<(string, Schema)>)
    | ZodRecord(keyType: Schema, valueType: Schema)
    | ZodString
    | ZodNumber(checks: seq<Check>)            // an absent `checks` list is the empty one
    | ZodBigInt
    | ZodBoolean
    | ZodDate
    | ZodLiteral(value: Value)
    | ZodEffects(schema: Schema)               // refinement, transform or preprocess
    | ZodArray(element: Schema)
    | ZodTuple(items: seq<Schema>)
    | ZodSet(valueType: Schema)
    | ZodMap(keyType: Schema, valueType: Schema)
    | ZodEnum(values: seq<string>)
    | ZodNativeEnum(entries: seq<(string, EnumMember)>)  // the enum object's own properties
    | ZodUnion(options: seq<Schema>)
    | ZodDiscriminatedUnion(discriminator: string, options: seq<Schema>)
    | ZodIntersection(left: Schema, right: Schema)
    | ZodFunction(args: Schema, returnType: Schema)
    | ZodDefault(innerType: Schema, defaultValue: Value)
    | ZodNaN
    | ZodNull
    | ZodNullable(innerType: Schema)
    | ZodUndefined
    | ZodVoid
    | ZodOptional(innerType: Schema)
    | ZodAny
    | ZodUnknown
    | ZodNever
    | ZodOther(typeName: OtherName)

  /**
   * A JavaScript value. Objects are their own enumerable properties in
   * iteration order. `VDate` is a Date whose time is not modelled, `VStub` the
   * closure `make` returns for a function schema (it captures the schema of
   * the return value), and `VHostFunction` any other function, such as one a
   * schema's author stores as a default.
   */
  datatype Value =
    | VUndefined
    | VNull
    | VString(str: string)
    | VNumber(num: int)
    | VBool(boolean: bool)
    | VNaN
    | VDate
    | VArray(elems: seq<Value>)
    | VSet(members: seq<Value>)
    | VMap(entries: seq<(Value, Value)>)
    | VObject(props: seq<(string, Value)>)
    | VStub(returnType: Schema)
    | VHostFunction(name: string)

  /** The `_def.typeName` string a schema node carries. */
  function TypeName(s: Schema): (name: string) {
    match s
    case ZodObject(_) => "ZodObject"
    case ZodRecord(_, _) => "ZodRecord"
    case ZodString => "ZodString"
    case ZodNumber(_) => "ZodNumber"
    case ZodBigInt => "ZodBigInt"
    case ZodBoolean => "ZodBoolean"
    case ZodDate => "ZodDate"
    case ZodLiteral(_) => "ZodLiteral"
    case ZodEffects(_) => "ZodEffects"
    case ZodArray(_) => "ZodArray"
    case ZodTuple(_) => "ZodTuple"
    case ZodSet(_) => "ZodSet"
    case ZodMap(_, _) => "ZodMap"
    case ZodEnum(_) => "ZodEnum"
    case ZodNativeEnum(_) => "ZodNativeEnum"
    case ZodUnion(_) => "ZodUnion"
    case ZodDiscriminatedUnion(_, _) => "ZodDiscriminatedUnion"
    case ZodIntersection(_, _) => "ZodIntersection"
    case ZodFunction(_, _) => "ZodFunction"
    case ZodDefault(_, _) => "ZodDefault"
    case ZodNaN => "ZodNaN"
    case ZodNull => "ZodNull"
    case ZodNullable(_) => "ZodNullable"
    case ZodUndefined => "ZodUndefined"
    case ZodVoid => "ZodVoid"
    case ZodOptional(_) => "ZodOptional"
    case ZodAny => "ZodAny"
    case ZodUnknown => "ZodUnknown"
    case ZodNever => "ZodNever"
    case ZodOther(name) => name
  }

  /** A type name the switch in `make` does not list. */
  type OtherName = name: string | name !in SwitchCases witness "ZodLazy"

  /** The type names the switch in `make` lists by name. */
  const SwitchCases: set<string> := {
    "ZodObject", "ZodRecord", "ZodString", "ZodNumber", "ZodBigInt", "ZodBoolean",
    "ZodDate", "ZodLiteral", "ZodEffects", "ZodArray", "ZodTuple", "ZodSet", "ZodMap",
    "ZodEnum", "ZodNativeEnum", "ZodUnion", "ZodDiscriminatedUnion", "ZodIntersection",
    "ZodFunction", "ZodDefault", "ZodNaN", "ZodNull", "ZodNullable", "ZodUndefined",
    "ZodVoid", "ZodOptional", "ZodAny", "ZodUnknown", "ZodNever"
  }
}
