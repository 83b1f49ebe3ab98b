/**
 * `make` and `init` of src/index.ts: the default value of a Zod schema,
 * chosen by the node's `_def.typeName` and built by recursion over the tree.
 */
module ZodEmpty {
  import opened Results
  import opened JsObjects
  import opened Zod

  /** What `make` can throw, or where the model stops deciding what `make` does. */
  datatype Error =
    | UndefinedSchema       // `make(undefined)`: a union without options; reading `_def` throws a TypeError
    | NullishAssignTarget   // `Object.assign(undefined | null, ...)` throws a TypeError
    | Unmodelled            // `Object.assign` onto any other non-object (string, number, boolean, NaN, array, set, map, date, function):
                            // a wrapper or mutated object this model has no value for; the target itself, unchanged or with
                            // its indices overwritten; or a TypeError/RangeError from writing a read-only or getter-only
                            // property of the target. The model decides none of these

  /** The result of `make(s)`. */
  function Make(s: Schema): (r: Result<Value, Error>)
    decreases s, 1, 0
  {
    match s
    case ZodObject(shape) =>
      var props :- FillObject(s, |shape|);
      Success(VObject(props))
    case ZodRecord(_, _) => Success(VObject([]))
    case ZodString => Success(VString(""))
    case ZodNumber(checks) => Success(VNumber(FirstBound(checks)))
    case ZodBigInt => Success(VNumber(0))
    case ZodBoolean => Success(VBool(false))
    case ZodDate => Success(VDate)
    case ZodLiteral(value) => Success(value)
    case ZodEffects(inner) => Make(inner)
    case ZodArray(_) => Success(VArray([]))
    case ZodTuple(items) =>
      var elems :- FillTuple(s, |items|);
      Success(VArray(elems))
    case ZodSet(_) => Success(VSet([]))
    case ZodMap(_, _) => Success(VMap([]))
    case ZodEnum(values) => Success(if |values| > 0 then VString(values[0]) else VUndefined)
    case ZodNativeEnum(entries) => Success(NativeEnumDefault(entries))
    case ZodUnion(options) =>
      if |options| == 0 then Failure(UndefinedSchema) else Make(options[0])
    case ZodDiscriminatedUnion(_, options) =>
      if |options| == 0 then Failure(UndefinedSchema) else Make(options[0])
    case ZodIntersection(left, right) =>
      var l :- Make(left);
      var r :- Make(right);
      Assign(l, r)
    case ZodFunction(_, returnType) => Success(VStub(returnType))
    case ZodDefault(innerType, defaultValue) =>
      Success(if innerType.ZodFunction? then defaultValue else Clone(defaultValue))
    case ZodNaN => Success(VNaN)
    case ZodNull => Success(VNull)
    case ZodNullable(_) => Success(VNull)
    case ZodUndefined => Success(VUndefined)
    case ZodVoid => Success(VUndefined)
    case ZodOptional(_) => Success(VUndefined)
    case ZodAny => Success(VUndefined)
    case ZodUnknown => Success(VUndefined)
    case ZodNever => Success(VUndefined)
    case ZodOther(_) => Success(VUndefined)
  }

  /** `init`, the default export: `make` under another name. */
  function Init(s: Schema): (r: Result<Value, Error>) {
    Make(s)
  }

  /**
   * The object the `forEach` over `Object.entries(shape)` has built after
   * its first `n` fields, or the error a field's `make` threw.
   */
  function FillObject(s: Schema, n: nat): (r: Result<seq<(string, Value)>, Error>)
    requires s.ZodObject? && n <= |s.shape|
    decreases s, 0, n
  {
    if n == 0 then Success([])
    else
      var props :- FillObject(s, n - 1);
      var v :- Make(s.shape[n - 1].1);
      Success(Put(props, s.shape[n - 1].0, v))
  }

  /** `items.map(make)` over the first `n` items of a tuple. */
  function FillTuple(s: Schema, n: nat): (r: Result<seq<Value>, Error>)
    requires s.ZodTuple? && n <= |s.items|
    decreases s, 0, n
  {
    if n == 0 then Success([])
    else
      var elems :- FillTuple(s, n - 1);
      var v :- Make(s.items[n - 1]);
      Success(elems + [v])
  }

  /** `["min", "max"].includes(check.kind)`. */
  predicate IsBound(c: Check) {
    c.kind == "min" || c.kind == "max"
  }

  /** The number rule: the value of the first min or max check, 0 if there is none. */
  function FirstBound(checks: seq<Check>): (bound: int) {
    if |checks| == 0 then 0
    else if IsBound(checks[0]) then checks[0].value
    else FirstBound(checks[1..])
  }

  /** The `for ... of def.checks` loop with its early return. */
  method FirstBoundScan(checks: seq<Check>) returns (r: int)
    ensures r == FirstBound(checks)
  {
    var i := 0;
    while i < |checks|
      invariant 0 <= i <= |checks|
      invariant FirstBound(checks[i..]) == FirstBound(checks)
    {
      assert checks[i..][1..] == checks[i + 1..];
      if IsBound(checks[i]) {
        return checks[i].value;
      }
      i := i + 1;
    }
    return 0;
  }

  /** The `forEach` that fills `outputObject` in place, one field at a time. */
  method BuildObject(shape: seq<(string, Schema)>) returns (r: Result<Value, Error>)
    ensures r == Make(ZodObject(shape))
  {
    ghost var s := ZodObject(shape);
    var outputObject: seq<(string, Value)> := [];
    var i := 0;
    while i < |shape|
      invariant 0 <= i <= |shape|
      invariant FillObject(s, i) == Success(outputObject)
    {
      var v := Make(shape[i].1);
      if v.Failure? {
        FieldFailureThrows(shape, i);
        return Failure(v.error);
      }
      outputObject := Put(outputObject, shape[i].0, v.value);
      i := i + 1;
    }
    MakeObjectIsFill(shape);
    return Success(VObject(outputObject));
  }

  /** `make` of an object schema is the object the `forEach` builds over all fields. */
  lemma MakeObjectIsFill(shape: seq<(string, Schema)>)
    requires FillObject(ZodObject(shape), |shape|).Success?
    ensures Make(ZodObject(shape)) == Success(VObject(FillObject(ZodObject(shape), |shape|).value))
  {
  }

  /** `make` of an object schema throws when the `forEach` does. */
  lemma MakeObjectFails(shape: seq<(string, Schema)>)
    requires FillObject(ZodObject(shape), |shape|).Failure?
    ensures Make(ZodObject(shape)) == Failure(FillObject(ZodObject(shape), |shape|).error)
  {
  }

  /** A field whose `make` throws, after fields that did not, makes the whole object throw. */
  lemma FieldFailureThrows(shape: seq<(string, Schema)>, i: nat)
    requires i < |shape|
    requires FillObject(ZodObject(shape), i).Success?
    requires Make(shape[i].1).Failure?
    ensures Make(ZodObject(shape)) == Failure(Make(shape[i].1).error)
  {
    FillObjectFailurePersists(ZodObject(shape), i + 1, |shape|);
  }

  /** One more iteration of the `forEach`, after iterations that did not throw. */
  lemma FillObjectStep(s: Schema, i: nat)
    requires s.ZodObject? && i < |s.shape|
    requires FillObject(s, i).Success? && Make(s.shape[i].1).Success?
    ensures FillObject(s, i + 1) == Success(Put(FillObject(s, i).value, s.shape[i].0, Make(s.shape[i].1).value))
  {
  }

  /** Once a field's `make` has thrown, the `forEach` never completes. */
  lemma {:induction false} FillObjectFailurePersists(s: Schema, i: nat, n: nat)
    requires s.ZodObject? && i <= n <= |s.shape|
    requires FillObject(s, i).Failure?
    ensures FillObject(s, n) == FillObject(s, i)
    decreases n
  {
    if n > i {
      FillObjectFailurePersists(s, i, n - 1);
    }
  }

  /** The key `typeof values[m]` looks up for an enum member value `m`. */
  function MemberKey(m: EnumMember): (key: string) {
    match m
    case EnumStr(str) => str
    case EnumNum(n) => NumberKey(n)
  }

  /** The JavaScript value of an enum member. */
  function MemberValue(m: EnumMember): (v: Value) {
    match m
    case EnumStr(str) => VString(str)
    case EnumNum(n) => VNumber(n)
  }

  /** `typeof values[m] !== "number"`: `m` is not a name that maps to a number. */
  predicate NotReverseMapped(entries: seq<(string, EnumMember)>, m: EnumMember) {
    var x := Lookup(entries, MemberKey(m));
    !(x.Some? && x.value.EnumNum?)
  }

  /** `Object.values(values).filter(...)` over the entries from `i` on. */
  function KeptValues(entries: seq<(string, EnumMember)>, i: nat): (kept: seq<EnumMember>)
    requires i <= |entries|
    decreases |entries| - i
  {
    if i == |entries| then []
    else if NotReverseMapped(entries, entries[i].1) then [entries[i].1] + KeptValues(entries, i + 1)
    else KeptValues(entries, i + 1)
  }

  /** The native-enum rule: the first kept value, `undefined` if none is kept. */
  function NativeEnumDefault(entries: seq<(string, EnumMember)>): (v: Value) {
    var kept := KeptValues(entries, 0);
    if |kept| > 0 then MemberValue(kept[0]) else VUndefined
  }

  /** The deep copy of `clone` from just-clone: every container rebuilt, everything else kept. */
  function Clone(v: Value): (copy: Value) {
    match v
    case VArray(elems) => VArray(seq(|elems|, i requires 0 <= i < |elems| => Clone(elems[i])))
    case VSet(members) => VSet(seq(|members|, i requires 0 <= i < |members| => Clone(members[i])))
    case VMap(entries) =>
      VMap(seq(|entries|, i requires 0 <= i < |entries| => (Clone(entries[i].0), Clone(entries[i].1))))
    case VObject(props) =>
      VObject(seq(|props|, i requires 0 <= i < |props| => (props[i].0, Clone(props[i].1))))
    case _ => v
  }

  /**
   * The own enumerable string-keyed properties `Object.assign` copies from a
   * source: an object's properties, an array's or a string's indices, and
   * none for `undefined`, `null` and every other value.
   */
  function OwnProps(v: Value): (props: seq<(string, Value)>) {
    match v
    case VObject(props) => props
    case VArray(elems) => seq(|elems|, i requires 0 <= i < |elems| => (NumberKey(i), elems[i]))
    case VString(str) => seq(|str|, i requires 0 <= i < |str| => (NumberKey(i), VString([str[i]])))
    case _ => []
  }

  /** `Object.assign(target, source)`. */
  function Assign(target: Value, source: Value): (r: Result<Value, Error>) {
    if target.VUndefined? || target.VNull? then Failure(NullishAssignTarget)
    else if target.VObject? then Success(VObject(AssignAll(target.props, OwnProps(source))))
    else Failure(Unmodelled)
  }

  /** Calling the closure `make` returns for a function schema: the arguments are ignored. */
  function Invoke(stub: Value, args: seq<Value>): (r: Result<Value, Error>)
    requires stub.VStub?
  {
    Make(stub.returnType)
  }
}
