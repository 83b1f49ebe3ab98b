/**
 * What `make` promises, node kind by node kind, proved of the model in
 * zod_empty.dfy; and when it throws.
 */
module ZodEmptyProperties {
  import opened Results
  import opened JsObjects
  import opened Zod
  import opened ZodEmpty

  // ---------------------------------------------------------------- numbers

  /**
   * The number rule: the value of the first check whose kind is "min" or
   * "max", in declared order; 0 when there is none.
   */
  lemma {:induction false} FirstBoundIsFirstBoundCheck(checks: seq<Check>)
    ensures (forall i :: 0 <= i < |checks| ==> !IsBound(checks[i])) ==> FirstBound(checks) == 0
    ensures forall i :: 0 <= i < |checks| && IsBound(checks[i]) && NoBoundBefore(checks, i) ==>
      FirstBound(checks) == checks[i].value
  {
    if |checks| > 0 {
      FirstBoundIsFirstBoundCheck(checks[1..]);
      forall i | 0 < i < |checks| && NoBoundBefore(checks, i)
        ensures NoBoundBefore(checks[1..], i - 1)
      {
        forall j | 0 <= j < i - 1 ensures !IsBound(checks[1..][j]) {
          assert !IsBound(checks[j + 1]);
        }
      }
    }
  }

  /** No check before index `i` is a min or max check. */
  predicate NoBoundBefore(checks: seq<Check>, i: int)
    requires 0 <= i <= |checks|
  {
    forall j :: 0 <= j < i ==> !IsBound(checks[j])
  }

  /** `z.number()`, `.min(10)`, `.max(100)`, `.min(10).max(100)` and `.max(100).min(10)`. */
  lemma NumberExamples()
    ensures Make(ZodNumber([])) == Success(VNumber(0))
    ensures Make(ZodNumber([Check("min", 10)])) == Success(VNumber(10))
    ensures Make(ZodNumber([Check("max", 100)])) == Success(VNumber(100))
    ensures Make(ZodNumber([Check("min", 10), Check("max", 100)])) == Success(VNumber(10))
    ensures Make(ZodNumber([Check("max", 100), Check("min", 10)])) == Success(VNumber(100))
    ensures Make(ZodNumber([Check("int", 0), Check("max", 100)])) == Success(VNumber(100))
  {
    assert [Check("int", 0), Check("max", 100)][1..] == [Check("max", 100)];
  }

  // ---------------------------------------------------------------- objects

  /** The `forEach` completes exactly when `make` of every field returns. */
  lemma {:induction false} FillObjectSucceeds(shape: seq<(string, Schema)>, n: nat)
    requires n <= |shape|
    ensures FillObject(ZodObject(shape), n).Success? <==>
      forall i :: 0 <= i < n ==> Make(shape[i].1).Success?
  {
    if n > 0 {
      var s := ZodObject(shape);
      FillObjectSucceeds(shape, n - 1);
      if FillObject(s, n - 1).Success? {
        if Make(shape[n - 1].1).Success? {
          FillObjectStep(s, n - 1);
        } else {
          FieldFailureThrows(shape, n - 1);
        }
      } else {
        FillObjectFailurePersists(s, n - 1, n);
        var i :| 0 <= i < n - 1 && Make(shape[i].1).Failure?;
      }
    }
  }

  /**
   * With distinct keys (as in every JavaScript object), the object built from
   * the first `n` fields has their keys, in shape order, each holding `make`
   * of its field's schema.
   */
  lemma {:induction false} FillObjectFields(shape: seq<(string, Schema)>, n: nat)
    requires n <= |shape| && DistinctKeys(shape)
    requires forall i :: 0 <= i < n ==> Make(shape[i].1).Success?
    ensures FillObject(ZodObject(shape), n).Success?
    ensures |FillObject(ZodObject(shape), n).value| == n
    ensures forall i :: 0 <= i < n ==>
      FillObject(ZodObject(shape), n).value[i] == (shape[i].0, Make(shape[i].1).value)
  {
    if n == 0 {
      assert FillObject(ZodObject(shape), 0) == Success([]);
    } else {
      FillObjectFields(shape, n - 1);
      FillObjectAppends(shape, n);
    }
  }

  /** With distinct keys, each field's assignment appends a new property. */
  lemma FillObjectAppends(shape: seq<(string, Schema)>, n: nat)
    requires 0 < n <= |shape| && DistinctKeys(shape)
    requires Make(shape[n - 1].1).Success?
    requires FillObject(ZodObject(shape), n - 1).Success?
    requires |FillObject(ZodObject(shape), n - 1).value| == n - 1
    requires forall i :: 0 <= i < n - 1 ==> FillObject(ZodObject(shape), n - 1).value[i].0 == shape[i].0
    ensures FillObject(ZodObject(shape), n) ==
      Success(FillObject(ZodObject(shape), n - 1).value + [(shape[n - 1].0, Make(shape[n - 1].1).value)])
  {
    var props := FillObject(ZodObject(shape), n - 1).value;
    FreshKey(props, shape, n - 1);
    FillObjectStep(ZodObject(shape), n - 1);
    PutKeepsPositions(props, shape[n - 1].0, Make(shape[n - 1].1).value);
  }

  /** The next key of a shape with distinct keys is not among the keys already assigned. */
  lemma FreshKey<V, W>(props: seq<(string, V)>, shape: seq<(string, W)>, n: nat)
    requires n < |shape| && DistinctKeys(shape) && |props| == n
    requires forall i :: 0 <= i < n ==> props[i].0 == shape[i].0
    ensures shape[n].0 !in Keys(props)
  {
    forall i | 0 <= i < n ensures Keys(props)[i] != shape[n].0 {
      assert props[i].0 == shape[i].0;
    }
  }

  /**
   * The object rule: `make` of an object schema returns exactly when `make`
   * of every field does, and then the result has the shape's keys in shape
   * order, each field holding `make` of that field's schema.
   */
  lemma ObjectHasShapeFields(shape: seq<(string, Schema)>)
    requires DistinctKeys(shape)
    ensures Make(ZodObject(shape)).Success? <==> forall i :: 0 <= i < |shape| ==> Make(shape[i].1).Success?
    ensures Make(ZodObject(shape)).Success? ==>
      && Make(ZodObject(shape)).value.VObject?
      && Keys(Make(ZodObject(shape)).value.props) == Keys(shape)
      && forall i :: 0 <= i < |shape| ==>
           Make(ZodObject(shape)).value.props[i].1 == Make(shape[i].1).value
  {
    FillObjectSucceeds(shape, |shape|);
    if FillObject(ZodObject(shape), |shape|).Success? {
      FillObjectFields(shape, |shape|);
      MakeObjectIsFill(shape);
    } else {
      MakeObjectFails(shape);
    }
  }

  /** When a field's `make` throws, the object's `make` throws the first such error. */
  lemma ObjectThrowsFirstFieldError(shape: seq<(string, Schema)>, i: nat)
    requires i < |shape| && Make(shape[i].1).Failure?
    requires forall j :: 0 <= j < i ==> Make(shape[j].1).Success?
    ensures Make(ZodObject(shape)) == Failure(Make(shape[i].1).error)
  {
    FillObjectSucceeds(shape, i);
    FieldFailureThrows(shape, i);
  }

  /** `z.object({ foo: z.string(), bar: z.number(), buz: z.array(z.string()) })`. */
  lemma ObjectExample()
    ensures Make(ZodObject([("foo", ZodString), ("bar", ZodNumber([])), ("buz", ZodArray(ZodString))]))
         == Success(VObject([("foo", VString("")), ("bar", VNumber(0)), ("buz", VArray([]))]))
  {
    var shape := [("foo", ZodString), ("bar", ZodNumber([])), ("buz", ZodArray(ZodString))];
    var expected := [("foo", VString("")), ("bar", VNumber(0)), ("buz", VArray([]))];
    assert Make(shape[0].1) == Success(VString(""));
    assert Make(shape[1].1) == Success(VNumber(0));
    assert Make(shape[2].1) == Success(VArray([]));
    ObjectHasShapeFields(shape);
    assert Make(ZodObject(shape)).Success?;
    var props := Make(ZodObject(shape)).value.props;
    assert |Keys(props)| == |Keys(shape)|;
    forall i | 0 <= i < 3 ensures props[i] == expected[i] {
      assert Keys(props)[i] == Keys(shape)[i];
    }
    assert props == expected;
  }

  // ---------------------------------------------------------------- tuples

  /** `items.map(make)` over the first `n` items: one element per item, `make` of that item. */
  lemma {:induction false} FillTupleElements(items: seq<Schema>, n: nat)
    requires n <= |items|
    ensures FillTuple(ZodTuple(items), n).Success? <==> forall i :: 0 <= i < n ==> Make(items[i]).Success?
    ensures FillTuple(ZodTuple(items), n).Success? ==>
      && |FillTuple(ZodTuple(items), n).value| == n
      && forall i :: 0 <= i < n ==> FillTuple(ZodTuple(items), n).value[i] == Make(items[i]).value
  {
    if n > 0 {
      FillTupleElements(items, n - 1);
    }
  }

  /**
   * The tuple rule: an array with one element per item, element `i` being
   * `make(items[i])`; it throws exactly when `make` of some item throws.
   */
  lemma TupleHasItemDefaults(items: seq<Schema>)
    ensures Make(ZodTuple(items)).Success? <==> forall i :: 0 <= i < |items| ==> Make(items[i]).Success?
    ensures Make(ZodTuple(items)).Success? ==>
      && Make(ZodTuple(items)).value.VArray?
      && |Make(ZodTuple(items)).value.elems| == |items|
      && forall i :: 0 <= i < |items| ==> Make(ZodTuple(items)).value.elems[i] == Make(items[i]).value
  {
    FillTupleElements(items, |items|);
  }

  /** `z.tuple([z.string(), z.number()])`. */
  lemma TupleExample()
    ensures Make(ZodTuple([ZodString, ZodNumber([])])) == Success(VArray([VString(""), VNumber(0)]))
  {
    var items := [ZodString, ZodNumber([])];
    assert Make(items[0]) == Success(VString(""));
    assert Make(items[1]) == Success(VNumber(0));
    TupleHasItemDefaults(items);
    assert Make(ZodTuple(items)).Success?;
    var elems := Make(ZodTuple(items)).value.elems;
    assert elems == [VString(""), VNumber(0)];
  }

  // ---------------------------------------------------------------- unions

  /**
   * The union rules: only the first option is ever made, so two unions (plain
   * or discriminated) with the same first option have the same default,
   * whatever follows it; a union without options throws.
   */
  lemma UnionIgnoresLaterOptions(a: seq<Schema>, b: seq<Schema>, d: string, d': string)
    requires |a| > 0 && |b| > 0 && a[0] == b[0]
    ensures Make(ZodUnion(a)) == Make(ZodUnion(b)) == Make(a[0])
    ensures Make(ZodDiscriminatedUnion(d, a)) == Make(ZodDiscriminatedUnion(d', b)) == Make(a[0])
  {
  }

  /** `make(def.options[0])` on an empty option list reads `_def` of `undefined`. */
  lemma EmptyUnionThrows(d: string)
    ensures Make(ZodUnion([])) == Failure(UndefinedSchema)
    ensures Make(ZodDiscriminatedUnion(d, [])) == Failure(UndefinedSchema)
  {
  }

  /** `z.union([z.string(), z.number()])` gives "", and 0 once the options are swapped. */
  lemma UnionOrderExample()
    ensures Make(ZodUnion([ZodString, ZodNumber([])])) == Success(VString(""))
    ensures Make(ZodUnion([ZodNumber([]), ZodString])) == Success(VNumber(0))
  {
  }

  /**
   * `z.discriminatedUnion("type", [z.object({ type: z.literal("a"), a: z.string(),
   * c: z.number() }), z.object({ type: z.literal("b"), b: z.string() })])`.
   */
  lemma DiscriminatedUnionExample()
    ensures Make(ZodDiscriminatedUnion("type", [
              ZodObject([("type", ZodLiteral(VString("a"))), ("a", ZodString), ("c", ZodNumber([]))]),
              ZodObject([("type", ZodLiteral(VString("b"))), ("b", ZodString)])]))
         == Success(VObject([("type", VString("a")), ("a", VString("")), ("c", VNumber(0))]))
  {
    var shape := [("type", ZodLiteral(VString("a"))), ("a", ZodString), ("c", ZodNumber([]))];
    var expected := [("type", VString("a")), ("a", VString("")), ("c", VNumber(0))];
    assert Make(shape[0].1) == Success(VString("a"));
    assert Make(shape[1].1) == Success(VString(""));
    assert Make(shape[2].1) == Success(VNumber(0));
    ObjectHasShapeFields(shape);
    assert Make(ZodObject(shape)).Success?;
    var props := Make(ZodObject(shape)).value.props;
    assert |Keys(props)| == |Keys(shape)|;
    forall i | 0 <= i < 3 ensures props[i] == expected[i] {
      assert Keys(props)[i] == Keys(shape)[i];
    }
    assert props == expected;
  }

  // ---------------------------------------------------------------- intersections

  /**
   * The intersection rule on two objects: `Object.assign(make(left),
   * make(right))` holds the keys of both; a key of the right operand reads as
   * there (the right wins on a collision), any other key as in the left; the
   * left operand's keys keep their order at the front.
   */
  lemma IntersectionMergesObjects(left: Schema, right: Schema)
    requires Make(left).Success? && Make(left).value.VObject?
    requires Make(right).Success? && Make(right).value.VObject?
    requires DistinctKeys(Make(right).value.props)
    ensures Make(ZodIntersection(left, right)).Success?
    ensures Make(ZodIntersection(left, right)).value.VObject?
    ensures forall k ::
              Lookup(Make(ZodIntersection(left, right)).value.props, k) ==
              (if k in Keys(Make(right).value.props) then Lookup(Make(right).value.props, k)
               else Lookup(Make(left).value.props, k))
    ensures |Make(ZodIntersection(left, right)).value.props| >= |Make(left).value.props|
    ensures forall i :: 0 <= i < |Make(left).value.props| ==>
              Make(ZodIntersection(left, right)).value.props[i].0 == Make(left).value.props[i].0
  {
    var lp, rp := Make(left).value.props, Make(right).value.props;
    IntersectionOfObjects(left, right, lp, rp);
    forall k ensures Lookup(AssignAll(lp, rp), k) == if k in Keys(rp) then Lookup(rp, k) else Lookup(lp, k) {
      AssignAllLookup(lp, rp, k);
    }
    AssignAllKeepsTargetOrder(lp, rp);
  }

  /**
   * When an intersection throws: the left operand's error first, then the
   * right operand's, then `Object.assign`'s TypeError on an `undefined` or
   * `null` left result.
   */
  lemma IntersectionThrows(left: Schema, right: Schema)
    ensures Make(left).Failure? ==> Make(ZodIntersection(left, right)) == Make(left)
    ensures Make(left).Success? && Make(right).Failure? ==>
      Make(ZodIntersection(left, right)) == Make(right)
    ensures Make(left) in {Success(VUndefined), Success(VNull)} && Make(right).Success? ==>
      Make(ZodIntersection(left, right)) == Failure(NullishAssignTarget)
  {
  }

  /** `z.intersection(Person, Employee)` of the two two-field objects. */
  lemma IntersectionExample()
    ensures Make(ZodIntersection(
              ZodObject([("name", ZodString), ("age", ZodNumber([]))]),
              ZodObject([("role", ZodString), ("salary", ZodNumber([]))])))
         == Success(VObject([("name", VString("")), ("age", VNumber(0)),
                             ("role", VString("")), ("salary", VNumber(0))]))
  {
    var left := ZodObject([("name", ZodString), ("age", ZodNumber([]))]);
    var right := ZodObject([("role", ZodString), ("salary", ZodNumber([]))]);
    var person := [("name", VString("")), ("age", VNumber(0))];
    var employee := [("role", VString("")), ("salary", VNumber(0))];
    TwoFieldObject("name", ZodString, "age", ZodNumber([]));
    TwoFieldObject("role", ZodString, "salary", ZodNumber([]));
    IntersectionOfObjects(left, right, person, employee);
    AssignTwoNewKeys(person, "role", VString(""), "salary", VNumber(0));
    assert person + employee == [("name", VString("")), ("age", VNumber(0)),
                                 ("role", VString("")), ("salary", VNumber(0))];
  }

  /** The intersection of two object defaults is `Object.assign` of the right onto the left. */
  lemma IntersectionOfObjects(left: Schema, right: Schema, lp: seq<(string, Value)>, rp: seq<(string, Value)>)
    requires Make(left) == Success(VObject(lp)) && Make(right) == Success(VObject(rp))
    ensures Make(ZodIntersection(left, right)) == Success(VObject(AssignAll(lp, rp)))
  {
  }

  /** `Object.assign` of two keys the target lacks appends them in order. */
  lemma AssignTwoNewKeys<V>(target: seq<(string, V)>, k1: string, v1: V, k2: string, v2: V)
    requires k1 !in Keys(target) && k2 !in Keys(target) && k1 != k2
    ensures AssignAll(target, [(k1, v1), (k2, v2)]) == target + [(k1, v1), (k2, v2)]
  {
    var source := [(k1, v1), (k2, v2)];
    assert source[..1] == [(k1, v1)];
    assert source[..1][..0] == [];
    assert AssignAll(target, source[..1]) == Put(target, k1, v1);
    PutNewKey(target, k1, v1);
    var t1 := target + [(k1, v1)];
    assert Keys(t1) == Keys(target) + [k1];
    assert k2 !in Keys(t1);
    PutNewKey(t1, k2, v2);
    assert t1 + [(k2, v2)] == target + source;
  }

  /** A two-field object schema with distinct keys and fields that do not throw. */
  lemma TwoFieldObject(k1: string, s1: Schema, k2: string, s2: Schema)
    requires k1 != k2 && Make(s1).Success? && Make(s2).Success?
    ensures Make(ZodObject([(k1, s1), (k2, s2)])) ==
      Success(VObject([(k1, Make(s1).value), (k2, Make(s2).value)]))
  {
    var shape := [(k1, s1), (k2, s2)];
    ObjectHasShapeFields(shape);
    var props := Make(ZodObject(shape)).value.props;
    assert |Keys(props)| == |Keys(shape)|;
    assert Keys(props)[0] == Keys(shape)[0] && Keys(props)[1] == Keys(shape)[1];
    assert props == [(k1, Make(s1).value), (k2, Make(s2).value)];
  }

  // ---------------------------------------------------------------- defaults

  /**
   * just-clone's copy is the same value structurally: every array, set, map
   * and object is rebuilt with the same contents in the same order.
   */
  lemma {:induction false} CloneIsStructurallyEqual(v: Value)
    ensures Clone(v) == v
    decreases v
  {
    match v
    case VArray(elems) =>
      forall i | 0 <= i < |elems| ensures Clone(elems[i]) == elems[i] {
        CloneIsStructurallyEqual(elems[i]);
      }
      assert Clone(v).elems == elems;
    case VSet(members) =>
      forall i | 0 <= i < |members| ensures Clone(members[i]) == members[i] {
        CloneIsStructurallyEqual(members[i]);
      }
      assert Clone(v).members == members;
    case VMap(entries) =>
      forall i | 0 <= i < |entries| ensures (Clone(entries[i].0), Clone(entries[i].1)) == entries[i] {
        CloneIsStructurallyEqual(entries[i].0);
        CloneIsStructurallyEqual(entries[i].1);
      }
      assert Clone(v).entries == entries;
    case VObject(props) =>
      forall i | 0 <= i < |props| ensures (props[i].0, Clone(props[i].1)) == props[i] {
        CloneIsStructurallyEqual(props[i].1);
      }
      assert Clone(v).props == props;
    case _ =>
  }

  /**
   * The default rule: a schema with a default yields the stored default,
   * whatever the inner schema; a function default as it is, any other
   * default as a copy equal to it.
   */
  lemma DefaultIsStoredValue(inner: Schema, defaultValue: Value)
    ensures Make(ZodDefault(inner, defaultValue)) == Success(defaultValue)
  {
    if !inner.ZodFunction? {
      CloneIsStructurallyEqual(defaultValue);
    }
  }

  /** The defaults of the tests: a string, a number, a boolean, an object and a function. */
  lemma DefaultExamples()
    ensures Make(ZodDefault(ZodString, VString("default value"))) == Success(VString("default value"))
    ensures Make(ZodDefault(ZodNumber([]), VNumber(2))) == Success(VNumber(2))
    ensures Make(ZodDefault(ZodBoolean, VBool(true))) == Success(VBool(true))
    ensures Make(ZodDefault(ZodAny, VObject([("default", VBool(true))])))
         == Success(VObject([("default", VBool(true))]))
    ensures Make(ZodDefault(ZodFunction(ZodTuple([ZodString]), ZodNumber([])), VHostFunction("defaultFunction")))
         == Success(VHostFunction("defaultFunction"))
  {
    DefaultIsStoredValue(ZodAny, VObject([("default", VBool(true))]));
  }

  // ---------------------------------------------------------------- enums

  /** `z.enum(values)` yields its first value; `undefined` when it has none. */
  lemma EnumIsFirstValue(values: seq<string>)
    ensures |values| > 0 ==> Make(ZodEnum(values)) == Success(VString(values[0]))
    ensures |values| == 0 ==> Make(ZodEnum(values)) == Success(VUndefined)
  {
  }

  /** `z.enum(["light", "dark"])` gives "light". */
  lemma EnumExample()
    ensures Make(ZodEnum(["light", "dark"])) == Success(VString("light"))
  {
  }

  /** The value of entry `j` survives the filter: it is not a name that maps to a number. */
  predicate KeptAt(entries: seq<(string, EnumMember)>, j: int)
    requires 0 <= j < |entries|
  {
    NotReverseMapped(entries, entries[j].1)
  }

  /** No entry in `[i, j)` survives the filter. */
  predicate NoneKeptIn(entries: seq<(string, EnumMember)>, i: int, j: int)
    requires 0 <= i <= j <= |entries|
  {
    forall k :: i <= k < j ==> !KeptAt(entries, k)
  }

  /** Every value the filter keeps is not a name that maps to a number. */
  lemma {:induction false} KeptValuesAreKept(entries: seq<(string, EnumMember)>, i: nat)
    requires i <= |entries|
    ensures forall m :: m in KeptValues(entries, i) ==> NotReverseMapped(entries, m)
    decreases |entries| - i
  {
    if i < |entries| {
      KeptValuesAreKept(entries, i + 1);
      if KeptAt(entries, i) {
        assert KeptValues(entries, i) == [entries[i].1] + KeptValues(entries, i + 1);
      } else {
        assert KeptValues(entries, i) == KeptValues(entries, i + 1);
      }
    }
  }

  /** The filter keeps nothing from entry `i` on exactly when no entry there is kept. */
  lemma {:induction false} KeptValuesEmptyIff(entries: seq<(string, EnumMember)>, i: nat)
    requires i <= |entries|
    ensures |KeptValues(entries, i)| == 0 <==> NoneKeptIn(entries, i, |entries|)
    decreases |entries| - i
  {
    if i < |entries| {
      KeptValuesEmptyIff(entries, i + 1);
      NoneKeptInCons(entries, i, |entries|);
      if KeptAt(entries, i) {
        assert KeptValues(entries, i) == [entries[i].1] + KeptValues(entries, i + 1);
      } else {
        assert KeptValues(entries, i) == KeptValues(entries, i + 1);
      }
    }
  }

  /** Nothing is kept in `[i, j)` exactly when entry `i` is not and nothing in `[i + 1, j)` is. */
  lemma NoneKeptInCons(entries: seq<(string, EnumMember)>, i: nat, j: nat)
    requires i < j <= |entries|
    ensures NoneKeptIn(entries, i, j) <==> !KeptAt(entries, i) && NoneKeptIn(entries, i + 1, j)
  {
    if !KeptAt(entries, i) && NoneKeptIn(entries, i + 1, j) {
      forall k | i <= k < j ensures !KeptAt(entries, k) {
        if k > i {
          assert !KeptAt(entries, k);
        }
      }
    }
  }

  /** When entry `j` is the first kept one from `i` on, the filter's output starts with its value. */
  lemma {:induction false} KeptValuesHead(entries: seq<(string, EnumMember)>, i: nat, j: nat)
    requires i <= j < |entries| && KeptAt(entries, j) && NoneKeptIn(entries, i, j)
    ensures |KeptValues(entries, i)| > 0 && KeptValues(entries, i)[0] == entries[j].1
    decreases j - i
  {
    if i == j {
      assert KeptValues(entries, i) == [entries[i].1] + KeptValues(entries, i + 1);
    } else {
      NoneKeptInCons(entries, i, j);
      assert KeptValues(entries, i) == KeptValues(entries, i + 1);
      KeptValuesHead(entries, i + 1, j);
    }
  }

  /**
   * The native-enum rule: the value of the first entry that is not a name
   * mapping to a number (the reverse mapping TypeScript adds to numeric
   * enums); `undefined` when every entry is one.
   */
  lemma NativeEnumIsFirstKept(entries: seq<(string, EnumMember)>)
    ensures Make(ZodNativeEnum(entries)) == Success(VUndefined) <==> NoneKeptIn(entries, 0, |entries|)
    ensures forall j :: 0 <= j < |entries| && KeptAt(entries, j) && NoneKeptIn(entries, 0, j) ==>
              Make(ZodNativeEnum(entries)) == Success(MemberValue(entries[j].1))
  {
    KeptValuesEmptyIff(entries, 0);
    forall j | 0 <= j < |entries| && KeptAt(entries, j) && NoneKeptIn(entries, 0, j)
      ensures Make(ZodNativeEnum(entries)) == Success(MemberValue(entries[j].1))
    {
      KeptValuesHead(entries, 0, j);
    }
  }

  /** A name whose value is a number is never the native enum's default. */
  lemma NativeEnumSkipsReverseNames(entries: seq<(string, EnumMember)>, name: string)
    requires Lookup(entries, name).Some? && Lookup(entries, name).value.EnumNum?
    ensures Make(ZodNativeEnum(entries)) != Success(VString(name))
  {
    KeptNeverReverseName(entries, name);
  }

  /** The filter drops the string value `name` when `name` maps to a number. */
  lemma KeptNeverReverseName(entries: seq<(string, EnumMember)>, name: string)
    requires Lookup(entries, name).Some? && Lookup(entries, name).value.EnumNum?
    ensures NativeEnumDefault(entries) != VString(name)
  {
    var kept := KeptValues(entries, 0);
    KeptValuesAreKept(entries, 0);
    if |kept| > 0 {
      assert kept[0] in kept;
      assert NotReverseMapped(entries, kept[0]);
      assert MemberKey(EnumStr(name)) == name;
      assert kept[0] != EnumStr(name);
    }
  }

  /**
   * `enum NativeEnum { a = 1, b = 2 }` compiles to an object holding the
   * reverse names too; its default is 1 both in the order JavaScript
   * enumerates it (integer keys first) and in insertion order.
   */
  lemma NativeEnumExample()
    ensures Make(ZodNativeEnum([("1", EnumStr("a")), ("2", EnumStr("b")), ("a", EnumNum(1)), ("b", EnumNum(2))]))
         == Success(VNumber(1))
    ensures Make(ZodNativeEnum([("a", EnumNum(1)), ("1", EnumStr("a")), ("b", EnumNum(2)), ("2", EnumStr("b"))]))
         == Success(VNumber(1))
  {
    assert NumberKey(1) == "1" && NumberKey(2) == "2";
    var js := [("1", EnumStr("a")), ("2", EnumStr("b")), ("a", EnumNum(1)), ("b", EnumNum(2))];
    assert !KeptAt(js, 0) && !KeptAt(js, 1) && KeptAt(js, 2);
    assert NoneKeptIn(js, 0, 2);
    NativeEnumIsFirstKept(js);
    var ts := [("a", EnumNum(1)), ("1", EnumStr("a")), ("b", EnumNum(2)), ("2", EnumStr("b"))];
    assert KeptAt(ts, 0) && NoneKeptIn(ts, 0, 0);
    NativeEnumIsFirstKept(ts);
  }

  // ---------------------------------------------------------------- functions

  /**
   * A function schema yields a stub at once, even when its return schema
   * throws; calling the stub makes the return schema's default, whatever
   * the arguments.
   */
  lemma FunctionIsLazyStub(args: Schema, returnType: Schema)
    ensures Make(ZodFunction(args, returnType)).Success?
    ensures Make(ZodFunction(args, returnType)).value.VStub?
    ensures forall callArgs :: Invoke(Make(ZodFunction(args, returnType)).value, callArgs) == Make(returnType)
  {
  }

  /** `z.function().args(z.number(), z.string()).returns(z.boolean())` called with `(0, "")` gives false. */
  lemma FunctionExample()
    ensures Make(ZodFunction(ZodTuple([ZodNumber([]), ZodString]), ZodBoolean)).Success?
    ensures Make(ZodFunction(ZodTuple([ZodNumber([]), ZodString]), ZodBoolean)).value.VStub?
    ensures Invoke(Make(ZodFunction(ZodTuple([ZodNumber([]), ZodString]), ZodBoolean)).value,
                   [VNumber(0), VString("")]) == Success(VBool(false))
  {
  }

  // ---------------------------------------------------------------- the other kinds

  /** `ZodEffects` (a `.transform` or `.refine`) yields its inner schema's default; the transform is never applied. */
  lemma EffectsIsInner(inner: Schema)
    ensures Make(ZodEffects(inner)) == Make(inner)
  {
  }

  /**
   * The collection kinds: an empty collection, whatever the element, key or
   * value schema, and even when that schema's `make` would throw.
   */
  lemma CollectionsStartEmpty(a: Schema, b: Schema)
    ensures Make(ZodRecord(a, b)) == Success(VObject([]))
    ensures Make(ZodArray(a)) == Success(VArray([]))
    ensures Make(ZodSet(a)) == Success(VSet([]))
    ensures Make(ZodMap(a, b)) == Success(VMap([]))
  {
  }

  /** A literal yields its value. */
  lemma LiteralIsItsValue(v: Value)
    ensures Make(ZodLiteral(v)) == Success(v)
  {
  }

  /** A nullable schema yields `null` and an optional one `undefined`, whatever they wrap. */
  lemma WrappersIgnoreInner(a: Schema)
    ensures Make(ZodNullable(a)) == Success(VNull)
    ensures Make(ZodOptional(a)) == Success(VUndefined)
  {
  }

  /** The primitive kinds with a fixed default. */
  lemma PrimitiveDefaults()
    ensures Make(ZodString) == Success(VString(""))
    ensures Make(ZodBigInt) == Success(VNumber(0))
    ensures Make(ZodBoolean) == Success(VBool(false))
    ensures Make(ZodDate) == Success(VDate)
  {
  }

  /** `NaN` and `null`. */
  lemma NaNAndNullDefaults()
    ensures Make(ZodNaN) == Success(VNaN)
    ensures Make(ZodNull) == Success(VNull)
  {
  }

  /** The kinds the switch lists beside `default`: all `undefined`. */
  lemma ListedUndefinedKinds()
    ensures Make(ZodUndefined) == Success(VUndefined)
    ensures Make(ZodVoid) == Success(VUndefined)
    ensures Make(ZodAny) == Success(VUndefined)
    ensures Make(ZodUnknown) == Success(VUndefined)
    ensures Make(ZodNever) == Success(VUndefined)
  {
  }

  /** The `default` branch: a kind the switch does not list yields `undefined`. */
  lemma UnlistedTypeNameIsUndefined(s: Schema)
    requires TypeName(s) !in SwitchCases
    ensures Make(s) == Success(VUndefined)
  {
  }

  /**
   * A node's type name is one the switch lists exactly when the node is not
   * `ZodOther`: every listed name reaches its own case.
   */
  lemma TypeNameListedIffNotOther(s: Schema)
    ensures TypeName(s) in SwitchCases <==> !s.ZodOther?
  {
  }

  /**
   * `.nullish()` is an optional around a nullable, so its default is
   * `undefined`: the optional case is reached first.
   */
  lemma NullishIsUndefined(a: Schema)
    ensures Make(ZodOptional(ZodNullable(a))) == Success(VUndefined)
  {
  }

  /** `init` is `make`. */
  lemma InitIsMake(s: Schema)
    ensures Init(s) == Make(s)
  {
  }

  // ---------------------------------------------------------------- where make succeeds

  /**
   * The schemas whose default is an object: objects and records, an object
   * literal or default, an intersection, and a transform or union over one.
   */
  ghost predicate ObjectValued(s: Schema) {
    match s
    case ZodObject(_) => true
    case ZodRecord(_, _) => true
    case ZodLiteral(v) => v.VObject?
    case ZodDefault(_, v) => v.VObject?
    case ZodIntersection(_, _) => true
    case ZodEffects(inner) => ObjectValued(inner)
    case ZodUnion(options) => |options| > 0 && ObjectValued(options[0])
    case ZodDiscriminatedUnion(_, options) => |options| > 0 && ObjectValued(options[0])
    case _ => false
  }

  /**
   * The schemas on which `Make` gives `Success`: no union without options on
   * the path `make` follows, and an object as the left operand of every
   * intersection it reaches. The return schema of a function is not on that
   * path. Off it, `Make` gives `UndefinedSchema` or `NullishAssignTarget`,
   * where `make` throws, or `Unmodelled`, where `make` may throw, return a
   * value outside `Value`, or return the left default itself (an array, set,
   * map, date or function, unchanged or with its indices overwritten).
   */
  ghost predicate WellFormed(s: Schema) {
    match s
    case ZodObject(shape) => forall i :: 0 <= i < |shape| ==> WellFormed(shape[i].1)
    case ZodTuple(items) => forall i :: 0 <= i < |items| ==> WellFormed(items[i])
    case ZodEffects(inner) => WellFormed(inner)
    case ZodUnion(options) => |options| > 0 && WellFormed(options[0])
    case ZodDiscriminatedUnion(_, options) => |options| > 0 && WellFormed(options[0])
    case ZodIntersection(left, right) => WellFormed(left) && WellFormed(right) && ObjectValued(left)
    case _ => true
  }

  /** An object schema's default exists exactly when every field's does, and is an object. */
  lemma ObjectSucceedsIffFieldsDo(shape: seq<(string, Schema)>)
    ensures Make(ZodObject(shape)).Success? <==> forall i :: 0 <= i < |shape| ==> Make(shape[i].1).Success?
    ensures Make(ZodObject(shape)).Success? ==> Make(ZodObject(shape)).value.VObject?
  {
    FillObjectSucceeds(shape, |shape|);
    if FillObject(ZodObject(shape), |shape|).Success? {
      MakeObjectIsFill(shape);
    } else {
      MakeObjectFails(shape);
    }
  }

  /** A native enum's default is never an object. */
  lemma NativeEnumNotObject(entries: seq<(string, EnumMember)>)
    ensures !Make(ZodNativeEnum(entries)).value.VObject?
  {
    var kept := KeptValues(entries, 0);
    if |kept| > 0 {
      assert MemberValue(kept[0]).VString? || MemberValue(kept[0]).VNumber?;
    }
  }

  /**
   * `Make` gives `Success` exactly on well-formed schemas, and an object
   * exactly on object-valued ones.
   */
  ghost predicate Characterised(s: Schema) {
    && (Make(s).Success? <==> WellFormed(s))
    && (Make(s).Success? ==> (Make(s).value.VObject? <==> ObjectValued(s)))
  }

  /** The object case of the theorem below, from its fields' cases. */
  lemma ObjectCharacterised(shape: seq<(string, Schema)>)
    requires forall i :: 0 <= i < |shape| ==> Characterised(shape[i].1)
    ensures Characterised(ZodObject(shape))
  {
    ObjectSucceedsIffFieldsDo(shape);
  }

  /** The tuple case of the theorem below, from its items' cases. */
  lemma TupleCharacterised(items: seq<Schema>)
    requires forall i :: 0 <= i < |items| ==> Characterised(items[i])
    ensures Characterised(ZodTuple(items))
  {
    TupleHasItemDefaults(items);
  }

  /** The intersection case of the theorem below, from its operands' cases. */
  lemma IntersectionCharacterised(left: Schema, right: Schema)
    requires Characterised(left) && Characterised(right)
    ensures Characterised(ZodIntersection(left, right))
  {
  }

  /** The union cases of the theorem below, from the first option's case. */
  lemma UnionCharacterised(d: string, options: seq<Schema>)
    requires |options| > 0 ==> Characterised(options[0])
    ensures Characterised(ZodUnion(options)) && Characterised(ZodDiscriminatedUnion(d, options))
  {
  }

  /** The cases of the theorem below with no recursive call. */
  lemma LeafCharacterised(s: Schema)
    requires !s.ZodObject? && !s.ZodTuple? && !s.ZodEffects? && !s.ZodUnion?
    requires !s.ZodDiscriminatedUnion? && !s.ZodIntersection?
    ensures Characterised(s)
  {
    match s
    case ZodDefault(inner, v) =>
      DefaultIsStoredValue(inner, v);
    case ZodNativeEnum(entries) =>
      NativeEnumNotObject(entries);
    case _ =>
  }

  /**
   * `Make` gives `Success` exactly on well-formed schemas, and there its
   * result is an object exactly when the schema is object-valued.
   */
  lemma {:induction false} MakeSucceedsIffWellFormed(s: Schema)
    ensures Make(s).Success? <==> WellFormed(s)
    ensures Make(s).Success? ==> (Make(s).value.VObject? <==> ObjectValued(s))
    decreases s
  {
    if s.ZodObject? {
      forall i | 0 <= i < |s.shape| ensures Characterised(s.shape[i].1) {
        MakeSucceedsIffWellFormed(s.shape[i].1);
      }
      ObjectCharacterised(s.shape);
    } else if s.ZodTuple? {
      forall i | 0 <= i < |s.items| ensures Characterised(s.items[i]) {
        MakeSucceedsIffWellFormed(s.items[i]);
      }
      TupleCharacterised(s.items);
    } else if s.ZodEffects? {
      MakeSucceedsIffWellFormed(s.schema);
      assert Make(s) == Make(s.schema);
    } else if s.ZodUnion? || s.ZodDiscriminatedUnion? {
      var options := s.options;
      if |options| > 0 {
        MakeSucceedsIffWellFormed(options[0]);
      }
      UnionCharacterised(if s.ZodDiscriminatedUnion? then s.discriminator else "", options);
    } else if s.ZodIntersection? {
      MakeSucceedsIffWellFormed(s.left);
      MakeSucceedsIffWellFormed(s.right);
      IntersectionCharacterised(s.left, s.right);
    } else {
      LeafCharacterised(s);
    }
  }
}
