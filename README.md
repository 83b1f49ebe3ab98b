# zod-empty: the default value of a Zod schema

zod-empty's default export `init(schema)` calls `make(schema)`. `make` walks a
Zod schema tree and builds a default value for it, choosing a rule by each
node's `_def.typeName`:

- an object gets the defaults of its fields;
- a number gets its first `min`/`max` bound;
- a union gets the default of its first option;
- an intersection gets `Object.assign` of its two operands' defaults;
- a schema with `.default(...)` gets (a copy of) the stored default;
- and so on for the other node kinds.

The project models `make` and `init` and proves what each rule promises.

Files:

- `results.dfy` (module `Results`): `Option` and `Result`. `make` can throw, so its model returns a `Result`.
- `js_objects.dfy` (module `JsObjects`): the little of JavaScript's object model that `make` relies on:
  - an object is a list of `(key, value)` properties in enumeration order;
  - `o[key] = v` replaces the value of an existing key in place, or appends a new key;
  - `Object.assign` is that assignment repeated over the source's own properties (also as the loop `AssignInPlace`);
  - `o[key]` reads the first property with that key;
  - array and string indices are spelled as decimal keys.
- `zod.dfy` (module `Zod`): the schema tree.
  - `Schema` has one constructor per `typeName` the switch lists. `ZodOther` stands for every other name; its name's type excludes the listed ones.
  - `Value` covers the values `make` builds itself, and the literal and default values expressible here. Dates, `NaN` and the closure returned for a function schema are tags.
- `zod_empty.dfy` (module `ZodEmpty`): `Make` and `Init`, the loop methods for the two imperative cases, and the helpers the switch uses:
  - `FirstBoundScan` is the `for` loop over `def.checks` with its early return;
  - `BuildObject` is the `forEach` that fills `outputObject` in place;
  - the helpers are the native-enum filter, the copy `clone` makes, and `Object.assign`.
- `properties.dfy` (module `ZodEmptyProperties`): each rule, stated about all inputs; the examples of `src/index.spec.ts` that this version of `index.ts` implements; and the domain theorem. The domain theorem says that `Make` gives `Success` exactly on well-formed schemas:
  - every union on its path has an option;
  - every intersection on its path has an object-valued left operand.

Errors are values of `ZodEmpty.Error`:

- `UndefinedSchema`: `make(def.options[0])` on an empty option list reads `_def` of `undefined` and throws a TypeError.
- `NullishAssignTarget`: `Object.assign(undefined | null, ...)` throws a TypeError.
- `Unmodelled`: `Object.assign` onto any other non-object target. The target can be a string, number, boolean, NaN, array, set, map, date, stub or host function. There are three possible outcomes, and the model decides none of them:
  - `make` returns a wrapper object, or the target mutated with extra named properties, and `Value` has no counterpart for either;
  - `make` returns the target itself, a plain value `Value` does represent. This happens for an array, set, map, date or function target, unchanged when the source has no own enumerable properties, or an array with only its indices overwritten. Examples: `z.array(z.string()).and(z.array(z.number()))` gives `[]`, `z.tuple([z.string()]).and(z.tuple([z.number()]))` gives `[0]`, `z.date().and(z.date())` gives the left date, and `z.set(z.string()).and(z.number())` gives the empty set;
  - `make` throws, because a source key hits a read-only or getter-only property of the target. Examples: index `"0"` of a String wrapper in `z.literal("a").and(z.literal("b"))`, a function's `name` or `length`, the `size` of a set or map (TypeError), or a non-numeric `length` on an array (RangeError).

## Model

| member | source | states |
|---|---|---|
| ZodEmpty.Make | src/index.ts:5-78 | the default of a schema, one case per `_def.typeName` as the switch has them, or the error `make` throws (`UndefinedSchema`, `NullishAssignTarget`), or `Unmodelled` where the model does not decide `Object.assign` onto a non-object |
| ZodEmpty.Init | src/index.ts:79-81 | `make` under the exported name |
| ZodEmpty.FirstBound | src/index.ts:19-25 | the value of the first check whose kind is "min" or "max", 0 when there is none |
| ZodEmpty.FillObject | src/index.ts:10-13 | the object the `forEach` has built after its first n fields, assigning `make` of each field under its key, or the first field's error |
| ZodEmpty.FillTuple | src/index.ts:39 | `make` of the first n items, in order, or the first item's error |
| ZodEmpty.KeptValues | src/index.ts:48-50 | the enum object's values from entry i on, keeping those whose lookup in the object is not a number |
| ZodEmpty.NativeEnumDefault | src/index.ts:48-50 | the first kept value, `undefined` when none is kept |
| ZodEmpty.Clone | src/index.ts:63 | a deep copy: every array, set, map and object rebuilt with copied contents, any other value kept |
| ZodEmpty.OwnProps | src/index.ts:56 | the own enumerable properties `Object.assign` copies from a source: an object's properties, an array's or string's indices, none otherwise |
| ZodEmpty.Assign | src/index.ts:56 | `Object.assign(target, source)`: a TypeError on `undefined`/`null`, the merged object on an object target, `Unmodelled` on any other target |
| ZodEmpty.Invoke | src/index.ts:59 | calling the closure: `make` of the return schema, the arguments ignored |
| JsObjects.Put | src/index.ts:12 | `o[key] = v`: the value replaced in place for an existing key, appended for a new one |
| JsObjects.Lookup | src/index.ts:49 | `o[key]`: the value of the first property with that key, none when there is no such property |
| JsObjects.AssignAll | src/index.ts:56 | the source's properties assigned onto the target one by one, in order |
| ZodEmpty.FirstBoundScan | src/index.ts:19-25 | the `for` loop with its early return yields `FirstBound(checks)`, the value of the first min/max check or 0 |
| ZodEmpty.BuildObject | src/index.ts:9-14 | filling `outputObject` field by field in shape order, stopping at the first field whose `make` throws, yields `make` of the object schema |
| ZodEmpty.FieldFailureThrows | src/index.ts:11-13 | a field whose `make` throws, after fields that did not, makes the whole object throw that field's error |
| ZodEmpty.FillObjectFailurePersists | src/index.ts:11-13 | once a field has thrown, no later iteration changes the outcome |
| JsObjects.LookupFindsKeys | src/index.ts:49 | `def.values[value]` finds an entry exactly when the object holds an own property `key` |
| JsObjects.PutKeepsPositions | src/index.ts:12 | property assignment keeps every existing key in its position; it grows the object by one exactly when the key is new, and then appends it |
| JsObjects.PutLength | src/index.ts:12 | property assignment adds a property exactly when the key is new |
| JsObjects.PutPositions | src/index.ts:12 | property assignment keeps every existing key at its position |
| JsObjects.PutNewKey | src/index.ts:12 | assigning a new key appends it at the end |
| JsObjects.PutLookup | src/index.ts:12 | after `o[key] = v`, `o[key]` reads `v` and every other key reads as before |
| JsObjects.PutKeepsKeysDistinct | src/index.ts:12 | property assignment never creates a duplicate key |
| JsObjects.LookupAppend | src/index.ts:56 | reading a key of an object extended at the end: the old value if it had one, else the appended one |
| JsObjects.AssignAllLookup | src/index.ts:56 | after `Object.assign(target, source)` a key of the source reads as in the source, any other key as in the target |
| JsObjects.AssignAllKeepsTargetOrder | src/index.ts:56 | `Object.assign` keeps the target's keys in their order at the front |
| JsObjects.AssignAllKeepsKeysDistinct | src/index.ts:56 | `Object.assign` never creates a duplicate key |
| JsObjects.AssignInPlace | src/index.ts:56 | copying the source's properties onto the target one by one yields `Object.assign`'s result |
| ZodEmptyProperties.FirstBoundIsFirstBoundCheck | src/index.ts:19-25 | the number default is the value of the first check of kind min or max in declared order, and 0 when there is none |
| ZodEmptyProperties.NumberExamples | src/index.spec.ts:25-34 | no check gives 0; `min(10)` 10; `max(100)` 100; `min(10).max(100)` 10; `max(100).min(10)` 100; a non-bound check is skipped |
| ZodEmptyProperties.FillObjectSucceeds | src/index.ts:11-13 | the `forEach` over the first n fields completes exactly when none of their `make` calls throws |
| ZodEmptyProperties.FillObjectFields | src/index.ts:11-13 | with distinct keys and no throwing field, the first n iterations build exactly the first n keys in shape order, each with its field's default |
| ZodEmptyProperties.FillObjectAppends | src/index.ts:11-13 | with distinct keys, each iteration appends its field at the end |
| ZodEmptyProperties.FreshKey | src/index.ts:11-13 | with distinct shape keys, the next field's key is not yet in the object |
| ZodEmptyProperties.ObjectHasShapeFields | src/index.ts:9-14 | an object default exists exactly when every field's does; it has exactly the shape's keys in shape order, each holding `make` of its field |
| ZodEmptyProperties.ObjectThrowsFirstFieldError | src/index.ts:11-13 | an object throws the error of its first throwing field |
| ZodEmptyProperties.ObjectExample | src/index.spec.ts:72-88 | `{foo: string, bar: number, buz: string[]}` gives `{foo: "", bar: 0, buz: []}` |
| ZodEmptyProperties.FillTupleElements | src/index.ts:38-39 | mapping `make` over the first n items succeeds exactly when none throws, giving n elements, element i being `make(items[i])` |
| ZodEmptyProperties.TupleHasItemDefaults | src/index.ts:38-39 | a tuple default exists exactly when every item's does; it is an array as long as the items, element i being `make(items[i])` |
| ZodEmptyProperties.TupleExample | src/index.spec.ts:173-177 | `[string, number]` gives `["", 0]` |
| ZodEmptyProperties.UnionIgnoresLaterOptions | src/index.ts:51-54 | a union or discriminated union yields `make` of its first option; options after the first never matter |
| ZodEmptyProperties.EmptyUnionThrows | src/index.ts:51-54 | a union without options throws |
| ZodEmptyProperties.UnionOrderExample | src/index.spec.ts:113-121 | `union([string, number])` gives "" and `union([number, string])` gives 0 |
| ZodEmptyProperties.DiscriminatedUnionExample | src/index.spec.ts:123-130 | the two-option discriminated union gives `{type: "a", a: "", c: 0}` |
| ZodEmptyProperties.IntersectionMergesObjects | src/index.ts:55-56 | on object operands the result is an object holding both key sets: a key of the right reads as in the right (right wins on collision), any other key as in the left, and the left's keys keep their order at the front |
| ZodEmptyProperties.IntersectionThrows | src/index.ts:55-56 | the left operand's error comes first, then the right's; an `undefined` or `null` left default makes `Object.assign` throw |
| ZodEmptyProperties.AssignTwoNewKeys | src/index.ts:56 | assigning two keys the target lacks appends them in order |
| ZodEmptyProperties.TwoFieldObject | src/index.ts:9-14 | a two-field object with distinct keys holds its two field defaults in order |
| ZodEmptyProperties.IntersectionExample | src/index.spec.ts:132-156 | `intersection(Person, Employee)` gives `{name: "", age: 0, role: "", salary: 0}` |
| ZodEmptyProperties.CloneIsStructurallyEqual | src/index.ts:63 | the copy `clone` makes equals the original structurally |
| ZodEmptyProperties.DefaultIsStoredValue | src/index.ts:60-63 | a schema with a default yields the stored default whatever the inner schema: a function default as it is, any other as a copy equal to it |
| ZodEmptyProperties.DefaultExamples | src/index.spec.ts:191-212 | defaults "default value", 2, true, `{default: true}` and a function default come back equal to the stored value |
| ZodEmptyProperties.EnumIsFirstValue | src/index.ts:44-45 | an enum yields its first value, `undefined` when it has none |
| ZodEmptyProperties.EnumExample | src/index.spec.ts:96-100 | `enum(["light", "dark"])` gives "light" |
| ZodEmptyProperties.KeptValuesAreKept | src/index.ts:48-50 | every value the filter keeps is not a name that maps to a number |
| ZodEmptyProperties.KeptValuesEmptyIff | src/index.ts:48-50 | the filter keeps nothing exactly when every value is a name that maps to a number |
| ZodEmptyProperties.NoneKeptInCons | src/index.ts:48-50 | nothing is kept in a range exactly when its first entry is not kept and nothing in the rest is |
| ZodEmptyProperties.KeptValuesHead | src/index.ts:48-50 | the filter's output starts with the value of the first kept entry |
| ZodEmptyProperties.NativeEnumIsFirstKept | src/index.ts:46-50 | a native enum yields the value of the first entry, in enumeration order, that is not a name mapping to a number; `undefined` exactly when there is none |
| ZodEmptyProperties.NativeEnumSkipsReverseNames | src/index.ts:48-50 | a name whose value is a number (the reverse mapping of a numeric member) is never the default |
| ZodEmptyProperties.KeptNeverReverseName | src/index.ts:48-50 | the filter's first value is never a name that maps to a number |
| ZodEmptyProperties.NativeEnumExample | src/index.spec.ts:102-111 | `enum NativeEnum { a = 1, b = 2 }` gives 1, both in JavaScript's enumeration order and in insertion order |
| ZodEmptyProperties.FunctionIsLazyStub | src/index.ts:57-59 | a function schema always yields a stub, even when its return schema throws; calling the stub with any arguments makes the return schema's default |
| ZodEmptyProperties.FunctionExample | src/index.spec.ts:158-165 | a function returning boolean, called with `(0, "")`, gives false |
| ZodEmptyProperties.EffectsIsInner | src/index.ts:34-35 | an effects schema yields its inner schema's default; the transform is never applied |
| ZodEmptyProperties.CollectionsStartEmpty | src/index.ts:15-43 | record, array, set and map yield empty collections whatever their element schemas, even when those would throw |
| ZodEmptyProperties.LiteralIsItsValue | src/index.ts:32-33 | a literal yields its value |
| ZodEmptyProperties.WrappersIgnoreInner | src/index.ts:66-71 | nullable gives `null` and optional `undefined`, whatever they wrap |
| ZodEmptyProperties.PrimitiveDefaults | src/index.ts:17-31 | string "", bigint 0, boolean false and a date |
| ZodEmptyProperties.NaNAndNullDefaults | src/index.ts:64-68 | `NaN` and `null` |
| ZodEmptyProperties.ListedUndefinedKinds | src/index.ts:69-76 | undefined, void, any, unknown and never give `undefined` |
| ZodEmptyProperties.UnlistedTypeNameIsUndefined | src/index.ts:75-76 | a kind the switch does not list gives `undefined` |
| ZodEmptyProperties.TypeNameListedIffNotOther | src/index.ts:8-76 | a node's type name is one the switch lists exactly when the node is not `ZodOther`, so every listed name reaches its own case and only the others reach `default` |
| ZodEmptyProperties.NullishIsUndefined | src/index.ts:66-71 | `.nullish()`, an optional around a nullable, gives `undefined`: the optional case is reached first |
| ZodEmptyProperties.InitIsMake | src/index.ts:79-81 | `init` returns what `make` returns |
| ZodEmptyProperties.ObjectSucceedsIffFieldsDo | src/index.ts:9-14 | an object default exists exactly when every field's does, and it is an object |
| ZodEmptyProperties.NativeEnumNotObject | src/index.ts:46-50 | a native enum's default is never an object |
| ZodEmptyProperties.ObjectCharacterised | src/index.ts:9-14 | object case of the domain theorem |
| ZodEmptyProperties.TupleCharacterised | src/index.ts:38-39 | tuple case of the domain theorem |
| ZodEmptyProperties.IntersectionCharacterised | src/index.ts:55-56 | intersection case of the domain theorem: `Make` gives `Success` exactly when it does for both operands and the left default is an object |
| ZodEmptyProperties.UnionCharacterised | src/index.ts:51-54 | union cases of the domain theorem |
| ZodEmptyProperties.LeafCharacterised | src/index.ts:15-76 | the non-recursive kinds always return; an object exactly for record, object literal and object default |
| ZodEmptyProperties.MakeSucceedsIffWellFormed | src/index.ts:5-78 | `Make` gives `Success` exactly on well-formed schemas, and there its result is an object exactly when the schema is object-valued; off them it gives a throw of `make` or `Unmodelled` |

## Left out

- `clone` (just-clone) is a library outside this model. `Clone` rebuilds every container with the same contents. That the copy is a different reference from the stored default needs a heap, which the model does not have.
- CloneIsStructurallyEqual: states structural equality only, not the reference inequality the copy also has.
- `Value` has no symbol and no non-plain object (a RegExp, a class instance, ...). So a symbol literal (`z.literal(Symbol("s"))`, returned by src/index.ts:33) and such a value as a default (src/index.ts:63, where just-clone rebuilds a class instance as a plain object) are not modelled.
- `new Date()` reads the clock; its result is the tag `VDate`.
- Numbers are mathematical integers: floating point, `NaN` arithmetic and bigint are not modelled. `NaN` is the tag `VNaN`, and the bigint default is the number 0, as the source returns it.
- The closure returned for a function schema is the tag `VStub(returnType)`. `Invoke` stands for calling it; its arguments are ignored, as in the source.
- `def.shape()` and `def.defaultValue()` are thunks in Zod; the model stores their results. `def.checks` missing is the empty list. A discriminated union's options are a list, not a `Map`.
- JavaScript enumerates integer-like keys first. The model enumerates properties in the order given; the native-enum example states both orders.
- IntersectionMergesObjects: covers object operands only. `Object.assign` onto any other non-nullish default gives `Unmodelled`: a string, number, boolean, NaN, array, set, map, date, stub or host function.
- MakeSucceedsIffWellFormed: "fails" counts `Unmodelled` as well as the two real throws. For an intersection whose left default is a non-object, non-nullish value (e.g. `z.string().and(z.string())`), `make` may return a wrapper or mutated object, return the target itself (e.g. `z.array(z.string()).and(z.array(z.number()))` gives `[]`), or throw from writing a read-only or getter-only target property. The model decides none of these: it gives `Failure(Unmodelled)`, and the schema is not well-formed. The theorem is about `Make`, not a claim that `make` fails there.
- IntersectionCharacterised: the same. For an intersection with a non-object, non-nullish left default, `Make` gives `Failure(Unmodelled)`. In JavaScript, `make` there may return a wrapper or mutated object, return the target itself (an array, set, map, date or function, unchanged or with its indices overwritten), or throw from writing a read-only or getter-only target property.
- Put: `o["__proto__"] = v` in JavaScript calls the prototype setter and creates no own property, in the object fill and in `Object.assign`. The model stores `"__proto__"` as an ordinary key, so `z.object({["__proto__"]: z.string()})` gives `{}` in JavaScript but a one-property object here.
- OwnProps: JavaScript copies a string source one UTF-16 code unit at a time. The model splits a string into Dafny characters (Unicode scalar values), so a character outside the Basic Multilingual Plane gives one property here and two in JavaScript.
- ObjectHasShapeFields: requires distinct shape keys, which every JavaScript object has. `Make` itself also handles repeated keys, by assigning in place.
- Any uncloned default on the left of an intersection: `Object.assign` mutates it in place. This covers a function default (src/index.ts:62) and an object literal's value (src/index.ts:33). The model returns values, so this aliasing is not modelled.
- An effects schema's transform or refinement never runs in `make`, so it is not modelled.
- `src/index.spec.ts` also expects things this `index.ts` does not implement: the `empty` export, uuid strings, optional giving "", any and unknown giving `null`, the nullable-array input mode, nullish giving `null` (src/index.spec.ts:253-269; `.nullish()` is an optional around a nullable, so this `index.ts` gives `undefined`, as NullishIsUndefined states), `lazy` and `pipe`. They are not modelled.
- samples/react-hook-form/src/App.tsx, vitest.config.ts and type.ts are not part of this model: UI, test configuration and a usage example.
