/**
 * The part of JavaScript's object semantics that `make` relies on: an object's
 * own enumerable string-keyed properties in iteration order, reading a
 * property, assigning one (`o[k] = v`), and the copy loop of `Object.assign`.
 * Iteration order is the order of the sequence; JavaScript's rule that
 * integer-like keys come first is not modelled.
 */
module JsObjects {
  import opened Results

  /** The keys of a property list, in order. */
  function Keys<V>(props: seq<(string, V)>): (ks: seq<string>)
    ensures |ks| == |props|
    ensures forall i :: 0 <= i < |props| ==> ks[i] == props[i].0
  {
    seq(|props|, i requires 0 <= i < |props| => props[i].0)
  }

  /** A JavaScript object never holds the same key twice. */
  predicate DistinctKeys<V>(props: seq<(string, V)>) {
    forall i, j :: 0 <= i < j < |props| ==> props[i].0 != props[j].0
  }

  /** `o[key]`: the value stored under `key`, or None for `undefined`. */
  function Lookup<V>(props: seq<(string, V)>, key: string): (r: Option<V>) {
    if |props| == 0 then None
    else if props[0].0 == key then Some(props[0].1)
    else Lookup(props[1..], key)
  }

  /** A key reads as defined exactly when the object holds it. */
  lemma {:induction false} LookupFindsKeys<V>(props: seq<(string, V)>, key: string)
    ensures Lookup(props, key).Some? <==> key in Keys(props)
  {
    if |props| > 0 {
      LookupFindsKeys(props[1..], key);
      assert Keys(props) == [props[0].0] + Keys(props[1..]);
    }
  }

  /**
   * `o[key] = v`: an existing key keeps its position and takes the new value,
   * a new key is appended at the end.
   */
  function Put<V>(props: seq<(string, V)>, key: string, v: V): (r: seq<(string, V)>)
  {
    if |props| == 0 then [(key, v)]
    else if props[0].0 == key then [(key, v)] + props[1..]
    else [props[0]] + Put(props[1..], key, v)
  }

  /**
   * Assigning a property keeps every existing key where it was; it adds one
   * entry, at the end, exactly when the key is new.
   */
  lemma PutKeepsPositions<V>(props: seq<(string, V)>, key: string, v: V)
    ensures |Put(props, key, v)| == if key in Keys(props) then |props| else |props| + 1
    ensures forall i :: 0 <= i < |props| ==> Put(props, key, v)[i].0 == props[i].0
    ensures key !in Keys(props) ==> Put(props, key, v) == props + [(key, v)]
  {
    PutLength(props, key, v);
    PutPositions(props, key, v);
    PutNewKey(props, key, v);
  }

  lemma {:induction false} PutLength<V>(props: seq<(string, V)>, key: string, v: V)
    ensures |Put(props, key, v)| == if key in Keys(props) then |props| else |props| + 1
  {
    if |props| > 0 {
      assert Keys(props) == [props[0].0] + Keys(props[1..]);
      if props[0].0 != key {
        PutLength(props[1..], key, v);
      }
    }
  }

  lemma {:induction false} PutPositions<V>(props: seq<(string, V)>, key: string, v: V)
    ensures |Put(props, key, v)| >= |props|
    ensures forall i :: 0 <= i < |props| ==> Put(props, key, v)[i].0 == props[i].0
  {
    if |props| > 0 && props[0].0 != key {
      PutPositions(props[1..], key, v);
      var r := Put(props, key, v);
      assert r == [props[0]] + Put(props[1..], key, v);
      forall i | 0 < i < |props| ensures r[i].0 == props[i].0 {
        assert r[i] == Put(props[1..], key, v)[i - 1];
      }
    }
  }

  lemma {:induction false} PutNewKey<V>(props: seq<(string, V)>, key: string, v: V)
    ensures key !in Keys(props) ==> Put(props, key, v) == props + [(key, v)]
  {
    if |props| > 0 && key !in Keys(props) {
      assert Keys(props) == [props[0].0] + Keys(props[1..]);
      PutNewKey(props[1..], key, v);
      assert Put(props, key, v) == [props[0]] + (props[1..] + [(key, v)]);
      assert [props[0]] + (props[1..] + [(key, v)]) == ([props[0]] + props[1..]) + [(key, v)];
      assert [props[0]] + props[1..] == props;
    }
  }

  /** After `o[key] = v`, reading `key` gives `v` and every other key reads as before. */
  lemma {:induction false} PutLookup<V>(props: seq<(string, V)>, key: string, v: V, k: string)
    ensures Lookup(Put(props, key, v), k) == if k == key then Some(v) else Lookup(props, k)
  {
    if |props| > 0 && props[0].0 != key {
      PutLookup(props[1..], key, v, k);
    }
  }

  /** Assigning a property never creates a second copy of a key. */
  lemma {:induction false} PutKeepsKeysDistinct<V>(props: seq<(string, V)>, key: string, v: V)
    requires DistinctKeys(props)
    ensures DistinctKeys(Put(props, key, v))
  {
    if |props| > 0 && props[0].0 != key {
      PutKeepsKeysDistinct(props[1..], key, v);
      PutKeepsPositions(props[1..], key, v);
      var r := Put(props, key, v);
      var rest := Put(props[1..], key, v);
      assert r == [props[0]] + rest;
      forall j | 0 < j < |r| ensures r[j].0 != props[0].0 {
        if j - 1 < |props| - 1 {
          assert rest[j - 1].0 == props[j].0;
        } else {
          assert rest == props[1..] + [(key, v)];
        }
      }
    }
  }

  /**
   * The copy loop of `Object.assign(target, source)` for one source: every
   * own property of the source, in order, is assigned onto the target.
   */
  function AssignAll<V>(target: seq<(string, V)>, source: seq<(string, V)>): (r: seq<(string, V)>)
  {
    if |source| == 0 then target
    else
      var last := source[|source| - 1];
      Put(AssignAll(target, source[..|source| - 1]), last.0, last.1)
  }

  /** Reading a key of a list extended at the end. */
  lemma {:induction false} LookupAppend<V>(props: seq<(string, V)>, x: (string, V), k: string)
    ensures Lookup(props + [x], k) ==
      if k in Keys(props) then Lookup(props, k) else if x.0 == k then Some(x.1) else None
  {
    if |props| > 0 {
      assert (props + [x])[1..] == props[1..] + [x];
      assert Keys(props) == [props[0].0] + Keys(props[1..]);
      LookupAppend(props[1..], x, k);
    }
  }

  /**
   * After `Object.assign(target, source)` a key of the source reads as in the
   * source (the source wins on a collision) and any other key reads as in the
   * target.
   */
  lemma {:induction false} AssignAllLookup<V>(target: seq<(string, V)>, source: seq<(string, V)>, k: string)
    requires DistinctKeys(source)
    ensures Lookup(AssignAll(target, source), k) ==
      if k in Keys(source) then Lookup(source, k) else Lookup(target, k)
  {
    if |source| > 0 {
      var init, last := source[..|source| - 1], source[|source| - 1];
      assert source == init + [last];
      assert Keys(source) == Keys(init) + [last.0];
      assert last.0 !in Keys(init) by {
        forall i | 0 <= i < |init| ensures Keys(init)[i] != last.0 {
          assert source[i].0 != source[|source| - 1].0;
        }
      }
      AssignAllLookup(target, init, k);
      PutLookup(AssignAll(target, init), last.0, last.1, k);
      LookupAppend(init, last, k);
    }
  }

  /**
   * `Object.assign` keeps the target's keys where they were: the merged list
   * starts with the target's keys, in the target's order.
   */
  lemma {:induction false} AssignAllKeepsTargetOrder<V>(target: seq<(string, V)>, source: seq<(string, V)>)
    ensures |AssignAll(target, source)| >= |target|
    ensures forall i :: 0 <= i < |target| ==> AssignAll(target, source)[i].0 == target[i].0
  {
    if |source| > 0 {
      var last := source[|source| - 1];
      AssignAllKeepsTargetOrder(target, source[..|source| - 1]);
      PutKeepsPositions(AssignAll(target, source[..|source| - 1]), last.0, last.1);
    }
  }

  /** `Object.assign` onto an object leaves an object: no key twice. */
  lemma {:induction false} AssignAllKeepsKeysDistinct<V>(target: seq<(string, V)>, source: seq<(string, V)>)
    requires DistinctKeys(target)
    ensures DistinctKeys(AssignAll(target, source))
  {
    if |source| > 0 {
      var last := source[|source| - 1];
      AssignAllKeepsKeysDistinct(target, source[..|source| - 1]);
      PutKeepsKeysDistinct(AssignAll(target, source[..|source| - 1]), last.0, last.1);
    }
  }

  /**
   * `Object.assign`'s copy loop run in place on the target's property list.
   */
  method AssignInPlace<V>(target: seq<(string, V)>, source: seq<(string, V)>) returns (r: seq<(string, V)>)
    ensures r == AssignAll(target, source)
  {
    r := target;
    var i := 0;
    while i < |source|
      invariant 0 <= i <= |source|
      invariant r == AssignAll(target, source[..i])
    {
      assert source[..i + 1][..i] == source[..i];
      r := Put(r, source[i].0, source[i].1);
      i := i + 1;
    }
    assert source[..|source|] == source;
  }

  /** The decimal digits of a natural number, as `String(n)` writes them. */
  function Digits(n: nat): (s: string)
    ensures |s| > 0
    decreases n
  {
    var d := ['0', '1', '2', '3', '4', '5', '6', '7', '8', '9'][n % 10];
    if n < 10 then [d] else Digits(n / 10) + [d]
  }

  /** The property key a number is converted to, `String(n)` for an integer `n`. */
  function NumberKey(n: int): (key: string) {
    if n < 0 then "-" + Digits(-n) else Digits(n)
  }
}
