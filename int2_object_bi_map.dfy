/**
 * `Int2ObjectBiMap`: an `int`-keyed map kept together with its reverse,
 * so that a value can be looked up by key and a key by value.
 */
module Int2ObjectBiMap {
  import opened Wrappers

  /** The two maps a bimap holds. */
  datatype BiState<T> = BiState(forwards: map<int, T>, backwards: map<T, int>)

  /** The two maps are inverse to each other: a true bijection. */
  ghost predicate Inverse<T>(s: BiState<T>)
  {
    (forall k :: k in s.forwards ==> s.forwards[k] in s.backwards && s.backwards[s.forwards[k]] == k)
    && (forall v :: v in s.backwards ==> s.backwards[v] in s.forwards && s.forwards[s.backwards[v]] == v)
  }

  /** `put(key, value)` as written: both puts, with no clean-up of what the key or value was paired with. */
  function PutEntry<T>(s: BiState<T>, key: int, value: T): (r: BiState<T>)
    ensures key in r.forwards && r.forwards[key] == value
    ensures value in r.backwards && r.backwards[value] == key
    ensures forall k :: k != key && k in s.forwards ==> k in r.forwards && r.forwards[k] == s.forwards[k]
  {
    BiState(s.forwards[key := value], s.backwards[value := key])
  }

  /** `put(key, value)` corrected: the old partners of `key` and of `value` are dropped first. */
  function PutEntryCorrected<T>(s: BiState<T>, key: int, value: T): (r: BiState<T>)
    ensures key in r.forwards && r.forwards[key] == value
    ensures value in r.backwards && r.backwards[value] == key
  {
    var staleKey := if value in s.backwards then {s.backwards[value]} else {};
    var staleValue := if key in s.forwards then {s.forwards[key]} else {};
    BiState((s.forwards - staleKey)[key := value], (s.backwards - staleValue)[value := key])
  }

  /** `remove(int)`: false when the key or its value is missing; otherwise both directions go. */
  function RemoveByKey<T>(s: BiState<T>, key: int): (r: (BiState<T>, bool))
    ensures r.1 <==> key in s.forwards && s.forwards[key] in s.backwards
    ensures !r.1 ==> r.0 == s
    ensures r.1 ==> key !in r.0.forwards && s.forwards[key] !in r.0.backwards
  {
    if key !in s.forwards then (s, false)
    else
      var value := s.forwards[key];
      if value !in s.backwards then (s, false)
      else (BiState(s.forwards - {key}, s.backwards - {value}), true)
  }

  /**
   * `remove(value)` as written: the key found for `value` leaves the
   * forward map, but `backwards.removeInt(oldValue)` is handed the boxed
   * `int` key, which is not one of the values, so the reverse map keeps
   * `value`.
   */
  function RemoveByValue<T>(s: BiState<T>, value: T): (r: (BiState<T>, bool))
    ensures r.1 <==> value in s.backwards && s.backwards[value] in s.forwards
    ensures !r.1 ==> r.0 == s
    ensures r.1 ==> s.backwards[value] !in r.0.forwards && r.0.backwards == s.backwards
  {
    if value !in s.backwards then (s, false)
    else
      var oldKey := s.backwards[value];
      if oldKey !in s.forwards then (s, false)
      else (BiState(s.forwards - {oldKey}, s.backwards), true)
  }

  /** `remove(value)` corrected: the value leaves the reverse map as well. */
  function RemoveByValueCorrected<T>(s: BiState<T>, value: T): (r: (BiState<T>, bool))
    ensures r.1 <==> value in s.backwards && s.backwards[value] in s.forwards
    ensures !r.1 ==> r.0 == s
    ensures r.1 ==> s.backwards[value] !in r.0.forwards && value !in r.0.backwards
  {
    if value !in s.backwards then (s, false)
    else
      var oldKey := s.backwards[value];
      if oldKey !in s.forwards then (s, false)
      else (BiState(s.forwards - {oldKey}, s.backwards - {value}), true)
  }

  /** `get(key)`: the value, or the default value when the key is absent. */
  function ValueOf<T>(s: BiState<T>, defaultValue: Option<T>, key: int): (r: Option<T>)
    ensures key in s.forwards ==> r == Some(s.forwards[key])
    ensures key !in s.forwards ==> r == defaultValue
  {
    if key in s.forwards then Some(s.forwards[key]) else defaultValue
  }

  /** `get(value)`: the key, or the default key when the value is absent. */
  function KeyOf<T>(s: BiState<T>, defaultKey: int, value: T): (r: int)
    ensures value in s.backwards ==> r == s.backwards[value]
    ensures value !in s.backwards ==> r == defaultKey
  {
    if value in s.backwards then s.backwards[value] else defaultKey
  }

  /** In a bijection, every value of the reverse map is the image of a key. */
  lemma BackwardsHasKey<T>(s: BiState<T>, value: T)
    ensures Inverse(s) && value in s.backwards ==> exists k :: k in s.forwards && s.forwards[k] == value
  {
    if Inverse(s) && value in s.backwards {
      var k := s.backwards[value];
      assert k in s.forwards && s.forwards[k] == value;
    }
  }

  class Int2ObjectBiMap<T(==)> {
    var forwards: map<int, T>
    var backwards: map<T, int>
    const defaultKey: int
    const defaultValue: Option<T>

    function State(): BiState<T>
      reads this
    {
      BiState(forwards, backwards)
    }

    /** The constructors: empty maps, the given defaults (`-1` and `null` unless given). */
    constructor (defaultKey: int, defaultValue: Option<T>)
      ensures forwards == map[] && backwards == map[]
      ensures this.defaultKey == defaultKey && this.defaultValue == defaultValue
      ensures Inverse(State())
    {
      forwards := map[];
      backwards := map[];
      this.defaultKey := defaultKey;
      this.defaultValue := defaultValue;
    }

    /** `containsKey(key)`. */
    predicate ContainsKey(key: int)
      reads this
      ensures ContainsKey(key) <==> ValueOf(State(), None, key).Some?
      ensures Inverse(State()) ==> (ContainsKey(key) <==> key in backwards.Values)
    {
      assert Inverse(State()) && key in forwards ==> backwards[forwards[key]] == key;
      key in forwards
    }

    /** `containsValue(value)`: some key maps to `value`. */
    predicate ContainsValue(value: T)
      reads this
      ensures Inverse(State()) ==> (ContainsValue(value) <==> value in backwards)
    {
      BackwardsHasKey(State(), value);
      exists k :: k in forwards && forwards[k] == value
    }

    /** `get(key)`. */
    function GetValue(key: int): (r: Option<T>)
      reads this
      ensures ContainsKey(key) ==> r.Some? && ContainsValue(r.value) && r == Some(forwards[key])
      ensures !ContainsKey(key) ==> r == defaultValue
    {
      ValueOf(State(), defaultValue, key)
    }

    /** `get(value)`. */
    function GetKey(value: T): (r: int)
      reads this
      ensures value in backwards ==> r == backwards[value]
      ensures value !in backwards ==> r == defaultKey
    {
      KeyOf(State(), defaultKey, value)
    }

    /** `put(key, value)`. */
    method Put(key: int, value: T)
      modifies this
      ensures State() == PutEntry(old(State()), key, value)
    {
      forwards := forwards[key := value];
      backwards := backwards[value := key];
    }

    /** `remove(int)`. */
    method RemoveKey(key: int) returns (removed: bool)
      modifies this
      ensures (State(), removed) == RemoveByKey(old(State()), key)
    {
      if key !in forwards {
        return false;
      }
      var value := forwards[key];
      if value !in backwards {
        return false;
      }
      forwards := forwards - {key};
      backwards := backwards - {value};
      removed := true;
    }

    /** `remove(T)`, as written. */
    method RemoveValue(value: T) returns (removed: bool)
      modifies this
      ensures (State(), removed) == RemoveByValue(old(State()), value)
    {
      if value !in backwards {
        return false;
      }
      var oldKey := backwards[value];
      if oldKey !in forwards {
        return false;
      }
      forwards := forwards - {oldKey};
      removed := true;
    }
  }

  /** The empty bimap. */
  function Empty<T>(): BiState<T> { BiState(map[], map[]) }

  /** After `put(key, value)`, each direction finds the other, as written or corrected. */
  lemma PutFindsBoth<T>(s: BiState<T>, key: int, value: T, dk: int, dv: Option<T>)
    ensures ValueOf(PutEntry(s, key, value), dv, key) == Some(value) && KeyOf(PutEntry(s, key, value), dk, value) == key
    ensures ValueOf(PutEntryCorrected(s, key, value), dv, key) == Some(value)
    ensures KeyOf(PutEntryCorrected(s, key, value), dk, value) == key
  {
  }

  /**
   * Re-binding key 1 from `a` to `b` as written leaves `a` pointing at 1:
   * `get(a)` still answers 1 although `get(1)` is `b`.
   */
  lemma PutLeavesStaleReverse<T>(a: T, b: T)
    requires a != b
    ensures var s := PutEntry(PutEntry(Empty(), 1, a), 1, b);
      !Inverse(s) && ValueOf(s, None, 1) == Some(b) && KeyOf(s, -1, a) == 1
  {
    var s := PutEntry(PutEntry(Empty(), 1, a), 1, b);
    assert a in s.backwards && s.backwards[a] == 1 && s.forwards[1] == b;
  }

  /** The corrected `put` keeps the two maps inverse. */
  lemma PutCorrectedKeepsInverse<T>(s: BiState<T>, key: int, value: T)
    requires Inverse(s)
    ensures Inverse(PutEntryCorrected(s, key, value))
  {
    var r := PutEntryCorrected(s, key, value);
    forall k | k in r.forwards
      ensures r.forwards[k] in r.backwards && r.backwards[r.forwards[k]] == k
    {
      if k != key {
        assert s.forwards[k] != value;
        assert !(key in s.forwards && s.forwards[key] == s.forwards[k]);
      }
    }
    forall v | v in r.backwards
      ensures r.backwards[v] in r.forwards && r.forwards[r.backwards[v]] == v
    {
      if v != value {
        assert s.backwards[v] != key;
        assert !(value in s.backwards && s.backwards[value] == s.backwards[v]);
      }
    }
  }

  /** The corrected `put` agrees with the written one on a fresh key and a fresh value. */
  lemma PutCorrectedAgreesOnFresh<T>(s: BiState<T>, key: int, value: T)
    requires key !in s.forwards && value !in s.backwards
    ensures PutEntryCorrected(s, key, value) == PutEntry(s, key, value)
  {
    assert s.forwards - {} == s.forwards;
    assert s.backwards - {} == s.backwards;
  }

  /** `remove(int)` keeps the two maps inverse. */
  lemma RemoveKeyKeepsInverse<T>(s: BiState<T>, key: int)
    requires Inverse(s)
    ensures Inverse(RemoveByKey(s, key).0)
    ensures RemoveByKey(s, key).1 <==> key in s.forwards
  {
  }

  /**
   * `remove(value)` as written breaks the bijection: from `{1 <-> a}`
   * it reports success, yet `get(a)` still answers 1 with no key 1 left.
   */
  lemma RemoveValueLeavesStaleReverse<T>(a: T)
    ensures var r := RemoveByValue(PutEntry(Empty(), 1, a), a);
      Inverse(PutEntry(Empty(), 1, a)) && r.1 && !Inverse(r.0) && KeyOf(r.0, -1, a) == 1
      && ValueOf(r.0, None, 1) == None
  {
    var s := PutEntry(Empty(), 1, a);
    assert s.forwards == map[1 := a] && s.backwards == map[a := 1];
    var r := RemoveByValue(s, a);
    assert a in r.0.backwards && 1 !in r.0.forwards;
  }

  /** The corrected `remove(value)` keeps the two maps inverse and reports success exactly for present values. */
  lemma RemoveValueCorrectedKeepsInverse<T>(s: BiState<T>, value: T)
    requires Inverse(s)
    ensures Inverse(RemoveByValueCorrected(s, value).0)
    ensures RemoveByValueCorrected(s, value).1 <==> value in s.backwards
  {
  }

  /** On a true bijection, removing by value and removing by its key do the same, once corrected. */
  lemma RemoveValueCorrectedIsRemoveKey<T>(s: BiState<T>, value: T)
    requires Inverse(s) && value in s.backwards
    ensures RemoveByValueCorrected(s, value) == RemoveByKey(s, s.backwards[value])
  {
  }
}
