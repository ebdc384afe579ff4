/**
 * `GameRuleMap`: the game rules of a world.  Only the rules changed away
 * from their defaults are stored; an unchanged rule answers its default.
 */
module GameRuleMap {
  /** The values a game rule can hold: `Boolean`, `Integer` or `String`. */
  datatype RuleValue = BoolValue(b: bool) | IntValue(i: int) | StringValue(s: string)

  /** A game rule: its name and the default it falls back to. */
  datatype GameRule = GameRule(name: string, defaultValue: RuleValue)

  /** `value` has the type the rule is declared with, as the generic `GameRule<T>` demands. */
  predicate Conforms(rule: GameRule, value: RuleValue)
  {
    match (rule.defaultValue, value)
    case (BoolValue(_), BoolValue(_)) => true
    case (IntValue(_), IntValue(_)) => true
    case (StringValue(_), StringValue(_)) => true
    case _ => false
  }

  /** The invariant of `changes`: each stored value conforms to its rule and differs from its default. */
  predicate ValidChanges(changes: map<GameRule, RuleValue>)
  {
    forall k :: k in changes ==> Conforms(k, changes[k]) && changes[k] != k.defaultValue
  }

  /** `get(key)` on a map of changes: the stored change, or else the default. */
  function Lookup(changes: map<GameRule, RuleValue>, key: GameRule): (r: RuleValue)
    requires ValidChanges(changes)
    ensures Conforms(key, r)
    ensures r == key.defaultValue <==> key !in changes
    ensures key in changes ==> r == changes[key]
  {
    if key in changes then changes[key] else key.defaultValue
  }

  /** `set(key, value)` on a map of changes: a value equal to the default records nothing. */
  function SetChange(changes: map<GameRule, RuleValue>, key: GameRule, value: RuleValue): (r: map<GameRule, RuleValue>)
    requires ValidChanges(changes) && Conforms(key, value)
    ensures ValidChanges(r)
  {
    if key.defaultValue != value then changes[key := value] else changes
  }

  class GameRuleMap {
    var changes: map<GameRule, RuleValue>

    ghost predicate Valid()
      reads this
    {
      ValidChanges(changes)
    }

    constructor ()
      ensures Valid() && changes == map[]
    {
      changes := map[];
    }

    /** `get(key)`: the changed value, or the rule's default when it was never changed. */
    function Get(key: GameRule): (r: RuleValue)
      reads this
      requires Valid()
      ensures Conforms(key, r)
      ensures r == key.defaultValue <==> !IsSet(key)
      ensures IsSet(key) ==> r == changes[key]
    {
      Lookup(changes, key)
    }

    /** `isSet(key)`: the rule has been changed from its default. */
    predicate IsSet(key: GameRule)
      reads this
      ensures Valid() ==> (IsSet(key) <==> Lookup(changes, key) != key.defaultValue)
    {
      key in changes
    }

    /** `set(key, value)`: records `value` unless it equals the default. */
    method Set(key: GameRule, value: RuleValue)
      requires Valid() && Conforms(key, value)
      modifies this
      ensures Valid()
      ensures changes == SetChange(old(changes), key, value)
    {
      if key.defaultValue != value {
        changes := changes[key := value];
      }
    }

    /** `reset(key)`: forgets the change to one rule. */
    method Reset(key: GameRule)
      requires Valid()
      modifies this
      ensures Valid()
      ensures changes == old(changes) - {key}
    {
      changes := changes - {key};
    }

    /** `resetAll()`: forgets every change. */
    method ResetAll()
      modifies this
      ensures Valid()
      ensures changes == map[]
    {
      changes := map[];
    }

    /** `copyTo(target)`: puts all of this map's changes into `target`, replacing the ones they share. */
    method CopyTo(target: GameRuleMap)
      requires Valid() && target.Valid()
      modifies target
      ensures target.Valid()
      ensures target.changes == old(target.changes) + old(changes)
      ensures target != this ==> changes == old(changes)
    {
      target.changes := target.changes + changes;
    }
  }

  /** After `set(key, value)`, `get(key)` is `value` unless `value` is the default and an earlier change stays. */
  lemma SetThenGet(changes: map<GameRule, RuleValue>, key: GameRule, value: RuleValue)
    requires ValidChanges(changes) && Conforms(key, value)
    ensures Lookup(SetChange(changes, key, value), key) == value <==> value != key.defaultValue || key !in changes
    ensures value == key.defaultValue && key in changes ==> Lookup(SetChange(changes, key, value), key) == changes[key]
  {
  }

  /** `set` touches no other rule. */
  lemma SetLeavesOthers(changes: map<GameRule, RuleValue>, key: GameRule, value: RuleValue, other: GameRule)
    requires ValidChanges(changes) && Conforms(key, value) && other != key
    ensures Lookup(SetChange(changes, key, value), other) == Lookup(changes, other)
  {
  }

  /** After `reset(key)` the rule answers its default, and no other rule changes. */
  lemma ResetThenGet(changes: map<GameRule, RuleValue>, key: GameRule, other: GameRule)
    requires ValidChanges(changes)
    ensures ValidChanges(changes - {key})
    ensures Lookup(changes - {key}, key) == key.defaultValue
    ensures other != key ==> Lookup(changes - {key}, other) == Lookup(changes, other)
  {
  }

  /** After `copyTo`, the target answers the source's changes and keeps its own elsewhere. */
  lemma CopyToThenGet(source: map<GameRule, RuleValue>, target: map<GameRule, RuleValue>, key: GameRule)
    requires ValidChanges(source) && ValidChanges(target)
    ensures ValidChanges(target + source)
    ensures key in source ==> Lookup(target + source, key) == Lookup(source, key)
    ensures key !in source ==> Lookup(target + source, key) == Lookup(target, key)
  {
  }

  /** Setting a rule to its default after a change and then resetting it restores the default. */
  lemma SetDefaultNeedsReset(changes: map<GameRule, RuleValue>, key: GameRule, value: RuleValue)
    requires ValidChanges(changes) && Conforms(key, value) && value != key.defaultValue
    ensures Lookup(SetChange(SetChange(changes, key, value), key, key.defaultValue), key) == value
    ensures Lookup(SetChange(changes, key, value) - {key}, key) == key.defaultValue
  {
  }
}
