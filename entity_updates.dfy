/**
 * `apply_dict_updates` of app/db/utils.py: copy the values of an update
 * dictionary onto an ORM entity, skipping excluded names and names the entity
 * does not have.  The entity is an object whose attributes are a map from name
 * to value; the update dictionary has distinct keys, so it is a map too.
 */
module EntityUpdates {
  import opened Common

  /** An ORM entity: its attribute names and their current values. */
  class Entity<V> {
    var attrs: map<string, V>

    constructor (initial: map<string, V>)
      ensures attrs == initial
    {
      attrs := initial;
    }
  }

  /** `excluded_attrs if excluded_attrs else set()`: None and the empty set both exclude nothing. */
  function ExcludedSet(excluded: Option<set<string>>): (r: set<string>)
    ensures excluded.None? ==> r == {}
    ensures excluded.Some? ==> r == excluded.value
  {
    if excluded.Some? && excluded.value != {} then excluded.value else {}
  }

  /** The attributes after the update: a name the entity has, that is updated and not excluded, takes the new value. */
  function Patched<V>(attrs: map<string, V>, updates: map<string, V>, excluded: set<string>): (r: map<string, V>)
  {
    map k | k in attrs :: if k in updates && k !in excluded then updates[k] else attrs[k]
  }

  /**
   * What the update promises: no attribute is added or removed, excluded and
   * unmentioned attributes keep their values, and every other attribute the
   * entity has takes the value given for it.
   */
  lemma PatchedMeaning<V>(attrs: map<string, V>, updates: map<string, V>, excluded: set<string>)
    ensures Patched(attrs, updates, excluded).Keys == attrs.Keys
    ensures forall k :: k in attrs && k in excluded ==> Patched(attrs, updates, excluded)[k] == attrs[k]
    ensures forall k :: k in attrs && k !in updates ==> Patched(attrs, updates, excluded)[k] == attrs[k]
    ensures forall k :: k in attrs && k in updates && k !in excluded ==> Patched(attrs, updates, excluded)[k] == updates[k]
  {
  }

  /** Applying the same update a second time changes nothing. */
  lemma PatchedIdempotent<V>(attrs: map<string, V>, updates: map<string, V>, excluded: set<string>)
    ensures Patched(Patched(attrs, updates, excluded), updates, excluded) == Patched(attrs, updates, excluded)
  {
  }

  /** Splitting an update into two parts with disjoint names and applying them one after the other is the same as applying it whole. */
  lemma {:induction false} PatchedSplit<V>(attrs: map<string, V>, first: map<string, V>, second: map<string, V>, excluded: set<string>)
    requires first.Keys !! second.Keys
    ensures Patched(Patched(attrs, first, excluded), second, excluded) == Patched(attrs, first + second, excluded)
  {
    var lhs := Patched(Patched(attrs, first, excluded), second, excluded);
    var rhs := Patched(attrs, first + second, excluded);
    assert lhs.Keys == rhs.Keys;
    forall k | k in lhs ensures lhs[k] == rhs[k] {
      if k in second {
        assert k !in first;
      }
    }
  }

  /** The entries of `updates` whose names are no longer in `remaining`. */
  function Taken<V>(updates: map<string, V>, remaining: set<string>): (r: map<string, V>)
    ensures r.Keys == updates.Keys - remaining
  {
    map k | k in updates && k !in remaining :: updates[k]
  }

  /** Taking one more name adds exactly that name's entry. */
  lemma TakenStep<V>(updates: map<string, V>, remaining: set<string>, key: string)
    requires key in remaining && key in updates
    ensures Taken(updates, remaining) + map[key := updates[key]] == Taken(updates, remaining - {key})
    ensures Taken(updates, remaining).Keys !! {key}
  {
    var lhs := Taken(updates, remaining) + map[key := updates[key]];
    var rhs := Taken(updates, remaining - {key});
    assert lhs.Keys == rhs.Keys;
  }

  /** An update of a single name is one assignment, when that name is present and not excluded. */
  lemma PatchedOne<V>(attrs: map<string, V>, key: string, value: V, excluded: set<string>)
    ensures Patched(attrs, map[key := value], excluded)
      == if key !in excluded && key in attrs then attrs[key := value] else attrs
  {
  }

  /**
   * `apply_dict_updates`: one `setattr` per key of `updateData` that is neither
   * excluded nor missing from the entity.  The keys are taken in some order;
   * since they are distinct the result does not depend on it.
   */
  method ApplyDictUpdates<V>(entity: Entity<V>, updateData: map<string, V>, excluded: Option<set<string>>)
    modifies entity
    ensures entity.attrs == Patched(old(entity.attrs), updateData, ExcludedSet(excluded))
    ensures entity.attrs.Keys == old(entity.attrs.Keys)
    ensures forall k :: k in old(entity.attrs) && (k in ExcludedSet(excluded) || k !in updateData) ==>
      entity.attrs[k] == old(entity.attrs[k])
    ensures forall k :: k in old(entity.attrs) && k in updateData && k !in ExcludedSet(excluded) ==>
      entity.attrs[k] == updateData[k]
  {
    var excludedAttrs := if excluded.Some? && excluded.value != {} then excluded.value else {};
    ghost var start := entity.attrs;
    var remaining := updateData.Keys;
    assert Taken(updateData, remaining) == map[];
    assert Patched(start, map[], excludedAttrs) == start;
    while remaining != {}
      invariant remaining <= updateData.Keys
      invariant entity.attrs == Patched(start, Taken(updateData, remaining), excludedAttrs)
      decreases remaining
    {
      var key :| key in remaining;
      ghost var before := entity.attrs;
      PatchedOne(before, key, updateData[key], excludedAttrs);
      if key !in excludedAttrs && key in entity.attrs {
        entity.attrs := entity.attrs[key := updateData[key]];
      }
      assert entity.attrs == Patched(before, map[key := updateData[key]], excludedAttrs);
      TakenStep(updateData, remaining, key);
      PatchedSplit(start, Taken(updateData, remaining), map[key := updateData[key]], excludedAttrs);
      remaining := remaining - {key};
    }
    assert Taken(updateData, remaining) == updateData;
    PatchedMeaning(start, updateData, excludedAttrs);
  }
}
