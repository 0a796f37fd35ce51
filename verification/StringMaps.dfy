/** Merging of labels and annotations: mergeStringMap of internal/controller/fabricnetwork_enrollment.go. */
module StringMaps {
  import opened Wrappers

  type Strings = map<string, string>

  /** A Go map lookup: the zero value stands for a missing entry. */
  function At(m: Strings, key: string): string {
    if key in m then m[key] else ""
  }

  /** Every desired entry wins, except that an empty one is not added where there is none. */
  function Merged(existing: Strings, desired: Strings): Strings {
    existing + map k | k in desired && (desired[k] != "" || k in existing) :: desired[k]
  }

  function OrEmpty(m: Option<Strings>): Strings {
    if m.Some? then m.value else map[]
  }

  /**
   The loop, in whatever order the map is iterated; None is a nil map. `changed` tells whether
   the object needs an update: if an entry differs, or if a nil map was to receive any.
   */
  method MergeStringMap(existing: Option<Strings>, desired: Strings) returns (merged: Strings, changed: bool)
    ensures merged == Merged(OrEmpty(existing), desired)
    ensures changed <==> merged != OrEmpty(existing) || (existing.None? && desired != map[])
  {
    merged, changed := OrEmpty(existing), false;
    if existing.None? {
      changed := |desired| > 0;
    }
    var todo := desired.Keys;
    assert Merged(merged, desired - todo) == merged;
    while todo != {}
      invariant todo <= desired.Keys
      invariant merged == Merged(OrEmpty(existing), desired - todo)
      invariant changed <==> merged != OrEmpty(existing) || (existing.None? && desired != map[])
      decreases todo
    {
      var key :| key in todo;
      MergeOne(OrEmpty(existing), desired, todo, key);
      if At(merged, key) != desired[key] {
        merged, changed := merged[key := desired[key]], true;
      }
      todo := todo - {key};
    }
    assert desired - {} == desired;
  }

  lemma MergeOne(existing: Strings, desired: Strings, todo: set<string>, key: string)
    requires todo <= desired.Keys && key in todo
    ensures var m := Merged(existing, desired - todo);
            At(m, key) == At(existing, key) &&
            Merged(existing, desired - (todo - {key})) == (if At(m, key) != desired[key] then m[key := desired[key]] else m)
    ensures At(existing, key) != desired[key] ==> Merged(existing, desired - todo)[key := desired[key]] != existing
  {
    var m, n := Merged(existing, desired - todo), Merged(existing, desired - (todo - {key}));
    var o := if At(m, key) != desired[key] then m[key := desired[key]] else m;
    assert key !in desired - todo;
    forall k
      ensures k in n <==> k in o
      ensures k in n ==> n[k] == o[k]
    {
      if k != key {
        assert k in desired - (todo - {key}) <==> k in desired - todo;
      }
    }
    assert At(m[key := desired[key]], key) == desired[key];
  }

  /** After merging, every desired key reads as desired and every other key as before. */
  lemma MergedAt(existing: Strings, desired: Strings, key: string)
    ensures At(Merged(existing, desired), key) == if key in desired then desired[key] else At(existing, key)
  {
  }
}
