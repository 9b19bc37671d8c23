/** Partial updates: a patch is merged into the stored source in place. */
module Merging {
  import opened Options
  import opened Values

  function Merge(target: Json, patch: Json): Json
    decreases patch
  {
    if target.Obj? && patch.Obj? then
      Obj(map key | key in target.fields.Keys + patch.fields.Keys ::
            if key !in patch.fields then target.fields[key]
            else if key !in target.fields then patch.fields[key]
            else Merge(target.fields[key], patch.fields[key]))
    else patch
  }

  /** The keys in `done` merged, the others as they were. */
  function MergeKeys(target: map<string, Json>, patch: map<string, Json>, done: set<string>): map<string, Json>
    requires done <= patch.Keys
  {
    map key | key in target.Keys + done ::
      if key !in done then target[key]
      else if key !in target then patch[key]
      else Merge(target[key], patch[key])
  }

  /** Merges key by key and reports whether anything changed. */
  method MergePartialDocument(target: Json, patch: Json) returns (merged: Json, changed: bool)
    ensures merged == Merge(target, patch)
    ensures changed <==> merged != target
    decreases patch
  {
    hide Merge, MergeKeys;
    if target.Obj? && patch.Obj? {
      var fields := target.fields;
      changed := false;
      var pending := patch.fields.Keys;
      NoKeysMerged(target.fields, patch.fields);
      while pending != {}
        invariant pending <= patch.fields.Keys
        invariant fields == MergeKeys(target.fields, patch.fields, patch.fields.Keys - pending)
        invariant changed <==> fields != target.fields
        decreases |pending|
      {
        var key :| key in pending;
        ghost var done := patch.fields.Keys - pending;
        MergeOneKey(target.fields, patch.fields, done, key);
        pending := pending - {key};
        assert patch.fields.Keys - pending == done + {key};
        if key in fields {
          var value, here := MergePartialDocument(fields[key], patch.fields[key]);
          fields := fields[key := value];
          changed := changed || here;
        } else {
          fields := fields[key := patch.fields[key]];
          changed := true;
        }
      }
      assert patch.fields.Keys - pending == patch.fields.Keys;
      AllKeysMerged(target, patch);
      merged := Obj(fields);
    } else if target == patch {
      Replaced(target, patch);
      merged, changed := target, false;
    } else {
      Replaced(target, patch);
      merged, changed := patch, true;
    }
  }

  lemma AllKeysMerged(target: Json, patch: Json)
    requires target.Obj? && patch.Obj?
    ensures Merge(target, patch) == Obj(MergeKeys(target.fields, patch.fields, patch.fields.Keys))
  {
    assert Merge(target, patch).fields == MergeKeys(target.fields, patch.fields, patch.fields.Keys);
  }

  lemma Replaced(target: Json, patch: Json)
    requires !(target.Obj? && patch.Obj?)
    ensures Merge(target, patch) == patch
  {
  }

  lemma NoKeysMerged(target: map<string, Json>, patch: map<string, Json>)
    ensures patch.Keys - patch.Keys == {} && MergeKeys(target, patch, {}) == target
  {
  }

  lemma MergeOneKey(target: map<string, Json>, patch: map<string, Json>, done: set<string>, key: string)
    requires done <= patch.Keys && key in patch && key !in done
    ensures var before := MergeKeys(target, patch, done);
            var after := MergeKeys(target, patch, done + {key});
            var value := if key in target then Merge(target[key], patch[key]) else patch[key];
            && (key in before <==> key in target)
            && (key in target ==> before[key] == target[key])
            && after == before[key := value]
            && (after == target <==> before == target && key in target && value == target[key])
  {
    var before := MergeKeys(target, patch, done);
    var after := MergeKeys(target, patch, done + {key});
    var value := if key in target then Merge(target[key], patch[key]) else patch[key];
    assert after == before[key := value];
    if after == target {
      assert key in after;
      assert before.Keys == target.Keys;
      forall k | k in before
        ensures before[k] == target[k]
      {
        assert k != key ==> before[k] == after[k];
      }
      assert before == target;
    }
  }

  /** Merging an object patch never removes a key. */
  lemma MergeKeepsKeys(target: Json, patch: Json)
    requires patch.Obj?
    ensures Merge(target, patch).Obj?
    ensures patch.fields.Keys <= Merge(target, patch).fields.Keys
    ensures target.Obj? ==> Merge(target, patch).fields.Keys == target.fields.Keys + patch.fields.Keys
  {
  }

  lemma {:induction false} MergeWithItself(v: Json)
    ensures Merge(v, v) == v
    decreases v
  {
    if v.Obj? {
      forall key | key in v.fields
        ensures Merge(v, v).fields[key] == v.fields[key]
      {
        MergeWithItself(v.fields[key]);
      }
      assert Merge(v, v).fields == v.fields;
    }
  }

  /** Sending the same partial document twice changes nothing the second time. */
  lemma {:induction false} MergeTwice(target: Json, patch: Json)
    ensures Merge(Merge(target, patch), patch) == Merge(target, patch)
    decreases patch
  {
    if target.Obj? && patch.Obj? {
      var once := Merge(target, patch);
      var twice := Merge(once, patch);
      forall key | key in once.fields
        ensures twice.fields[key] == once.fields[key]
      {
        if key in patch.fields {
          if key in target.fields {
            MergeTwice(target.fields[key], patch.fields[key]);
          } else {
            MergeWithItself(patch.fields[key]);
          }
        }
      }
      assert twice.fields == once.fields;
    } else {
      MergeWithItself(patch);
    }
  }

  /** Merging is the identity exactly when the patch is already contained. */
  predicate Contains(target: Json, patch: Json)
    decreases patch
  {
    if target.Obj? && patch.Obj? then
      forall key :: key in patch.fields ==> key in target.fields && Contains(target.fields[key], patch.fields[key])
    else target == patch
  }

  lemma {:induction false} UnchangedIff(target: Json, patch: Json)
    ensures Merge(target, patch) == target <==> Contains(target, patch)
    decreases patch
  {
    if target.Obj? && patch.Obj? {
      forall key | key in patch.fields && key in target.fields
        ensures Merge(target.fields[key], patch.fields[key]) == target.fields[key] <==> Contains(target.fields[key], patch.fields[key])
      {
        UnchangedIff(target.fields[key], patch.fields[key]);
      }
      var merged := Merge(target, patch);
      if Contains(target, patch) {
        assert merged.fields == target.fields;
      } else {
        var key :| key in patch.fields && !(key in target.fields && Contains(target.fields[key], patch.fields[key]));
        assert key in merged.fields;
      }
    }
  }

  // ---------------------------------------------------------------- path by path

  /** The value a path of keys leads to. */
  function At(v: Json, path: seq<string>): Option<Json>
    decreases |path|
  {
    if path == [] then Some(v)
    else if v.Obj? && path[0] in v.fields then At(v.fields[path[0]], path[1..])
    else None
  }

  /** Nothing but objects on the way. */
  predicate Open(v: Json, path: seq<string>)
    decreases |path|
  {
    v.Obj? && (path != [] && path[0] in v.fields ==> Open(v.fields[path[0]], path[1..]))
  }

  /** Path by path: what the patch holds there is there, objects stay objects, and where the patch has
      nothing the target's value stays. */
  lemma {:induction false} MergedAt(target: Json, patch: Json, path: seq<string>)
    ensures var here, merged := At(patch, path), At(Merge(target, patch), path);
            && (here.Some? && !here.value.Obj? ==> merged == here)
            && (here.Some? && here.value.Obj? ==> merged.Some? && merged.value.Obj?)
            && (here.None? && Open(patch, path) ==> merged == At(target, path))
    decreases |path|
  {
    if path != [] && patch.Obj? && path[0] in patch.fields {
      if target.Obj? && path[0] in target.fields {
        MergedAt(target.fields[path[0]], patch.fields[path[0]], path[1..]);
      }
    }
  }
}
