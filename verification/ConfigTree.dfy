/** The configuration algebra of edit-config (control/edit_config.go): recursive
    patch, dotted-path assignment with pruning, and the tree diff.  Documents
    are JSON trees; a path is the sequence of its keys. */
module ConfigTree {
  import opened Text
  import opened Json

  type Path = seq<string>

  function Find(fields: Fields, key: string): Option<Json> {
    if key in fields then Some(fields[key]) else None
  }

  /** The value at a path below an object. */
  function At(fields: Fields, path: Path): Option<Json>
    requires path != []
    decreases |path|
  {
    if path[0] !in fields then None
    else if |path| == 1 then Some(fields[path[0]])
    else match fields[path[0]]
      case Object(inner) => At(inner, path[1..])
      case _ => None
  }

  lemma FieldsEqual(a: Fields, b: Fields)
    requires forall key :: Find(a, key) == Find(b, key)
    ensures a == b
  {
    forall key
      ensures key in a <==> key in b
      ensures key in a ==> a[key] == b[key]
    {
      assert Find(a, key) == Find(b, key);
    }
    assert a.Keys == b.Keys;
  }

  // ---- recursive patch ----

  function ScalarString(value: Json): string {
    match value
    case Bool(truth) => if truth then "True" else "False"
    case Null => "None"
    case Number(digits) => digits
    case String(text) => text
    case _ => ""
  }

  /** patroniConfigValuesEquivalent: composites by canonical equality, scalars
      by their Python spelling. */
  predicate Equivalent(left: Json, right: Json) {
    if left.Object? || left.Array? || right.Array? then left == right
    else if right.Object? then false
    else ScalarString(left) == ScalarString(right)
  }

  /** What one patch entry makes of the value under its key. */
  function PatchEntry(current: Option<Json>, value: Json): Option<Json>
    decreases value
  {
    match value
    case Null => None
    case Object(inner) =>
      if current.Some? && current.value.Object? then Some(Object(Patch(current.value.fields, value))) else Some(value)
    case _ =>
      if current.Some? && Equivalent(current.value, value) then current else Some(value)
  }

  function PatchedKey(fields: Fields, patch: Json, key: string): Option<Json>
    requires patch.Object?
    decreases patch, 0
  {
    if key in patch.fields then PatchEntry(Find(fields, key), patch.fields[key]) else Find(fields, key)
  }

  /** applyPatroniConfigPatch, key by key. */
  function Patch(fields: Fields, patch: Json): Fields
    requires patch.Object?
    decreases patch, 1
  {
    map key | key in fields.Keys + patch.fields.Keys && PatchedKey(fields, patch, key).Some? ::
          PatchedKey(fields, patch, key).value
  }

  lemma PatchAt(fields: Fields, patch: Json, key: string)
    requires patch.Object?
    ensures Find(Patch(fields, patch), key) == PatchedKey(fields, patch, key)
  {
  }

  /** applyPatroniConfigPatch as its loop runs: over the patch in any order,
      one key at a time. */
  method ApplyPatroniConfigPatch(configuration: Fields, patch: Json) returns (result: Fields)
    requires patch.Object?
    ensures result == Patch(configuration, patch)
    decreases patch
  {
    result := configuration;
    var remaining := patch.fields.Keys;
    while remaining != {}
      invariant remaining <= patch.fields.Keys
      invariant forall key :: Find(result, key) == if key in remaining then Find(configuration, key)
                else PatchedKey(configuration, patch, key)
      decreases |remaining|
    {
      var key :| key in remaining;
      var value := patch.fields[key];
      var before := result;
      match value {
        case Null =>
          result := result - {key};
        case Object(_) =>
          if key in result && result[key].Object? {
            var child := ApplyPatroniConfigPatch(result[key].fields, value);
            result := result[key := Object(child)];
          } else {
            result := result[key := value];
          }
        case _ =>
          if !(key in result && Equivalent(result[key], value)) {
            result := result[key := value];
          }
      }
      assert Find(before, key) == Find(configuration, key);
      assert forall other :: other != key ==> Find(result, other) == Find(before, other);
      remaining := remaining - {key};
    }
    forall key
      ensures Find(result, key) == Find(Patch(configuration, patch), key)
    {
      PatchAt(configuration, patch, key);
    }
    FieldsEqual(result, Patch(configuration, patch));
  }

  /** No object inside the value holds a null. */
  predicate NullFree(value: Json) {
    value.Object? ==> forall key :: key in value.fields ==> !value.fields[key].Null? && NullFree(value.fields[key])
  }

  /** One application suffices: wherever the patch plants an object in place of
      something that is not an object, the object holds no null. */
  predicate SettlesAtOnce(fields: Fields, patch: Json)
    requires patch.Object?
    decreases patch
  {
    forall key :: key in patch.fields && patch.fields[key].Object? ==>
      if key in fields && fields[key].Object? then SettlesAtOnce(fields[key].fields, patch.fields[key])
      else NullFree(patch.fields[key])
  }

  /** An object patched with itself loses exactly its nulls. */
  lemma {:induction false} SelfPatch(value: Json)
    requires value.Object?
    ensures Patch(value.fields, value) == value.fields <==> NullFree(value)
    ensures Patch(Patch(value.fields, value), value) == Patch(value.fields, value)
    decreases value
  {
    var once := Patch(value.fields, value);
    forall key | key in value.fields
      ensures value.fields[key].Object? ==>
                && PatchedKey(value.fields, value, key)
                    == Some(Object(Patch(value.fields[key].fields, value.fields[key])))
                && (Patch(value.fields[key].fields, value.fields[key]) == value.fields[key].fields <==>
                    NullFree(value.fields[key]))
                && Patch(Patch(value.fields[key].fields, value.fields[key]), value.fields[key])
                    == Patch(value.fields[key].fields, value.fields[key])
      ensures !value.fields[key].Object? && !value.fields[key].Null? ==>
                PatchedKey(value.fields, value, key) == Some(value.fields[key])
    {
      if value.fields[key].Object? {
        SelfPatch(value.fields[key]);
      }
    }
    forall key
      ensures Find(Patch(once, value), key) == Find(once, key)
    {
      PatchAt(value.fields, value, key);
      PatchAt(once, value, key);
    }
    FieldsEqual(Patch(once, value), once);
    SelfPatchFixed(value);
  }

  lemma SelfPatchFixed(value: Json)
    requires value.Object?
    requires forall key :: key in value.fields && value.fields[key].Object? ==>
               (Patch(value.fields[key].fields, value.fields[key]) == value.fields[key].fields <==>
                NullFree(value.fields[key]))
    ensures Patch(value.fields, value) == value.fields <==> NullFree(value)
  {
    var once := Patch(value.fields, value);
    if NullFree(value) {
      forall key
        ensures Find(once, key) == Find(value.fields, key)
      {
        PatchAt(value.fields, value, key);
      }
      FieldsEqual(once, value.fields);
    } else {
      var key :| key in value.fields && (value.fields[key].Null? || !NullFree(value.fields[key]));
      PatchAt(value.fields, value, key);
      assert Find(once, key) != Find(value.fields, key);
    }
  }

  /** Applying a patch a second time changes nothing exactly when it settles at
      once; a third application never changes anything. */
  lemma {:induction false} PatchStabilizes(fields: Fields, patch: Json)
    requires patch.Object?
    ensures var once := Patch(fields, patch); var twice := Patch(once, patch);
            && (twice == once <==> SettlesAtOnce(fields, patch))
            && Patch(twice, patch) == twice
    decreases patch
  {
    var once := Patch(fields, patch);
    var twice := Patch(once, patch);
    forall key
      ensures Find(Patch(twice, patch), key) == Find(twice, key)
      ensures key in patch.fields && patch.fields[key].Object? ==>
                (Find(twice, key) == Find(once, key) <==>
                 if key in fields && fields[key].Object? then SettlesAtOnce(fields[key].fields, patch.fields[key])
                 else NullFree(patch.fields[key]))
      ensures !(key in patch.fields && patch.fields[key].Object?) ==> Find(twice, key) == Find(once, key)
    {
      PatchAt(fields, patch, key);
      PatchAt(once, patch, key);
      PatchAt(twice, patch, key);
      if key in patch.fields && patch.fields[key].Object? {
        PatchKeyStabilizes(fields, patch, key);
      }
    }
    FieldsEqual(Patch(twice, patch), twice);
    if SettlesAtOnce(fields, patch) {
      FieldsEqual(twice, once);
    }
  }

  lemma {:induction false} PatchKeyStabilizes(fields: Fields, patch: Json, key: string)
    requires patch.Object? && key in patch.fields && patch.fields[key].Object?
    ensures var value := patch.fields[key];
            var once := PatchEntry(Find(fields, key), value); var twice := PatchEntry(once, value);
            && (twice == once <==> if key in fields && fields[key].Object? then
                SettlesAtOnce(fields[key].fields, value) else NullFree(value))
            && PatchEntry(twice, value) == twice
    decreases patch, 0
  {
    var value := patch.fields[key];
    if key in fields && fields[key].Object? {
      PatchStabilizes(fields[key].fields, value);
    } else {
      SelfPatch(value);
    }
  }

  /** A patch without nulls in its nested objects settles at once on every
      configuration, and keys it does not mention are untouched. */
  lemma {:induction false} CleanPatchSettles(fields: Fields, patch: Json)
    requires patch.Object?
    requires forall key :: key in patch.fields && patch.fields[key].Object? ==> NullFree(patch.fields[key])
    ensures SettlesAtOnce(fields, patch)
    ensures forall key :: key !in patch.fields ==> Find(Patch(fields, patch), key) == Find(fields, key)
    decreases patch
  {
    forall key | key in patch.fields && patch.fields[key].Object? && key in fields && fields[key].Object?
      ensures SettlesAtOnce(fields[key].fields, patch.fields[key])
    {
      CleanPatchSettles(fields[key].fields, patch.fields[key]);
    }
  }

  // ---- dotted-path assignment ----

  function Child(fields: Fields, key: string): Fields {
    if key in fields && fields[key].Object? then fields[key].fields else map[]
  }

  function Store(fields: Fields, key: string, inner: Fields): Fields {
    if inner == map[] then fields - {key} else fields[key := Object(inner)]
  }

  /** Assignment along a path; null removes, emptied objects are pruned. */
  function SetAt(fields: Fields, path: Path, value: Json): Fields
    requires path != []
    decreases |path|
  {
    if |path| == 1 then (if value.Null? then fields - {path[0]} else fields[path[0] := value])
    else Store(fields, path[0], SetAt(Child(fields, path[0]), path[1..], value))
  }

  /** setPatroniConfigPath as written, with the special case that everything
      below postgresql.parameters is one key. */
  function SetPatroniConfigPath(fields: Fields, path: Path, value: Json, prefix: Path): Fields
    requires path != []
    decreases |path|
  {
    var p := if prefix == ["postgresql", "parameters"] then [Join(path, ".")] else path;
    if |p| == 1 then (if value.Null? then fields - {p[0]} else fields[p[0] := value])
    else Store(fields, p[0], SetPatroniConfigPath(Child(fields, p[0]), p[1..], value, prefix + [p[0]]))
  }

  function EffectivePath(path: Path): (effective: Path)
    requires path != []
    ensures effective != []
  {
    if |path| > 2 && path[0] == "postgresql" && path[1] == "parameters" then path[..2] + [Join(path[2..], ".")]
    else path
  }

  lemma {:induction false} PlainBelow(fields: Fields, path: Path, value: Json, prefix: Path)
    requires path != [] && |prefix| >= 1
    requires |prefix| == 1 ==> !(prefix[0] == "postgresql" && |path| > 1 && path[0] == "parameters")
    requires prefix != ["postgresql", "parameters"]
    ensures SetPatroniConfigPath(fields, path, value, prefix) == SetAt(fields, path, value)
    decreases |path|
  {
    if |path| > 1 {
      var longer := prefix + [path[0]];
      assert longer[0] == prefix[0] && longer[|prefix|] == path[0];
      PlainBelow(Child(fields, path[0]), path[1..], value, longer);
    }
  }

  /** Below postgresql.parameters the rest of the path is one key. */
  lemma ParametersPathIsSet(fields: Fields, path: Path, value: Json)
    requires |path| > 2 && path[0] == "postgresql" && path[1] == "parameters"
    ensures SetPatroniConfigPath(fields, path, value, []) == SetAt(fields, EffectivePath(path), value)
  {
    hide Join, Store, Child;
    var below, effective := Child(fields, path[0]), EffectivePath(path);
    var joined := [Join(path[2..], ".")];
    assert path[1..][1..] == path[2..] && path[1..][0] == path[1];
    assert [] + [path[0]] == ["postgresql"] && ["postgresql"] + [path[1]] == ["postgresql", "parameters"];
    assert effective[1..] == ["parameters"] + joined && effective[1..][1..] == joined;
    var inner := Child(below, path[1]);
    assert SetPatroniConfigPath(inner, path[2..], value, ["postgresql", "parameters"]) == SetAt(inner, joined, value);
    assert SetPatroniConfigPath(below, path[1..], value, ["postgresql"])
           == Store(below, path[1], SetAt(inner, joined, value));
    assert SetAt(below, effective[1..], value) == Store(below, path[1], SetAt(inner, joined, value));
  }

  lemma EffectivePathIsSet(fields: Fields, path: Path, value: Json)
    requires path != []
    ensures SetPatroniConfigPath(fields, path, value, []) == SetAt(fields, EffectivePath(path), value)
  {
    hide Join, Store, Child;
    if path[0] == "postgresql" && |path| > 2 && path[1] == "parameters" {
      ParametersPathIsSet(fields, path, value);
    } else if |path| > 1 {
      assert [] + [path[0]] == [path[0]];
      PlainBelow(Child(fields, path[0]), path[1..], value, [path[0]]);
    }
  }

  predicate Incomparable(p: Path, q: Path) { !(p <= q) && !(q <= p) }

  lemma SetThenGet(fields: Fields, path: Path, value: Json)
    requires path != [] && !value.Null?
    ensures At(SetAt(fields, path, value), path) == Some(value)
    ensures SetAt(fields, path, value) != map[]
    decreases |path|
  {
    if |path| > 1 {
      SetThenGet(Child(fields, path[0]), path[1..], value);
    } else {
      assert path[0] in SetAt(fields, path, value);
    }
  }

  lemma UnsetThenGet(fields: Fields, path: Path)
    requires path != []
    ensures At(SetAt(fields, path, Null), path) == None
    decreases |path|
  {
    if |path| > 1 {
      UnsetThenGet(Child(fields, path[0]), path[1..]);
    }
  }

  /** An assignment along a longer path is one below its first key. */
  lemma SetBelow(fields: Fields, path: Path, value: Json)
    requires |path| > 1
    ensures SetAt(fields, path, value) == Store(fields, path[0], SetAt(Child(fields, path[0]), path[1..], value))
  {
    hide Store, Child;
  }

  lemma SameFirstKey(a: Fields, b: Fields, path: Path)
    requires path != [] && Find(a, path[0]) == Find(b, path[0])
    ensures At(a, path) == At(b, path)
  {
  }

  lemma AtBelow(fields: Fields, key: string, inner: Fields, path: Path)
    requires |path| > 1 && path[0] == key
    ensures At(Store(fields, key, inner), path) == At(inner, path[1..])
    ensures At(Child(fields, key), path[1..]) == At(fields, path)
  {
  }

  lemma {:induction false} OtherPathsUnchanged(fields: Fields, path: Path, value: Json, other: Path)
    requires path != [] && other != [] && Incomparable(path, other)
    ensures At(SetAt(fields, path, value), other) == At(fields, other)
    decreases |path|
  {
    if path[0] == other[0] {
      hide Store, Child, SetAt, At;
      assert path == [path[0]] + path[1..] && other == [other[0]] + other[1..];
      OtherPathsUnchanged(Child(fields, path[0]), path[1..], value, other[1..]);
      SetBelow(fields, path, value);
      AtBelow(fields, path[0], SetAt(Child(fields, path[0]), path[1..], value), other);
    } else {
      SetTouchesOneKey(fields, path, value, other[0]);
      SameFirstKey(SetAt(fields, path, value), fields, other);
    }
  }

  /** Every proper ancestor of an assigned path ends absent or as a non-empty
      object. */
  lemma {:induction false} AncestorsPruned(fields: Fields, path: Path, value: Json, ancestor: Path)
    requires ancestor != [] && ancestor < path
    ensures match At(SetAt(fields, path, value), ancestor)
            case None => true
            case Some(found) => found.Object? && found.fields != map[]
    decreases |path|
  {
    if |ancestor| > 1 {
      AncestorsPruned(Child(fields, path[0]), path[1..], value, ancestor[1..]);
    }
  }

  /** The path is absent, and every ancestor is absent or a non-empty object. */
  predicate AbsentAt(fields: Fields, path: Path)
    requires path != []
    decreases |path|
  {
    path[0] !in fields
    || (|path| > 1 && fields[path[0]].Object? && fields[path[0]].fields != map[]
        && AbsentAt(fields[path[0]].fields, path[1..]))
  }

  /** Setting and then unsetting restores the tree exactly when the path was
      absent below non-empty ancestors. */
  lemma {:induction false} UnsetRestores(fields: Fields, path: Path, value: Json)
    requires path != [] && !value.Null?
    ensures SetAt(SetAt(fields, path, value), path, Null) == fields <==> AbsentAt(fields, path)
    decreases |path|
  {
    if |path| > 1 {
      var key := path[0];
      var child := Child(fields, key);
      var set_, unset := SetAt(child, path[1..], value), SetAt(SetAt(child, path[1..], value), path[1..], Null);
      SetThenGet(child, path[1..], value);
      UnsetRestores(child, path[1..], value);
      assert SetAt(SetAt(fields, path, value), path, Null) == Store(fields[key := Object(set_)], key, unset);
      if key !in fields {
        assert AbsentAt(child, path[1..]);
        assert Store(fields[key := Object(set_)], key, unset) == fields;
      } else if unset == map[] {
        assert key !in Store(fields[key := Object(set_)], key, unset);
      } else {
        assert Store(fields[key := Object(set_)], key, unset)[key] == Object(unset);
        if fields[key].Object? && unset == child {
          assert Store(fields[key := Object(set_)], key, unset) == fields;
        }
      }
    } else if path[0] !in fields {
      assert fields[path[0] := value] - {path[0]} == fields;
    }
  }

  /** Assignments on incomparable paths commute. */
  lemma {:induction false} SettingsCommute(fields: Fields, p: Path, v: Json, q: Path, u: Json)
    requires p != [] && q != [] && Incomparable(p, q)
    ensures SetAt(SetAt(fields, p, v), q, u) == SetAt(SetAt(fields, q, u), p, v)
    decreases |p|
  {
    hide SetAt, Store, Child;
    if p[0] == q[0] {
      assert p == [p[0]] + p[1..] && q == [q[0]] + q[1..];
      var child := Child(fields, p[0]);
      SettingsCommute(child, p[1..], v, q[1..], u);
      SetTwiceBelow(fields, p, v, q, u);
      SetTwiceBelow(fields, q, u, p, v);
    } else {
      SetOnTwoKeys(fields, p, v, q, u);
    }
  }

  lemma SetTwiceBelow(fields: Fields, p: Path, v: Json, q: Path, u: Json)
    requires |p| > 1 && |q| > 1 && p[0] == q[0]
    ensures SetAt(SetAt(fields, p, v), q, u)
            == Store(fields, p[0], SetAt(SetAt(Child(fields, p[0]), p[1..], v), q[1..], u))
  {
    hide SetAt, Store, Child;
    var first := SetAt(Child(fields, p[0]), p[1..], v);
    SetBelow(fields, p, v);
    SetBelow(SetAt(fields, p, v), q, u);
    StoreTwice(fields, p[0], first, SetAt(first, q[1..], u));
  }

  lemma SetOnTwoKeys(fields: Fields, p: Path, v: Json, q: Path, u: Json)
    requires p != [] && q != [] && p[0] != q[0]
    ensures SetAt(SetAt(fields, p, v), q, u) == SetAt(SetAt(fields, q, u), p, v)
  {
    hide SetAt;
    var pq, qp := SetAt(SetAt(fields, p, v), q, u), SetAt(SetAt(fields, q, u), p, v);
    SetTouchesOneKey(fields, p, v, q[0]);
    SetTouchesOneKey(fields, q, u, p[0]);
    SetDependsOnKey(fields, SetAt(fields, q, u), p, v);
    SetDependsOnKey(fields, SetAt(fields, p, v), q, u);
    forall key
      ensures Find(pq, key) == Find(qp, key)
    {
      SetTouchesOneKey(fields, p, v, key);
      SetTouchesOneKey(fields, q, u, key);
      SetTouchesOneKey(SetAt(fields, p, v), q, u, key);
      SetTouchesOneKey(SetAt(fields, q, u), p, v, key);
    }
    FieldsEqual(pq, qp);
  }

  lemma StoreTwice(fields: Fields, key: string, first: Fields, second: Fields)
    ensures Child(Store(fields, key, first), key) == first
    ensures Store(Store(fields, key, first), key, second) == Store(fields, key, second)
  {
  }

  /** An assignment changes only its first key, ... */
  lemma SetTouchesOneKey(fields: Fields, path: Path, value: Json, key: string)
    requires path != []
    ensures key != path[0] ==> Find(SetAt(fields, path, value), key) == Find(fields, key)
  {
  }

  /** ... and depends only on it. */
  lemma SetDependsOnKey(fields: Fields, others: Fields, path: Path, value: Json)
    requires path != [] && (Find(others, path[0]) == Find(fields, path[0]))
    ensures Find(SetAt(others, path, value), path[0]) == Find(SetAt(fields, path, value), path[0])
  {
  }

  // ---- tree diff ----

  /** The keys of either side. */
  function BothKeys(left: Json, right: Json): (keys: seq<string>)
    requires left.Object? && right.Object?
    ensures forall key :: key in keys <==> key in left.fields || key in right.fields
  {
    SortedKeys(left.fields.Keys + right.fields.Keys)
  }

  const NO_FIELDS := Object(map[])

  function Prefixed(key: string, paths: seq<Path>): (longer: seq<Path>)
    ensures |longer| == |paths|
    ensures forall i :: 0 <= i < |paths| ==> longer[i] == [key] + paths[i]
  {
    if paths == [] then [] else [[key] + paths[0]] + Prefixed(key, paths[1..])
  }

  /** The two objects to compare below a key, if the diff descends there. */
  function Descend(left: Json, right: Json, key: string): Option<(Json, Json)>
    requires left.Object? && right.Object?
  {
    var l, r := Find(left.fields, key), Find(right.fields, key);
    if l.Some? && r.Some? && l.value.Object? && r.value.Object? then Some((l.value, r.value))
    else if l.None? && r.Some? && r.value.Object? && r.value.fields != map[] then Some((NO_FIELDS, r.value))
    else if r.None? && l.Some? && l.value.Object? && l.value.fields != map[] then Some((l.value, NO_FIELDS))
    else None
  }

  /** Descending shrinks the left object, or the right one once a side has run
      out of keys. */
  function OneSided(left: Json, right: Json): bool
    requires left.Object? && right.Object?
  {
    left == NO_FIELDS || right == NO_FIELDS
  }

  function Driving(left: Json, right: Json): Json { if left == NO_FIELDS then right else left }

  /** The paths reported for one key. */
  function ChangedAt(left: Json, right: Json, key: string): seq<Path>
    requires left.Object? && right.Object? && (key in left.fields || key in right.fields)
    decreases if OneSided(left, right) then 0 else 1, Driving(left, right), 0
  {
    match Descend(left, right, key)
    case Some(pair) => Prefixed(key, Changed(pair.0, pair.1))
    case None => if Find(left.fields, key) == Find(right.fields, key) then [] else [[key]]
  }

  function ChangedKeys(left: Json, right: Json, keys: seq<string>): seq<Path>
    requires left.Object? && right.Object?
    requires forall key :: key in keys ==> key in left.fields || key in right.fields
    decreases if OneSided(left, right) then 0 else 1, Driving(left, right), 1, |keys|
  {
    if keys == [] then []
    else
      assert keys[|keys| - 1] in keys;
      ChangedKeys(left, right, keys[..|keys| - 1]) + ChangedAt(left, right, keys[|keys| - 1])
  }

  /** collectChangedConfigPaths, on key sequences instead of dotted text. */
  function Changed(left: Json, right: Json): seq<Path>
    requires left.Object? && right.Object?
    decreases if OneSided(left, right) then 0 else 1, Driving(left, right), 2
  {
    ChangedKeys(left, right, BothKeys(left, right))
  }

  /** collectChangedConfigPaths as written: one loop over the sorted keys,
      appending to the caller's list. */
  method CollectChangedConfigPaths(left: Json, right: Json, prefix: Path, before: seq<Path>)
    returns (changed: seq<Path>)
    requires left.Object? && right.Object?
    ensures changed == before + Below(prefix, Changed(left, right))
    decreases if OneSided(left, right) then 0 else 1, Driving(left, right), 1
  {
    hide Descend, ChangedAt, ChangedKeys, Changed, BothKeys;
    var ordered := BothKeys(left, right);
    changed := before;
    ChangedByKeys(left, right);
    assert ordered[..0] == [];
    assert before + Below(prefix, []) == before;
    var i := 0;
    while i < |ordered|
      invariant i <= |ordered|
      invariant changed == before + Below(prefix, ChangedKeys(left, right, ordered[..i]))
    {
      assert ordered[i] in ordered;
      ghost var done := ChangedKeys(left, right, ordered[..i]);
      ChangedKeysStep(left, right, ordered, i);
      BelowAppend(prefix, done, ChangedAt(left, right, ordered[i]));
      changed := CollectChangedKey(left, right, ordered[i], prefix, changed);
      i := i + 1;
    }
    assert ordered[..i] == ordered;
  }

  lemma ChangedByKeys(left: Json, right: Json)
    requires left.Object? && right.Object?
    ensures Changed(left, right) == ChangedKeys(left, right, BothKeys(left, right))
    ensures ChangedKeys(left, right, []) == []
  {
    hide ChangedAt, BothKeys;
  }

  lemma ChangedKeysStep(left: Json, right: Json, keys: seq<string>, i: nat)
    requires left.Object? && right.Object? && i < |keys|
    requires forall key :: key in keys ==> key in left.fields || key in right.fields
    ensures ChangedKeys(left, right, keys[..i + 1]) == ChangedKeys(left, right, keys[..i])
            + ChangedAt(left, right, keys[i])
  {
    hide ChangedAt;
    assert keys[..i + 1][..i] == keys[..i];
  }

  /** One turn of that loop. */
  method CollectChangedKey(left: Json, right: Json, key: string, prefix: Path, before: seq<Path>)
    returns (changed: seq<Path>)
    requires left.Object? && right.Object? && (key in left.fields || key in right.fields)
    ensures changed == before + Below(prefix, ChangedAt(left, right, key))
    decreases if OneSided(left, right) then 0 else 1, Driving(left, right), 0
  {
    hide Changed;
    match Descend(left, right, key) {
      case Some(pair) =>
        BelowPrefixed(prefix, key, Changed(pair.0, pair.1));
        changed := CollectChangedConfigPaths(pair.0, pair.1, prefix + [key], before);
      case None =>
        changed := if Find(left.fields, key) != Find(right.fields, key) then before + [prefix + [key]] else before;
    }
  }

  function Below(prefix: Path, paths: seq<Path>): seq<Path> {
    seq(|paths|, i requires 0 <= i < |paths| => prefix + paths[i])
  }

  lemma BelowAppend(prefix: Path, a: seq<Path>, b: seq<Path>)
    ensures Below(prefix, a + b) == Below(prefix, a) + Below(prefix, b)
  {
  }

  lemma BelowPrefixed(prefix: Path, key: string, paths: seq<Path>)
    ensures Below(prefix, Prefixed(key, paths)) == Below(prefix + [key], paths)
  {
    forall i | 0 <= i < |paths|
      ensures prefix + ([key] + paths[i]) == prefix + [key] + paths[i]
    {
    }
  }

  /** What the diff reports, path by path. */
  predicate Reported(left: Json, right: Json, path: Path)
    requires left.Object? && right.Object?
    decreases |path|
  {
    && path != []
    && (path[0] in left.fields || path[0] in right.fields)
    && match Descend(left, right, path[0])
       case Some(pair) => |path| > 1 && Reported(pair.0, pair.1, path[1..])
       case None => |path| == 1 && Find(left.fields, path[0]) != Find(right.fields, path[0])
  }

  lemma {:induction false} ChangedIsReported(left: Json, right: Json, path: Path)
    requires left.Object? && right.Object?
    ensures path in Changed(left, right) <==> Reported(left, right, path)
    decreases |path|, 1
  {
    ChangedKeysReported(left, right, BothKeys(left, right), path);
  }

  lemma {:induction false} ChangedKeysReported(left: Json, right: Json, keys: seq<string>, path: Path)
    requires left.Object? && right.Object?
    requires forall key :: key in keys ==> key in left.fields || key in right.fields
    ensures path in ChangedKeys(left, right, keys) <==> Reported(left, right, path) && path[0] in keys
    decreases |path|, 0, |keys| + 1
  {
    if keys != [] {
      var front, key := keys[..|keys| - 1], keys[|keys| - 1];
      assert keys == front + [key] && key in keys;
      ChangedKeysReported(left, right, front, path);
      ChangedAtReported(left, right, key, path);
    }
  }

  lemma {:induction false} ChangedAtReported(left: Json, right: Json, key: string, path: Path)
    requires left.Object? && right.Object? && (key in left.fields || key in right.fields)
    ensures path in ChangedAt(left, right, key) <==> Reported(left, right, path) && path[0] == key
    decreases |path|, 0, 0
  {
    hide Changed;
    match Descend(left, right, key)
    case Some(pair) =>
      PrefixedMembers(key, Changed(pair.0, pair.1), path);
      if path != [] && path[0] == key {
        ChangedIsReported(pair.0, pair.1, path[1..]);
        assert Reported(pair.0, pair.1, path[1..]) ==> |path| > 1;
      }
    case None =>
      assert path == [key] <==> path != [] && path[0] == key && |path| == 1;
  }

  lemma PrefixedMembers(key: string, paths: seq<Path>, path: Path)
    ensures path in Prefixed(key, paths) <==> path != [] && path[0] == key && path[1..] in paths
  {
    var longer := Prefixed(key, paths);
    if path != [] && path[0] == key && path[1..] in paths {
      var i :| 0 <= i < |paths| && paths[i] == path[1..];
      assert longer[i] == path;
    }
    if path in longer {
      var i :| 0 <= i < |longer| && longer[i] == path;
      assert path == [key] + paths[i];
      assert path[1..] == paths[i];
    }
  }

  /** A reported path really differs; a present null differs from absence. */
  lemma {:induction false} ReportedDiffers(left: Json, right: Json, path: Path)
    requires left.Object? && right.Object? && Reported(left, right, path)
    ensures At(left.fields, path) != At(right.fields, path)
    decreases |path|
  {
    var pair := Descend(left, right, path[0]);
    if pair.Some? {
      ReportedDiffers(pair.value.0, pair.value.1, path[1..]);
      assert path[1..] != [] && At(map[], path[1..]) == None;
    }
  }

  predicate LeafAt(fields: Fields, path: Path)
    requires path != []
  {
    var found := At(fields, path);
    found.Some? && found.value.Object? ==> found.value.fields == map[]
  }

  /** Both sides agree at every leaf path that is not below a reported path. */
  lemma {:induction false} UnreportedLeafAgrees(left: Json, right: Json, path: Path)
    requires left.Object? && right.Object? && path != []
    requires LeafAt(left.fields, path) && LeafAt(right.fields, path)
    requires forall n :: 1 <= n <= |path| ==> !Reported(left, right, path[..n])
    ensures At(left.fields, path) == At(right.fields, path)
    decreases |path|
  {
    assert !Reported(left, right, path[..1]);
    assert path[..|path|] == path;
    var pair := Descend(left, right, path[0]);
    if pair.Some? && |path| > 1 {
      var below := path[1..];
      assert At(map[], below) == None;
      forall n | 1 <= n <= |below|
        ensures !Reported(pair.value.0, pair.value.1, below[..n])
      {
        assert path[..n + 1][1..] == below[..n] && path[..n + 1][0] == path[0];
      }
      UnreportedLeafAgrees(pair.value.0, pair.value.1, below);
    }
  }

  /** Nothing is reported exactly when nothing changed. */
  lemma {:induction false} NothingReported(left: Json, right: Json)
    requires left.Object? && right.Object?
    requires forall path :: !Reported(left, right, path)
    ensures left == right
    decreases if OneSided(left, right) then 0 else 1, Driving(left, right)
  {
    forall key
      ensures Find(left.fields, key) == Find(right.fields, key)
    {
      if key in left.fields || key in right.fields {
        assert !Reported(left, right, [key]);
        var pair := Descend(left, right, key);
        if pair.Some? {
          forall path
            ensures !Reported(pair.value.0, pair.value.1, path)
          {
            assert ([key] + path)[1..] == path;
            assert !Reported(left, right, [key] + path);
          }
          NothingReported(pair.value.0, pair.value.1);
        }
      }
    }
    FieldsEqual(left.fields, right.fields);
  }

  lemma DiffIsExact(left: Json, right: Json)
    requires left.Object? && right.Object?
    ensures Changed(left, right) == [] <==> left == right
  {
    if Changed(left, right) == [] {
      forall path
        ensures !Reported(left, right, path)
      {
        ChangedIsReported(left, right, path);
      }
      NothingReported(left, right);
    } else {
      var path := Changed(left, right)[0];
      ChangedIsReported(left, right, path);
      ReportedDiffers(left, right, path);
    }
  }

  // ---- rendered paths ----

  function Dotted(path: Path): string { Join(path, ".") }

  /** For keys without dots the dotted text identifies the path. */
  lemma DottedIdentifies(p: Path, q: Path)
    requires p != [] && q != [] && Dotted(p) == Dotted(q)
    requires forall key :: key in p || key in q ==> '.' !in key
    ensures p == q
  {
    SplitJoin(p, '.');
    SplitJoin(q, '.');
  }

  function DottedAll(paths: seq<Path>): seq<string> {
    seq(|paths|, i requires 0 <= i < |paths| => Dotted(paths[i]))
  }

  /** changedConfigPaths. */
  function ChangedConfigPaths(before: Fields, after: Fields): seq<string> {
    SortStrings(DottedAll(Changed(Object(before), Object(after))))
  }

  /** The list is sorted, and empty exactly when nothing would change. */
  lemma ChangedConfigPathsExact(before: Fields, after: Fields)
    ensures InOrder(ChangedConfigPaths(before, after))
    ensures |ChangedConfigPaths(before, after)| == 0 <==> before == after
    ensures multiset(ChangedConfigPaths(before, after)) == multiset(DottedAll(Changed(Object(before), Object(after))))
  {
    var paths := DottedAll(Changed(Object(before), Object(after)));
    SortStringsSorts(paths);
    DiffIsExact(Object(before), Object(after));
    assert |multiset(SortStrings(paths))| == |multiset(paths)|;
  }

  // ---- the whole edit ----

  datatype Setting = Setting(path: string, value: Json)

  datatype Edit = Edit(replacement: Option<Fields>, patch: Option<Fields>, settings: seq<Setting>)

  function ApplySetting(fields: Fields, setting: Setting): Fields {
    SetPatroniConfigPath(fields, Split(TrimSpace(setting.path), '.'), setting.value, [])
  }

  function ApplySettings(fields: Fields, settings: seq<Setting>): Fields {
    if settings == [] then fields
    else ApplySetting(ApplySettings(fields, settings[..|settings| - 1]), settings[|settings| - 1])
  }

  /** The configuration PreviewEditConfig computes: replacement, then patch,
      then the settings in order. */
  function After(current: Fields, edit: Edit): Fields {
    var replaced := if edit.replacement.Some? then edit.replacement.value else current;
    var patched := if edit.patch.Some? then Patch(replaced, Object(edit.patch.value)) else replaced;
    ApplySettings(patched, edit.settings)
  }

  datatype Preview = Preview(before: Fields, after: Fields, changedPaths: seq<string>, noop: bool)

  /** PreviewEditConfig on a request that names at least one change. */
  method PreviewEditConfig(current: Fields, edit: Edit) returns (preview: Preview)
    ensures preview == PreviewOf(current, edit)
    ensures preview.noop <==> preview.after == current
    ensures InOrder(preview.changedPaths)
  {
    hide Changed, Patch, SortStrings, ApplySetting, InOrder, SortedKeys;
    var after := current;
    if edit.replacement.Some? {
      after := edit.replacement.value;
    }
    if edit.patch.Some? {
      after := ApplyPatroniConfigPatch(after, Object(edit.patch.value));
    }
    ghost var patched := after;
    var i := 0;
    while i < |edit.settings|
      invariant i <= |edit.settings|
      invariant after == ApplySettings(patched, edit.settings[..i])
    {
      assert edit.settings[..i + 1][..i] == edit.settings[..i];
      after := ApplySetting(after, edit.settings[i]);
      i := i + 1;
    }
    assert edit.settings[..i] == edit.settings;
    var paths := CollectChangedConfigPaths(Object(current), Object(after), [], []);
    BelowNothing(Changed(Object(current), Object(after)));
    var changed := SortStrings(DottedAll(paths));
    ChangedConfigPathsExact(current, after);
    return Preview(current, after, changed, |changed| == 0);
  }

  lemma BelowNothing(paths: seq<Path>)
    ensures [] + Below([], paths) == paths
  {
    forall i | 0 <= i < |paths|
      ensures Below([], paths)[i] == paths[i]
    {
      assert [] + paths[i] == paths[i];
    }
  }

  function PreviewOf(current: Fields, edit: Edit): Preview {
    var after := After(current, edit);
    var changed := ChangedConfigPaths(current, after);
    Preview(current, after, changed, |changed| == 0)
  }
}
