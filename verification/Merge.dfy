/** Layered configuration (config/merge.go): a deep merge in place that records,
    for every value, which layer it came from.  Paths are key sequences. */
module Merge {
  import opened Text
  import opened Json
  import opened ConfigTree

  type Source = string

  type Sources = map<Path, Source>

  datatype Layer = Layer(values: Fields, source: Source)

  function SourceOf(sources: Sources, path: Path): Option<Source> {
    if path in sources then Some(sources[path]) else None
  }

  // ---- the merged values ----

  predicate Descends(destination: Fields, overlay: Json, key: string)
    requires overlay.Object? && key in overlay.fields
  {
    overlay.fields[key].Object? && key in destination && destination[key].Object?
  }

  function MergedKey(destination: Fields, overlay: Json, key: string): Option<Json>
    requires overlay.Object?
    decreases overlay, 0
  {
    if key !in overlay.fields then Find(destination, key)
    else if Descends(destination, overlay, key) then Some(Object(Merged(destination[key].fields, overlay.fields[key])))
    else Some(overlay.fields[key])
  }

  /** Objects merge, everything else is replaced, null included. */
  function Merged(destination: Fields, overlay: Json): Fields
    requires overlay.Object?
    decreases overlay, 1
  {
    map key | key in destination.Keys + overlay.fields.Keys && MergedKey(destination, overlay, key).Some? ::
          MergedKey(destination, overlay, key).value
  }

  lemma MergedAt(destination: Fields, overlay: Json, key: string)
    requires overlay.Object?
    ensures Find(Merged(destination, overlay), key) == MergedKey(destination, overlay, key)
  {
  }

  // ---- the attribution of one path ----

  /** The paths assignSources attributes below a value: its leaves. */
  predicate Assigned(value: Json, path: Path)
    decreases |path|
  {
    if value.Object? && value.fields != map[] then path != [] && path[0] in value.fields
       && Assigned(value.fields[path[0]], path[1..])
    else path == []
  }

  /** What merging an overlay makes of the attribution `earlier` of a path. */
  function SourceAfter(destination: Fields, overlay: Json, path: Path, earlier: Option<Source>,
                       source: Source): Option<Source>
    requires overlay.Object?
    decreases |path|
  {
    if path == [] || path[0] !in overlay.fields then earlier
    else
      var value := overlay.fields[path[0]];
      if Descends(destination, overlay, path[0]) then
        if value.fields == map[] then (if |path| == 1 then Some(source) else None)
        else if |path| == 1 then earlier
        else SourceAfter(destination[path[0]].fields, value, path[1..], earlier, source)
      else if Assigned(value, path[1..]) then Some(source) else None
  }

  // ---- the code ----

  /** clearSourcePrefix. */
  function ClearPrefix(sources: Sources, path: Path): Sources {
    map p | p in sources && !(path <= p) :: sources[p]
  }

  predicate AssignedBelow(value: Json, path: Path, p: Path) { path <= p && Assigned(value, p[|path|..]) }

  /** assignSources. */
  method AssignSources(value: Json, path: Path, sources: Sources, source: Source) returns (result: Sources)
    ensures forall p :: SourceOf(result, p) == if AssignedBelow(value, path, p) then Some(source)
            else SourceOf(sources, p)
    decreases value
  {
    result := sources;
    if value.Object? && value.fields != map[] {
      var remaining := value.fields.Keys;
      while remaining != {}
        invariant remaining <= value.fields.Keys
        invariant forall p :: SourceOf(result, p) ==
                    if AssignedBelow(value, path, p) && p[|path|] !in remaining then Some(source)
                    else SourceOf(sources, p)
        decreases |remaining|
      {
        var key :| key in remaining;
        var before := result;
        result := AssignSources(value.fields[key], path + [key], before, source);
        forall p
          ensures AssignedBelow(value.fields[key], path + [key], p) <==>
                    AssignedBelow(value, path, p) && p[|path|] == key
        {
          BelowKey(value, path, key, p);
        }
        remaining := remaining - {key};
      }
    } else {
      result := result[path := source];
      assert forall p :: AssignedBelow(value, path, p) <==> p == path;
    }
  }

  lemma BelowKey(value: Json, path: Path, key: string, p: Path)
    requires value.Object? && key in value.fields
    ensures AssignedBelow(value.fields[key], path + [key], p) <==> AssignedBelow(value, path, p) && p[|path|] == key
  {
    if path <= p && |p| > |path| && p[|path|] == key {
      assert p[|path|..][1..] == p[|path + [key]|..];
      assert path + [key] <= p;
    }
    if path + [key] <= p {
      assert p[|path|] == (path + [key])[|path|];
      assert p[|path|..][1..] == p[|path + [key]|..];
      assert path == (path + [key])[..|path|];
    }
  }

  /** What applyMap makes of the attribution of an absolute path. */
  function SourceBelow(destination: Fields, overlay: Json, prefix: Path, sources: Sources, source: Source,
                       p: Path): Option<Source>
    requires overlay.Object?
  {
    if prefix <= p then SourceAfter(destination, overlay, p[|prefix|..], SourceOf(sources, p), source)
    else SourceOf(sources, p)
  }

  /** applyMap: over the overlay in any order, one key at a time. */
  method ApplyMap(destination: Fields, overlay: Json, prefix: Path, sources: Sources, source: Source)
    returns (merged: Fields, result: Sources)
    requires overlay.Object?
    ensures merged == Merged(destination, overlay)
    ensures forall p :: SourceOf(result, p) == SourceBelow(destination, overlay, prefix, sources, source, p)
    decreases overlay
  {
    hide SourceAfter, Merged, SourceOf;
    merged, result := destination, sources;
    var remaining := overlay.fields.Keys;
    while remaining != {}
      invariant remaining <= overlay.fields.Keys
      invariant forall key :: Find(merged, key) == if key in remaining then Find(destination, key)
                else MergedKey(destination, overlay, key)
      invariant forall p :: SourceOf(result, p) ==
                  if prefix < p && p[|prefix|] in overlay.fields && p[|prefix|] !in remaining then
                       SourceBelow(destination, overlay, prefix, sources, source, p)
                  else SourceOf(sources, p)
      decreases |remaining|
    {
      var key :| key in remaining;
      var path := prefix + [key];
      assert Find(merged, key) == Find(destination, key);
      ghost var before := result;
      var value;
      value, result := ApplyKey(destination, overlay, key, prefix, result, source);
      merged := merged[key := value];
      remaining := remaining - {key};
      forall p
        ensures SourceOf(result, p) ==
                  if prefix < p && p[|prefix|] in overlay.fields && p[|prefix|] !in remaining then
                       SourceBelow(destination, overlay, prefix, sources, source, p)
                  else SourceOf(sources, p)
      {
        UnderKey(prefix, key, p);
        if path <= p {
          assert SourceOf(before, p) == SourceOf(sources, p);
        }
      }
    }
    forall key
      ensures Find(merged, key) == Find(Merged(destination, overlay), key)
    {
      MergedAt(destination, overlay, key);
    }
    FieldsEqual(merged, Merged(destination, overlay));
    forall p
      ensures SourceOf(result, p) == SourceBelow(destination, overlay, prefix, sources, source, p)
    {
      NothingToMerge(destination, overlay, prefix, p, SourceOf(sources, p), source);
    }
  }

  lemma UnderKey(prefix: Path, key: string, p: Path)
    ensures prefix + [key] <= p <==> prefix < p && p[|prefix|] == key
  {
    if prefix < p && p[|prefix|] == key {
      assert p[..|prefix| + 1] == prefix + [key];
    }
    if prefix + [key] <= p {
      assert p[|prefix|] == (prefix + [key])[|prefix|];
      assert prefix == (prefix + [key])[..|prefix|];
    }
  }

  lemma NothingToMerge(destination: Fields, overlay: Json, prefix: Path, p: Path, earlier: Option<Source>,
                       source: Source)
    requires overlay.Object?
    ensures prefix <= p && !(prefix < p && p[|prefix|] in overlay.fields) ==>
              SourceAfter(destination, overlay, p[|prefix|..], earlier, source) == earlier
  {
  }

  /** One turn of that loop. */
  method ApplyKey(destination: Fields, overlay: Json, key: string, prefix: Path, sources: Sources, source: Source)
    returns (value: Json, result: Sources)
    requires overlay.Object? && key in overlay.fields
    ensures Some(value) == MergedKey(destination, overlay, key)
    ensures forall p :: SourceOf(result, p) ==
              if prefix + [key] <= p then SourceAfter(destination, overlay, p[|prefix|..], SourceOf(sources, p),
                                                      source) else SourceOf(sources, p)
    decreases overlay, 0
  {
    hide Merged, Assigned;
    var path := prefix + [key];
    result := sources;
    if Descends(destination, overlay, key) {
      if overlay.fields[key].fields == map[] {
        result := ClearPrefix(result, path)[path := source];
      }
      var inner;
      ghost var cleared := result;
      inner, result := ApplyMap(destination[key].fields, overlay.fields[key], path, result, source);
      value := Object(inner);
      forall p
        ensures SourceOf(result, p) ==
                  if path <= p then SourceAfter(destination, overlay, p[|prefix|..], SourceOf(sources, p), source)
                  else SourceOf(sources, p)
      {
        if path <= p {
          TailOfTail(prefix, key, p);
          if overlay.fields[key].fields == map[] && |p| == |path| {
            assert p == path;
          }
        }
      }
    } else {
      value := overlay.fields[key];
      var cleared := ClearPrefix(result, path);
      result := AssignSources(value, path, cleared, source);
      forall p
        ensures SourceOf(result, p) ==
                  if path <= p then SourceAfter(destination, overlay, p[|prefix|..], SourceOf(sources, p), source)
                  else SourceOf(sources, p)
      {
        if path <= p {
          TailOfTail(prefix, key, p);
        }
      }
    }
  }

  lemma TailOfTail(prefix: Path, key: string, p: Path)
    requires prefix + [key] <= p
    ensures |p| > |prefix| && p[|prefix|..][0] == key && p[|prefix|..][1..] == p[|prefix + [key]|..]
  {
    assert p[|prefix|] == (prefix + [key])[|prefix|];
  }

  /** The effective configuration and its attribution, updated in place. */
  class Effective {
    var values: Fields
    var sources: Sources

    constructor ()
      ensures values == map[] && sources == map[]
    {
      values, sources := map[], map[];
    }

    /** applyLayer. */
    method ApplyLayer(layer: Layer)
      modifies this
      ensures values == Merged(old(values), Object(layer.values))
      ensures forall p :: SourceOf(sources, p)
                          == SourceAfter(old(values), Object(layer.values), p, SourceOf(old(sources), p), layer.source)
    {
      values, sources := ApplyMap(values, Object(layer.values), [], sources, layer.source);
      assert forall p: Path :: p[0..] == p;
    }

    /** A sequence of layers applied in order. */
    method ApplyLayers(layers: seq<Layer>)
      modifies this
      requires values == map[] && sources == map[]
      ensures values == ValuesAfter(layers)
      ensures forall p :: SourceOf(sources, p) == SourcesAfter(layers, p)
    {
      hide Merged, SourceAfter;
      var i := 0;
      while i < |layers|
        invariant i <= |layers|
        invariant values == ValuesAfter(layers[..i])
        invariant forall p :: SourceOf(sources, p) == SourcesAfter(layers[..i], p)
      {
        assert layers[..i + 1][..i] == layers[..i];
        ApplyLayer(layers[i]);
        i := i + 1;
      }
      assert layers[..i] == layers;
    }
  }

  // ---- runs ----

  function ValuesAfter(layers: seq<Layer>): Fields {
    if layers == [] then map[]
    else Merged(ValuesAfter(layers[..|layers| - 1]), Object(layers[|layers| - 1].values))
  }

  function SourcesAfter(layers: seq<Layer>, path: Path): Option<Source> {
    if layers == [] then None
    else
      var front, last := layers[..|layers| - 1], layers[|layers| - 1];
      SourceAfter(ValuesAfter(front), Object(last.values), path, SourcesAfter(front, path), last.source)
  }

  /** A leaf: anything but a non-empty object. */
  predicate LeafOf(fields: Fields, path: Path) {
    path != [] && At(fields, path).Some? && LeafAt(fields, path)
  }

  predicate LeafValue(value: Json) { value.Object? ==> value.fields == map[] }

  /** The last layer that has a value at the path. */
  function LastWriter(layers: seq<Layer>, path: Path): Option<nat>
    requires path != []
  {
    if layers == [] then None
    else if At(layers[|layers| - 1].values, path).Some? then Some(|layers| - 1)
    else LastWriter(layers[..|layers| - 1], path)
  }

  /** One merge, seen at one path: what the overlay has there wins with its own
      attribution; what it does not have keeps its value, and keeps or loses its
      attribution. */
  lemma {:induction false} MergeStep(destination: Fields, overlay: Json, path: Path, earlier: Option<Source>,
                                     source: Source)
    requires overlay.Object? && path != []
    ensures LeafOf(Merged(destination, overlay), path) && At(overlay.fields, path).Some? ==>
              && At(Merged(destination, overlay), path) == At(overlay.fields, path)
              && SourceAfter(destination, overlay, path, earlier, source) == Some(source)
    ensures LeafOf(Merged(destination, overlay), path) && At(overlay.fields, path).None? ==>
              && At(Merged(destination, overlay), path) == At(destination, path)
              && SourceAfter(destination, overlay, path, earlier, source) in [earlier, None]
    decreases |path|
  {
    var key := path[0];
    MergedAt(destination, overlay, key);
    if key in overlay.fields {
      var value := overlay.fields[key];
      if Descends(destination, overlay, key) {
        if |path| > 1 {
          MergeStep(destination[key].fields, value, path[1..], earlier, source);
        } else {
          MergeKeeps(destination[key].fields, value);
        }
      } else {
        LeafIsAssigned(value, path[1..]);
      }
    }
  }

  lemma MergeKeeps(destination: Fields, overlay: Json)
    requires overlay.Object?
    ensures Merged(destination, overlay) == map[] ==> destination == map[] && overlay.fields == map[]
  {
    if key :| key in destination {
      MergedAt(destination, overlay, key);
      assert key in Merged(destination, overlay);
    }
    if key :| key in overlay.fields {
      MergedAt(destination, overlay, key);
      assert key in Merged(destination, overlay);
    }
  }

  /** The assigned paths of a value are its leaves. */
  lemma {:induction false} LeafIsAssigned(value: Json, path: Path)
    ensures path == [] ==> (Assigned(value, path) <==> LeafValue(value))
    ensures path != [] ==> (Assigned(value, path) <==> value.Object? && LeafOf(value.fields, path))
    decreases |path|
  {
    if path != [] && value.Object? && path[0] in value.fields {
      LeafIsAssigned(value.fields[path[0]], path[1..]);
      assert |path| == 1 ==> path[1..] == [];
    }
  }

  /** The value of a leaf is what the last layer with a value there gave it, and
      the leaf's own attribution, if it has one, names that layer. */
  lemma {:induction false} LeafNamesLastWriter(layers: seq<Layer>, path: Path)
    requires LeafOf(ValuesAfter(layers), path)
    ensures LastWriter(layers, path).Some? && LastWriter(layers, path).value < |layers|
    ensures At(layers[LastWriter(layers, path).value].values, path) == At(ValuesAfter(layers), path)
    ensures SourcesAfter(layers, path) in [Some(layers[LastWriter(layers, path).value].source), None]
  {
    hide Merged, SourceAfter;
    if layers != [] {
      var front, last := layers[..|layers| - 1], layers[|layers| - 1];
      MergeStep(ValuesAfter(front), Object(last.values), path, SourcesAfter(front, path), last.source);
      if At(last.values, path).None? {
        LeafNamesLastWriter(front, path);
      }
    }
  }

  /** An entry at the path or at an ancestor. */
  ghost predicate Covered(sources: Path -> Option<Source>, path: Path) {
    exists n :: 1 <= n <= |path| && sources(path[..n]).Some?
  }

  lemma CoveredAt(sources: Path -> Option<Source>, path: Path, n: nat)
    requires 1 <= n <= |path| && sources(path[..n]).Some?
    ensures Covered(sources, path)
  {
  }

  lemma ReplacedLeafIsAssigned(destination: Fields, overlay: Json, path: Path)
    requires overlay.Object? && LeafOf(Merged(destination, overlay), path)
    requires path[0] in overlay.fields && !Descends(destination, overlay, path[0])
    ensures Assigned(overlay.fields[path[0]], path[1..])
  {
    hide Merged;
    MergedAt(destination, overlay, path[0]);
    LeafIsAssigned(overlay.fields[path[0]], path[1..]);
    assert |path| == 1 ==> path[1..] == [];
  }

  /** One merge keeps every leaf covered. */
  lemma {:induction false} MergeKeepsCover(destination: Fields, overlay: Json, sources: Path -> Option<Source>,
                                        source: Source, path: Path)
    requires overlay.Object? && LeafOf(Merged(destination, overlay), path)
    requires LeafOf(destination, path) ==> Covered(sources, path)
    ensures Covered((p: Path) => SourceAfter(destination, overlay, p, sources(p), source), path)
    decreases |path|
  {
    var after := (p: Path) => SourceAfter(destination, overlay, p, sources(p), source);
    var key := path[0];
    MergedAt(destination, overlay, key);
    assert path[..1] == [key] && path[..|path|] == path;
    if key !in overlay.fields {
      var n :| 1 <= n <= |path| && sources(path[..n]).Some?;
      assert path[..n][0] == key;
      CoveredAt(after, path, n);
    } else {
      var value := overlay.fields[key];
      if Descends(destination, overlay, key) {
        if value.fields == map[] || sources([key]).Some? {
          assert SourceAfter(destination, overlay, [key], sources([key]), source).Some?;
          assert path[..1] == [key];
          CoveredAt(after, path, 1);
        } else {
          MergeKeeps(destination[key].fields, value);
          assert |path| > 1;
          var inner := (p: Path) => sources([key] + p);
          if LeafOf(destination[key].fields, path[1..]) {
            assert LeafOf(destination, path);
            var n :| 1 <= n <= |path| && sources(path[..n]).Some?;
            assert n > 1 && [key] + path[1..][..n - 1] == path[..n];
            CoveredAt(inner, path[1..], n - 1);
          }
          MergeKeepsCover(destination[key].fields, value, inner, source, path[1..]);
          var n :| 1 <= n <= |path[1..]|
              && SourceAfter(destination[key].fields, value, path[1..][..n], inner(path[1..][..n]), source).Some?;
          var front := path[..n + 1];
          assert front == [key] + path[1..][..n] && front[1..] == path[1..][..n] && front[0] == key;
          assert SourceAfter(destination, overlay, front, sources(front), source)
                 == SourceAfter(destination[key].fields, value, front[1..], inner(front[1..]), source);
          CoveredAt(after, path, n + 1);
        }
      } else {
        ReplacedLeafIsAssigned(destination, overlay, path);
        assert SourceAfter(destination, overlay, path, sources(path), source) == Some(source);
        assert path[..|path|] == path;
        CoveredAt(after, path, |path|);
      }
    }
  }

  /** After any layers, every leaf is covered by an attribution at itself or at
      an ancestor. */
  lemma {:induction false} EveryLeafIsCovered(layers: seq<Layer>, path: Path)
    requires LeafOf(ValuesAfter(layers), path)
    ensures Covered((p: Path) => SourcesAfter(layers, p), path)
  {
    hide Merged, SourceAfter;
    if layers != [] {
      var front, last := layers[..|layers| - 1], layers[|layers| - 1];
      var before := (p: Path) => SourcesAfter(front, p);
      if LeafOf(ValuesAfter(front), path) {
        EveryLeafIsCovered(front, path);
      }
      MergeKeepsCover(ValuesAfter(front), Object(last.values), before, last.source, path);
      var n :| 1 <= n <= |path| && SourceAfter(ValuesAfter(front), Object(last.values), path[..n], before(path[..n]),
                                               last.source).Some?;
      CoveredAt((p: Path) => SourcesAfter(layers, p), path, n);
    }
  }

  // ---- when the attributed paths are exactly the leaf paths ----

  ghost predicate Exact(fields: Fields, sources: Path -> Option<Source>) {
    forall path: Path :: path != [] ==> (sources(path).Some? <==> LeafOf(fields, path))
  }

  /** At the path an empty object of one side meets a non-empty object of the
      other. */
  predicate ClashAt(destination: Fields, overlay: Fields, path: Path)
    requires path != []
  {
    match (At(destination, path), At(overlay, path))
    case (Some(Object(old_)), Some(Object(new_))) => (old_ == map[]) != (new_ == map[])
    case _ => false
  }

  ghost predicate Clash(destination: Fields, overlay: Fields) {
    exists path: Path :: path != [] && ClashAt(destination, overlay, path)
  }

  /** A merge that meets no clash on the way to a path keeps its attribution
      exact. */
  lemma {:induction false} MergeKeepsExact(destination: Fields, overlay: Json, path: Path, earlier: Option<Source>,
                                        source: Source)
    requires overlay.Object? && path != []
    requires forall n :: 1 <= n <= |path| ==> !ClashAt(destination, overlay.fields, path[..n])
    requires earlier.Some? <==> LeafOf(destination, path)
    ensures SourceAfter(destination, overlay, path, earlier, source).Some? <==>
              LeafOf(Merged(destination, overlay), path)
    decreases |path|
  {
    hide Merged;
    var key := path[0];
    MergedAt(destination, overlay, key);
    if key in overlay.fields {
      var value := overlay.fields[key];
      if Descends(destination, overlay, key) {
        var inner := destination[key].fields;
        assert path[..1] == [key] && !ClashAt(destination, overlay.fields, path[..1]);
        MergeKeeps(inner, value);
        if value.fields == map[] {
          assert inner == map[];
          MergeOfEmpty(value);
          assert Find(Merged(destination, overlay), key) == Some(Object(map[]));
          assert |path| > 1 ==> At(map[], path[1..]).None?;
        } else if |path| > 1 {
          forall n | 1 <= n <= |path[1..]|
            ensures !ClashAt(inner, value.fields, path[1..][..n])
          {
            assert path[..n + 1][0] == key && path[..n + 1][1..] == path[1..][..n];
            assert !ClashAt(destination, overlay.fields, path[..n + 1]);
          }
          MergeKeepsExact(inner, value, path[1..], earlier, source);
        }
      } else {
        LeafIsAssigned(value, path[1..]);
      }
    }
  }

  lemma MergeOfEmpty(overlay: Json)
    requires overlay.Object? && overlay.fields == map[]
    ensures Merged(map[], overlay) == map[]
  {
  }

  /** At a clash the object stays or becomes attributed although it is no leaf. */
  lemma {:induction false} ClashBreaksExact(destination: Fields, overlay: Json, path: Path, earlier: Option<Source>,
                                         source: Source)
    requires overlay.Object? && path != [] && ClashAt(destination, overlay.fields, path)
    requires earlier.Some? <==> LeafOf(destination, path)
    ensures SourceAfter(destination, overlay, path, earlier, source).Some?
    ensures !LeafOf(Merged(destination, overlay), path)
    decreases |path|
  {
    hide Merged;
    var key := path[0];
    MergedAt(destination, overlay, key);
    assert Descends(destination, overlay, key);
    var inner, value := destination[key].fields, overlay.fields[key];
    MergeKeeps(inner, value);
    if |path| > 1 {
      assert At(value.fields, path[1..]).Some? && path[1..][0] in value.fields;
      ClashBreaksExact(inner, value, path[1..], earlier, source);
    }
  }

  /** One merge keeps the attributed paths exactly the leaf paths if and only if
      no empty object of one side meets a non-empty object of the other. */
  lemma MergeExactIff(destination: Fields, overlay: Json, sources: Path -> Option<Source>, source: Source)
    requires overlay.Object? && Exact(destination, sources)
    ensures Exact(Merged(destination, overlay), (p: Path) => SourceAfter(destination, overlay, p, sources(p), source))
            <==> !Clash(destination, overlay.fields)
  {
    hide Merged, SourceAfter, ClashAt, LeafOf;
    var after := (p: Path) => SourceAfter(destination, overlay, p, sources(p), source);
    if path: Path :| path != [] && ClashAt(destination, overlay.fields, path) {
      ClashBreaksExact(destination, overlay, path, sources(path), source);
      assert after(path).Some?;
    } else {
      forall path: Path | path != []
        ensures after(path).Some? <==> LeafOf(Merged(destination, overlay), path)
      {
        MergeKeepsExact(destination, overlay, path, sources(path), source);
      }
    }
  }

  /** No merge of the run meets a clash. */
  ghost predicate ClashFree(layers: seq<Layer>) {
    forall i :: 0 <= i < |layers| ==> !Clash(ValuesAfter(layers[..i]), layers[i].values)
  }

  /** After layers that never clash, the attributed paths are exactly the leaf
      paths. */
  lemma {:induction false} AttributedPathsAreLeaves(layers: seq<Layer>)
    requires ClashFree(layers)
    ensures Exact(ValuesAfter(layers), (p: Path) => SourcesAfter(layers, p))
  {
    hide Merged, SourceAfter, Clash, LeafOf;
    if layers == [] {
      NothingIsLeaf();
    } else {
      var front, last := layers[..|layers| - 1], layers[|layers| - 1];
      forall i | 0 <= i < |front|
        ensures !Clash(ValuesAfter(front[..i]), front[i].values)
      {
        assert front[..i] == layers[..i];
      }
      AttributedPathsAreLeaves(front);
      var sources := (p: Path) => SourcesAfter(front, p);
      MergeExactIff(ValuesAfter(front), Object(last.values), sources, last.source);
      var after := (p: Path) => SourceAfter(ValuesAfter(front), Object(last.values), p, sources(p), last.source);
      assert Exact(ValuesAfter(layers), after);
      assert forall p: Path :: SourcesAfter(layers, p) == after(p);
    }
  }

  lemma NothingIsLeaf()
    ensures forall path: Path :: path != [] ==> !LeafOf(map[], path)
  {
  }

  const FULL: Fields := map["a" := Object(map["b" := Null])]
  const EMPTY: Fields := map["a" := Object(map[])]

  /** Both kinds of clash occur.  An empty object over a non-empty one moves the
      attribution of its leaves to the object itself. */
  lemma EmptiedObject(source: Source, other: Source)
    ensures var layers := [Layer(FULL, source), Layer(EMPTY, other)];
            && LeafOf(ValuesAfter(layers), ["a", "b"]) && SourcesAfter(layers, ["a", "b"]) == None
            && !LeafOf(ValuesAfter(layers), ["a"]) && SourcesAfter(layers, ["a"]) == Some(other)
  {
    hide Merged;
    TwoLayers(Layer(FULL, source), Layer(EMPTY, other));
    FirstLayer(FULL);
    MergedAt(FULL, Object(EMPTY), "a");
    MergedAt(map["b" := Null], Object(map[]), "b");
    MergeKeeps(map["b" := Null], Object(map[]));
    assert ["a", "b"][1..] == ["b"];
  }

  /** A non-empty object over an empty one leaves the object attributed besides
      its new leaves. */
  lemma FilledObject(source: Source, other: Source)
    ensures var layers := [Layer(EMPTY, source), Layer(FULL, other)];
            && LeafOf(ValuesAfter(layers), ["a", "b"]) && SourcesAfter(layers, ["a", "b"]) == Some(other)
            && !LeafOf(ValuesAfter(layers), ["a"]) && SourcesAfter(layers, ["a"]) == Some(source)
  {
    hide Merged;
    TwoLayers(Layer(EMPTY, source), Layer(FULL, other));
    FirstLayer(EMPTY);
    MergedAt(EMPTY, Object(FULL), "a");
    MergedAt(map[], Object(map["b" := Null]), "b");
    MergeKeeps(map[], Object(map["b" := Null]));
    assert ["a", "b"][1..] == ["b"];
  }

  lemma TwoLayers(first: Layer, second: Layer)
    ensures var one := Merged(map[], Object(first.values));
            && ValuesAfter([first, second]) == Merged(one, Object(second.values))
            && forall p :: SourcesAfter([first, second], p)
                           == SourceAfter(one, Object(second.values), p,
                                          SourceAfter(map[], Object(first.values), p, None, first.source),
                                          second.source)
  {
    hide Merged, SourceAfter;
    assert [first, second][..1] == [first] && [first][..0] == [];
    assert ValuesAfter([first]) == Merged(ValuesAfter([]), Object(first.values));
    assert forall p :: SourcesAfter([first], p)
                       == SourceAfter(ValuesAfter([]), Object(first.values), p, SourcesAfter([], p), first.source);
  }

  lemma FirstLayer(values: Fields)
    ensures Merged(map[], Object(values)) == values
  {
    forall key
      ensures Find(Merged(map[], Object(values)), key) == Find(values, key)
    {
      MergedAt(map[], Object(values), key);
    }
    FieldsEqual(Merged(map[], Object(values)), values);
  }
}
