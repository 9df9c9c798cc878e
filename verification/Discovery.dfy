/** Discovery of clusters from one read of a namespace (dcs/decode.go,
    DiscoverFromEntries), and its agreement with a direct snapshot of each. */
module Discovery {
  import opened Text
  import opened Decimal
  import opened Etcd
  import opened Txn
  import opened Cluster
  import Target

  /** Where a key belongs: its cluster, its path below the cluster's root and
      what that path is. */
  datatype Assignment = Assignment(target: Target.Target, relative: string, kind: KeyKind)

  /** The second segment is a Citus group: a non-negative integer before a path
      that is recognised. */
  predicate Grouped(parts: seq<string>) {
    && |parts| >= 3
    && Atoi(parts[1]).Some? && Atoi(parts[1]).value >= 0
    && ClassifyRelativePath(Join(parts[2..], "/")) != UnknownKey
  }

  /** One turn of the first loop of DiscoverFromEntries; context and namespace
      are normalized. */
  function Assign(context: string, namespace: string, key: string): Option<Assignment> {
    var prefix := NamespacePrefix(namespace);
    if !(prefix <= key) then None
    else AssignRelative(context, namespace, key[|prefix|..])
  }

  function AssignRelative(context: string, namespace: string, relative: string): Option<Assignment> {
    var parts := Split(relative, '/');
    if |parts| < 2 || TrimSpace(parts[0]) == "" then None
    else
      var cluster := Target.Normalize(Target.Target(context, namespace, parts[0], None, ""));
      var target := if Grouped(parts) then cluster.(group := Some(Atoi(parts[1]).value)) else cluster;
      var path := Join(parts[if Grouped(parts) then 2 else 1..], "/");
      if ClassifyRelativePath(path) == UnknownKey then None
      else Some(Assignment(target, path, ClassifyRelativePath(path)))
  }

  /** The keys of a cluster. */
  predicate Owns(context: string, namespace: string, key: string, t: Target.Target) {
    Assign(context, namespace, key).Some? && Assign(context, namespace, key).value.target == t
  }

  function Owned(context: string, namespace: string, keys: set<string>, t: Target.Target): set<string> {
    set key | key in keys && Owns(context, namespace, key, t)
  }

  function EntryFor(store: Store, context: string, namespace: string, key: string): Entry
    requires key in store && Assign(context, namespace, key).Some?
  {
    var a := Assign(context, namespace, key).value;
    Entry(key, a.relative, a.kind, store[key].modRevision, store[key].value)
  }

  function EntriesFor(store: Store, context: string, namespace: string, t: Target.Target): seq<Entry> {
    hide Assign;
    var keys := SortedKeys(Owned(context, namespace, store.Keys, t));
    seq(|keys|, i requires 0 <= i < |keys| => assert keys[i] in keys; EntryFor(store, context, namespace, keys[i]))
  }

  datatype Discovered = Discovered(target: Target.Target, evidence: seq<string>, snapshot: Snapshot)

  function DiscoveredAs(store: Store, revision: nat, context: string, namespace: string, t: Target.Target): Discovered {
    var entries := EntriesFor(store, context, namespace, t);
    var decoded := DecodeCluster(entries);
    Discovered(t, SortedKeys(Owned(context, namespace, store.Keys, t)),
               Snapshot(revision, entries, decoded.0, decoded.1))
  }

  // ---- the discovery loops ----

  function GroupRank(t: Target.Target): int { if t.group.Some? then t.group.value else -1 }

  predicate Before(a: Target.Target, b: Target.Target) {
    Less(a.scope, b.scope) || (a.scope == b.scope && GroupRank(a) < GroupRank(b))
  }

  ghost predicate InOrder(output: seq<Discovered>) {
    forall i, j :: 0 <= i < j < |output| ==> Before(output[i].target, output[j].target)
  }

  /** The result of a discovery: sorted, each cluster once, exactly those that
      own a recognised key and have a root. */
  ghost predicate IsDiscovery(output: seq<Discovered>, store: Store, revision: nat, context: string,
                              namespace: string)
  {
    && InOrder(output)
    && (forall d :: d in output ==>
        Owned(context, namespace, store.Keys, d.target) != {} && ClusterPrefix(d.target).Some?
                                    && d == DiscoveredAs(store, revision, context, namespace, d.target))
    && (forall key :: key in store && Assign(context, namespace, key).Some?
                      && ClusterPrefix(Assign(context, namespace, key).value.target).Some? ==>
          Shows(output, Assign(context, namespace, key).value.target))
  }

  ghost predicate Shows(output: seq<Discovered>, t: Target.Target) {
    exists d :: d in output && d.target == t
  }

  /** DiscoverFromEntries: keys are gathered per cluster in a map, then every
      cluster is decoded and the list is sorted. */
  method DiscoverFromEntries(store: Store, keys: seq<string>, revision: nat, context: string, namespace: string)
    returns (output: seq<Discovered>)
    requires forall key :: key in store <==> key in keys
    ensures IsDiscovery(output, store, revision, context, namespace)
  {
    hide Assign, ClusterPrefix, DecodeCluster, InOrder, Gathered, DiscoveredAs, Owned;
    var found := Gather(store, keys, context, namespace);
    output := Assemble(found, store, keys, revision, context, namespace);
    forall d | d in output
      ensures Owned(context, namespace, store.Keys, d.target) != {}
    {
      GatheredAll(found[d.target], store, keys, context, namespace, d.target);
    }
  }

  /** The first loop: entries per cluster. */
  method Gather(store: Store, keys: seq<string>, context: string, namespace: string)
    returns (found: map<Target.Target, map<string, Entry>>)
    requires forall key :: key in store <==> key in keys
    ensures forall t :: t in found ==> found[t] != map[] && Gathered(found[t], store, keys, context, namespace, t)
    ensures forall key :: key in keys && Assign(context, namespace, key).Some? ==>
              Assign(context, namespace, key).value.target in found
  {
    hide Assign, Gathered, EntryFor;
    found := map[];
    var i := 0;
    while i < |keys|
      invariant i <= |keys|
      invariant forall t :: t in found ==>
                  found[t] != map[] && Gathered(found[t], store, keys[..i], context, namespace, t)
      invariant forall key :: key in keys[..i] && Assign(context, namespace, key).Some? ==>
                Assign(context, namespace, key).value.target in found
    {
      var key := keys[i];
      assert key in keys;
      assert keys[..i + 1] == keys[..i] + [key];
      var a := Assign(context, namespace, key);
      forall t | t in found && !Owns(context, namespace, key, t)
        ensures Gathered(found[t], store, keys[..i + 1], context, namespace, t)
      {
        GatherOthers(found[t], store, keys, i, context, namespace, t);
      }
      if a.Some? {
        var t := a.value.target;
        var entries := if t in found then found[t] else map[];
        GatherOwned(entries, store, keys, i, context, namespace, t, t in found);
        var longer := entries[key := EntryFor(store, context, namespace, key)];
        assert key in longer;
        found := found[t := longer];
      }
      i := i + 1;
    }
    assert keys[..i] == keys;
  }

  /** The second loop: every cluster is decoded, then the list is sorted. */
  method Assemble(found: map<Target.Target, map<string, Entry>>, store: Store, keys: seq<string>, revision: nat,
                  context: string, namespace: string)
    returns (output: seq<Discovered>)
    requires forall key :: key in store <==> key in keys
    requires forall t :: t in found ==> found[t] != map[] && Gathered(found[t], store, keys, context, namespace, t)
    ensures InOrder(output)
    ensures forall d :: d in output ==>
              d.target in found && ClusterPrefix(d.target).Some?
              && d == DiscoveredAs(store, revision, context, namespace, d.target)
    ensures forall t :: t in found && ClusterPrefix(t).Some? ==> Shows(output, t)
  {
    hide Assign, ClusterPrefix, Before, InOrder, Gathered, Build, DiscoveredAs, Owned, EntryFor;
    output := [];
    NothingInOrder();
    var remaining := found.Keys;
    while remaining != {}
      invariant remaining <= found.Keys
      invariant InOrder(output)
      invariant forall d :: d in output ==> d.target in found && d.target !in remaining && ClusterPrefix(d.target).Some?
                                            && d == DiscoveredAs(store, revision, context, namespace, d.target)
      invariant forall t :: t in found && t !in remaining && ClusterPrefix(t).Some? ==> Shows(output, t)
      decreases |remaining|
    {
      var t :| t in remaining;
      remaining := remaining - {t};
      if ClusterPrefix(t).Some? {
        GatheredAll(found[t], store, keys, context, namespace, t);
        BuildIsDiscovered(t, found[t], store, revision, context, namespace);
        var built := Build(t, found[t], revision);
        DiscoveredTarget(store, revision, context, namespace, t);
        forall d | d in output
          ensures Before(d.target, t) || Before(t, d.target)
        {
          DistinctTargetsOrdered(store, keys, context, namespace, d.target, t, found[d.target], found[t]);
        }
        InsertKeepsOrder(output, built);
        ShowsMore(output, built);
        output := Insert(output, built);
      }
    }
  }

  lemma NothingInOrder()
    ensures InOrder([])
  {
  }

  lemma DiscoveredTarget(store: Store, revision: nat, context: string, namespace: string, t: Target.Target)
    ensures DiscoveredAs(store, revision, context, namespace, t).target == t
  {
    hide DecodeCluster, EntriesFor, Owned;
  }

  lemma ShowsMore(output: seq<Discovered>, d: Discovered)
    ensures forall t :: Shows(Insert(output, d), t) <==> Shows(output, t) || t == d.target
  {
    var longer := Insert(output, d);
    assert d in longer;
  }

  /** The entries gathered for a cluster from the keys seen so far. */
  ghost predicate Gathered(entries: map<string, Entry>, store: Store, keys: seq<string>, context: string,
                           namespace: string, t: Target.Target)
  {
    && (forall key :: key in entries <==> key in keys && Owns(context, namespace, key, t))
    && (forall key :: key in entries ==>
        key in store && Assign(context, namespace, key).Some?
        && entries[key] == EntryFor(store, context, namespace, key))
  }

  lemma GatherOwned(entries: map<string, Entry>, store: Store, keys: seq<string>, i: nat, context: string,
                    namespace: string, t: Target.Target, known: bool)
    requires i < |keys| && keys[i] in store && Owns(context, namespace, keys[i], t)
    requires if known then Gathered(entries, store, keys[..i], context, namespace, t)
             else entries == map[] && forall key :: key in keys[..i] ==> !Owns(context, namespace, key, t)
    ensures Gathered(entries[keys[i] := EntryFor(store, context, namespace, keys[i])], store, keys[..i + 1], context,
                     namespace, t)
  {
    hide Assign;
    assert keys[..i + 1] == keys[..i] + [keys[i]];
  }

  lemma GatherOthers(entries: map<string, Entry>, store: Store, keys: seq<string>, i: nat, context: string,
                     namespace: string, t: Target.Target)
    requires i < |keys| && !Owns(context, namespace, keys[i], t)
    requires Gathered(entries, store, keys[..i], context, namespace, t)
    ensures Gathered(entries, store, keys[..i + 1], context, namespace, t)
  {
    hide Assign;
    assert keys[..i + 1] == keys[..i] + [keys[i]];
  }

  lemma GatheredAll(entries: map<string, Entry>, store: Store, keys: seq<string>, context: string, namespace: string,
                    t: Target.Target)
    requires forall key :: key in store <==> key in keys
    requires Gathered(entries, store, keys, context, namespace, t)
    ensures entries.Keys == Owned(context, namespace, store.Keys, t)
    ensures forall key :: key in entries ==>
              key in store && Assign(context, namespace, key).Some?
              && entries[key] == EntryFor(store, context, namespace, key)
    ensures entries != map[] ==> Owned(context, namespace, store.Keys, t) != {}
  {
    hide Assign;
  }

  /** One turn of the second loop: both lists sorted by key, then BuildSnapshot. */
  function Build(t: Target.Target, entries: map<string, Entry>, revision: nat): Discovered {
    var keys := SortedKeys(entries.Keys);
    var sorted := seq(|keys|, i requires 0 <= i < |keys| => assert keys[i] in keys; entries[keys[i]]);
    var decoded := DecodeCluster(sorted);
    Discovered(t, keys, Snapshot(revision, sorted, decoded.0, decoded.1))
  }

  lemma BuildIsDiscovered(t: Target.Target, entries: map<string, Entry>, store: Store, revision: nat, context: string,
                          namespace: string)
    requires entries.Keys == Owned(context, namespace, store.Keys, t)
    requires forall key :: key in entries ==>
              key in store && Assign(context, namespace, key).Some?
              && entries[key] == EntryFor(store, context, namespace, key)
    ensures Build(t, entries, revision) == DiscoveredAs(store, revision, context, namespace, t)
  {
    hide Assign, DecodeCluster;
    var keys := SortedKeys(entries.Keys);
    forall i | 0 <= i < |keys|
      ensures entries[keys[i]] == EntriesFor(store, context, namespace, t)[i]
    {
      assert keys[i] in entries;
    }
    assert Build(t, entries, revision).snapshot.entries == EntriesFor(store, context, namespace, t);
  }

  function Insert(output: seq<Discovered>, d: Discovered): (longer: seq<Discovered>)
    ensures forall e :: e in longer <==> e in output || e == d
  {
    if output == [] || Before(d.target, output[0].target) then [d] + output
    else
      assert output == [output[0]] + output[1..];
      [output[0]] + Insert(output[1..], d)
  }

  lemma BeforeTransitive(a: Target.Target, b: Target.Target, c: Target.Target)
    requires Before(a, b) && Before(b, c)
    ensures Before(a, c)
  {
    if Less(a.scope, b.scope) && Less(b.scope, c.scope) {
      LessTransitive(a.scope, b.scope, c.scope);
    }
  }

  lemma {:induction false} InsertKeepsOrder(output: seq<Discovered>, d: Discovered)
    requires InOrder(output)
    requires forall e :: e in output ==> Before(e.target, d.target) || Before(d.target, e.target)
    ensures InOrder(Insert(output, d))
  {
    hide Before;
    if output == [] {
    } else if Before(d.target, output[0].target) {
      forall j | 0 <= j < |output|
        ensures Before(d.target, output[j].target)
      {
        if j > 0 {
          BeforeTransitive(d.target, output[0].target, output[j].target);
        }
      }
    } else {
      assert output[0] in output;
      assert forall e :: e in output[1..] ==> e in output;
      InsertKeepsOrder(output[1..], d);
      var tail := Insert(output[1..], d);
      forall j | 0 <= j < |tail|
        ensures Before(output[0].target, tail[j].target)
      {
        assert tail[j] in tail;
        if tail[j] != d {
          var k :| 0 <= k < |output[1..]| && output[1..][k] == tail[j];
          assert output[k + 1] == tail[j];
        }
      }
    }
  }

  /** Assigned targets share context, namespace and the empty member, and have
      no negative group: scope and group order them. */
  lemma AssignedShape(context: string, namespace: string, key: string)
    requires Assign(context, namespace, key).Some?
    ensures var t := Assign(context, namespace, key).value.target;
            && t.context == Target.Normalize(Target.Target(context, namespace, "", None, "")).context
            && t.namespace == Target.NormalizeNamespace(namespace) && t.member == TrimSpace("")
            && (t.group.Some? ==> t.group.value >= 0)
  {
    hide ClassifyRelativePath, TrimSpace, Join, Atoi, Target.NormalizeNamespace, NamespacePrefix, Split;
    AssignedShapeBelow(context, namespace, key[|NamespacePrefix(namespace)|..]);
  }

  lemma AssignedShapeBelow(context: string, namespace: string, below: string)
    requires AssignRelative(context, namespace, below).Some?
    ensures var t := AssignRelative(context, namespace, below).value.target;
            && t.context == Target.Normalize(Target.Target(context, namespace, "", None, "")).context
            && t.namespace == Target.NormalizeNamespace(namespace) && t.member == TrimSpace("")
            && (t.group.Some? ==> t.group.value >= 0)
  {
    hide ClassifyRelativePath, TrimSpace, Join, Atoi, Target.NormalizeNamespace, Split;
  }

  lemma DistinctTargetsOrdered(store: Store, keys: seq<string>, context: string, namespace: string, a: Target.Target,
                               b: Target.Target,
                               left: map<string, Entry>, right: map<string, Entry>)
    requires a != b && left != map[] && right != map[]
    requires Gathered(left, store, keys, context, namespace, a) && Gathered(right, store, keys, context, namespace, b)
    ensures Before(a, b) || Before(b, a)
  {
    hide Assign, Target.Normalize, Target.NormalizeNamespace, TrimSpace;
    var p :| p in left;
    var q :| q in right;
    AssignedShape(context, namespace, p);
    AssignedShape(context, namespace, q);
    LessTotal(a.scope, b.scope);
  }

  // ---- every recognised key belongs to exactly one cluster ----

  /** Each recognised key is evidence of exactly one discovered cluster. */
  lemma EachKeyOnce(output: seq<Discovered>, store: Store, revision: nat, context: string, namespace: string,
                    key: string)
    returns (i: nat)
    requires IsDiscovery(output, store, revision, context, namespace)
    requires key in store && Assign(context, namespace, key).Some?
    requires ClusterPrefix(Assign(context, namespace, key).value.target).Some?
    ensures i < |output| && key in output[i].evidence
    ensures forall j :: 0 <= j < |output| && key in output[j].evidence ==> j == i
  {
    hide Assign, ClusterPrefix, DecodeCluster, EntriesFor, Before;
    var t := Assign(context, namespace, key).value.target;
    assert Shows(output, t);
    var d :| d in output && d.target == t;
    i :| 0 <= i < |output| && output[i] == d;
    assert key in Owned(context, namespace, store.Keys, t);
    forall j | 0 <= j < |output| && key in output[j].evidence
      ensures j == i
    {
      assert output[j] in output;
      assert key in Owned(context, namespace, store.Keys, output[j].target);
      BeforeIrreflexive(t);
    }
  }

  lemma BeforeIrreflexive(t: Target.Target)
    ensures !Before(t, t)
  {
    LessIrreflexive(t.scope);
  }

  // ---- agreement with a direct snapshot ----

  /** The key is the one the cluster's own root and the relative path make: its
      scope has no outer white space and its group is in canonical decimal. */
  predicate Canonical(key: string, a: Assignment) {
    ClusterPrefix(a.target).Some? && key == ClusterPrefix(a.target).value + "/" + a.relative
  }

  /** A target a direct snapshot can be asked for, in the discovered namespace,
      with a scope that is a single path segment. */
  ghost predicate Addressable(context: string, namespace: string, t: Target.Target) {
    && Target.Normalize(t) == t && t.member == "" && ClusterPrefix(t).Some?
    && t.context == context && t.namespace == namespace && '/' !in t.scope
    && (t.group.Some? ==> 0 <= t.group.value <= MAX_INT)
  }

  lemma RecognisedStart(relative: string)
    requires ClassifyRelativePath(relative) != UnknownKey
    ensures relative != ""
    ensures relative[0] == '/' || 'a' <= relative[0] <= 'z'
  {
    var left := TrimLeft(relative, '/');
    var r := TrimBoth(relative, '/');
    TrimRightIsPrefix(left, '/');
    assert r != "" && 'a' <= r[0] <= 'z' by {
      RecognisedText(relative);
    }
    if relative != "" && relative[0] != '/' {
      assert left == relative && r[0] == left[0];
    }
  }

  lemma RecognisedText(relative: string)
    requires ClassifyRelativePath(relative) != UnknownKey
    ensures TrimBoth(relative, '/') != "" && 'a' <= TrimBoth(relative, '/')[0] <= 'z'
  {
    hide TrimBoth;
    var r := TrimBoth(relative, '/');
    if "members/" <= r {
      assert r[0] == "members/"[0];
    }
  }

  lemma {:induction false} TrimRightIsPrefix(s: string, c: char)
    ensures TrimRight(s, c) <= s
    decreases |s|
  {
    if s != "" && s[|s| - 1] == c {
      TrimRightIsPrefix(s[..|s| - 1], c);
    }
  }

  /** A recognised path never starts with an integer segment, so a cluster path
      is not mistaken for a group path. */
  lemma RecognisedIsNotGrouped(scope: string, relative: string)
    requires '/' !in scope && ClassifyRelativePath(relative) != UnknownKey
    ensures Split(scope + "/" + relative, '/') == [scope] + Split(relative, '/')
    ensures !Grouped(Split(scope + "/" + relative, '/'))
  {
    hide ClassifyRelativePath, Join;
    SplitCons(scope, relative, '/');
    RecognisedStart(relative);
    var first := Split(relative, '/')[0];
    SplitHead(relative);
    assert Atoi(first).None?;
  }

  lemma SplitHead(s: string)
    requires s != ""
    ensures Split(s, '/')[0] == (if s[0] == '/' then "" else [s[0]] + Split(s[1..], '/')[0])
  {
  }

  /** A recognised key under a target's own root is assigned to that target. */
  lemma DirectKeyIsOwned(context: string, namespace: string, t: Target.Target, relative: string)
    requires Addressable(context, namespace, t) && ClassifyRelativePath(relative) != UnknownKey
    ensures Assign(context, namespace, ClusterPrefix(t).value + "/" + relative)
            == Some(Assignment(t, relative, ClassifyRelativePath(relative)))
  {
    hide ClassifyRelativePath, ClusterPrefix, TrimBoth, FormatInt, AssignRelative, Atoi, Target.Normalize;
    hide Target.NormalizeNamespace, ScopePart, NamespacePrefix;
    var key := ClusterPrefix(t).value + "/" + relative;
    var prefix := NamespacePrefix(namespace);
    PrefixForm(t);
    NamespaceIsNormal(t);
    var below := ScopePart(t.scope, t.group) + relative;
    assert key == prefix + below;
    assert key[|prefix|..] == below;
    DirectPathIsOwned(t, relative);
  }

  lemma NamespaceIsNormal(t: Target.Target)
    requires Target.Normalize(t) == t
    ensures NamespacePrefix(t.namespace) == "/" + TrimBoth(t.namespace, '/') + "/"
  {
    hide TrimBoth, TrimSpace, Target.NormalizeNamespace;
  }

  lemma DirectPathIsOwned(t: Target.Target, relative: string)
    requires Addressable(t.context, t.namespace, t) && ClassifyRelativePath(relative) != UnknownKey
    ensures AssignRelative(t.context, t.namespace, ScopePart(t.scope, t.group) + relative)
            == Some(Assignment(t, relative, ClassifyRelativePath(relative)))
  {
    hide ClassifyRelativePath, ClusterPrefix, TrimBoth, FormatInt, Atoi, Target.Normalize, TrimSpace, Join;
    ScopeIsTrimmed(t);
    ClusterOfScope(t);
    JoinSplit(relative, '/');
    if t.group.Some? {
      var group := FormatInt(t.group.value);
      GroupIsCanonical(t.group.value);
      assert ScopePart(t.scope, t.group) + relative == t.scope + "/" + (group + "/" + relative);
      GroupPathIsOwned(t, group, relative);
    } else {
      assert ScopePart(t.scope, t.group) + relative == t.scope + "/" + relative;
      RecognisedIsNotGrouped(t.scope, relative);
      var parts := Split(ScopePart(t.scope, t.group) + relative, '/');
      assert parts[0] == t.scope && parts[1..] == Split(relative, '/');
    }
  }

  /** Any decimal text of the group leads to the group. */
  lemma GroupPathIsOwned(t: Target.Target, group: string, relative: string)
    requires Addressable(t.context, t.namespace, t) && t.group.Some? && ClassifyRelativePath(relative) != UnknownKey
    requires '/' !in group && Atoi(group) == Some(t.group.value)
    ensures AssignRelative(t.context, t.namespace, t.scope + "/" + (group + "/" + relative))
            == Some(Assignment(t, relative, ClassifyRelativePath(relative)))
  {
    hide ClassifyRelativePath, ClusterPrefix, TrimBoth, FormatInt, Atoi, Target.Normalize, TrimSpace, Join;
    ScopeIsTrimmed(t);
    ClusterOfScope(t);
    JoinSplit(relative, '/');
    SplitCons(t.scope, group + "/" + relative, '/');
    SplitCons(group, relative, '/');
    var parts := Split(t.scope + "/" + (group + "/" + relative), '/');
    assert parts == [t.scope] + ([group] + Split(relative, '/'));
    assert parts[0] == t.scope && parts[1] == group && parts[2..] == Split(relative, '/');
    assert Grouped(parts);
  }

  lemma GroupIsCanonical(group: int)
    requires 0 <= group <= MAX_INT
    ensures Atoi(FormatInt(group)) == Some(group)
    ensures '/' !in FormatInt(group)
  {
    hide Atoi;
    AtoiItoa(group);
    Target.FormatIntIsPlain(group);
  }

  lemma ScopeIsTrimmed(t: Target.Target)
    requires Target.Normalize(t) == t && ClusterPrefix(t).Some?
    ensures TrimSpace(t.scope) == t.scope && t.scope != ""
  {
    hide TrimSpace, TrimBoth, Target.NormalizeNamespace, Join;
  }

  lemma ClusterOfScope(t: Target.Target)
    requires Target.Normalize(t) == t && t.member == ""
    ensures Target.Normalize(Target.Target(t.context, t.namespace, t.scope, None, "")) == t.(group := None)
  {
    hide TrimSpace, Target.NormalizeNamespace;
  }

  /** The recognised entries of a snapshot. */
  function Recognised(entries: seq<Entry>): seq<Entry> {
    if entries == [] then []
    else
      var last := entries[|entries| - 1];
      Recognised(entries[..|entries| - 1]) + (if last.kind == UnknownKey then [] else [last])
  }

  /** Decoding ignores what is not recognised. */
  lemma {:induction false} DecodeIgnoresUnknown(entries: seq<Entry>)
    requires forall e :: e in entries ==> e.kind == ClassifyRelativePath(e.relative)
    ensures DecodeAll(Recognised(entries)) == DecodeAll(entries)
  {
    hide ClassifyRelativePath, DecodeEntry;
    if entries != [] {
      var front, last := entries[..|entries| - 1], entries[|entries| - 1];
      assert entries == front + [last];
      DecodeIgnoresUnknown(front);
      if last.kind == UnknownKey {
        UnknownIsSkipped(DecodeAll(front), last);
        assert Recognised(front) + [] == Recognised(front);
      } else {
        assert Recognised(entries)[..|Recognised(entries)| - 1] == Recognised(front);
      }
    }
  }

  lemma UnknownIsSkipped(d: Decoding, entry: Entry)
    requires entry.kind == UnknownKey == ClassifyRelativePath(entry.relative)
    ensures DecodeEntry(d, entry) == d
  {
    hide ClassifyRelativePath, DecodeMember, DecodeFailover, DecodeHistory, DecodeSync, DecodeFailsafe, TypedFailover;
    StatusIsRecognised();
  }

  lemma StatusIsRecognised()
    ensures ClassifyRelativePath("status") == StatusKey && ClassifyRelativePath("optime/leader") == LeaderOptimeKey
  {
    assert TrimBoth("status", '/') == "status";
    assert TrimBoth("optime/leader", '/') == "optime/leader";
  }

  function FilterKeys(keys: seq<string>, keep: set<string>): seq<string> {
    if keys == [] then []
    else FilterKeys(keys[..|keys| - 1], keep) + (if keys[|keys| - 1] in keep then [keys[|keys| - 1]] else [])
  }

  lemma {:induction false} FilterAscending(keys: seq<string>, keep: set<string>)
    requires Ascending(keys)
    ensures Ascending(FilterKeys(keys, keep))
    ensures forall k :: k in FilterKeys(keys, keep) <==> k in keys && k in keep
  {
    if keys != [] {
      var front, last := keys[..|keys| - 1], keys[|keys| - 1];
      assert keys == front + [last];
      FilterAscending(front, keep);
      forall k | k in FilterKeys(front, keep)
        ensures Less(k, last)
      {
        var i :| 0 <= i < |front| && front[i] == k;
        assert keys[i] == k;
      }
    }
  }

  function RecognisedKeys(store: Store, prefix: string): set<string> {
    set key | key in store && prefix + "/" <= key && ClassifyRelativePath(key[|prefix| + 1..]) != UnknownKey
  }

  /** The entries are those stored under the keys, in their order. */
  ghost predicate Lists(entries: seq<Entry>, store: Store, prefix: string, keys: seq<string>) {
    && |entries| == |keys|
    && forall i :: 0 <= i < |keys| ==>
          keys[i] in store && prefix + "/" <= keys[i] && entries[i] == EntryAt(store, prefix, keys[i])
  }

  lemma {:induction false} RecognisedLists(entries: seq<Entry>, store: Store, prefix: string, keys: seq<string>,
                                        keep: set<string>)
    requires Lists(entries, store, prefix, keys)
    requires forall i :: 0 <= i < |keys| ==> (keys[i] in keep <==> entries[i].kind != UnknownKey)
    ensures Lists(Recognised(entries), store, prefix, FilterKeys(keys, keep))
  {
    hide EntryAt;
    if keys != [] {
      RecognisedLists(entries[..|keys| - 1], store, prefix, keys[..|keys| - 1], keep);
    }
  }

  lemma KindsKept(store: Store, prefix: string, entries: seq<Entry>, keys: seq<string>)
    requires Lists(entries, store, prefix, keys)
    ensures forall i :: 0 <= i < |keys| ==>
              (keys[i] in RecognisedKeys(store, prefix) <==> entries[i].kind != UnknownKey)
  {
    hide ClassifyRelativePath;
  }

  lemma RecognisedUnder(store: Store, prefix: string)
    ensures Lists(Recognised(EntriesUnder(store, prefix)), store, prefix, SortedKeys(RecognisedKeys(store, prefix)))
  {
    hide ClassifyRelativePath, Recognised, Ascending, EntriesUnder, EntryAt;
    var all, keep := SortedKeys(Matching(store, prefix + "/")), RecognisedKeys(store, prefix);
    EntriesUnderKeys(store, prefix);
    KindsKept(store, prefix, EntriesUnder(store, prefix), all);
    FilterAscending(all, keep);
    assert forall key :: key in keep ==> key in Matching(store, prefix + "/");
    AscendingUnique(FilterKeys(all, keep), SortedKeys(keep));
    RecognisedLists(EntriesUnder(store, prefix), store, prefix, all, keep);
  }

  /** All keys of the cluster are canonical. */
  ghost predicate AllCanonical(store: Store, context: string, namespace: string, t: Target.Target) {
    forall key :: key in store && Owns(context, namespace, key, t) ==>
          Canonical(key, Assign(context, namespace, key).value)
  }

  lemma DirectIsOwned(store: Store, context: string, namespace: string, t: Target.Target, key: string)
    requires Addressable(context, namespace, t) && key in RecognisedKeys(store, ClusterPrefix(t).value)
    ensures Owns(context, namespace, key, t) && Canonical(key, Assign(context, namespace, key).value)
    ensures EntryFor(store, context, namespace, key) == EntryAt(store, ClusterPrefix(t).value, key)
  {
    hide ClassifyRelativePath, Assign, ClusterPrefix, Target.Normalize;
    var relative := key[|ClusterPrefix(t).value| + 1..];
    assert key == ClusterPrefix(t).value + "/" + relative;
    DirectKeyIsOwned(context, namespace, t, relative);
  }

  lemma AssignedKind(context: string, namespace: string, key: string)
    requires Assign(context, namespace, key).Some?
    ensures var a := Assign(context, namespace, key).value; a.kind == ClassifyRelativePath(a.relative) != UnknownKey
  {
    hide ClassifyRelativePath, Grouped, Target.Normalize, TrimSpace, Join;
  }

  lemma CanonicalIsDirect(store: Store, context: string, namespace: string, t: Target.Target, key: string)
    requires Addressable(context, namespace, t) && key in store
    requires Owns(context, namespace, key, t) && Canonical(key, Assign(context, namespace, key).value)
    ensures key in RecognisedKeys(store, ClusterPrefix(t).value)
  {
    hide ClassifyRelativePath, Assign, ClusterPrefix, Target.Normalize;
    AssignedKind(context, namespace, key);
    assert key[|ClusterPrefix(t).value| + 1..] == Assign(context, namespace, key).value.relative;
  }

  /** A discovered cluster is assembled from exactly the recognised entries of a
      direct snapshot, if and only if its keys are canonical. */
  lemma EntriesAgree(store: Store, context: string, namespace: string, t: Target.Target)
    requires Addressable(context, namespace, t)
    ensures EntriesFor(store, context, namespace, t) == Recognised(EntriesUnder(store, ClusterPrefix(t).value))
            <==> AllCanonical(store, context, namespace, t)
  {
    hide ClassifyRelativePath, Assign, ClusterPrefix, Target.Normalize, EntriesUnder, Recognised, Canonical, EntryFor;
    hide EntryAt, RecognisedKeys, Ascending;
    var prefix := ClusterPrefix(t).value;
    var owned, direct := Owned(context, namespace, store.Keys, t), RecognisedKeys(store, prefix);
    var left, right := EntriesFor(store, context, namespace, t), Recognised(EntriesUnder(store, prefix));
    RecognisedUnder(store, prefix);
    forall key | key in direct
      ensures Owns(context, namespace, key, t) && Canonical(key, Assign(context, namespace, key).value)
      ensures EntryFor(store, context, namespace, key) == EntryAt(store, prefix, key)
    {
      DirectIsOwned(store, context, namespace, t, key);
    }
    if AllCanonical(store, context, namespace, t) {
      OwnedIsDirect(store, context, namespace, t);
      forall i | 0 <= i < |left|
        ensures left[i] == right[i]
      {
        assert SortedKeys(owned)[i] in SortedKeys(owned);
      }
    }
    if left == right {
      forall key | key in store && Owns(context, namespace, key, t)
        ensures Canonical(key, Assign(context, namespace, key).value)
      {
        assert key in owned;
        var i :| 0 <= i < |SortedKeys(owned)| && SortedKeys(owned)[i] == key;
        EntryKeys(store, context, namespace, key, prefix, SortedKeys(direct)[i]);
        assert SortedKeys(direct)[i] in SortedKeys(direct);
      }
    }
  }

  lemma EntryKeys(store: Store, context: string, namespace: string, key: string, prefix: string, other: string)
    requires key in store && Assign(context, namespace, key).Some? && other in store && prefix + "/" <= other
    ensures EntryFor(store, context, namespace, key).key == key && EntryAt(store, prefix, other).key == other
  {
    hide Assign, ClassifyRelativePath;
  }

  lemma OwnedIsDirect(store: Store, context: string, namespace: string, t: Target.Target)
    requires Addressable(context, namespace, t) && AllCanonical(store, context, namespace, t)
    ensures Owned(context, namespace, store.Keys, t) == RecognisedKeys(store, ClusterPrefix(t).value)
  {
    hide ClassifyRelativePath, Assign, ClusterPrefix, Target.Normalize, Canonical;
    forall key
      ensures key in Owned(context, namespace, store.Keys, t) <==> key in RecognisedKeys(store, ClusterPrefix(t).value)
    {
      if key in Owned(context, namespace, store.Keys, t) {
        CanonicalIsDirect(store, context, namespace, t, key);
      }
      if key in RecognisedKeys(store, ClusterPrefix(t).value) {
        DirectIsOwned(store, context, namespace, t, key);
      }
    }
  }

  /** Then its state and its issues are those of a direct snapshot. */
  lemma DiscoveryAgrees(log: seq<Request>, context: string, namespace: string, t: Target.Target)
    requires Addressable(context, namespace, t) && AllCanonical(StoreAt(log), context, namespace, t)
    ensures var discovered := DiscoveredAs(StoreAt(log), HeaderRevision(log), context, namespace, t).snapshot;
            var direct := SnapshotOf(log, ClusterPrefix(t).value);
            discovered.revision == direct.revision && discovered.cluster == direct.cluster
            && discovered.issues == direct.issues
  {
    hide ClassifyRelativePath, Assign, ClusterPrefix, Target.Normalize, StoreAt, EntriesUnder, Recognised, DecodeAll;
    hide AllCanonical, EntriesFor;
    var prefix := ClusterPrefix(t).value;
    EntriesAgree(StoreAt(log), context, namespace, t);
    KindsMatch(StoreAt(log), prefix);
    DecodeIgnoresUnknown(EntriesUnder(StoreAt(log), prefix));
  }

  lemma KindsMatch(store: Store, prefix: string)
    ensures forall e :: e in EntriesUnder(store, prefix) ==> e.kind == ClassifyRelativePath(e.relative)
  {
    hide ClassifyRelativePath;
    EntriesUnderMembers(store, prefix);
  }

  /** A key is canonical exactly when its scope segment is trimmed and its group
      segment, if any, is the decimal text of the group. */
  lemma CanonicalKeys(context: string, namespace: string, key: string)
    requires Target.NormalizeNamespace(namespace) == namespace && Assign(context, namespace, key).Some?
    requires ClusterPrefix(Assign(context, namespace, key).value.target).Some?
    ensures var parts := Split(key[|NamespacePrefix(namespace)|..], '/');
            Canonical(key, Assign(context, namespace, key).value)
            <==> TrimSpace(parts[0]) == parts[0] && (Grouped(parts) ==> parts[1] == FormatInt(Atoi(parts[1]).value))
  {
    hide ClassifyRelativePath, ClusterPrefix, TrimBoth, FormatInt, Atoi, TrimSpace, Grouped, Target.NormalizeNamespace;
    hide Target.Normalize;
    var a := Assign(context, namespace, key).value;
    var prefix := NamespacePrefix(namespace);
    var below := key[|prefix|..];
    var parts := Split(below, '/');
    assert key == prefix + below;
    AssignedTarget(context, namespace, below);
    PrefixForm(a.target);
    NamespaceIsNormal(a.target);
    assert Canonical(key, a) <==> below == ScopePart(a.target.scope, a.target.group) + a.relative by {
      assert ClusterPrefix(a.target).value + "/" + a.relative
             == prefix + (ScopePart(a.target.scope, a.target.group) + a.relative);
      SameTail(prefix, below, ScopePart(a.target.scope, a.target.group) + a.relative);
    }
    JoinSplit(below, '/');
    if Grouped(parts) {
      GroupedParts(parts);
      CanonicalGroupPath(below, a.target.scope, a.target.group.value, a.relative);
    } else {
      CanonicalClusterPath(below, a.target.scope, a.relative);
    }
  }

  lemma CanonicalClusterPath(below: string, scope: string, relative: string)
    requires var parts := Split(below, '/');
             |parts| >= 2 && scope == TrimSpace(parts[0]) && relative == Join(parts[1..], "/")
    ensures below == ScopePart(scope, None) + relative <==> TrimSpace(Split(below, '/')[0]) == Split(below, '/')[0]
  {
    hide TrimSpace;
    var parts := Split(below, '/');
    JoinSplit(below, '/');
    assert below == parts[0] + "/" + relative;
    assert ScopePart(scope, None) + relative == scope + "/" + relative;
    TrimmedHasNoSlash(parts[0], below);
    SegmentSplit(parts[0], relative, scope, relative);
  }

  lemma CanonicalGroupPath(below: string, scope: string, group: int, relative: string)
    requires var parts := Split(below, '/');
             |parts| >= 3 && scope == TrimSpace(parts[0]) && relative == Join(parts[2..], "/")
    ensures below == ScopePart(scope, Some(group)) + relative
            <==> TrimSpace(Split(below, '/')[0]) == Split(below, '/')[0] && Split(below, '/')[1] == FormatInt(group)
  {
    hide TrimSpace, FormatInt;
    var parts := Split(below, '/');
    var text := FormatInt(group);
    JoinSplit(below, '/');
    assert parts[1..][1..] == parts[2..] && parts[1..][0] == parts[1];
    assert below == parts[0] + "/" + (parts[1] + "/" + relative);
    assert ScopePart(scope, Some(group)) + relative == scope + "/" + (text + "/" + relative);
    TrimmedHasNoSlash(parts[0], below);
    GroupHasNoSlash(group);
    assert parts[1] in parts && '/' !in parts[1];
    SegmentSplit(parts[0], parts[1] + "/" + relative, scope, text + "/" + relative);
    SegmentSplit(parts[1], relative, text, relative);
  }

  lemma GroupedParts(parts: seq<string>)
    requires Grouped(parts)
    ensures |parts| >= 3
  {
  }

  lemma GroupHasNoSlash(group: int)
    ensures '/' !in FormatInt(group)
  {
    Target.FormatIntIsPlain(group);
  }

  lemma TrimmedHasNoSlash(part: string, whole: string)
    requires part == Split(whole, '/')[0]
    ensures '/' !in part && '/' !in TrimSpace(part)
  {
    hide TrimSpace;
    assert part in Split(whole, '/');
    Target.TrimSpaceKeepsOut(part, '/');
  }

  lemma SameTail(prefix: string, a: string, b: string)
    ensures prefix + a == prefix + b <==> a == b
  {
    assert (prefix + a)[|prefix|..] == a && (prefix + b)[|prefix|..] == b;
  }

  lemma SegmentSplit(a: string, restA: string, b: string, restB: string)
    requires '/' !in a && '/' !in b
    ensures a + "/" + restA == b + "/" + restB <==> a == b && restA == restB
  {
    SplitCons(a, restA, '/');
    SplitCons(b, restB, '/');
    if a + "/" + restA == b + "/" + restB {
      assert a + ['/'] + restA == b + ['/'] + restB;
      assert ([a] + Split(restA, '/'))[0] == ([b] + Split(restB, '/'))[0];
      assert (a + "/" + restA)[|a| + 1..] == restA && (b + "/" + restB)[|b| + 1..] == restB;
    }
  }

  lemma AssignedTarget(context: string, namespace: string, below: string)
    requires Target.NormalizeNamespace(namespace) == namespace && AssignRelative(context, namespace, below).Some?
    ensures var a := AssignRelative(context, namespace, below).value; var parts := Split(below, '/');
            && |parts| >= 2 && a.target.scope == TrimSpace(parts[0]) && a.target.namespace == namespace
            && a.target.group == (if Grouped(parts) then Some(Atoi(parts[1]).value) else None)
            && Target.Normalize(a.target) == a.target
  {
    hide ClassifyRelativePath, TrimSpace, Join, Atoi, Target.NormalizeNamespace;
    var parts := Split(below, '/');
    TrimSpaceIdempotent(parts[0]);
    TrimSpaceIdempotent(context);
    TrimSpaceIdempotent("");
    Target.NormalizeIdempotent(Target.Target(context, namespace, parts[0], None, ""));
  }

  /** Discovery reads a group written as 007 as group 7, whose direct snapshot
      does not hold the key: any padded group text makes the two disagree. */
  lemma PaddedGroupDisagrees(store: Store, context: string, namespace: string, t: Target.Target, text: string,
                             relative: string)
    requires Addressable(context, namespace, t) && t.group.Some? && ClassifyRelativePath(relative) != UnknownKey
    requires '/' !in text && Atoi(text) == Some(t.group.value) && text != FormatInt(t.group.value)
    requires NamespacePrefix(namespace) + (t.scope + "/" + (text + "/" + relative)) in store
    ensures Owns(context, namespace, NamespacePrefix(namespace) + (t.scope + "/" + (text + "/" + relative)), t)
    ensures EntriesFor(store, context, namespace, t) != Recognised(EntriesUnder(store, ClusterPrefix(t).value))
  {
    hide ClassifyRelativePath, ClusterPrefix, Target.Normalize, AssignRelative, EntriesFor, EntriesUnder, FormatInt;
    hide Atoi, NamespacePrefix, TrimBoth;
    var below := t.scope + "/" + (text + "/" + relative);
    var key := NamespacePrefix(namespace) + below;
    assert key[|NamespacePrefix(namespace)|..] == below;
    GroupPathIsOwned(t, text, relative);
    assert Assign(context, namespace, key) == Some(Assignment(t, relative, ClassifyRelativePath(relative)));
    EntriesAgree(store, context, namespace, t);
    if Canonical(key, Assign(context, namespace, key).value) {
      PrefixForm(t);
      NamespaceIsNormal(t);
      var group := FormatInt(t.group.value);
      assert ClusterPrefix(t).value + "/" + relative == NamespacePrefix(namespace)
             + (t.scope + "/" + (group + "/" + relative));
      SameTail(NamespacePrefix(namespace), below, t.scope + "/" + (group + "/" + relative));
      SegmentSplit(t.scope, text + "/" + relative, t.scope, group + "/" + relative);
      GroupHasNoSlash(t.group.value);
      SegmentSplit(text, relative, group, relative);
    }
  }

  lemma PaddedGroupExists()
    ensures Atoi("007") == Some(7) && "007" != FormatInt(7)
  {
    assert DigitsValue("007") == 10 * DigitsValue("00") + 7 by { assert "007"[..2] == "00"; }
    assert DigitsValue("00") == 10 * DigitsValue("0") + 0 by { assert "00"[..1] == "0"; }
    assert DigitsValue("0") == 10 * DigitsValue("") + 0 by { assert "0"[..0] == ""; }
    assert |FormatInt(7)| == 1;
  }

  /** Whatever discovery shows can be asked for directly. */
  lemma DiscoveredIsAddressable(context: string, namespace: string, key: string)
    requires Target.Normalize(Target.Target(context, namespace, "", None, "")).context == context
             && Target.NormalizeNamespace(namespace) == namespace
    requires Assign(context, namespace, key).Some? && ClusterPrefix(Assign(context, namespace, key).value.target).Some?
    ensures Addressable(context, namespace, Assign(context, namespace, key).value.target)
  {
    hide ClassifyRelativePath, ClusterPrefix, TrimBoth, FormatInt, Atoi, TrimSpace, Grouped, Target.NormalizeNamespace;
    hide Target.Normalize, NamespacePrefix;
    var below := key[|NamespacePrefix(namespace)|..];
    AssignedTarget(context, namespace, below);
    AssignedShape(context, namespace, key);
    TrimmedHasNoSlash(Split(below, '/')[0], below);
    EmptyTrims();
    GroupedInRange(Split(below, '/'));
  }

  lemma EmptyTrims()
    ensures TrimSpace("") == ""
  {
    Target.TrimSpaceOfEmpty();
  }

  lemma GroupedInRange(parts: seq<string>)
    requires |parts| >= 2
    ensures Grouped(parts) ==> Atoi(parts[1]).Some? && 0 <= Atoi(parts[1]).value <= MAX_INT
  {
    hide ClassifyRelativePath, Join;
  }

  /** Discovery is a correct index of the namespace: a cluster with canonical
      keys is shown exactly as its direct snapshot decodes it, and every cluster
      with a recognised key under its root is shown. */
  lemma DiscoveryIsCorrect(output: seq<Discovered>, log: seq<Request>, context: string, namespace: string)
    requires Target.Normalize(Target.Target(context, namespace, "", None, "")).context == context
             && Target.NormalizeNamespace(namespace) == namespace
    requires IsDiscovery(output, StoreAt(log), HeaderRevision(log), context, namespace)
    ensures forall d :: d in output && AllCanonical(StoreAt(log), context, namespace, d.target) ==>
              var direct := SnapshotOf(log, ClusterPrefix(d.target).value);
              d.snapshot.revision == direct.revision && d.snapshot.cluster == direct.cluster
              && d.snapshot.issues == direct.issues
    ensures forall t :: Addressable(context, namespace, t)
                        && RecognisedKeys(StoreAt(log), ClusterPrefix(t).value) != {} ==>
              Shows(output, t)
  {
    hide Assign, ClusterPrefix, Target.Normalize, Target.NormalizeNamespace, StoreAt, SnapshotOf, DiscoveredAs;
    hide AllCanonical, RecognisedKeys, InOrder, Canonical, ClassifyRelativePath;
    forall d | d in output && AllCanonical(StoreAt(log), context, namespace, d.target)
      ensures var direct := SnapshotOf(log, ClusterPrefix(d.target).value);
              d.snapshot.revision == direct.revision && d.snapshot.cluster == direct.cluster
              && d.snapshot.issues == direct.issues
    {
      var key :| key in Owned(context, namespace, StoreAt(log).Keys, d.target);
      DiscoveredIsAddressable(context, namespace, key);
      DiscoveryAgrees(log, context, namespace, d.target);
    }
    forall t | Addressable(context, namespace, t) && RecognisedKeys(StoreAt(log), ClusterPrefix(t).value) != {}
      ensures Shows(output, t)
    {
      var key :| key in RecognisedKeys(StoreAt(log), ClusterPrefix(t).value);
      RecognisedIsStored(StoreAt(log), ClusterPrefix(t).value, key);
      DirectIsOwned(StoreAt(log), context, namespace, t, key);
    }
  }

  lemma RecognisedIsStored(store: Store, prefix: string, key: string)
    requires key in RecognisedKeys(store, prefix)
    ensures key in store
  {
    hide ClassifyRelativePath;
  }
}
