/** Which configuration edit-config shows and edits (dcs/decode.go together with
    control/edit_config.go): the one stored under the config key, unless a key
    that sorts after it is classified as the config key too. */
module StoredConfig {
  import opened Text
  import opened Json
  import opened Etcd
  import opened Txn
  import opened Cluster
  import opened ConfigTree
  import opened EditConfig

  function ConfigKeyIn(prefix: string): string { KeyUnder(prefix, "config") }

  /** The configuration a snapshot of the store shows. */
  function Shown(store: Store, prefix: string): Fields {
    ReadStore(store, 0, prefix).cluster.config
  }

  /** A plan can be prepared on the store: the config key is there, and decoding
      reported nothing about it. */
  predicate Editable(store: Store, prefix: string) {
    ConfigEntryForEdit(ReadStore(store, 0, prefix)).Some?
  }

  predicate ReadsAsConfig(store: Store, prefix: string, key: string) {
    key in store && prefix + "/" <= key && ClassifyRelativePath(key[|prefix| + 1..]) == ConfigKey
  }

  /** A key after the config key that also reads as the config key. */
  predicate Overrides(store: Store, prefix: string, key: string) {
    ReadsAsConfig(store, prefix, key) && Less(ConfigKeyIn(prefix), key)
  }

  function ConfigValue(value: Blob): Fields {
    match value.json
    case Some(Object(fields)) => fields
    case _ => map[]
  }

  predicate WellFormed(value: Blob) { value.json.Some? && value.json.value.Object? }

  // ---- decoding ----

  lemma DecodeStep(d: Decoding, entry: Entry)
    ensures var next := DecodeEntry(d, entry);
            && (next.issues == d.issues || next.issues == d.issues + [DecodeIssue(entry.relative, entry.kind)])
            && (entry.kind != ConfigKey ==> next.cluster.config == d.cluster.config)
            && (entry.kind == ConfigKey ==> next.cluster.config == ConfigValue(entry.value))
            && (entry.kind == ConfigKey ==> (next.issues == d.issues <==> WellFormed(entry.value)))
  {
    hide DecodeMemberData, DecodeFailover, DecodeSync, DecodeFailsafe, DecodeHistory, TypedFailover;
    match entry.kind {
      case ConfigKey =>
      case MemberKey =>
      case _ =>
    }
  }

  /** The last entry of the kind decides. */
  lemma {:induction false} LastConfigDecides(entries: seq<Entry>, j: nat)
    requires j < |entries| && entries[j].kind == ConfigKey
    requires forall i :: j < i < |entries| ==> entries[i].kind != ConfigKey
    ensures DecodeAll(entries).cluster.config == ConfigValue(entries[j].value)
  {
    hide DecodeEntry;
    var front, last := entries[..|entries| - 1], entries[|entries| - 1];
    DecodeStep(DecodeAll(front), last);
    if j < |front| {
      LastConfigDecides(front, j);
    }
  }

  /** Every issue is that of an entry that decoding rejects, and a malformed
      config entry is always reported. */
  lemma {:induction false} IssuesOfConfig(entries: seq<Entry>, relative: string)
    requires forall e :: e in entries && e.relative == relative ==> e.kind == ConfigKey
    ensures (exists issue :: issue in DecodeAll(entries).issues && issue.relative == relative)
            <==> exists e :: e in entries && e.relative == relative && !WellFormed(e.value)
  {
    hide DecodeEntry;
    if entries != [] {
      var front, last := entries[..|entries| - 1], entries[|entries| - 1];
      assert entries == front + [last];
      IssuesOfConfig(front, relative);
      var before, after := DecodeAll(front).issues, DecodeAll(entries).issues;
      DecodeStep(DecodeAll(front), last);
      assert forall issue :: issue in before ==> issue in after;
      if after != before {
        assert DecodeIssue(last.relative, last.kind) in after;
      }
    }
  }

  lemma ConfigReadsAsConfig()
    ensures ClassifyRelativePath("config") == ConfigKey
  {
    assert TrimBoth("config", '/') == "config";
  }

  lemma EntryOfKey(store: Store, prefix: string, key: string)
    requires key in store && prefix + "/" <= key
    ensures var entry := EntryAt(store, prefix, key);
            && entry.value == store[key].value && entry.relative == key[|prefix| + 1..]
            && entry.kind == ClassifyRelativePath(entry.relative)
            && (entry.relative == "config" <==> key == ConfigKeyIn(prefix))
  {
    hide ClassifyRelativePath;
    assert key == prefix + "/" + key[|prefix| + 1..];
  }

  /** A configuration can be edited exactly when the stored one is an object. */
  lemma EditableIffObject(store: Store, prefix: string)
    ensures Editable(store, prefix) <==>
              ConfigKeyIn(prefix) in store && WellFormed(store[ConfigKeyIn(prefix)].value)
  {
    hide ClassifyRelativePath, EntryAt, DecodeAll, WellFormed;
    var key := ConfigKeyIn(prefix);
    var entries := EntriesUnder(store, prefix);
    EntriesUnderMembers(store, prefix);
    FoundEntry(entries, "config");
    ConfigReadsAsConfig();
    forall e | e in entries
      ensures e.relative == "config" ==> e.kind == ConfigKey && key in store && e.value == store[key].value
    {
      EntryOfKey(store, prefix, e.key);
    }
    IssuesOfConfig(entries, "config");
    assert ReadStore(store, 0, prefix).issues == DecodeAll(entries).issues;
    if key in store {
      EntryOfKey(store, prefix, key);
      assert EntryAt(store, prefix, key) in entries;
    }
  }

  /** The last key that reads as the config key holds what is shown. */
  lemma LastKeyIsShown(store: Store, prefix: string, key: string)
    requires ReadsAsConfig(store, prefix, key)
    requires forall other :: ReadsAsConfig(store, prefix, other) ==> !Less(key, other)
    ensures Shown(store, prefix) == ConfigValue(store[key].value)
  {
    hide ClassifyRelativePath, EntryAt, DecodeAll, Less;
    var keys := SortedKeys(Matching(store, prefix + "/"));
    var entries := EntriesUnder(store, prefix);
    EntriesUnderKeys(store, prefix);
    assert key in Matching(store, prefix + "/");
    assert key in keys;
    var j :| 0 <= j < |keys| && keys[j] == key;
    EntryOfKey(store, prefix, key);
    forall i | j < i < |entries|
      ensures entries[i].kind != ConfigKey
    {
      assert keys[i] in keys && Less(keys[j], keys[i]);
      EntryOfKey(store, prefix, keys[i]);
      assert !ReadsAsConfig(store, prefix, keys[i]);
    }
    LastConfigDecides(entries, j);
    assert Shown(store, prefix) == DecodeAll(entries).cluster.config;
  }

  /** Among finitely many keys that read as the config key there is a last. */
  lemma {:induction false} LastOf(keys: set<string>) returns (last: string)
    requires keys != {}
    ensures last in keys && forall key :: key in keys ==> !Less(last, key)
    decreases |keys|
  {
    var some :| some in keys;
    last := some;
    LessIrreflexive(some);
    if keys - {some} != {} {
      var top := LastOf(keys - {some});
      LessTotal(some, top);
      if Less(some, top) {
        last := top;
        LessAsymmetric(some, top);
      } else {
        forall key | key in keys
          ensures !Less(some, key)
        {
          if Less(some, key) {
            LessTotal(top, key);
            LessTotal(some, top);
            if Less(top, some) {
              LessTransitive(top, some, key);
            }
          }
        }
      }
    }
  }

  lemma LastConfigKey(store: Store, prefix: string, key: string) returns (last: string)
    requires ReadsAsConfig(store, prefix, key)
    ensures ReadsAsConfig(store, prefix, last) && !Less(last, key)
    ensures forall other :: ReadsAsConfig(store, prefix, other) ==> !Less(last, other)
  {
    hide ClassifyRelativePath, Less;
    var keys := set k | k in store && ReadsAsConfig(store, prefix, k);
    assert key in keys;
    last := LastOf(keys);
  }

  // ---- when the shown configuration is the stored one ----

  /** If a plan can be prepared, it is prepared on the stored configuration. */
  ghost predicate ShowsStored(store: Store, prefix: string) {
    Editable(store, prefix) ==>
      ConfigKeyIn(prefix) in store && store[ConfigKeyIn(prefix)].value.json == Some(Object(Shown(store, prefix)))
  }

  ghost predicate SameKeys(a: Store, b: Store) {
    a.Keys == b.Keys && forall key :: key in a ==> a[key].modRevision == b[key].modRevision
  }

  lemma ConfigItself(store: Store, prefix: string)
    requires ConfigKeyIn(prefix) in store
    ensures ReadsAsConfig(store, prefix, ConfigKeyIn(prefix))
  {
    ConfigReadsAsConfig();
    assert ConfigKeyIn(prefix)[|prefix| + 1..] == "config";
  }

  lemma ShownWithoutOverride(store: Store, prefix: string)
    requires forall key :: !Overrides(store, prefix, key)
    ensures ShowsStored(store, prefix)
  {
    hide ClassifyRelativePath, Less, Shown, Editable;
    EditableIffObject(store, prefix);
    if Editable(store, prefix) {
      ConfigItself(store, prefix);
      forall other | ReadsAsConfig(store, prefix, other)
        ensures !Less(ConfigKeyIn(prefix), other)
      {
        assert !Overrides(store, prefix, other);
      }
      LastKeyIsShown(store, prefix, ConfigKeyIn(prefix));
    }
  }

  /** The same keys with other values: one object under the config key, another
      under every other key. */
  function Refill(store: Store, prefix: string): Store {
    map key | key in store ::
      Versioned(Marshal(Object(if key == ConfigKeyIn(prefix) then map[] else map["ttl" := Null])),
                store[key].modRevision)
  }

  lemma RefillMisleads(store: Store, prefix: string, key: string)
    requires ConfigKeyIn(prefix) in store && Overrides(store, prefix, key)
    ensures SameKeys(store, Refill(store, prefix)) && !ShowsStored(Refill(store, prefix), prefix)
  {
    hide ClassifyRelativePath, Less, Shown, Editable;
    var other := Refill(store, prefix);
    assert ReadsAsConfig(other, prefix, key);
    var last := LastConfigKey(other, prefix, key);
    LastKeyIsShown(other, prefix, last);
    EditableIffObject(other, prefix);
    assert last != ConfigKeyIn(prefix);
    assert "ttl" in Shown(other, prefix);
  }

  /** Whatever the values are, plans are prepared on the stored configuration if
      and only if no key after the config key reads as the config key. */
  lemma ShowsStoredIff(store: Store, prefix: string)
    requires ConfigKeyIn(prefix) in store
    ensures (forall other :: SameKeys(store, other) ==> ShowsStored(other, prefix))
            <==> forall key :: !Overrides(store, prefix, key)
  {
    hide ShowsStored, ClassifyRelativePath, Less;
    if key :| Overrides(store, prefix, key) {
      RefillMisleads(store, prefix, key);
    } else {
      forall other | SameKeys(store, other)
        ensures ShowsStored(other, prefix)
      {
        assert forall key :: Overrides(other, prefix, key) ==> Overrides(store, prefix, key);
        ShownWithoutOverride(other, prefix);
      }
    }
  }

  /** config/ overrides and //config does not. */
  lemma OverridingNames(store: Store, prefix: string)
    ensures prefix + "/config/" in store ==> Overrides(store, prefix, prefix + "/config/")
    ensures !Overrides(store, prefix, prefix + "//config")
    ensures prefix + "//config" in store ==> ReadsAsConfig(store, prefix, prefix + "//config")
  {
    hide Less;
    assert TrimBoth("config/", '/') == "config" by {
      assert "config/"[..6] == "config";
    }
    assert (prefix + "/config/")[|prefix| + 1..] == "config/";
    LessExtended(ConfigKeyIn(prefix), "/");
    assert ConfigKeyIn(prefix) + "/" == prefix + "/config/";
    assert TrimBoth("/config", '/') == "config" by {
      assert "/config"[1..] == "config";
    }
    assert (prefix + "//config")[|prefix| + 1..] == "/config";
    SlashFirst(prefix);
    assert ConfigKeyIn(prefix) == prefix + "/config";
    LessAsymmetric(prefix + "//config", ConfigKeyIn(prefix));
  }

  lemma SlashFirst(prefix: string)
    ensures Less(prefix + "//config", prefix + "/config")
  {
    hide Less;
    assert Less("/config", "config") by { SlashIsLess(); }
    LessBehind(prefix + "/", "/config", "config");
    assert prefix + "//config" == (prefix + "/") + "/config" && prefix + "/config" == (prefix + "/") + "config";
  }

  lemma SlashIsLess()
    ensures Less("/config", "config")
  {
  }

  // ---- what an edit does to the stored configuration ----

  lemma BeforeIsShown(log: seq<Request>, issued: Issued)
    requires Genuine(log, issued)
    ensures var store, prefix := StoreAt(log[..issued.read]), issued.request.prefix;
            Before(log, issued) == Shown(store, prefix) && Editable(store, prefix)
  {
    hide EntriesUnder, DecodeCluster, StoreAt, Accepted;
  }

  /** Without an overriding key, the committed edit is the requested edit of the
      very configuration stored until then. */
  lemma CommitEditsStored(log: seq<Request>, issued: Issued, me: nat, i: nat) returns (stored: Fields)
    requires ValidLog(log) && Genuine(log, issued) && i < |log| && log[i] == EditWrite(me, log, issued)
    requires forall key :: !Overrides(StoreAt(log[..issued.read]), issued.request.prefix, key)
    ensures var key := ConfigKeyOf(issued.request);
            && key in StoreAt(log[..i]) && StoreAt(log[..i])[key].value.json == Some(Object(stored))
            && Lookup(StoreAt(log[..i + 1]), key)
                == Some(Versioned(Marshal(Object(After(stored, issued.request.edit))), i + 2))
  {
    hide StoreAt, Genuine, Before, After, Overrides, Shown, Editable, EditWrite;
    CommitReplacesPrepared(log, issued, me, i);
    BeforeIsShown(log, issued);
    ShownWithoutOverride(StoreAt(log[..issued.read]), issued.request.prefix);
    stored := Before(log, issued);
  }

  /** With an overriding key, the committed edit is the edit of what the last
      such key holds, or of nothing when that is malformed; what was stored under
      the config key is lost, whatever it was. */
  lemma CommitForgetsStored(log: seq<Request>, issued: Issued, me: nat, i: nat, last: string)
    requires ValidLog(log) && Genuine(log, issued) && i < |log| && log[i] == EditWrite(me, log, issued)
    requires var store, prefix := StoreAt(log[..issued.read]), issued.request.prefix;
             && Overrides(store, prefix, last)
             && forall other :: ReadsAsConfig(store, prefix, other) ==> !Less(last, other)
    ensures var held := ConfigValue(StoreAt(log[..issued.read])[last].value);
            Lookup(StoreAt(log[..i + 1]), ConfigKeyOf(issued.request))
            == Some(Versioned(Marshal(Object(After(held, issued.request.edit))), i + 2))
  {
    hide StoreAt, Genuine, Before, After, ClassifyRelativePath, Less, Shown, Editable, EditWrite;
    CommitReplacesPrepared(log, issued, me, i);
    BeforeIsShown(log, issued);
    LastKeyIsShown(StoreAt(log[..issued.read]), issued.request.prefix, last);
  }

  /** A history with a stored configuration and a malformed sibling config/. */
  function MisleadingHistory(prefix: string, stored: Fields): seq<Request> {
    [Request(0, Put(prefix + "/config/", Blob("", None)), None),
     Request(0, Put(ConfigKeyIn(prefix), Marshal(Object(stored))), None)]
  }

  lemma MisleadingStore(prefix: string, stored: Fields)
    ensures var log := MisleadingHistory(prefix, stored);
            && ValidLog(log)
            && StoreAt(log) == map[prefix + "/config/" := Versioned(Blob("", None), 2),
                                   ConfigKeyIn(prefix) := Versioned(Marshal(Object(stored)), 3)]
  {
    var log := MisleadingHistory(prefix, stored);
    assert log[..1] == [log[0]] && log[..2] == log && log[..0] == [] && [log[0]][..0] == [];
    assert |prefix + "/config/"| != |ConfigKeyIn(prefix)|;
    StoreStep([log[0]]);
    StoreStep(log);
  }

  lemma MisleadingShown(prefix: string, stored: Fields)
    ensures var store := StoreAt(MisleadingHistory(prefix, stored));
            Editable(store, prefix) && Shown(store, prefix) == map[]
  {
    hide Shown, Editable, ClassifyRelativePath, Less, StoreAt, ValidLog, MisleadingHistory, ReadsAsConfig;
    var store, sibling := StoreAt(MisleadingHistory(prefix, stored)), prefix + "/config/";
    MisleadingStore(prefix, stored);
    assert |sibling| != |ConfigKeyIn(prefix)|;
    assert store.Keys == {sibling, ConfigKeyIn(prefix)};
    OverridingNames(store, prefix);
    OverrideIsLast(store, prefix, sibling);
    LastKeyIsShown(store, prefix, sibling);
    EditableIffObject(store, prefix);
  }

  /** For every request and every stored configuration there is such a history:
      the plan is issued on an empty configuration. */
  lemma EditOverNothing(request: EditRequest, stored: Fields)
    requires Accepted(request)
    ensures var log := MisleadingHistory(request.prefix, stored); var issued := Issued(request, |log|);
            && ValidLog(log) && Genuine(log, issued)
            && Lookup(StoreAt(log), ConfigKeyOf(request)) == Some(Versioned(Marshal(Object(stored)), 3))
            && Before(log, issued) == map[]
  {
    hide Accepted, Shown, Editable, StoreAt, ValidLog, Before, MisleadingHistory, Genuine, KeyUnder;
    var log := MisleadingHistory(request.prefix, stored);
    MisleadingStore(request.prefix, stored);
    MisleadingShown(request.prefix, stored);
    GenuineNow(log, request);
    BeforeIsShown(log, Issued(request, |log|));
    assert log[..|log|] == log;
  }

  /** And the history goes on with the commit of that plan's write, after which
      what was stored is gone. */
  lemma EditErasesStored(request: EditRequest, stored: Fields, me: nat) returns (log: seq<Request>, issued: Issued)
    requires Accepted(request)
    ensures MisleadingHistory(request.prefix, stored) < log && ValidLog(log) && issued.read < |log| == 3
    ensures Genuine(log, issued) && issued.request == request && log[2] == EditWrite(me, log, issued)
    ensures Overrides(StoreAt(log[..issued.read]), request.prefix, request.prefix + "/config/")
    ensures Lookup(StoreAt(log[..2]), ConfigKeyOf(request)) == Some(Versioned(Marshal(Object(stored)), 3))
    ensures Lookup(StoreAt(log), ConfigKeyOf(request))
            == Some(Versioned(Marshal(Object(After(map[], request.edit))), 4))
  {
    hide Accepted, Shown, Editable, StoreAt, ValidLog, Before, After, MisleadingHistory, Genuine, KeyUnder, Overrides;
    hide Less;
    hide ConfigKeyOf;
    var base := MisleadingHistory(request.prefix, stored);
    issued := Issued(request, 2);
    TwoCommits(request.prefix, stored);
    EditOverNothing(request, stored);
    var write := EditWrite(me, base, issued);
    log := base + [write];
    assert log[..2] == base && base[..2] == base && log[..3] == log;
    WriteStays(base, log, issued, me);
    GuardedAppend(base, write);
    CommitReplacesPrepared(log, issued, me, 2);
    MisleadingStore(request.prefix, stored);
    OverridingNames(StoreAt(base), request.prefix);
  }

  lemma TwoCommits(prefix: string, stored: Fields)
    ensures |MisleadingHistory(prefix, stored)| == 2
  {
  }

  lemma WriteStays(base: seq<Request>, log: seq<Request>, issued: Issued, me: nat)
    requires base <= log && Genuine(base, issued)
    ensures Genuine(log, issued) && EditWrite(me, log, issued) == EditWrite(me, base, issued)
    ensures Before(log, issued) == Before(base, issued)
  {
    hide Accepted, StoreAt, EntriesUnder, DecodeCluster, FindEntry, After;
    assert log[..issued.read] == base[..issued.read];
  }

  lemma GuardedAppend(base: seq<Request>, write: Request)
    requires ValidLog(base) && write.mutation.Put?
             && write.guard == Some(ModRevision(StoreAt(base), write.mutation.key))
    ensures ValidLog(base + [write])
  {
    hide StoreAt;
    var log := base + [write];
    forall i | 0 <= i < |log|
      ensures GuardHolds(StoreAt(log[..i]), log[i]) && Changes(StoreAt(log[..i]), log[i].mutation)
    {
      assert log[..i] == base[..i];
      assert base[..|base|] == base;
    }
  }

  lemma OverrideIsLast(store: Store, prefix: string, sibling: string)
    requires store.Keys == {sibling, ConfigKeyIn(prefix)} && Overrides(store, prefix, sibling)
    ensures ReadsAsConfig(store, prefix, sibling)
    ensures forall other :: ReadsAsConfig(store, prefix, other) ==> !Less(sibling, other)
  {
    hide ClassifyRelativePath;
    LessIrreflexive(sibling);
    LessAsymmetric(ConfigKeyIn(prefix), sibling);
  }

  lemma GenuineNow(log: seq<Request>, request: EditRequest)
    requires Accepted(request) && Editable(StoreAt(log), request.prefix)
    ensures Genuine(log, Issued(request, |log|))
  {
    hide EntriesUnder, DecodeCluster, StoreAt, FindEntry, Accepted;
    assert log[..|log|] == log;
  }
}
