/** Patroni's DCS layout (dcs/path.go, dcs/types.go) and the decoding of one
    cluster's keys into a snapshot (dcs/decode.go). */
module Cluster {
  import opened Text
  import opened Decimal
  import opened Json
  import opened Etcd
  import opened Txn
  import Target

  datatype KeyKind =
    | UnknownKey | InitializeKey | ConfigKey | MemberKey | LeaderKey | FailoverKey
    | HistoryKey | StatusKey | LeaderOptimeKey | SyncKey | FailsafeKey

  // ---- paths ----

  function NamespacePrefix(namespace: string): string {
    "/" + TrimBoth(Target.NormalizeNamespace(namespace), '/') + "/"
  }

  /** ClusterPrefix; None where the source returns an error. */
  function ClusterPrefix(target: Target.Target): Option<string> {
    var t := Target.Normalize(target);
    if Target.Validate(t, true).Some? then None
    else Some(Join(["", TrimBoth(t.namespace, '/'), t.scope] + (if t.group.Some? then [FormatInt(t.group.value)]
                                                                else []), "/"))
  }

  /** The part of a root below its namespace. */
  function ScopePart(scope: string, group: Option<int>): string {
    scope + "/" + (if group.Some? then FormatInt(group.value) + "/" else "")
  }

  /** A cluster's root, split at its namespace. */
  lemma PrefixForm(t: Target.Target)
    requires Target.Normalize(t) == t && ClusterPrefix(t).Some?
    ensures ClusterPrefix(t).value + "/" == "/" + TrimBoth(t.namespace, '/') + "/" + ScopePart(t.scope, t.group)
  {
    hide TrimSpace, TrimBoth, FormatInt, Target.NormalizeNamespace;
    var namespace := TrimBoth(t.namespace, '/');
    var parts := ["", namespace, t.scope] + (if t.group.Some? then [FormatInt(t.group.value)] else []);
    assert ClusterPrefix(t).value == Join(parts, "/");
    if t.group.Some? {
      assert parts[1..] == [namespace, t.scope, FormatInt(t.group.value)];
      assert parts[1..][1..] == [t.scope, FormatInt(t.group.value)];
      assert parts[1..][1..][1..] == [FormatInt(t.group.value)];
      assert Join(parts[1..][1..], "/") == t.scope + "/" + FormatInt(t.group.value);
      assert Join(parts[1..], "/") == namespace + "/" + (t.scope + "/" + FormatInt(t.group.value));
      assert Join(parts, "/") == "/" + (namespace + "/" + (t.scope + "/" + FormatInt(t.group.value)));
    } else {
      assert parts[1..] == [namespace, t.scope];
      assert parts[1..][1..] == [t.scope];
      assert Join(parts[1..], "/") == namespace + "/" + t.scope;
      assert Join(parts, "/") == "/" + (namespace + "/" + t.scope);
    }
  }

  /** KeyPath for the fixed relative paths the commands write. */
  function KeyUnder(prefix: string, relative: string): string { prefix + "/" + relative }

  function CountOf(s: string, c: char): nat {
    if s == "" then 0 else (if s[0] == c then 1 else 0) + CountOf(s[1..], c)
  }

  function ClassifyRelativePath(relative: string): KeyKind {
    var r := TrimBoth(relative, '/');
    if r == "initialize" then InitializeKey
    else if r == "config" then ConfigKey
    else if r == "leader" then LeaderKey
    else if r == "failover" then FailoverKey
    else if r == "history" then HistoryKey
    else if r == "status" then StatusKey
    else if r == "optime/leader" then LeaderOptimeKey
    else if r == "sync" then SyncKey
    else if r == "failsafe" then FailsafeKey
    else if "members/" <= r && CountOf(r, '/') == 1 && TrimPrefix(r, "members/") != "" then MemberKey
    else UnknownKey
  }

  // ---- decoded state ----

  datatype Entry = Entry(key: string, relative: string, kind: KeyKind, modRevision: nat, value: Blob)

  datatype DecodeIssue = DecodeIssue(relative: string, reason: KeyKind)

  datatype MemberData = MemberData(
    apiURL: string, state: string, role: string, version: string,
    pause: Option<bool>, pendingRestart: Option<bool>, scheduledRestart: Json, tags: Fields)

  const NO_DATA := MemberData("", "", "", "", None, None, Null, map[])

  datatype Member = Member(name: string, modRevision: nat, data: MemberData)
  datatype Leader = Leader(name: string, modRevision: nat)
  datatype Failover = Failover(modRevision: nat, leader: string, candidate: string, scheduledAt: string)
  datatype Sync = Sync(modRevision: nat, leader: string, standbys: seq<string>)

  datatype ClusterState = ClusterState(
    initialize: string, config: Fields, members: seq<Member>, leader: Option<Leader>, failover: Option<Failover>,
    history: seq<Json>, sync: Sync, failsafe: map<string, string>, status: Option<Entry>)

  const EMPTY_CLUSTER := ClusterState("", map[], [], None, None, [], Sync(0, "", []), map[], None)

  // ---- typed JSON fields ----

  /** A string field of a decoded struct: absent and null read as "". */
  function StringField(fields: Fields, key: string): Option<string> {
    match Get(fields, key)
    case Null => Some("")
    case String(text) => Some(text)
    case _ => None
  }

  function BoolField(fields: Fields, key: string): Option<Option<bool>> {
    match Get(fields, key)
    case Null => Some(None)
    case Bool(truth) => Some(Some(truth))
    case _ => None
  }

  function ObjectField(fields: Fields, key: string): Option<Fields> {
    match Get(fields, key)
    case Null => Some(map[])
    case Object(inner) => Some(inner)
    case _ => None
  }

  /** What a struct decoder sees: the fields of an object, none for null. */
  function StructFields(value: Blob): Option<Fields> {
    match value.json
    case Some(Object(fields)) => Some(fields)
    case Some(Null) => Some(map[])
    case _ => None
  }

  function DecodeMemberData(value: Blob): Option<MemberData> {
    match StructFields(value)
    case None => None
    case Some(f) =>
      match (StringField(f, "api_url"), StringField(f, "state"), StringField(f, "role"), StringField(f, "version"),
             BoolField(f, "pause"), BoolField(f, "pending_restart"), ObjectField(f, "tags"))
      case (Some(api), Some(state), Some(role), Some(version), Some(pause), Some(pending), Some(tags)) =>
        Some(MemberData(api, state, role, version, pause, pending, Get(f, "scheduled_restart"), tags))
      case _ => None
  }

  function DecodeFailover(entry: Entry): Failover {
    match StructFields(entry.value)
    case Some(f) =>
      (match (StringField(f, "leader"), StringField(f, "member"), StringField(f, "scheduled_at"))
       case (Some(leader), Some(candidate), Some(at)) => Failover(entry.modRevision, leader, candidate, at)
       case _ => LegacyFailover(entry))
    case None => LegacyFailover(entry)
  }

  /** The legacy text leader:candidate. */
  function LegacyFailover(entry: Entry): Failover {
    var parts := Split(entry.value.text, ':');
    Failover(entry.modRevision, TrimSpace(parts[0]), if |parts| > 1 then TrimSpace(parts[1]) else "", "")
  }

  function NonEmptyTrimmed(parts: seq<string>): seq<string> {
    if parts == [] then []
    else (if TrimSpace(parts[0]) == "" then [] else [TrimSpace(parts[0])]) + NonEmptyTrimmed(parts[1..])
  }

  function DecodeSync(entry: Entry): Option<Sync> {
    match StructFields(entry.value)
    case None => None
    case Some(f) =>
      match (StringField(f, "leader"), StringField(f, "sync_standby"))
      case (Some(leader), Some(standbys)) =>
        Some(Sync(entry.modRevision, leader, if leader == "" then [] else NonEmptyTrimmed(Split(standbys, ','))))
      case _ => None
  }

  function DecodeHistory(value: Blob): Option<seq<Json>> {
    match value.json
    case Some(Array(items)) => Some(items)
    case Some(Null) => Some([])
    case _ => None
  }

  function DecodeFailsafe(value: Blob): Option<map<string, string>> {
    match StructFields(value)
    case None => None
    case Some(f) =>
      if forall key :: key in f ==> StringField(f, key).Some? then
           Some(map key | key in f :: StringField(f, key).value) else None
  }

  // ---- decodeCluster ----

  /** A snapshot under construction: the cluster, the issues so far, and the
      entries kept for the status lookup. */
  datatype Decoding = Decoding(cluster: ClusterState, issues: seq<DecodeIssue>, status: Option<Entry>,
                               optime: Option<Entry>)

  const NOTHING_DECODED := Decoding(EMPTY_CLUSTER, [], None, None)

  function Issue(d: Decoding, entry: Entry): Decoding {
    d.(issues := d.issues + [DecodeIssue(entry.relative, entry.kind)])
  }

  function MemberName(relative: string): string { TrimPrefix(relative, "members/") }

  function DecodeMember(d: Decoding, entry: Entry): Decoding {
    var name := MemberName(entry.relative);
    var legacy := "postgres" <= entry.value.text;
    var data := if legacy then Some(NO_DATA) else DecodeMemberData(entry.value);
    var member := Member(name, entry.modRevision, if data.Some? then data.value else NO_DATA);
    var next := d.(cluster := d.cluster.(members := d.cluster.members + [member]));
    if data.None? then Issue(next, entry) else next
  }

  function RememberByPath(d: Decoding, entry: Entry): Decoding {
    if entry.relative == "status" then d.(status := Some(entry))
    else if entry.relative == "optime/leader" then d.(optime := Some(entry))
    else d
  }

  /** One turn of the loop in decodeCluster. */
  function DecodeEntry(before: Decoding, entry: Entry): Decoding {
    var d := RememberByPath(before, entry);
    match entry.kind
    case InitializeKey => d.(cluster := d.cluster.(initialize := entry.value.text))
    case ConfigKey =>
      (match entry.value.json
       case Some(Object(fields)) => d.(cluster := d.cluster.(config := fields))
       case _ => Issue(d.(cluster := d.cluster.(config := map[])), entry))
    case MemberKey => DecodeMember(d, entry)
    case LeaderKey => d.(cluster := d.cluster.(leader := Some(Leader(entry.value.text, entry.modRevision))))
    case FailoverKey =>
      var f := DecodeFailover(entry);
      var next := d.(cluster := d.cluster.(failover := Some(f)));
      if f.leader == "" && f.candidate == "" && !TypedFailover(entry.value) then Issue(next, entry) else next
    case HistoryKey =>
      (match DecodeHistory(entry.value)
       case Some(items) => d.(cluster := d.cluster.(history := items))
       case None => Issue(d, entry))
    case SyncKey =>
      (match DecodeSync(entry)
       case Some(sync) => d.(cluster := d.cluster.(sync := sync))
       case None => Issue(d.(cluster := d.cluster.(sync := Sync(entry.modRevision, "", []))), entry))
    case FailsafeKey =>
      (match DecodeFailsafe(entry.value)
       case Some(topology) => d.(cluster := d.cluster.(failsafe := topology))
       case None => Issue(d, entry))
    case _ => d
  }

  predicate TypedFailover(value: Blob) {
    match StructFields(value)
    case Some(f) =>
      StringField(f, "leader").Some? && StringField(f, "member").Some? && StringField(f, "scheduled_at").Some?
    case None => false
  }

  function DecodeAll(entries: seq<Entry>): Decoding {
    if entries == [] then NOTHING_DECODED
    else DecodeEntry(DecodeAll(entries[..|entries| - 1]), entries[|entries| - 1])
  }

  function InsertMember(sorted: seq<Member>, member: Member): seq<Member> {
    if sorted == [] || Less(member.name, sorted[0].name) then [member] + sorted
    else [sorted[0]] + InsertMember(sorted[1..], member)
  }

  function SortMembers(members: seq<Member>): seq<Member> {
    if members == [] then [] else InsertMember(SortMembers(members[..|members| - 1]), members[|members| - 1])
  }

  /** The lookups after the loop: status wins over the legacy optime, members
      are sorted by name. */
  function Finish(d: Decoding): (ClusterState, seq<DecodeIssue>) {
    (d.cluster.(status := if d.status.Some? then d.status else d.optime, members := SortMembers(d.cluster.members)),
     d.issues)
  }

  function DecodeCluster(entries: seq<Entry>): (ClusterState, seq<DecodeIssue>) {
    Finish(DecodeAll(entries))
  }

  /** decodeCluster's loop over the sorted entries. */
  method DecodeClusterLoop(entries: seq<Entry>) returns (cluster: ClusterState, issues: seq<DecodeIssue>)
    ensures (cluster, issues) == DecodeCluster(entries)
  {
    var d := NOTHING_DECODED;
    var i := 0;
    while i < |entries|
      invariant i <= |entries|
      invariant d == DecodeAll(entries[..i])
    {
      assert entries[..i + 1][..i] == entries[..i];
      d := DecodeEntry(d, entries[i]);
      i := i + 1;
    }
    assert entries[..i] == entries;
    var finished := Finish(d);
    return finished.0, finished.1;
  }

  // ---- snapshots ----

  datatype Snapshot = Snapshot(revision: nat, entries: seq<Entry>, cluster: ClusterState, issues: seq<DecodeIssue>)

  function EntryAt(store: Store, prefix: string, key: string): Entry
    requires key in store && prefix + "/" <= key
  {
    var relative := key[|prefix| + 1..];
    Entry(key, relative, ClassifyRelativePath(relative), store[key].modRevision, store[key].value)
  }

  function EntriesOf(store: Store, prefix: string, keys: seq<string>): seq<Entry>
    requires forall key :: key in keys ==> key in store && prefix + "/" <= key
  {
    if keys == [] then [] else [EntryAt(store, prefix, keys[0])] + EntriesOf(store, prefix, keys[1..])
  }

  lemma {:induction false} EntriesOfKeys(store: Store, prefix: string, keys: seq<string>)
    requires forall key :: key in keys ==> key in store && prefix + "/" <= key
    ensures |EntriesOf(store, prefix, keys)| == |keys|
    ensures forall i :: 0 <= i < |keys| ==> EntriesOf(store, prefix, keys)[i] == EntryAt(store, prefix, keys[i])
  {
    hide EntryAt;
    if keys != [] {
      assert forall key :: key in keys[1..] ==> key in keys;
      EntriesOfKeys(store, prefix, keys[1..]);
    }
  }

  /** The entries a prefix read returns, in key order. */
  function EntriesUnder(store: Store, prefix: string): seq<Entry> {
    var keys := SortedKeys(Matching(store, prefix + "/"));
    assert forall key :: key in keys ==> key in Matching(store, prefix + "/");
    EntriesOf(store, prefix, keys)
  }

  /** What a read at `revision` makes of a store. */
  function ReadStore(store: Store, revision: nat, prefix: string): Snapshot {
    var entries := EntriesUnder(store, prefix);
    var decoded := DecodeCluster(entries);
    Snapshot(revision, entries, decoded.0, decoded.1)
  }

  function SnapshotOf(log: seq<Request>, prefix: string): Snapshot {
    ReadStore(StoreAt(log), HeaderRevision(log), prefix)
  }

  function ClusterAt(log: seq<Request>, prefix: string): ClusterState {
    SnapshotOf(log, prefix).cluster
  }

  /** snapshot.Entry(relativePath). */
  function FindEntry(entries: seq<Entry>, relative: string): Option<Entry> {
    FindEntryFrom(entries, relative, 0)
  }

  function FindEntryFrom(entries: seq<Entry>, relative: string, i: nat): Option<Entry>
    decreases |entries| - i
  {
    if i >= |entries| then None
    else if entries[i].relative == relative then Some(entries[i])
    else FindEntryFrom(entries, relative, i + 1)
  }

  // ---- what decoding depends on ----

  lemma EntryFailover(d: Decoding, entry: Entry)
    ensures DecodeEntry(d, entry).cluster.failover == if entry.kind == FailoverKey then Some(DecodeFailover(entry))
            else d.cluster.failover
  {
    hide DecodeMemberData, DecodeFailover, DecodeSync, DecodeFailsafe, DecodeHistory, TypedFailover;
  }

  /** The decoded failover is that of the last failover entry. */
  lemma {:induction false} FailoverComesFromEntry(entries: seq<Entry>)
    ensures match DecodeAll(entries).cluster.failover
            case None => forall e :: e in entries ==> e.kind != FailoverKey
            case Some(f) => exists e :: e in entries && e.kind == FailoverKey && f == DecodeFailover(e)
  {
    hide DecodeEntry, DecodeFailover;
    if entries != [] {
      var front, last := entries[..|entries| - 1], entries[|entries| - 1];
      FailoverComesFromEntry(front);
      EntryFailover(DecodeAll(front), last);
      assert entries == front + [last];
      if last.kind == FailoverKey {
        assert last in entries && DecodeAll(entries).cluster.failover == Some(DecodeFailover(last));
      } else {
        assert DecodeAll(entries).cluster.failover == DecodeAll(front).cluster.failover;
        if DecodeAll(front).cluster.failover.Some? {
          var e :| e in front && e.kind == FailoverKey && DecodeAll(front).cluster.failover.value == DecodeFailover(e);
          assert e in entries;
        }
      }
    }
  }

  lemma EntriesUnderKeys(store: Store, prefix: string)
    ensures var keys := SortedKeys(Matching(store, prefix + "/"));
            && |EntriesUnder(store, prefix)| == |keys|
            && forall i :: 0 <= i < |keys| ==>
                 keys[i] in store && prefix + "/" <= keys[i]
                 && EntriesUnder(store, prefix)[i] == EntryAt(store, prefix, keys[i])
  {
    hide EntryAt, SortedKeys, Ascending, EntriesOf;
    var keys := SortedKeys(Matching(store, prefix + "/"));
    assert forall key :: key in keys ==> key in Matching(store, prefix + "/");
    EntriesOfKeys(store, prefix, keys);
    assert forall i :: 0 <= i < |keys| ==> keys[i] in keys;
  }

  lemma EntriesUnderMembers(store: Store, prefix: string)
    ensures forall e :: e in EntriesUnder(store, prefix) ==>
              e.key in store && prefix + "/" <= e.key && e == EntryAt(store, prefix, e.key)
    ensures forall key :: key in store && prefix + "/" <= key ==>
              EntryAt(store, prefix, key) in EntriesUnder(store, prefix)
  {
    hide ClassifyRelativePath, EntriesUnder, SortedKeys, Ascending;
    var keys := SortedKeys(Matching(store, prefix + "/"));
    var entries := EntriesUnder(store, prefix);
    EntriesUnderKeys(store, prefix);
    forall e | e in entries
      ensures e.key in store && prefix + "/" <= e.key && e == EntryAt(store, prefix, e.key)
    {
      var i :| 0 <= i < |entries| && entries[i] == e;
      assert e == EntryAt(store, prefix, keys[i]);
    }
    forall key | key in store && prefix + "/" <= key
      ensures EntryAt(store, prefix, key) in entries
    {
      assert key in Matching(store, prefix + "/");
      assert key in keys;
      var i :| 0 <= i < |keys| && keys[i] == key;
      assert entries[i] == EntryAt(store, prefix, key);
    }
  }

  lemma FailoverKeyIsClassified(store: Store, prefix: string)
    requires KeyUnder(prefix, "failover") in store
    ensures prefix + "/" <= KeyUnder(prefix, "failover")
    ensures EntryAt(store, prefix, KeyUnder(prefix, "failover")).kind == FailoverKey
  {
    assert KeyUnder(prefix, "failover")[|prefix| + 1..] == "failover";
    assert TrimBoth("failover", '/') == "failover";
  }

  /** The failover a snapshot shows comes from some key of the cluster. */
  lemma SnapshotFailoverEntry(log: seq<Request>, prefix: string)
    ensures match ClusterAt(log, prefix).failover
            case None => KeyUnder(prefix, "failover") !in StoreAt(log)
            case Some(f) => exists key :: key in StoreAt(log) && prefix + "/" <= key
                                          && f == DecodeFailover(EntryAt(StoreAt(log), prefix, key))
  {
    hide ClassifyRelativePath, DecodeFailover;
    var store := StoreAt(log);
    var entries := EntriesUnder(store, prefix);
    EntriesUnderMembers(store, prefix);
    FailoverComesFromEntry(entries);
    assert ClusterAt(log, prefix).failover == DecodeAll(entries).cluster.failover;
    if KeyUnder(prefix, "failover") in store {
      FailoverKeyIsClassified(store, prefix);
    }
  }

  lemma DecodedFailoverRevision(entry: Entry)
    ensures DecodeFailover(entry).modRevision == entry.modRevision
  {
  }

  /** The guard the commands take from a snapshot: zero exactly for an absent
      key, and otherwise the revision of the shown event, which no other key
      ever shares with the failover key. */
  lemma SnapshotFailover(log: seq<Request>, prefix: string)
    ensures var key := KeyUnder(prefix, "failover");
            match ClusterAt(log, prefix).failover
            case None => ModRevision(StoreAt(log), key) == 0
            case Some(f) =>
              && 2 <= f.modRevision <= HeaderRevision(log)
              && (ModRevision(StoreAt(log), key) == f.modRevision ==>
                  f == DecodeFailover(EntryAt(StoreAt(log), prefix, key)))
              && (ModRevision(StoreAt(log), key) != f.modRevision ==>
                    exists other :: other in StoreAt(log) && other != key
                                    && StoreAt(log)[other].modRevision == f.modRevision)
  {
    hide ClassifyRelativePath, DecodeFailover, DecodeAll, StoreAt;
    SnapshotFailoverEntry(log, prefix);
    var store := StoreAt(log);
    var failover := ClusterAt(log, prefix).failover;
    if failover.Some? {
      var at :| at in store && prefix + "/" <= at && failover.value == DecodeFailover(EntryAt(store, prefix, at));
      DecodedFailoverRevision(EntryAt(store, prefix, at));
      RevisionsBelowHeader(log, at);
      if ModRevision(store, KeyUnder(prefix, "failover")) == failover.value.modRevision {
        RevisionIdentifiesKey(log, at, KeyUnder(prefix, "failover"));
      }
    }
  }

  /** The ModRevision a command expects of the failover key. */
  function FailoverGuard(cluster: ClusterState): nat {
    match cluster.failover
    case None => 0
    case Some(f) => f.modRevision
  }

  /** A write of the failover key that was guarded with a snapshot's event, if
      it ever commits, finds the key exactly as that snapshot did. */
  lemma GuardFromSnapshot(log: seq<Request>, read: nat, i: nat, prefix: string)
    requires ValidLog(log) && read <= i < |log|
    requires log[i].mutation.Put? || log[i].mutation.Delete?
    requires log[i].mutation.key == KeyUnder(prefix, "failover")
    requires log[i].guard == Some(FailoverGuard(ClusterAt(log[..read], prefix)))
    ensures var key := KeyUnder(prefix, "failover");
            && Lookup(StoreAt(log[..i]), key) == Lookup(StoreAt(log[..read]), key)
            && match ClusterAt(log[..read], prefix).failover
               case None => key !in StoreAt(log[..i])
               case Some(f) => key in StoreAt(log[..i]) && f == DecodeFailover(EntryAt(StoreAt(log[..i]), prefix, key))
  {
    hide ClassifyRelativePath, DecodeFailover, DecodeAll, StoreAt, ClusterAt;
    var key := KeyUnder(prefix, "failover");
    SnapshotFailover(log[..read], prefix);
    assert GuardHolds(StoreAt(log[..i]), log[i]);
    var failover := ClusterAt(log[..read], prefix).failover;
    if failover.Some? && ModRevision(StoreAt(log[..read]), key) != failover.value.modRevision {
      var other :| other in StoreAt(log[..read]) && other != key
          && StoreAt(log[..read])[other].modRevision == failover.value.modRevision;
      OldRevisionUnchanged(log, read, i, key);
    }
    GuardedCommitFindsEntry(log, read, i, key);
    if key in StoreAt(log[..read]) {
      RevisionsBelowHeader(log[..read], key);
    }
  }
}
