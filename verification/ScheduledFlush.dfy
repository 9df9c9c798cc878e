/** A history in which a flush has something to do: a scheduled switchover and two
    members, with the plan that PrepareFlush makes of it. */
module ScheduledFlush {
  import opened Text
  import opened Decimal
  import opened Json
  import opened Etcd
  import opened Txn
  import opened Cluster
  import opened Control
  import opened Effects
  import opened Members
  import opened Flush
  import Target

  const EVENT: Blob := Marshal(Object(map["leader" := String("a"), "member" := String("b"),
                                          "scheduled_at" := String("at")]))
  const REACHABLE: Blob := Marshal(Object(map["api_url" := String("u"), "version" := String("v")]))

  function MemberKeyOf(prefix: string, name: string): string { prefix + "/members/" + name }

  function EventHistory(prefix: string): seq<Request> {
    [Request(0, Put(KeyUnder(prefix, "failover"), EVENT), None),
     Request(0, Put(MemberKeyOf(prefix, "a"), REACHABLE), None),
     Request(0, Put(MemberKeyOf(prefix, "b"), REACHABLE), None)]
  }

  function EventStore(prefix: string): Store {
    map[KeyUnder(prefix, "failover") := Versioned(EVENT, 2),
        MemberKeyOf(prefix, "a") := Versioned(REACHABLE, 3),
        MemberKeyOf(prefix, "b") := Versioned(REACHABLE, 4)]
  }

  lemma KeysInOrder(prefix: string)
    ensures Ascending([KeyUnder(prefix, "failover"), MemberKeyOf(prefix, "a"), MemberKeyOf(prefix, "b")])
  {
    var f, a, b := KeyUnder(prefix, "failover"), MemberKeyOf(prefix, "a"), MemberKeyOf(prefix, "b");
    assert f == (prefix + "/") + "failover" && a == (prefix + "/") + "members/a" && b == (prefix + "/") + "members/b";
    LessBehind(prefix + "/", "failover", "members/a");
    LessBehind(prefix + "/", "failover", "members/b");
    LessBehind(prefix + "/members/", "a", "b");
  }

  lemma HistoryStore(prefix: string)
    ensures ValidLog(EventHistory(prefix)) && StoreAt(EventHistory(prefix)) == EventStore(prefix)
  {
    var log := EventHistory(prefix);
    assert log[..0] == [] && log[..1][..0] == [] && log[..2][..1] == log[..1] && log[..3][..2] == log[..2]
           && log[..3] == log;
    StoreStep(log[..1]);
    StoreStep(log[..2]);
    StoreStep(log);
    KeysInOrder(prefix);
    LessIrreflexive(KeyUnder(prefix, "failover"));
    LessIrreflexive(MemberKeyOf(prefix, "a"));
  }

  function EntriesOfEvent(prefix: string): seq<Entry> {
    [Entry(KeyUnder(prefix, "failover"), "failover", FailoverKey, 2, EVENT),
     Entry(MemberKeyOf(prefix, "a"), "members/a", MemberKey, 3, REACHABLE),
     Entry(MemberKeyOf(prefix, "b"), "members/b", MemberKey, 4, REACHABLE)]
  }

  lemma FailoverClassified()
    ensures ClassifyRelativePath("failover") == FailoverKey
  {
    assert TrimBoth("failover", '/') == "failover";
  }

  lemma MemberClassified(path: string)
    requires path == "members/a" || path == "members/b"
    ensures ClassifyRelativePath(path) == MemberKey
  {
    assert TrimBoth(path, '/') == path;
    SlashFree(path, 7);
    OneSlash(path[7..]);
    assert TrimPrefix(path, "members/") == path[8..];
  }

  lemma OneSlash(s: string)
    requires s == "/a" || s == "/b"
    ensures CountOf(s, '/') == 1
  {
    assert s[1..][1..] == "" && s[1..][0] != '/';
    assert CountOf(s[1..], '/') == CountOf("", '/') == 0;
  }

  lemma {:induction false} SlashFree(path: string, n: nat)
    requires n <= |path| && forall i :: 0 <= i < n ==> path[i] != '/'
    ensures CountOf(path, '/') == CountOf(path[n..], '/')
  {
    if n > 0 {
      SlashFree(path[1..], n - 1);
      assert path[1..][n - 1..] == path[n..];
    }
  }

  lemma EntriesRead(prefix: string)
    ensures EntriesUnder(EventStore(prefix), prefix) == EntriesOfEvent(prefix)
  {
    hide ClassifyRelativePath, Less, SortedKeys;
    var store := EventStore(prefix);
    var keys := [KeyUnder(prefix, "failover"), MemberKeyOf(prefix, "a"), MemberKeyOf(prefix, "b")];
    KeysInOrder(prefix);
    assert keys[0][|prefix| + 1..] == "failover" && keys[1][|prefix| + 1..] == "members/a"
           && keys[2][|prefix| + 1..] == "members/b";
    assert forall key :: key in Matching(store, prefix + "/") <==> key in keys;
    AscendingUnique(SortedKeys(Matching(store, prefix + "/")), keys);
    EntriesUnderKeys(store, prefix);
    FailoverClassified();
    MemberClassified("members/a");
    MemberClassified("members/b");
  }

  function MemberOf(name: string, revision: nat): Member {
    Member(name, revision, NO_DATA.(apiURL := "u", version := "v"))
  }

  lemma FailoverStep(key: string)
    ensures DecodeEntry(NOTHING_DECODED, Entry(key, "failover", FailoverKey, 2, EVENT))
            == NOTHING_DECODED.(cluster := EMPTY_CLUSTER.(failover := Some(Cluster.Failover(2, "a", "b", "at"))))
  {
  }

  lemma MemberStep(d: Decoding, key: string, relative: string, name: string, revision: nat)
    requires relative == "members/" + name
    ensures DecodeEntry(d, Entry(key, relative, MemberKey, revision, REACHABLE))
            == d.(cluster := d.cluster.(members := d.cluster.members + [MemberOf(name, revision)]))
  {
    assert MemberName(relative) == name;
    assert relative != "status" && relative != "optime/leader" by {
      assert relative[0] == 'm';
    }
  }

  lemma EventDecoded(prefix: string)
    ensures var cluster := DecodeCluster(EntriesOfEvent(prefix)).0;
            && cluster.failover == Some(Cluster.Failover(2, "a", "b", "at"))
            && cluster.members == [MemberOf("a", 3), MemberOf("b", 4)] && cluster.leader == None
  {
    hide DecodeEntry, SortMembers;
    var entries := EntriesOfEvent(prefix);
    var one, two := [entries[0]], [entries[0], entries[1]];
    assert entries[..2] == two && two[..1] == one && one[..0] == [];
    FailoverStep(entries[0].key);
    assert DecodeAll(one) == DecodeEntry(DecodeAll([]), entries[0]);
    MemberStep(DecodeAll(one), entries[1].key, "members/a", "a", 3);
    assert DecodeAll(two) == DecodeEntry(DecodeAll(one), entries[1]);
    MemberStep(DecodeAll(two), entries[2].key, "members/b", "b", 4);
    assert DecodeAll(entries) == DecodeEntry(DecodeAll(two), entries[2]);
    assert [] + [MemberOf("a", 3)] == [MemberOf("a", 3)];
    assert [MemberOf("a", 3)] + [MemberOf("b", 4)] == [MemberOf("a", 3), MemberOf("b", 4)];
    TwoSorted(MemberOf("a", 3), MemberOf("b", 4));
  }

  lemma TwoSorted(a: Member, b: Member)
    requires !Less(b.name, a.name)
    ensures SortMembers([a, b]) == [a, b]
  {
    hide Less;
    assert [a, b][..1] == [a] && [a][..0] == [] && [a][1..] == [];
    assert SortMembers([a]) == InsertMember([], a) == [a];
    assert InsertMember([], b) == [b];
    assert InsertMember([a], b) == [a] + [b];
  }

  function IntentOf(target: Target.Target, prefix: string): FlushIntent {
    FlushIntent(target, target, prefix, [], "any", false, false)
  }

  function PlanOf(target: Target.Target, prefix: string): Plan {
    BuildFlushPlan("id", "flush", IntentOf(target, prefix), SnapshotOf(EventHistory(prefix), prefix), "-")
  }

  lemma ClusterRead(prefix: string)
    ensures var cluster := ClusterAt(EventHistory(prefix), prefix);
            && cluster == SnapshotOf(EventHistory(prefix), prefix).cluster
            && cluster.failover == Some(Cluster.Failover(2, "a", "b", "at"))
            && cluster.members == [MemberOf("a", 3), MemberOf("b", 4)] && cluster.leader == None
  {
    hide StoreAt, EventHistory, EntriesUnder, DecodeCluster;
    HistoryStore(prefix);
    EntriesRead(prefix);
    EventDecoded(prefix);
  }

  lemma ReachableFirst(member: Member, rest: seq<Member>)
    requires member.name != "" && member.data.apiURL == "u"
    ensures OtherReachable([member] + rest, "") == [member] + OtherReachable(rest, "")
  {
    hide TrimSpace;
    GraphicEndsTrimmed("u");
    TrimSpaceOfTrimmed("u");
    assert ([member] + rest)[1..] == rest;
  }

  lemma TargetsOf(target: Target.Target, prefix: string)
    ensures MemberTargets(target, LeaderFirst(ClusterAt(EventHistory(prefix), prefix)))
            == [target.(member := "a"), target.(member := "b")]
  {
    hide ClusterAt, TrimSpace, EventHistory, OtherReachable;
    ClusterRead(prefix);
    var a, b := MemberOf("a", 3), MemberOf("b", 4);
    ReachableFirst(b, []);
    ReachableFirst(a, [b]);
    NobodyReachable();
    assert [a, b] == [a] + [b] && [b] == [b] + [];
    assert LeaderFirst(ClusterAt(EventHistory(prefix), prefix)) == [a, b];
  }

  lemma NobodyReachable()
    ensures OtherReachable([], "") == []
  {
  }

  lemma MemberTargetValid(target: Target.Target, name: string)
    requires Target.Normalize(target) == target && Target.Validate(target, true).None? && target.member == ""
    requires name == "a" || name == "b"
    ensures var t := target.(member := name);
            Target.Normalize(t) == t && Target.Validate(t, true).None? && SameCluster(t, target)
  {
    hide TrimSpace, Target.NormalizeNamespace;
    GraphicEndsTrimmed(name);
    TrimSpaceOfTrimmed(name);
    assert !Target.InvalidIdentityPart(name);
  }

  lemma PlanIsValid(target: Target.Target, prefix: string)
    requires Target.Normalize(target) == target && Target.Validate(target, true).None? && target.member == ""
    ensures PlanOf(target, prefix).targets == [target.(member := "a"), target.(member := "b")]
    ensures PlanValid(PlanOf(target, prefix))
  {
    hide ClusterAt, SnapshotOf, EventHistory, LeaderFirst, MemberTargets, Target.Normalize, Target.Validate, Itoa, Join;
    hide RequestFields, EventFields, SameCluster;
    ClusterRead(prefix);
    TargetsOf(target, prefix);
    MemberTargetValid(target, "a");
    MemberTargetValid(target, "b");
  }

  lemma EventKeys(event: Cluster.Failover, targets: seq<Target.Target>)
    ensures EventFields(event, targets).Keys
            == {FailoverRevision, FailoverLeader, FailoverCandidate, FailoverScheduledAt, RestMembers}
    ensures EventFields(event, targets)[RestMembers] == Join(TargetNames(targets), ",")
  {
    hide Itoa, Join, TargetNames;
  }

  lemma PlanFields(plan: Plan, revision: nat, intent: FlushIntent, groups: string, event: Cluster.Failover)
    requires plan.preconditions == RequestFields(revision, intent, groups) + EventFields(event, plan.targets)
    ensures Expected(plan, FlushEvent) == Some("switchover")
    ensures Expected(plan, SelectorRole) == Some(intent.role)
    ensures Expected(plan, SelectorMembers) == Some(Join(intent.members, ","))
    ensures Expected(plan, RequestForce) == Some(FormatBool(intent.force))
    ensures Expected(plan, RequestCitus) == Some(FormatBool(intent.citus))
    ensures Expected(plan, CitusGroups) == Some(groups)
    ensures Expected(plan, RestMembers) == Some(Join(TargetNames(plan.targets), ","))
  {
    hide Itoa, Join, TargetNames, FormatBool, EventFields, Expected;
    var requested, fields := RequestFields(revision, intent, groups), EventFields(event, plan.targets);
    EventKeys(event, plan.targets);
    FieldKept(plan, requested, fields, RestMembers);
    FieldKept(plan, requested, fields, FlushEvent);
    FieldKept(plan, requested, fields, SelectorRole);
    FieldKept(plan, requested, fields, SelectorMembers);
    FieldKept(plan, requested, fields, RequestForce);
    FieldKept(plan, requested, fields, RequestCitus);
    FieldKept(plan, requested, fields, CitusGroups);
  }

  lemma FieldKept(plan: Plan, requested: map<Field, string>, fields: map<Field, string>, field: Field)
    requires plan.preconditions == requested + fields
    ensures field in fields ==> Expected(plan, field) == Some(fields[field])
    ensures field !in fields && field in requested ==> Expected(plan, field) == Some(requested[field])
  {
  }

  /** For every valid cluster the prepared plan has two members, is accepted, and
      is confirmed by the history it was prepared on. */
  lemma PlanStands(target: Target.Target, prefix: string)
    requires Target.Normalize(target) == target && Target.Validate(target, true).None? && target.member == ""
    ensures var cluster := ClusterAt(EventHistory(prefix), prefix);
            && FlushPlanAccepted(PlanOf(target, prefix), IntentOf(target, prefix))
               && |PlanOf(target, prefix).targets| == 2
            && Scheduled(cluster) && Revalidates(PlanOf(target, prefix), cluster.failover.value, cluster, target)
  {
    hide ClusterAt, SnapshotOf, EventHistory, LeaderFirst, MemberTargets, Target.Normalize, Join, PlanValid;
    hide TargetNames;
    hide Expected, RequestFields, EventFields, ConfirmsEvent, FormatBool;
    ClusterRead(prefix);
    PlanIsValid(target, prefix);
    TargetsOf(target, prefix);
    var plan, intent := PlanOf(target, prefix), IntentOf(target, prefix);
    var snapshot := SnapshotOf(EventHistory(prefix), prefix);
    PlanFields(plan, snapshot.revision, intent, "-", snapshot.cluster.failover.value);
    EventFieldsExpected(plan, snapshot.cluster.failover.value, RequestFields(snapshot.revision, intent, "-"));
  }

  /** So there is a run of the command whose first attempt is ambiguous and takes
      effect, and whose second is answered 404: the loop ends Missing, which is
      reported FAILED. */
  lemma MissingRunExists(target: Target.Target, prefix: string, me: nat)
    returns (plan: Plan, replies: seq<HttpReply>, rounds: seq<Round>)
    requires Target.Normalize(target) == target && Target.Validate(target, true).None? && target.member == ""
    requires me != 0
    ensures LoopRun(me, plan.targets, replies, rounds) && |rounds| == |plan.targets| == 2
    ensures EndingOf(ResultsOf(plan.targets, replies), plan.targets) == Missing
            && HasUnknown(ResultsOf(plan.targets, replies))
    ensures NoEffect(me, rounds[0].before) && !NoEffect(me, rounds[|rounds| - 1].after)
    ensures FlushPlanAccepted(plan, IntentOf(target, prefix)) && rounds[0].before.log == EventHistory(prefix)
    ensures forall service: Service :: service.supportedVersion("v") ==>
              SupportsCluster(service, ClusterAt(EventHistory(prefix), prefix))
  {
    hide Target.Normalize, Target.Validate, PlanOf, Revalidates, FlushPlanAccepted, ClusterAt, Scheduled, IntentOf;
    hide EndingOf, ResultsOf, HasUnknown;
    var s := State(EventHistory(prefix), multiset{}, [], multiset{});
    assert forall r: Request :: r in s.log ==> r.author == 0;
    PlanStands(target, prefix);
    plan := PlanOf(target, prefix);
    replies := [HttpReply(0, "", HttpUntyped), HttpReply(404, "", HttpReceived)];
    assert EndsMissing(replies) && AmbiguousReply(replies[0]);
    IntentParts(target, prefix);
    Supported(prefix);
    rounds := NotFoundAfterAmbiguity(me, s, IntentOf(target, prefix), plan, replies, 0);
  }

  lemma Supported(prefix: string)
    ensures forall service: Service :: service.supportedVersion("v") ==>
              SupportsCluster(service, ClusterAt(EventHistory(prefix), prefix))
  {
    hide ClusterAt, TrimSpace;
    ClusterRead(prefix);
    GraphicEndsTrimmed("v");
    TrimSpaceOfTrimmed("v");
  }

  lemma IntentParts(target: Target.Target, prefix: string)
    ensures IntentOf(target, prefix).prefix == prefix && IntentOf(target, prefix).effective == target
  {
  }
}
