/** A history on which a pause that waits breaks the rule for write results: a plan
    is prepared, another writer sets the flag, and the planned member has not
    followed. */
module WaitingPause {
  import opened Text
  import opened Json
  import opened Etcd
  import opened Txn
  import opened Cluster
  import opened Control
  import opened Members
  import opened Pause
  import F = ScheduledFlush
  import Target

  const FLAG: Fields := map["pause" := Bool(true)]

  function Planned(prefix: string): seq<Request> {
    [Request(0, Put(F.MemberKeyOf(prefix, "a"), F.REACHABLE), None)]
  }

  function FlagSet(prefix: string): seq<Request> {
    Planned(prefix) + [Request(0, Put(KeyUnder(prefix, "config"), Marshal(Object(FLAG))), None)]
  }

  function MemberEntry(prefix: string): Entry {
    Entry(F.MemberKeyOf(prefix, "a"), "members/a", MemberKey, 2, F.REACHABLE)
  }

  function ConfigEntry(prefix: string): Entry {
    Entry(KeyUnder(prefix, "config"), "config", ConfigKey, 3, Marshal(Object(FLAG)))
  }

  lemma KeysInOrder(prefix: string)
    ensures Ascending([KeyUnder(prefix, "config"), F.MemberKeyOf(prefix, "a")])
  {
    LessBehind(prefix + "/", "config", "members/a");
    assert KeyUnder(prefix, "config") == (prefix + "/") + "config";
    assert F.MemberKeyOf(prefix, "a") == (prefix + "/") + "members/a";
  }

  lemma Stores(prefix: string)
    ensures ValidLog(FlagSet(prefix)) && FlagSet(prefix)[..1] == Planned(prefix)
    ensures StoreAt(Planned(prefix)) == map[F.MemberKeyOf(prefix, "a") := Versioned(F.REACHABLE, 2)]
    ensures StoreAt(FlagSet(prefix)) == map[F.MemberKeyOf(prefix, "a") := Versioned(F.REACHABLE, 2),
                                            KeyUnder(prefix, "config") := Versioned(Marshal(Object(FLAG)), 3)]
    ensures KeyUnder(prefix, "config") != F.MemberKeyOf(prefix, "a")
  {
    var log := FlagSet(prefix);
    assert log[..0] == [] && log[..1] == Planned(prefix) && Planned(prefix)[..0] == [];
    StoreStep(Planned(prefix));
    StoreStep(log);
    KeysInOrder(prefix);
    LessIrreflexive(KeyUnder(prefix, "config"));
  }

  lemma EntriesRead(prefix: string)
    ensures EntriesUnder(StoreAt(Planned(prefix)), prefix) == [MemberEntry(prefix)]
    ensures EntriesUnder(StoreAt(FlagSet(prefix)), prefix) == [ConfigEntry(prefix), MemberEntry(prefix)]
  {
    hide ClassifyRelativePath, Less, SortedKeys, StoreAt;
    Stores(prefix);
    var config, member := KeyUnder(prefix, "config"), F.MemberKeyOf(prefix, "a");
    assert config[|prefix| + 1..] == "config" && member[|prefix| + 1..] == "members/a";
    ConfigIsClassified();
    F.MemberClassified("members/a");
    KeysInOrder(prefix);
    KeysOf(StoreAt(Planned(prefix)), prefix, [member]);
    KeysOf(StoreAt(FlagSet(prefix)), prefix, [config, member]);
  }

  lemma KeysOf(store: Store, prefix: string, keys: seq<string>)
    requires Ascending(keys) && forall key :: key in Matching(store, prefix + "/") <==> key in keys
    ensures |EntriesUnder(store, prefix)| == |keys|
    ensures forall i :: 0 <= i < |keys| ==>
              keys[i] in store && prefix + "/" <= keys[i]
              && EntriesUnder(store, prefix)[i] == EntryAt(store, prefix, keys[i])
  {
    hide EntryAt, EntriesUnder, Less;
    AscendingUnique(SortedKeys(Matching(store, prefix + "/")), keys);
    EntriesUnderKeys(store, prefix);
  }

  lemma ConfigIsClassified()
    ensures ClassifyRelativePath("config") == ConfigKey
  {
    assert TrimBoth("config", '/') == "config";
  }

  lemma DecodedPlanned(prefix: string)
    ensures var cluster := DecodeCluster([MemberEntry(prefix)]).0;
            cluster.config == map[] && cluster.members == [F.MemberOf("a", 2)] && cluster.leader == None
  {
    hide DecodeEntry, SortMembers;
    var member := MemberEntry(prefix);
    assert [member][..0] == [];
    F.MemberStep(DecodeAll([]), member.key, "members/a", "a", 2);
    assert DecodeAll([member]) == DecodeEntry(DecodeAll([]), member);
    assert [] + [F.MemberOf("a", 2)] == [F.MemberOf("a", 2)];
    OneSorted(F.MemberOf("a", 2));
  }

  lemma DecodedFlagSet(prefix: string)
    ensures var cluster := DecodeCluster([ConfigEntry(prefix), MemberEntry(prefix)]).0;
            cluster.config == FLAG && cluster.members == [F.MemberOf("a", 2)] && cluster.leader == None
  {
    hide DecodeEntry, SortMembers;
    var config, member := ConfigEntry(prefix), MemberEntry(prefix);
    assert [config, member][..1] == [config] && [config][..0] == [];
    ConfigStep(config.key);
    assert DecodeAll([config]) == DecodeEntry(DecodeAll([]), config);
    F.MemberStep(DecodeAll([config]), member.key, "members/a", "a", 2);
    assert DecodeAll([config, member]) == DecodeEntry(DecodeAll([config]), member);
    assert [] + [F.MemberOf("a", 2)] == [F.MemberOf("a", 2)];
    OneSorted(F.MemberOf("a", 2));
  }

  lemma ConfigStep(key: string)
    ensures DecodeEntry(NOTHING_DECODED, Entry(key, "config", ConfigKey, 3, Marshal(Object(FLAG))))
            == NOTHING_DECODED.(cluster := EMPTY_CLUSTER.(config := FLAG))
  {
  }

  lemma OneSorted(member: Member)
    ensures SortMembers([member]) == [member]
  {
    assert [member][..0] == [];
  }

  /** What the two snapshots show: one member that does not pause, and the flag only
      in the second. */
  lemma Read(prefix: string)
    ensures var cluster := ClusterAt(Planned(prefix), prefix);
            !Paused(cluster) && cluster.members == [F.MemberOf("a", 2)] && cluster.leader == None
    ensures var cluster := ClusterAt(FlagSet(prefix), prefix);
            Paused(cluster) && cluster.members == [F.MemberOf("a", 2)] && cluster.leader == None
  {
    hide StoreAt, EntriesUnder, DecodeCluster, Planned, FlagSet;
    EntriesRead(prefix);
    DecodedPlanned(prefix);
    DecodedFlagSet(prefix);
  }

  function IntentOf(target: Target.Target, prefix: string): PauseIntent {
    PauseIntent("pause", target, prefix, true, true, false)
  }

  lemma PlanPrepared(target: Target.Target, prefix: string)
    requires Target.Normalize(target) == target && Target.Validate(target, true).None? && target.member == ""
    ensures var built := BuildPausePlan("id", "pause", IntentOf(target, prefix), SnapshotOf(Planned(prefix), prefix));
            built.Ok? && built.value.targets == [target.(member := "a")]
  {
    hide SnapshotOf, Target.Normalize, Target.Validate, Join, TrimSpace, SameCluster, PausePreconditions, Paused;
    Read(prefix);
    GraphicEndsTrimmed("u");
    TrimSpaceOfTrimmed("u");
    var members := [F.MemberOf("a", 2)];
    assert members[1..] == [];
    assert OtherReachable(members, "") == members;
    F.MemberTargetValid(target, "a");
  }

  lemma NotConverged(planned: seq<string>, cluster: ClusterState)
    requires planned == ["a"] && cluster.members == [F.MemberOf("a", 2)]
    ensures !PauseMatches(cluster, planned, true, true)
  {
    hide Paused;
    assert planned[..0] == [] && !Converged(cluster.members, "a", true);
  }

  /** For every valid cluster: the plan was prepared before the flag was set; it is
      accepted; the run starts from a snapshot with the flag; and as long as nothing
      changes, it ends UNKNOWN with nothing sent, after any number of readbacks. */
  lemma WaitingRunExists(target: Target.Target, prefix: string, service: Service, me: nat)
    returns (plan: Plan, s: State, first: Snapshot)
    requires Target.Normalize(target) == target && Target.Validate(target, true).None? && target.member == ""
    requires me != 0 && service.supportedVersion("v")
    ensures BuildPausePlan("id", "pause", IntentOf(target, prefix), SnapshotOf(Planned(prefix), prefix))
            == Text.Ok(plan)
    ensures PausePlanAccepted(plan, IntentOf(target, prefix))
    ensures Planned(prefix) < s.log && Valid(s) && NoEffect(me, s)
    ensures first == SnapshotOf(s.log, prefix) && SupportsCluster(service, first.cluster)
    ensures FlagIsSet(IntentOf(target, prefix), Some(first))
    ensures forall seen: seq<Snapshot> :: (forall i :: 0 <= i < |seen| ==> seen[i] == first) ==>
              var result := AlreadySetOutcome(IntentOf(target, prefix), TargetNames(plan.targets), first, seen);
              result.outcome == Unknown && result.data.restSend == SendNotSent && !PauseClassified(result)
  {
    hide SnapshotOf, BuildPausePlan, PausePlanAccepted, Target.Normalize, Target.Validate, StoreAt, TrimSpace, Paused;
    hide FlagSet, AlreadySetOutcome;
    var intent := IntentOf(target, prefix);
    s := State(FlagSet(prefix), multiset{}, [], multiset{});
    first := SnapshotOf(s.log, prefix);
    Stores(prefix);
    Read(prefix);
    NobodyElse(prefix, me, s);
    PlanPrepared(target, prefix);
    plan := BuildPausePlan("id", "pause", intent, SnapshotOf(Planned(prefix), prefix)).value;
    PreparedPauseIsAccepted("id", "pause", intent, SnapshotOf(Planned(prefix), prefix));
    GraphicEndsTrimmed("v");
    TrimSpaceOfTrimmed("v");
    var planned := TargetNames(plan.targets);
    assert planned == ["a"];
    NotConverged(planned, first.cluster);
    forall seen: seq<Snapshot> | forall i :: 0 <= i < |seen| ==> seen[i] == first
      ensures var result := AlreadySetOutcome(intent, planned, first, seen);
              result.outcome == Unknown && result.data.restSend == SendNotSent && !PauseClassified(result)
    {
      WaitingBreaksRule(intent, planned, first, seen);
    }
  }

  lemma NobodyElse(prefix: string, me: nat, s: State)
    requires me != 0 && s == State(FlagSet(prefix), multiset{}, [], multiset{})
    ensures NoEffect(me, s) && Planned(prefix) < s.log
  {
    assert forall r: Request :: r in s.log ==> r.author == 0;
  }
}
