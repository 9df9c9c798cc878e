/** Flushing a scheduled switchover (control/flush.go): REST deletes on one member
    after another, then a compare-and-swap delete of the confirmed event. */
module Flush {
  import opened Text
  import opened Decimal
  import opened Etcd
  import opened Txn
  import opened Cluster
  import opened Control
  import opened Effects
  import opened Members
  import Target

  /** `effective` is the cluster the snapshot is read from: the requested one,
      or the coordinator group of a Citus deployment; `prefix` is its path. */
  datatype FlushIntent = FlushIntent(
    target: Target.Target, effective: Target.Target, prefix: string, members: seq<string>, role: string, force: bool,
    citus: bool)

  datatype FlushData = FlushData(
    results: seq<MemberResult>, restSend: SendState, dcsSend: SendState, verification: Verification, dcsRevision: nat,
    noop: bool)

  const NO_FLUSH := FlushData([], NoSend, NoSend, NoVerification, 0, false)

  type FlushOutcome = Control.Result<FlushData>

  const DELETED: set<nat> := {200}

  function FailoverKeyUnder(prefix: string): string { KeyUnder(prefix, "failover") }

  // ---- plans ----

  function EventFields(event: Cluster.Failover, targets: seq<Target.Target>): map<Field, string> {
    map[FailoverRevision := Itoa(event.modRevision),
        FailoverLeader := event.leader,
        FailoverCandidate := event.candidate,
        FailoverScheduledAt := event.scheduledAt,
        RestMembers := Join(TargetNames(targets), ",")]
  }

  function NoEventFields(): map<Field, string> {
    map[FailoverRevision := "0", FailoverLeader := "", FailoverCandidate := "", FailoverScheduledAt := "",
        RestMembers := ""]
  }

  function RequestFields(revision: nat, intent: FlushIntent, groups: string): map<Field, string> {
    map[DcsRevision := Itoa(revision), FlushEvent := "switchover", SelectorRole := intent.role,
        SelectorMembers := Join(intent.members, ","), RequestForce := FormatBool(intent.force),
        RequestCitus := FormatBool(intent.citus), CitusGroups := groups]
  }

  predicate Scheduled(cluster: ClusterState) {
    cluster.failover.Some? && cluster.failover.value.scheduledAt != ""
  }

  /** buildFlushPlan for a switchover event. */
  function BuildFlushPlan(operationID: string, summary: string, intent: FlushIntent, snapshot: Snapshot,
                          groups: string): Plan
  {
    var targets := if Scheduled(snapshot.cluster) then MemberTargets(intent.effective, LeaderFirst(snapshot.cluster))
        else [];
    Plan(operationID, "flush", intent.target, targets, PathRESTToDCS, RiskAdminWrite, true, summary,
         RequestFields(snapshot.revision, intent, groups)
         + (if Scheduled(snapshot.cluster) then EventFields(snapshot.cluster.failover.value, targets)
            else NoEventFields()))
  }

  /** validateFlushPlan for a switchover event. */
  predicate FlushPlanAccepted(plan: Plan, intent: FlushIntent) {
    && PlanValid(plan)
    && plan.operation == "flush" && plan.path == PathRESTToDCS && plan.risk == RiskAdminWrite && plan.unsafeAfterSend
    && SameCluster(plan.target, intent.target)
    && Expected(plan, FlushEvent) == Some("switchover")
    && Expected(plan, SelectorRole) == Some(intent.role)
    && Expected(plan, SelectorMembers) == Some(Join(intent.members, ","))
    && Expected(plan, RequestForce) == Some(FormatBool(intent.force))
    && Expected(plan, RequestCitus) == Some(FormatBool(intent.citus))
    && Expected(plan, CitusGroups).Some?
    && Expected(plan, RestMembers) == Some(Join(TargetNames(plan.targets), ","))
  }

  /** The event is the one the plan confirmed. */
  predicate ConfirmsEvent(plan: Plan, event: Cluster.Failover) {
    && Expected(plan, FailoverRevision) == Some(Itoa(event.modRevision))
    && Expected(plan, FailoverLeader) == Some(event.leader)
    && Expected(plan, FailoverCandidate) == Some(event.candidate)
    && Expected(plan, FailoverScheduledAt) == Some(event.scheduledAt)
  }

  /** revalidateSwitchoverFlushPlan. */
  predicate Revalidates(plan: Plan, event: Cluster.Failover, cluster: ClusterState, effective: Target.Target) {
    var targets := MemberTargets(effective, LeaderFirst(cluster));
    && ConfirmsEvent(plan, event)
    && Expected(plan, RestMembers) == Some(Join(TargetNames(targets), ","))
    && SameTargets(plan.targets, targets)
  }

  lemma EventFieldsExpected(plan: Plan, event: Cluster.Failover, requested: map<Field, string>)
    requires plan.preconditions == requested + EventFields(event, plan.targets)
    ensures ConfirmsEvent(plan, event)
    ensures forall other :: ConfirmsEvent(plan, other) <==>
              Itoa(other.modRevision) == Itoa(event.modRevision) && other.leader == event.leader
              && other.candidate == event.candidate && other.scheduledAt == event.scheduledAt
  {
    hide Itoa, Join, TargetNames;
  }

  /** A plan prepared on a scheduled event confirms that event and no other. */
  lemma PreparedFlushConfirms(operationID: string, summary: string, intent: FlushIntent, snapshot: Snapshot,
                              groups: string, other: Cluster.Failover)
    requires Scheduled(snapshot.cluster)
    ensures ConfirmsEvent(BuildFlushPlan(operationID, summary, intent, snapshot, groups), other) <==>
              other == snapshot.cluster.failover.value
  {
    hide Itoa, Join, TargetNames, MemberTargets, LeaderFirst, RequestFields, EventFields, ConfirmsEvent;
    var plan := BuildFlushPlan(operationID, summary, intent, snapshot, groups);
    var event := snapshot.cluster.failover.value;
    EventFieldsExpected(plan, event, RequestFields(snapshot.revision, intent, groups));
    if Itoa(other.modRevision) == Itoa(event.modRevision) {
      ItoaInjective(other.modRevision, event.modRevision);
    }
  }

  // ---- member attempts ----

  predicate Settling(result: MemberResult) { result.httpStatus == 200 || result.httpStatus == 404 }

  datatype Ending = Exhausted | Deleted | Missing | Abandoned

  /** The results list one member after another in plan order, and an unknown
      one is an attempt without an HTTP answer. */
  predicate Attempts(results: seq<MemberResult>, targets: seq<Target.Target>) {
    && |results| <= |targets|
    && forall i :: 0 <= i < |results| ==>
         && results[i].target == targets[i]
         && (results[i].outcome == Unknown ==> results[i].httpStatus == 0 && Ambiguous(results[i].send))
         && (i < |results| - 1 ==> !Settling(results[i]))
  }

  function EndingOf(results: seq<MemberResult>, targets: seq<Target.Target>): Ending {
    if results != [] && results[|results| - 1].httpStatus == 200 then Deleted
    else if results != [] && results[|results| - 1].httpStatus == 404 then Missing
    else if |results| == |targets| then Exhausted else Abandoned
  }

  lemma NoAttempts(targets: seq<Target.Target>)
    ensures Attempts([], targets)
  {
  }

  lemma AttemptsNext(results: seq<MemberResult>, targets: seq<Target.Target>, result: MemberResult)
    requires Attempts(results, targets) && |results| < |targets| && result.target == targets[|results|]
    requires results != [] ==> !Settling(results[|results| - 1])
    requires result.outcome == Unknown ==> result.httpStatus == 0 && Ambiguous(result.send)
    ensures Attempts(results + [result], targets)
  {
    hide Settling;
  }

  /** The member loop of executeSwitchoverFlush. */
  method TryMembers(w: World, service: Service, targets: seq<Target.Target>, members: seq<Member>, me: nat)
    returns (results: seq<MemberResult>, ending: Ending, ghost rests: seq<Exchange>)
    requires Valid(w.now) && NoEffect(me, w.now)
    modifies w
    ensures Valid(w.now) && old(w.now).log <= w.now.log
    // what is sent, and what can take effect, is what the results say
    ensures w.trace == old(w.trace) + rests && Recounts(me, "flush", DELETED, rests, results)
    ensures AnsweredAt(|old(w.now).log|, rests) <= |w.now.log|
    ensures NoDcsWrite(me, w.now) && RestBounded(me, w.now, "flush", results)
    ensures Attempts(results, targets) && ending == EndingOf(results, targets)
    ensures !HasUnknown(results) && ending != Deleted ==> NoEffect(me, w.now)
    ensures ending == Deleted ==> RestApplied(me, w.now)
  {
    hide NoEffect, NoDcsWrite, RestBounded, Valid, Later, RestApplied, RestStep, Recounts, Attempts, MemberRules;
    hide Attempted;
    results, rests := [], [];
    NoAttempts(targets);
    QuietIsBounded(me, w.now, "flush", []);
    NothingRecounted(me, "flush", DELETED);
    var i := 0;
    while i < |targets|
      invariant i == |results| <= |targets|
      invariant Valid(w.now) && old(w.now).log <= w.now.log
      invariant w.trace == old(w.trace) + rests && Recounts(me, "flush", DELETED, rests, results)
      invariant AnsweredAt(|old(w.now).log|, rests) <= |w.now.log|
      invariant NoDcsWrite(me, w.now) && RestBounded(me, w.now, "flush", results)
      invariant Attempts(results, targets)
      invariant results != [] ==> !Settling(results[|results| - 1])
      invariant !HasUnknown(results) ==> NoEffect(me, w.now)
    {
      var gone: bool := *;
      if gone {
        return results, Abandoned, rests;
      }
      ghost var quiet := !HasUnknown(results);
      var result;
      ghost var made;
      result, made := WriteToMember(w, service, "flush", DELETED, targets[i], LastMember(members, targets[i].member),
                                    results, quiet, me);
      RecountsNext(me, "flush", DELETED, rests, results, made, result);
      AttemptsNext(results, targets, result);
      UnknownAppend(results, result);
      results, rests := results + [result], rests + made;
      if Settling(result) {
        return results, if result.httpStatus == 200 then Deleted else Missing, rests;
      }
      i := i + 1;
    }
    ending := Exhausted;
  }

  // ---- execution ----

  function FlushSuccess(data: FlushData): FlushOutcome {
    Control.Result(Succeeded, PathRESTToDCS, data.(verification := VerifiedSucceeded), None)
  }

  /** The report when nothing is scheduled: a success with nothing sent. */
  function NothingToFlush(): FlushOutcome {
    FlushSuccess(FlushData([], SendNotSent, NoSend, Unverified, 0, true))
  }

  function FlushFailure(data: FlushData, error: Error): FlushOutcome {
    Control.Result(Failed, PathRESTToDCS, data.(verification := VerifiedFailed), Some(error))
  }

  function FlushUnknown(data: FlushData): FlushOutcome {
    Control.Result(Unknown, PathRESTToDCS, data.(verification := Unverified), Some(Error(CategoryUnknown, false)))
  }

  function FlushRefused(error: Error): FlushOutcome { Control.Result(Failed, PathRESTToDCS, NO_FLUSH, Some(error)) }

  predicate FlushClassified(result: FlushOutcome) {
    && FollowsRules(result.outcome, Strongest(result.data.restSend, result.data.dcsSend), result.data.verification,
                    result.error)
    && (result.data.verification != NoVerification ==> result.data.restSend == AggregateSend(result.data.results))
  }

  /** The last attempt was answered 404. */
  predicate EndsInNotFound(results: seq<MemberResult>) {
    results != [] && results[|results| - 1].httpStatus == 404
  }

  /** A snapshot read after the history had `last` commits shows nothing
      scheduled. */
  ghost predicate Unscheduled(log: seq<Request>, last: nat, prefix: string) {
    exists snapshot :: ReadAfter(log, last, prefix, snapshot) && !Scheduled(snapshot.cluster)
  }

  /** Evidence of success, where `last` is the length of the history when the
      run's last write had been answered: a member took the delete, or a later
      snapshot shows nothing scheduled. */
  ghost predicate Flushed(me: nat, s: State, last: nat, prefix: string, data: FlushData) {
    || (data.results != [] && data.results[|data.results| - 1].httpStatus == 200 && RestApplied(me, s))
    || Unscheduled(s.log, last, prefix)
  }

  function FlushDelete(me: nat, prefix: string, revision: nat): Request {
    Request(me, Delete(FailoverKeyUnder(prefix)), Some(revision))
  }

  /** The history at `read` shows the event the plan confirmed, and the run's
      only DCS request deletes exactly that revision. */
  ghost predicate GuardedDelete(me: nat, s: State, read: nat, prefix: string, plan: Plan) {
    && read <= |s.log| && NoCommitOf(me, s.log[..read])
    && ClusterAt(s.log[..read], prefix).failover.Some?
    && ConfirmsEvent(plan, ClusterAt(s.log[..read], prefix).failover.value)
    && OnlyRequest(me, s, FlushDelete(me, prefix, ClusterAt(s.log[..read], prefix).failover.value.modRevision))
  }

  ghost predicate OnlyConfirmedDelete(me: nat, s: State, from: nat, prefix: string, plan: Plan) {
    exists read :: from <= read && GuardedDelete(me, s, read, prefix, plan)
  }

  /** verifySwitchoverFlush. */
  method VerifySwitchoverFlush(w: World, service: Service, prefix: string, me: nat)
    returns (verified: bool, revision: nat)
    modifies w`now
    ensures Later(me, old(w.now), w.now)
    ensures verified ==> Unscheduled(w.now.log, |old(w.now).log|, prefix)
  {
    hide Later, ReadAfter, SnapshotOf, Scheduled;
    var last;
    ghost var seen;
    verified, last, seen := Verify(w, me, prefix, service.verificationAttempts, (s: Snapshot) => !Scheduled(s.cluster));
    revision := RevisionOf(last);
  }

  /** The delete half of executeSwitchoverFlushFallback: compare-and-swap on
      the confirmed event seen in the history `seen`, then readback. */
  method DeleteAndVerify(w: World, service: Service, intent: FlushIntent, plan: Plan, start: FlushData,
                         event: Cluster.Failover, ghost seen: seq<Request>, me: nat)
    returns (result: FlushOutcome, ghost writes: seq<Exchange>)
    requires Valid(w.now) && NoDcsWrite(me, w.now) && seen <= w.now.log && NoCommitOf(me, seen)
    requires start.restSend == AggregateSend(start.results) && start.dcsSend == NoSend
    requires HasUnknown(start.results) ==> Ambiguous(start.restSend)
    requires !HasUnknown(start.results) ==> NoEffect(me, w.now)
    requires RestBounded(me, w.now, "flush", start.results)
    requires ClusterAt(seen, intent.prefix).failover == Some(event) && ConfirmsEvent(plan, event)
             && event.modRevision > 0
    modifies w
    ensures Valid(w.now) && old(w.now).log <= w.now.log
    ensures w.trace == old(w.trace) + writes && |writes| == 1
    ensures result.outcome == Failed ==> NoEffect(me, w.now)
    ensures result.outcome == Succeeded ==> Unscheduled(w.now.log, writes[0].at, intent.prefix)
    ensures OnlyConfirmedDelete(me, w.now, |seen|, intent.prefix, plan)
    ensures RestBounded(me, w.now, "flush", start.results)
    ensures FlushClassified(result) && result.data.results == start.results
  {
    hide NoEffect, NoDcsWrite, RestBounded, Valid, Later, SnapshotOf, StoreAt, Unscheduled;
    hide OnlyRequest, NoCommitOf, GuardHolds, Changes;
    hide OnlyConfirmedDelete, AggregateSend, HasUnknown, ConfirmsEvent, Lookup, KeyUnder, ClusterAt, Scheduled;
    hide FlushClassified, Conclude, Ambiguous, DcsSendState;
    var data := start;
    ghost var quiet := !HasUnknown(start.results);
    w.Environment(me);
    StillBounded(me, old(w.now), w.now, "flush", start.results, quiet);
    ghost var ready := w.now;
    var written, error := w.Delete(me, FailoverKeyUnder(intent.prefix), Some(event.modRevision));
    ghost var only := FlushDelete(me, intent.prefix, event.modRevision);
    DeleteEffects(me, ready, w.now, intent.prefix, event.modRevision, error, start.results);
    writes := [DcsExchange(Request(me, Mutation.Delete(FailoverKeyUnder(intent.prefix)), Some(event.modRevision)),
                           |w.now.log|)];
    data := data.(dcsSend := DcsSendState(error, written.applied), dcsRevision := written.revision);
    ghost var answered := w.now;
    var verified, revision := VerifySwitchoverFlush(w, service, intent.prefix, me);
    DeleteOver(me, answered, w.now, only, start.results, quiet && error.Some? && !error.value.MaybeSent?);
    DeleteIsGuarded(me, w.now, seen, intent.prefix, plan);
    if revision > data.dcsRevision {
      data := data.(dcsRevision := revision);
    }
    ConclusionFollowsRules(data, verified, error, written.applied);
    result := Conclude(data, verified, error);
  }

  /** What the readback after the delete leaves unchanged. */
  lemma DeleteOver(me: nat, s: State, t: State, only: Request, results: seq<MemberResult>, quiet: bool)
    requires Later(me, s, t) && OnlyRequest(me, s, only) && RestBounded(me, s, "flush", results)
             && (quiet ==> NoEffect(me, s))
    ensures OnlyRequest(me, t, only) && RestBounded(me, t, "flush", results) && (quiet ==> NoEffect(me, t))
    ensures s.log <= t.log && (Valid(s) ==> Valid(t))
  {
    hide NoEffect, OnlyRequest, RestBounded, RestKept;
    OnlyRequestLater(me, s, t, only);
    LaterKeepsRest(me, s, t);
    RestBoundedLater(me, s, t, "flush", results);
    if quiet {
      NoEffectLater(me, s, t);
    }
  }

  /** How the fallback reports what became of its delete. */
  function Conclude(data: FlushData, verified: bool, error: Option<Failure>): FlushOutcome {
    if verified then FlushSuccess(data)
    else if error.Some? && error.value.Conflict? then
      if HasUnknown(data.results) || data.dcsSend == SendMaybeSent then FlushUnknown(data)
      else FlushFailure(data, Error(CategoryConflict, false))
    else if error.Some? && data.dcsSend == SendNotSent && !HasUnknown(data.results) then
          FlushFailure(data, ClassifyFailure(error.value))
    else FlushUnknown(data)
  }

  lemma ConclusionFollowsRules(data: FlushData, verified: bool, error: Option<Failure>, applied: bool)
    requires data.restSend == AggregateSend(data.results) && data.dcsSend == DcsSendState(error, applied)
    requires HasUnknown(data.results) ==> Ambiguous(data.restSend)
    ensures FlushClassified(Conclude(data, verified, error))
    ensures Conclude(data, verified, error).outcome == Failed ==>
              !HasUnknown(data.results) && error.Some? && !error.value.MaybeSent?
    ensures Conclude(data, verified, error).outcome == Succeeded <==> verified
    ensures Conclude(data, verified, error).data.results == data.results
    ensures verified ==> Conclude(data, verified, error).data == data.(verification := VerifiedSucceeded)
  {
    hide HasUnknown, AggregateSend;
  }

  /** executeSwitchoverFlushFallback. */
  method ExecuteSwitchoverFlushFallback(w: World, service: Service, intent: FlushIntent, plan: Plan, start: FlushData,
                                        me: nat)
    returns (result: FlushOutcome, ghost writes: seq<Exchange>)
    requires Valid(w.now) && NoDcsWrite(me, w.now)
    requires start.restSend == AggregateSend(start.results) && start.dcsSend == NoSend
    requires HasUnknown(start.results) ==> Ambiguous(start.restSend)
    requires !HasUnknown(start.results) ==> NoEffect(me, w.now)
    requires RestBounded(me, w.now, "flush", start.results)
    modifies w
    ensures Valid(w.now) && old(w.now).log <= w.now.log
    ensures w.trace == old(w.trace) + writes && |writes| <= 1
    ensures result.outcome == Failed ==> NoEffect(me, w.now)
    ensures result.outcome == Succeeded ==> Unscheduled(w.now.log, AnsweredAt(|old(w.now).log|, writes), intent.prefix)
    ensures NoDcsWrite(me, w.now) || OnlyConfirmedDelete(me, w.now, |old(w.now).log|, intent.prefix, plan)
    ensures RestBounded(me, w.now, "flush", start.results)
    ensures FlushClassified(result) && result.data.results == start.results
  {
    hide NoEffect, NoDcsWrite, RestBounded, Valid, Later, ReadAfter, SnapshotOf, StoreAt, Unscheduled;
    hide OnlyRequest, NoCommitOf;
    hide OnlyConfirmedDelete, AggregateSend, HasUnknown, ConfirmsEvent, Revalidates, Lookup, KeyUnder, ClusterAt;
    var data := start;
    writes := [];
    ghost var from := |w.now.log|;
    var read := ReadSnapshot(w, me, intent.prefix);
    StillBounded(me, old(w.now), w.now, "flush", start.results, !HasUnknown(start.results));
    var unknown := HasUnknown(data.results);
    if read.Err? {
      result := if unknown then FlushUnknown(data) else FlushFailure(data, ClassifyReadError(read.error));
      return;
    }
    var latest := read.value;
    ghost var seen := w.now.log;
    NothingCommitted(me, w.now);
    if !Scheduled(latest.cluster) {
      ReadNow(seen, from, intent.prefix);
      UnscheduledBy(seen, from, intent.prefix, latest);
      result := FlushSuccess(data.(dcsRevision := latest.revision));
      return;
    }
    var event := latest.cluster.failover.value;
    var gone: bool := *;
    if !Revalidates(plan, event, latest.cluster, intent.effective) || !service.failoverDCS || gone {
      var category := if !Revalidates(plan, event, latest.cluster, intent.effective) then CategoryConflict
                      else if !service.failoverDCS then CategoryConfig else CategoryFailed;
      result := if unknown then FlushUnknown(data) else FlushFailure(data, Error(category, false));
      return;
    }
    RevalidatesConfirms(plan, event, latest.cluster, intent.effective);
    EventRevision(seen, intent.prefix);
    result, writes := DeleteAndVerify(w, service, intent, plan, data, event, seen, me);
    OnlyConfirmedDeleteFrom(me, w.now, |seen|, from, intent.prefix, plan);
  }

  lemma RevalidatesConfirms(plan: Plan, event: Cluster.Failover, cluster: ClusterState, effective: Target.Target)
    requires Revalidates(plan, event, cluster, effective)
    ensures ConfirmsEvent(plan, event)
  {
    hide ConfirmsEvent, Expected, SameTargets;
  }

  lemma UnscheduledBy(log: seq<Request>, last: nat, prefix: string, snapshot: Snapshot)
    requires ReadAfter(log, last, prefix, snapshot) && !Scheduled(snapshot.cluster)
    ensures Unscheduled(log, last, prefix)
  {
    hide ReadAfter, Scheduled;
  }

  lemma EventRevision(log: seq<Request>, prefix: string)
    ensures SnapshotOf(log, prefix).cluster == ClusterAt(log, prefix)
    ensures ClusterAt(log, prefix).failover.Some? ==> ClusterAt(log, prefix).failover.value.modRevision >= 2
  {
    hide DecodeCluster, EntriesUnder, StoreAt, DecodeFailover, EntryAt;
    SnapshotFailover(log, prefix);
  }

  /** What the guarded delete adds, however it was delivered. */
  lemma DeleteEffects(me: nat, s: State, t: State, prefix: string, revision: nat, error: Option<Failure>,
                      results: seq<MemberResult>)
    requires NoDcsWrite(me, s) && RestBounded(me, s, "flush", results) && revision > 0
    requires var only := FlushDelete(me, prefix, revision);
             match error
             case Some(NotSent(_)) => t == s
             case Some(MaybeSent(_)) => t == s.(flight := s.flight + multiset{only})
             case Some(Conflict(_, _)) => t == s
             case None => GuardHolds(StoreAt(s.log), only)
                          && t == (if only.mutation.key in StoreAt(s.log) then s.(log := s.log + [only]) else s)
    ensures OnlyRequest(me, t, FlushDelete(me, prefix, revision)) && RestBounded(me, t, "flush", results)
    ensures s.log <= t.log && (Valid(s) ==> Valid(t))
    ensures error.Some? && !error.value.MaybeSent? ==> t == s
  {
    hide StoreAt, NoDcsWrite, OnlyRequest, Valid, RestBounded, RestKept;
    DcsWriteEffects(me, s, t, FlushDelete(me, prefix, revision));
    SameRestKept(me, s, t);
    RestBoundedLater(me, s, t, "flush", results);
  }

  lemma DeleteIsGuarded(me: nat, s: State, seen: seq<Request>, prefix: string, plan: Plan)
    requires seen <= s.log && NoCommitOf(me, seen)
    requires ClusterAt(seen, prefix).failover.Some? && ConfirmsEvent(plan, ClusterAt(seen, prefix).failover.value)
    requires OnlyRequest(me, s, FlushDelete(me, prefix, ClusterAt(seen, prefix).failover.value.modRevision))
    ensures OnlyConfirmedDelete(me, s, |seen|, prefix, plan)
  {
    hide ClusterAt, OnlyRequest, NoCommitOf, ConfirmsEvent, KeyUnder;
    assert s.log[..|seen|] == seen;
    assert GuardedDelete(me, s, |seen|, prefix, plan);
  }

  /** executeSwitchoverFlush, on the snapshot ExecuteFlush read. */
  method ExecuteSwitchoverFlush(w: World, service: Service, intent: FlushIntent, plan: Plan, snapshot: Snapshot,
                                ghost from: nat, me: nat)
    returns (result: FlushOutcome, ghost rests: seq<Exchange>, ghost writes: seq<Exchange>)
    requires Valid(w.now) && NoEffect(me, w.now) && from <= |w.now.log|
    requires ReadAfter(w.now.log, from, intent.prefix, snapshot)
    modifies w
    ensures Valid(w.now) && old(w.now).log <= w.now.log
    ensures w.trace == old(w.trace) + rests + writes && |writes| <= 1
    ensures Recounts(me, "flush", DELETED, rests, result.data.results)
    ensures result.outcome == Failed && !(HasUnknown(result.data.results) && EndsInNotFound(result.data.results)) ==>
              NoEffect(me, w.now)
    ensures EndsInNotFound(result.data.results) ==> result.outcome == Failed
    // a snapshot without a scheduled event is a success at once
    ensures !Scheduled(snapshot.cluster) ==> result == NothingToFlush() && w.now == old(w.now) && rests == writes == []
    ensures result.outcome == Succeeded ==>
              Flushed(me, w.now, AnsweredAt(AnsweredAt(from, rests), writes), intent.prefix, result.data)
    ensures NoDcsWrite(me, w.now) || OnlyConfirmedDelete(me, w.now, AnsweredAt(from, rests), intent.prefix, plan)
    ensures RestBounded(me, w.now, "flush", result.data.results)
    ensures Attempts(result.data.results, plan.targets)
    ensures FlushClassified(result)
  {
    hide NoEffect, NoDcsWrite, RestBounded, Valid, Later, RestApplied, ReadAfter, OnlyConfirmedDelete, Recounts;
    hide Unscheduled;
    hide Expected, Revalidates, ConfirmsEvent, HasUnknown, AggregateSend;
    var data := FlushData([], SendNotSent, NoSend, Unverified, 0, false);
    rests, writes := [], [];
    QuietIsBounded(me, w.now, "flush", []);
    NothingRecounted(me, "flush", DELETED);
    NothingAggregated();
    var plannedSchedule := match Expected(plan, FailoverScheduledAt) case Some(text) => text case None => "";
    if plannedSchedule == "" && Scheduled(snapshot.cluster) {
      result := FlushFailure(data, Error(CategoryConflict, false));
      return;
    }
    if !Scheduled(snapshot.cluster) {
      UnscheduledBy(w.now.log, from, intent.prefix, snapshot);
      result := FlushSuccess(data.(noop := true));
      return;
    }
    if !Revalidates(plan, snapshot.cluster.failover.value, snapshot.cluster, intent.effective) {
      result := FlushFailure(data, Error(CategoryConflict, false));
      return;
    }
    var results, ending;
    results, ending, rests := TryMembers(w, service, plan.targets, snapshot.cluster.members, me);
    data := data.(results := results, restSend := AggregateSend(results));
    AggregateAmbiguous(results, plan.targets);
    match ending {
      case Deleted => result := FlushSuccess(data);
      case Missing => result := FlushFailure(data, Error(CategoryNotFound, false));
      case Abandoned =>
        result := if HasUnknown(results) then FlushUnknown(data) else FlushFailure(data, Error(CategoryFailed, false));
      case Exhausted =>
        ghost var later := |w.now.log|;
        result, writes := ExecuteSwitchoverFlushFallback(w, service, intent, plan, data, me);
        OnlyConfirmedDeleteFrom(me, w.now, later, AnsweredAt(from, rests), intent.prefix, plan);
        UnscheduledFrom(w.now.log, AnsweredAt(later, writes), AnsweredAt(AnsweredAt(from, rests), writes),
                        intent.prefix);
    }
  }

  lemma UnscheduledFrom(log: seq<Request>, later: nat, last: nat, prefix: string)
    requires last <= later
    ensures Unscheduled(log, later, prefix) ==> Unscheduled(log, last, prefix)
  {
    hide Scheduled, SnapshotOf;
    if Unscheduled(log, later, prefix) {
      var snapshot :| ReadAfter(log, later, prefix, snapshot) && !Scheduled(snapshot.cluster);
      ReadAfterExtends(log, log, later, last, prefix, snapshot);
    }
  }

  lemma AggregateAmbiguous(results: seq<MemberResult>, targets: seq<Target.Target>)
    requires Attempts(results, targets)
    ensures HasUnknown(results) ==> Ambiguous(AggregateSend(results))
    ensures AggregateSend(results) != NoSend
  {
  }

  lemma OnlyConfirmedDeleteFrom(me: nat, s: State, later: nat, from: nat, prefix: string, plan: Plan)
    requires from <= later
    ensures OnlyConfirmedDelete(me, s, later, prefix, plan) ==> OnlyConfirmedDelete(me, s, from, prefix, plan)
  {
    hide GuardedDelete;
  }

  /** ExecuteFlush for a switchover event; `groups` is the Citus inventory the
      snapshots showed. */
  method ExecuteFlush(w: World, service: Service, intent: FlushIntent, requestError: bool, plan: Plan, groups: string,
                      me: nat)
    returns (result: FlushOutcome, ghost rests: seq<Exchange>, ghost writes: seq<Exchange>)
    requires Valid(w.now) && NoEffect(me, w.now)
    modifies w
    ensures Valid(w.now) && old(w.now).log <= w.now.log
    // everything the run sends: the exchanges its results report, then at most one DCS write
    ensures w.trace == old(w.trace) + rests + writes && |writes| <= 1
    ensures Recounts(me, "flush", DELETED, rests, result.data.results)
    // no false failure, except a 404 after an attempt of unknown fate
    ensures result.outcome == Failed && !(HasUnknown(result.data.results) && EndsInNotFound(result.data.results)) ==>
              NoEffect(me, w.now)
    ensures EndsInNotFound(result.data.results) ==> result.outcome == Failed
    ensures result.outcome == Succeeded ==>
              Flushed(me, w.now, AnsweredAt(AnsweredAt(|old(w.now).log|, rests), writes), intent.prefix, result.data)
    // the DCS delete follows the attempts and is guarded by the very event the plan confirmed
    ensures NoDcsWrite(me, w.now)
            || OnlyConfirmedDelete(me, w.now, AnsweredAt(|old(w.now).log|, rests), intent.prefix, plan)
    ensures RestBounded(me, w.now, "flush", result.data.results)
    ensures Attempts(result.data.results, plan.targets)
    ensures FlushClassified(result)
  {
    hide NoEffect, NoDcsWrite, RestBounded, Valid, Later, ReadAfter, OnlyConfirmedDelete, SnapshotOf, Recounts;
    hide Expected, FlushPlanAccepted, Flushed, HasUnknown, AggregateSend, SupportsCluster;
    rests, writes := [], [];
    QuietIsBounded(me, w.now, "flush", []);
    NothingRecounted(me, "flush", DELETED);
    NothingAggregated();
    var noContext: bool := *;
    if noContext || requestError || !FlushPlanAccepted(plan, intent) {
      result := FlushRefused(Error(CategoryUsage, false));
      return;
    }
    var read := ReadSnapshot(w, me, intent.prefix);
    StillBounded(me, old(w.now), w.now, "flush", [], true);
    if read.Err? {
      result := FlushRefused(ClassifyReadError(read.error));
      return;
    }
    if !SupportsCluster(service, read.value.cluster) {
      result := FlushRefused(Error(CategoryUnsupported, false));
      return;
    }
    if Expected(plan, CitusGroups) != Some(groups) {
      result := FlushRefused(Error(CategoryConflict, false));
      return;
    }
    ReadNow(w.now.log, |old(w.now).log|, intent.prefix);
    result, rests, writes := ExecuteSwitchoverFlush(w, service, intent, plan, read.value, |old(w.now).log|, me);
  }

  /** What a run promised about its DCS delete stays true forever. */
  lemma OnlyConfirmedDeleteLater(me: nat, s: State, t: State, from: nat, prefix: string, plan: Plan)
    requires OnlyConfirmedDelete(me, s, from, prefix, plan) && Later(me, s, t)
    ensures OnlyConfirmedDelete(me, t, from, prefix, plan)
  {
    hide ClusterAt, OnlyRequest, NoCommitOf, ConfirmsEvent, KeyUnder, Later;
    var read :| from <= read && GuardedDelete(me, s, read, prefix, plan);
    LaterKeeps(me, s, t);
    assert t.log[..read] == s.log[..read];
    OnlyRequestLater(me, s, t, FlushDelete(me, prefix, ClusterAt(s.log[..read], prefix).failover.value.modRevision));
    assert GuardedDelete(me, t, read, prefix, plan);
  }

  /** A flush delete of a finished run, whenever it commits, in the run or in any
      later state t, removes the very event the plan confirmed: the key still
      holds the entry that decodes to its revision, leader, candidate and
      schedule, and holds nothing afterwards. */
  lemma FlushRemovesConfirmedEvent(me: nat, s: State, t: State, from: nat, prefix: string, plan: Plan, i: nat)
    requires OnlyConfirmedDelete(me, s, from, prefix, plan) && Later(me, s, t) && Valid(t)
    requires i < |t.log| && t.log[i].author == me
    ensures from <= i
    ensures var key := FailoverKeyUnder(prefix);
            && key in StoreAt(t.log[..i])
            && ConfirmsEvent(plan, DecodeFailover(EntryAt(StoreAt(t.log[..i]), prefix, key)))
            && DecodeFailover(EntryAt(StoreAt(t.log[..i]), prefix, key)).modRevision
                == StoreAt(t.log[..i])[key].modRevision
            && key !in StoreAt(t.log[..i + 1])
            && forall other :: other != key ==>
                  Lookup(StoreAt(t.log[..i + 1]), other) == Lookup(StoreAt(t.log[..i]), other)
  {
    hide ClusterAt, DecodeFailover, EntryAt, NoCommitOf, ConfirmsEvent, ValidLog, Later;
    OnlyConfirmedDeleteLater(me, s, t, from, prefix, plan);
    var read :| from <= read && GuardedDelete(me, t, read, prefix, plan);
    OwnCommit(me, t, FlushDelete(me, prefix, ClusterAt(t.log[..read], prefix).failover.value.modRevision), i);
    CommitsAfter(me, t.log, read, i);
    GuardFromSnapshot(t.log, read, i, prefix);
    DecodedFailoverRevision(EntryAt(StoreAt(t.log[..i]), prefix, FailoverKeyUnder(prefix)));
    EntryRevision(StoreAt(t.log[..i]), prefix, FailoverKeyUnder(prefix));
    assert t.log[..i + 1][..i] == t.log[..i];
  }

  lemma EntryRevision(store: Store, prefix: string, key: string)
    requires key in store && prefix + "/" <= key
    ensures EntryAt(store, prefix, key).modRevision == store[key].modRevision
  {
    hide ClassifyRelativePath;
  }

  // ---- the 404 ending ----

  /** The states around one exchange. */
  datatype Round = Round(before: State, after: State)

  /** The member loop on the first targets of a plan, answered with `replies`,
      with others acting in between. */
  ghost predicate LoopRun(me: nat, targets: seq<Target.Target>, replies: seq<HttpReply>, rounds: seq<Round>) {
    && |rounds| == |replies| <= |targets|
    && (forall i :: 0 <= i < |rounds| ==>
          RestStep(rounds[i].before, rounds[i].after, RestCall(me, "flush", targets[i].member), DELETED, replies[i]))
    && (forall i :: 0 < i < |rounds| ==> Later(me, rounds[i - 1].after, rounds[i].before))
  }

  function ResultsOf(targets: seq<Target.Target>, replies: seq<HttpReply>): seq<MemberResult>
    requires |replies| <= |targets|
  {
    seq(|replies|, i requires 0 <= i < |replies| => Classify(targets[i], replies[i], DELETED))
  }

  /** Replies of a loop that ends with a 404. */
  predicate EndsMissing(replies: seq<HttpReply>) {
    && replies != [] && replies[|replies| - 1].status == 404
    && (forall i :: 0 <= i < |replies| - 1 ==> replies[i].status != 200 && replies[i].status != 404)
    && (forall i :: 0 <= i < |replies| ==> replies[i].status != 0 ==> replies[i].delivery.HttpReceived?)
  }

  /** Such a loop ends Missing, with an unknown result exactly if a reply was
      ambiguous. */
  lemma MissingResults(targets: seq<Target.Target>, replies: seq<HttpReply>)
    requires EndsMissing(replies) && |replies| <= |targets|
    ensures var results := ResultsOf(targets, replies);
            && Attempts(results, targets) && EndingOf(results, targets) == Missing && EndsInNotFound(results)
            && (HasUnknown(results) <==> exists i :: 0 <= i < |replies| && AmbiguousReply(replies[i]))
  {
    var results := ResultsOf(targets, replies);
    forall i | 0 <= i < |replies|
      ensures results[i].outcome == Unknown <==> AmbiguousReply(replies[i])
      ensures results[i].httpStatus == replies[i].status && results[i].target == targets[i]
      ensures results[i].outcome == Unknown ==> Ambiguous(results[i].send)
    {
      UnknownReply(targets[i], replies[i]);
    }
  }

  lemma UnknownReply(target: Target.Target, reply: HttpReply)
    requires reply.status != 0 ==> reply.delivery.HttpReceived?
    ensures var result := Classify(target, reply, DELETED);
            && (result.outcome == Unknown <==> AmbiguousReply(reply)) && result.httpStatus == reply.status
               && result.target == target
            && (result.outcome == Unknown ==> Ambiguous(result.send))
  {
  }

  /** Without an ambiguous reply before it, a 404 means that nothing took
      effect, in every run. */
  lemma {:induction false} NotFoundWithoutAmbiguity(me: nat, targets: seq<Target.Target>, replies: seq<HttpReply>,
                                                 rounds: seq<Round>)
    requires LoopRun(me, targets, replies, rounds) && EndsMissing(replies) && NoEffect(me, rounds[0].before)
    requires forall i :: 0 <= i < |replies| ==> !AmbiguousReply(replies[i])
    ensures NoEffect(me, rounds[|rounds| - 1].after)
  {
    hide NoEffect, Later;
    var n := 1;
    assert !AmbiguousReply(replies[0]);
    while n < |rounds|
      invariant 1 <= n <= |rounds|
      invariant NoEffect(me, rounds[n - 1].after)
    {
      NoEffectLater(me, rounds[n - 1].after, rounds[n].before);
      assert !AmbiguousReply(replies[n]);
      n := n + 1;
    }
  }

  /** After any ambiguous reply there is a run of the loop in which a delete took
      effect although the loop ends Missing: wherever the command stands, with a
      scheduled event that its plan confirms, on the members of that plan. */
  lemma NotFoundAfterAmbiguity(me: nat, s: State, intent: FlushIntent, plan: Plan, replies: seq<HttpReply>, k: nat)
    returns (rounds: seq<Round>)
    requires NoEffect(me, s) && FlushPlanAccepted(plan, intent) && Scheduled(ClusterAt(s.log, intent.prefix))
    requires var cluster := ClusterAt(s.log, intent.prefix);
             Revalidates(plan, cluster.failover.value, cluster, intent.effective)
    requires EndsMissing(replies) && k < |replies| <= |plan.targets| && AmbiguousReply(replies[k])
    ensures LoopRun(me, plan.targets, replies, rounds) && rounds[0].before == s
    ensures var results := ResultsOf(plan.targets, replies);
            Attempts(results, plan.targets) && EndingOf(results, plan.targets) == Missing && HasUnknown(results)
    ensures var end := rounds[|rounds| - 1].after;
            && !NoEffect(me, end) && RestApplied(me, end) && NoDcsWrite(me, end)
               && Scheduled(ClusterAt(end.log, intent.prefix))
  {
    hide FlushPlanAccepted, Revalidates, ClusterAt, Scheduled, Attempts, EndingOf, HasUnknown, ResultsOf;
    MissingResults(plan.targets, replies);
    var call := RestCall(me, "flush", plan.targets[k].member);
    var done := s.(rest := s.rest + [call]);
    rounds := seq(|replies|, i requires 0 <= i < |replies| =>
                  Round(if i <= k then s else done, if i < k then s else done));
    LaterReflexive(me, s);
    LaterReflexive(me, done);
    assert done.rest[|s.rest|] == call && call in multiset(done.rest);
    assert RestTally(done, call) > 0;
    assert forall r: Request :: Tally(done, r) == Tally(s, r);
  }

  // ---- restart flush: from member results to one result ----

  /** The error category of the last failed member. */
  function LastFailure(results: seq<MemberResult>): Category {
    if results == [] then CategoryFailed
    else
      var last := results[|results| - 1];
      if last.outcome == Failed && last.error.Some? then last.error.value.category
      else LastFailure(results[..|results| - 1])
  }

  predicate AllNoop(results: seq<MemberResult>) {
    forall i :: 0 <= i < |results| ==> results[i].send == SendNotSent && results[i].outcome == Succeeded
  }

  lemma NoopStep(results: seq<MemberResult>, i: nat)
    requires i < |results|
    ensures AllNoop(results[..i + 1]) <==>
              AllNoop(results[..i]) && results[i].send == SendNotSent && results[i].outcome == Succeeded
    ensures LastFailure(results[..i + 1]) == if results[i].outcome == Failed && results[i].error.Some?
            then results[i].error.value.category else LastFailure(results[..i])
  {
    assert results[..i + 1][..i] == results[..i];
    assert forall j :: 0 <= j < i ==> results[..i + 1][j] == results[..i][j];
    assert results[..i + 1][i] == results[i];
  }

  lemma NoResults()
    ensures BatchVerdict([]) == Succeeded && AllNoop([]) && LastFailure([]) == CategoryFailed
  {
  }

  lemma UnknownIsAmbiguous(results: seq<MemberResult>)
    requires forall i :: 0 <= i < |results| ==> MemberRules(results[i]) && results[i].send != NoSend
    requires BatchVerdict(results) == Unknown
    ensures Ambiguous(AggregateSend(results))
  {
    var k :| 0 <= k < |results| && results[k].outcome == Unknown;
    assert Ambiguous(results[k].send);
  }

  /** finalizeFlushResults: if every member result follows the rule for write
      results, so does the whole. */
  method FinalizeFlushResults(results: seq<MemberResult>) returns (result: FlushOutcome)
    requires forall i :: 0 <= i < |results| ==> MemberRules(results[i]) && results[i].send != NoSend
    ensures result.outcome == BatchVerdict(results) && result.data.results == results
    ensures result.data.noop <==> results != [] && AllNoop(results)
    ensures FlushClassified(result)
    ensures result.outcome == Failed ==> result.error == Some(Error(LastFailure(results), false))
  {
    hide BatchVerdict, AllNoop, LastFailure;
    NoResults();
    var outcome := Succeeded;
    var category := CategoryFailed;
    var allNoop := |results| > 0;
    var i := 0;
    while i < |results|
      invariant i <= |results|
      invariant outcome == BatchVerdict(results[..i])
      invariant allNoop <==> |results| > 0 && AllNoop(results[..i])
      invariant outcome != Unknown ==> category == LastFailure(results[..i])
      invariant category != CategoryUnknown
    {
      VerdictStep(results, i);
      NoopStep(results, i);
      if results[i].send != SendNotSent || results[i].outcome != Succeeded {
        allNoop := false;
      }
      if results[i].outcome == Unknown {
        outcome := Unknown;
      } else if results[i].outcome == Failed && outcome != Unknown {
        outcome := Failed;
        category := results[i].error.value.category;
      }
      i := i + 1;
    }
    assert results[..i] == results;
    var data := FlushData(results, AggregateSend(results), NoSend, Unverified, 0, allNoop);
    match outcome {
      case Succeeded => result := Control.Result(Succeeded, PathREST, data.(verification := VerifiedSucceeded), None);
      case Failed =>
        result := Control.Result(Failed, PathREST, data.(verification := VerifiedFailed), Some(Error(category, false)));
      case Unknown =>
        UnknownIsAmbiguous(results);
        result := Control.Result(Unknown, PathREST, data, Some(Error(CategoryUnknown, false)));
    }
  }
}
