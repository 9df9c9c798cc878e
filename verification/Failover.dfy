/** Failover and switchover (control/failover.go): a Patroni REST write that may
    be lost, a compare-and-swap fallback on the failover key, and readback. */
module Failover {
  import opened Text
  import opened Decimal
  import opened Json
  import opened Etcd
  import opened Txn
  import opened Cluster
  import opened Control
  import opened Effects
  import Target

  const LEGACY_RESPONSE := "Server does not support this operation"

  /** `switchover` tells the two operations apart; only a switchover carries a
      leader or a schedule. */
  datatype Intent = Intent(
    switchover: bool, target: Target.Target, prefix: string, leader: string, candidate: string,
    schedule: Option<string>, force: bool, citus: bool)

  datatype Selection = Selection(
    leader: string, candidateNames: seq<string>, restMember: Option<Member>, syncEligible: bool, paused: bool,
    failoverVersion: nat)

  datatype ClusterWriteData = ClusterWriteData(
    leader: string, candidate: string, scheduledAt: string, restSend: SendState, dcsSend: SendState,
    verification: Verification, httpStatus: nat, dcsRevision: nat, legacyEndpoint: bool)

  const NO_DATA := ClusterWriteData("", "", "", NoSend, NoSend, NoVerification, 0, 0, false)

  type WriteOutcome = Control.Result<ClusterWriteData>

  function Operation(intent: Intent): string { if intent.switchover then "switchover" else "failover" }

  function Schedule(intent: Intent): string { if intent.schedule.Some? then intent.schedule.value else "" }

  /** What normalizeFailoverRequest and normalizeSwitchoverRequest establish. */
  predicate Normalized(intent: Intent) {
    && (intent.schedule.Some? ==> intent.switchover && intent.schedule.value != "")
    && (!intent.switchover ==> intent.leader == "")
  }

  function FailoverKeyOf(intent: Intent): string { KeyUnder(intent.prefix, "failover") }

  // ---- candidate selection ----

  predicate Eligible(member: Member, leader: string) { member.name != leader && !NoFailover(member) }

  function Candidates(members: seq<Member>, leader: string): seq<Member> {
    if members == [] then []
    else
      var front, last := Candidates(members[..|members| - 1], leader), members[|members| - 1];
      if Eligible(last, leader) then front + [last] else front
  }

  function Names(members: seq<Member>): seq<string> {
    seq(|members|, i requires 0 <= i < |members| => members[i].name)
  }

  /** The candidate loop of resolveTransition. */
  method CollectCandidates(members: seq<Member>, leader: string) returns (candidates: seq<Member>)
    ensures candidates == Candidates(members, leader)
    ensures forall m :: m in candidates <==> m in members && Eligible(m, leader)
  {
    candidates := [];
    var i := 0;
    while i < |members|
      invariant i <= |members|
      invariant candidates == Candidates(members[..i], leader)
      invariant forall m :: m in candidates <==> m in members[..i] && Eligible(m, leader)
    {
      assert members[..i + 1][..i] == members[..i];
      if Eligible(members[i], leader) {
        candidates := candidates + [members[i]];
      }
      i := i + 1;
    }
    assert members[..i] == members;
  }

  predicate SynchronousMode(config: Fields) {
    var value := Get(config, "synchronous_mode");
    BoolConfig(value) || (value.String? && Lower(value.text) == "quorum")
  }

  predicate SyncEligible(cluster: ClusterState, candidate: string) {
    if candidate == "" || !SynchronousMode(cluster.config) || cluster.sync.leader == "" then true
    else
      || Lower(cluster.sync.leader) == Lower(candidate)
      || exists s :: s in cluster.sync.standbys && Lower(s) == Lower(candidate)
  }

  function ResolveTransition(cluster: ClusterState, intent: Intent): Text.Result<Selection, Category> {
    var leader := LeaderName(cluster);
    var candidates := SortMembers(Candidates(cluster.members, leader));
    if intent.switchover && leader == "" then Err(CategoryNotFound)
    else if intent.switchover && intent.leader == "" && !intent.force then Err(CategoryUsage)
    else if intent.switchover && intent.leader != "" && intent.leader != leader then Err(CategoryConflict)
    else if candidates == [] then Err(CategoryNotFound)
    else if intent.candidate == "" && (!intent.switchover || !intent.force) then Err(CategoryUsage)
    else if intent.candidate != "" && intent.candidate == leader then Err(CategoryConflict)
    else if intent.candidate != "" && FirstMember(candidates, intent.candidate).None? then Err(CategoryNotFound)
    else if intent.switchover && intent.schedule.Some? && Paused(cluster) then Err(CategoryConflict)
    else
      Ok(Selection(leader, Names(candidates),
                   FirstMember(cluster.members, if leader == "" then intent.candidate else leader),
                   SyncEligible(cluster, intent.candidate), Paused(cluster), FailoverGuard(cluster)))
  }

  // ---- plans ----

  function TransitionPreconditions(revision: nat, intent: Intent, selection: Selection): map<Field, string> {
    map[DcsRevision := Itoa(revision),
        LeaderField := selection.leader,
        CandidateName := intent.candidate,
        CandidateOptions := Join(selection.candidateNames, ","),
        CandidateSyncEligible := FormatBool(selection.syncEligible),
        ClusterPaused := FormatBool(selection.paused),
        FailoverRevision := Itoa(selection.failoverVersion),
        RequestLeader := intent.leader,
        RequestSchedule := Schedule(intent),
        RequestForce := FormatBool(intent.force),
        RequestCitus := FormatBool(intent.citus),
        FallbackPath := "rest->dcs"]
  }

  predicate PlanMatchesIntent(plan: Plan, intent: Intent) {
    && PlanValid(plan)
    && plan.operation == Operation(intent) && plan.path == PathREST && plan.risk == RiskAvailability
       && plan.unsafeAfterSend
    && SameCluster(plan.target, intent.target)
    && Expected(plan, CandidateName) == Some(intent.candidate)
    && Expected(plan, RequestLeader) == Some(intent.leader)
    && Expected(plan, RequestSchedule) == Some(Schedule(intent))
    && Expected(plan, RequestForce) == Some(FormatBool(intent.force))
    && Expected(plan, RequestCitus) == Some(FormatBool(intent.citus))
    && Expected(plan, FallbackPath) == Some("rest->dcs")
  }

  predicate PlanMatchesSelection(plan: Plan, selection: Selection) {
    && Expected(plan, LeaderField) == Some(selection.leader)
    && Expected(plan, CandidateOptions) == Some(Join(selection.candidateNames, ","))
    && Expected(plan, CandidateSyncEligible) == Some(FormatBool(selection.syncEligible))
    && Expected(plan, ClusterPaused) == Some(FormatBool(selection.paused))
    && Expected(plan, FailoverRevision) == Some(Itoa(selection.failoverVersion))
  }

  /** The plan prepareTransition builds from a snapshot; the operation ID and
      the display summary are given. */
  function BuildPlan(operationID: string, summary: string, intent: Intent,
                     snapshot: Snapshot): Text.Result<Plan, Category>
  {
    match ResolveTransition(snapshot.cluster, intent)
    case Err(category) => Err(category)
    case Ok(selection) =>
      var plan := Plan(operationID, Operation(intent), intent.target, [], PathREST, RiskAvailability, true, summary,
                       TransitionPreconditions(snapshot.revision, intent, selection));
      if PlanValid(plan) then Ok(plan) else Err(CategoryInternal)
  }

  lemma PlanFields(plan: Plan, revision: nat, intent: Intent, selection: Selection)
    requires plan.preconditions == TransitionPreconditions(revision, intent, selection)
    ensures Expected(plan, LeaderField) == Some(selection.leader)
    ensures Expected(plan, CandidateOptions) == Some(Join(selection.candidateNames, ","))
    ensures Expected(plan, CandidateSyncEligible) == Some(FormatBool(selection.syncEligible))
    ensures Expected(plan, ClusterPaused) == Some(FormatBool(selection.paused))
    ensures Expected(plan, FailoverRevision) == Some(Itoa(selection.failoverVersion))
    ensures Expected(plan, CandidateName) == Some(intent.candidate)
    ensures Expected(plan, RequestLeader) == Some(intent.leader)
    ensures Expected(plan, RequestSchedule) == Some(Schedule(intent))
    ensures Expected(plan, RequestForce) == Some(FormatBool(intent.force))
    ensures Expected(plan, RequestCitus) == Some(FormatBool(intent.citus))
    ensures Expected(plan, FallbackPath) == Some("rest->dcs")
  {
    hide Itoa, Join, FormatBool, Schedule;
  }

  /** A prepared plan is accepted for its own request, and revalidation accepts
      a later selection only if leader, failover event, pause state and
      synchronous eligibility are the confirmed ones. */
  lemma PreparedPlanBinds(operationID: string, summary: string, intent: Intent, snapshot: Snapshot, other: Selection)
    requires BuildPlan(operationID, summary, intent, snapshot).Ok?
    ensures var plan := BuildPlan(operationID, summary, intent, snapshot).value;
            var selection := ResolveTransition(snapshot.cluster, intent).value;
            && PlanMatchesIntent(plan, intent)
            && (PlanMatchesSelection(plan, other) <==>
                  other.leader == selection.leader && other.failoverVersion == selection.failoverVersion
                  && other.paused == selection.paused && other.syncEligible == selection.syncEligible
                  && Join(other.candidateNames, ",") == Join(selection.candidateNames, ","))
  {
    hide ResolveTransition, TransitionPreconditions, Itoa, Join, PlanValid, Expected, Schedule;
    var selection := ResolveTransition(snapshot.cluster, intent).value;
    var plan := BuildPlan(operationID, summary, intent, snapshot).value;
    PlanFields(plan, snapshot.revision, intent, selection);
    if Itoa(other.failoverVersion) == Itoa(selection.failoverVersion) {
      ItoaInjective(other.failoverVersion, selection.failoverVersion);
    }
  }

  // ---- fallback guard, payload and completion ----

  predicate ValidateFallback(cluster: ClusterState, intent: Intent, planned: Selection) {
    var leader := LeaderName(cluster);
    && leader == planned.leader
    && !(intent.schedule.Some? && Paused(cluster))
    && (if intent.candidate != "" then
          exists m :: m in cluster.members && m.name == intent.candidate && Eligible(m, leader)
        else
          Join(SortStrings(Names(Candidates(cluster.members, leader))), ",") == Join(planned.candidateNames, ","))
  }

  function Payload(intent: Intent, planned: Selection): Json {
    var leader: Fields := if intent.switchover && planned.leader != "" then map["leader" := String(planned.leader)]
    else map[];
    var member: Fields := if intent.candidate != "" then map["member" := String(intent.candidate)] else map[];
    var at: Fields := if Schedule(intent) != "" then map["scheduled_at" := String(Schedule(intent))] else map[];
    Object(leader + member + at)
  }

  predicate LeaderCompleted(cluster: ClusterState, intent: Intent, plannedLeader: string) {
    var leader := LeaderName(cluster);
    && intent.schedule.None?
    && ((intent.candidate != "" && leader == intent.candidate)
        || (intent.switchover && intent.candidate == "" && leader != "" && leader != plannedLeader))
  }

  predicate EventMatches(service: Service, event: Cluster.Failover, intent: Intent, plannedLeader: string) {
    && event.leader == (if intent.switchover then plannedLeader else "")
    && event.candidate == intent.candidate
    && (if Schedule(intent) == "" then event.scheduledAt == ""
        else event.scheduledAt == Schedule(intent) || service.sameInstant(Schedule(intent), event.scheduledAt))
  }

  predicate TransitionCompleted(service: Service, cluster: ClusterState, intent: Intent, plannedLeader: string) {
    || LeaderCompleted(cluster, intent, plannedLeader)
    || (cluster.failover.Some? && EventMatches(service, cluster.failover.value, intent, plannedLeader))
  }

  // ---- laws of the pure part ----

  lemma {:induction false} NamesOfInserted(sorted: seq<Member>, member: Member)
    ensures Names(InsertMember(sorted, member)) == InsertSorted(Names(sorted), member.name)
  {
    if sorted != [] && !Less(member.name, sorted[0].name) {
      NamesOfInserted(sorted[1..], member);
      assert Names(sorted)[1..] == Names(sorted[1..]);
      assert Names([sorted[0]] + InsertMember(sorted[1..], member))
             == [sorted[0].name] + Names(InsertMember(sorted[1..], member));
    } else {
      assert Names([member] + sorted) == [member.name] + Names(sorted);
    }
  }

  lemma {:induction false} NamesOfSorted(members: seq<Member>)
    ensures Names(SortMembers(members)) == SortStrings(Names(members))
  {
    if members != [] {
      var front, last := members[..|members| - 1], members[|members| - 1];
      NamesOfSorted(front);
      NamesOfInserted(SortMembers(front), last);
      assert Names(members)[..|members| - 1] == Names(front);
    }
  }

  lemma {:induction false} InsertedMembers(sorted: seq<Member>, member: Member)
    ensures forall m :: m in InsertMember(sorted, member) <==> m in sorted || m == member
  {
    if sorted != [] {
      InsertedMembers(sorted[1..], member);
      assert sorted == [sorted[0]] + sorted[1..];
    }
  }

  lemma {:induction false} SortedCandidates(members: seq<Member>, leader: string)
    ensures forall m :: m in SortMembers(Candidates(members, leader)) <==> m in members && Eligible(m, leader)
  {
    if members != [] {
      var front, last := members[..|members| - 1], members[|members| - 1];
      SortedCandidates(front, leader);
      assert members == front + [last];
      if Eligible(last, leader) {
        var candidates := Candidates(members, leader);
        assert candidates[..|candidates| - 1] == Candidates(front, leader);
        InsertedMembers(SortMembers(Candidates(front, leader)), last);
      }
    }
  }

  /** A resolved transition names an eligible member, and its fallback guard
      accepts the very cluster it was resolved from: nothing but a change of
      topology can abort the fallback. */
  lemma ResolvedPassesFallback(cluster: ClusterState, intent: Intent)
    requires Normalized(intent) && ResolveTransition(cluster, intent).Ok?
    ensures ValidateFallback(cluster, intent, ResolveTransition(cluster, intent).value)
    ensures intent.candidate != "" ==>
              exists m :: m in cluster.members && m.name == intent.candidate && Eligible(m, LeaderName(cluster))
  {
    var leader := LeaderName(cluster);
    var candidates := SortMembers(Candidates(cluster.members, leader));
    NamesOfSorted(Candidates(cluster.members, leader));
    SortedCandidates(cluster.members, leader);
    FoundMember(candidates, intent.candidate);
    if intent.candidate != "" {
      var m := FirstMember(candidates, intent.candidate).value;
      assert m in cluster.members && m.name == intent.candidate && Eligible(m, leader);
    }
  }

  lemma PayloadFields(intent: Intent, planned: Selection)
    requires Normalized(intent)
    ensures Payload(intent, planned).Object?
    ensures var fields := Payload(intent, planned).fields;
            && StringField(fields, "leader") == Some(if intent.switchover then planned.leader else "")
            && StringField(fields, "member") == Some(intent.candidate)
            && StringField(fields, "scheduled_at") == Some(Schedule(intent))
  {
  }

  /** What the fallback writes is what the readback looks for. */
  lemma PayloadIsRecognized(service: Service, entry: Entry, cluster: ClusterState, intent: Intent, planned: Selection)
    requires Normalized(intent)
    requires entry.value == Marshal(Payload(intent, planned))
    requires cluster.failover == Some(DecodeFailover(entry))
    ensures DecodeFailover(entry) ==
            Cluster.Failover(entry.modRevision, if intent.switchover then planned.leader else "", intent.candidate,
                             Schedule(intent))
    ensures TransitionCompleted(service, cluster, intent, planned.leader)
  {
    hide Payload, StringField, LegacyFailover;
    PayloadFields(intent, planned);
    assert StructFields(entry.value) == Some(Payload(intent, planned).fields);
  }

  // ---- execution ----

  function TransitionData(intent: Intent, selection: Selection): ClusterWriteData {
    ClusterWriteData(if intent.switchover then selection.leader else "", intent.candidate, Schedule(intent),
                     SendNotSent, NoSend, Unverified, 0, 0, false)
  }

  function Success(path: Path, data: ClusterWriteData): WriteOutcome { Control.Result(Succeeded, path, data, None) }

  function Failure(path: Path, data: ClusterWriteData, error: Error): WriteOutcome {
    Control.Result(Failed, path, data, Some(error))
  }

  function Uncertain(path: Path, data: ClusterWriteData): WriteOutcome {
    Control.Result(Unknown, path, data.(verification := Unverified), Some(Error(CategoryUnknown, false)))
  }

  function FailedRead(error: Error): WriteOutcome { Control.Result(Failed, PathREST, NO_DATA, Some(error)) }

  const ACCEPTING: set<nat> := {200, 202}

  ghost predicate Classified(result: WriteOutcome) {
    FollowsRules(result.outcome, Strongest(result.data.restSend, result.data.dcsSend), result.data.verification,
                 result.error)
  }

  function FallbackRequest(me: nat, log: seq<Request>, intent: Intent, planned: Selection): Request {
    Request(me, Put(FailoverKeyOf(intent), Marshal(Payload(intent, planned))),
            Some(FailoverGuard(ClusterAt(log, intent.prefix))))
  }

  /** The history at `read` shows a cluster that passed the fallback guard, and
      the run's only DCS request is guarded with the failover event seen
      there. */
  ghost predicate GuardedFallback(me: nat, s: State, read: nat, intent: Intent, planned: Selection) {
    && read <= |s.log| && NoCommitOf(me, s.log[..read])
    && ValidateFallback(ClusterAt(s.log[..read], intent.prefix), intent, planned)
    && !LeaderCompleted(ClusterAt(s.log[..read], intent.prefix), intent, planned.leader)
    && OnlyRequest(me, s, FallbackRequest(me, s.log[..read], intent, planned))
  }

  ghost predicate OnlyFallbackWrite(me: nat, s: State, from: nat, intent: Intent, planned: Selection) {
    exists read :: from <= read && GuardedFallback(me, s, read, intent, planned)
  }

  /** A snapshot read after the history had `last` commits shows the
      transition. */
  ghost predicate ReadBack(service: Service, log: seq<Request>, last: nat, intent: Intent, plannedLeader: string) {
    exists snapshot :: ReadAfter(log, last, intent.prefix, snapshot)
                       && TransitionCompleted(service, snapshot.cluster, intent, plannedLeader)
  }

  /** Evidence behind a SUCCEEDED result, where `last` is the length of the
      history when the run's last write had been answered. */
  ghost predicate Confirmed(service: Service, result: WriteOutcome, log: seq<Request>, last: nat, intent: Intent,
                            plannedLeader: string)
  {
    || result.data.httpStatus == 200
    || (result.data.httpStatus == 202
        && (intent.schedule.Some? ==> ReadBack(service, log, last, intent, plannedLeader)))
    || (result.data.httpStatus == 0 && ReadBack(service, log, last, intent, plannedLeader))
  }

  /** An old member's answer that selects the legacy endpoint. */
  predicate LegacyAnswer(reply: HttpReply) { reply.status == 501 && Contains(reply.body, LEGACY_RESPONSE) }

  /** The HTTP exchanges of a run, the last answered with `status`: none at all,
      one with the selected member, or for a switchover a second one with the
      same member after a legacy answer. */
  ghost predicate RestCalls(me: nat, intent: Intent, selection: Selection, rests: seq<Exchange>, status: nat) {
    && (rests == [] ==> status == 0)
    && (rests != [] ==>
          && selection.restMember.Some? && |rests| <= 2
          && Posted(rests[0], me, Operation(intent), selection.restMember.value.name)
          && (|rests| == 2 ==>
                intent.switchover && LegacyAnswer(rests[0].reply)
                && Posted(rests[1], me, "failover", selection.restMember.value.name))
          && rests[|rests| - 1].reply.status == status)
  }

  /** The run's REST writes go to the selected member, if there is one. */
  ghost predicate RestAt(me: nat, s: State, selection: Selection) {
    if selection.restMember.Some? then RestTo(me, s, selection.restMember.value.name) else NoRestWrite(me, s)
  }

  /** One POST of a run that has sent nothing that took effect. */
  method PostTransition(w: World, operation: string, member: string, me: nat)
    returns (reply: HttpReply, send: SendState, ghost made: Exchange)
    requires Valid(w.now) && NoEffect(me, w.now)
    modifies w
    ensures Valid(w.now) && old(w.now).log <= w.now.log
    ensures w.trace == old(w.trace) + [made]
            && made == RestExchange(RestCall(me, operation, member), reply, |w.now.log|)
    ensures NoDcsWrite(me, w.now) && OneRestWrite(me, w.now) && RestTo(me, w.now, member)
    ensures send == PatroniSendState(reply) && send != NoSend && (reply.status != 0 ==> send == SendAccepted)
    ensures send == SendNotSent || (reply.status != 0 && reply.status !in ACCEPTING) ==> NoEffect(me, w.now)
    ensures reply.status in ACCEPTING ==> RestApplied(me, w.now)
  {
    hide NoEffect, NoDcsWrite, OneRestWrite, RestApplied, Later, Valid, RestTo;
    w.Environment(me);
    LaterKeeps(me, old(w.now), w.now);
    NoEffectLater(me, old(w.now), w.now);
    ghost var ready := w.now;
    reply := w.Rest(me, operation, member, ACCEPTING);
    made := RestExchange(RestCall(me, operation, member), reply, |w.now.log|);
    send := PatroniSendState(reply);
    RestEffects(me, ready, w.now, RestCall(me, operation, member));
    RestStepGoesTo(me, ready, w.now, RestCall(me, operation, member));
  }

  /** callTransitionREST: the write, and the legacy endpoint when an old member
      answers 501. */
  method CallTransitionREST(w: World, service: Service, intent: Intent, selection: Selection, me: nat)
    returns (reply: HttpReply, send: SendState, legacy: bool, canceled: bool, ghost rests: seq<Exchange>)
    requires Valid(w.now) && NoEffect(me, w.now)
    modifies w
    ensures Valid(w.now) && old(w.now).log <= w.now.log
    ensures NoDcsWrite(me, w.now) && OneRestWrite(me, w.now)
    ensures send == SendNotSent ==> reply.status == 0
    ensures reply.status != 0 ==> send == SendAccepted
    ensures send == SendNotSent || (reply.status != 0 && reply.status !in ACCEPTING) ==> NoEffect(me, w.now)
    ensures send != NoSend
    ensures canceled ==> reply.status == 501
    ensures reply.status in ACCEPTING ==> RestApplied(me, w.now)
    ensures RestAt(me, w.now, selection)
    ensures w.trace == old(w.trace) + rests && RestCalls(me, intent, selection, rests, reply.status)
    ensures AnsweredAt(|old(w.now).log|, rests) == |w.now.log|
  {
    hide NoEffect, NoDcsWrite, OneRestWrite, RestApplied, Valid, RestTo, NoRestWrite, PatroniSendState, Contains;
    legacy, canceled, rests := false, false, [];
    NoEffectMeansOneRestWrite(me, w.now);
    QuietRest(me, w.now, "");
    if !service.patroni || selection.restMember.None? || !service.usableURL(selection.restMember.value.data.apiURL) {
      QuietRest(me, w.now, if selection.restMember.Some? then selection.restMember.value.name else "");
      return HttpReply(0, "", HttpNotSent(Configuration)), SendNotSent, false, false, [];
    }
    var member := selection.restMember.value.name;
    ghost var made;
    reply, send, made := PostTransition(w, Operation(intent), member, me);
    rests := [made];
    if intent.switchover && LegacyAnswer(reply) {
      canceled := *;
      if canceled {
        return;
      }
      reply, send, made := PostTransition(w, "failover", member, me);
      rests := rests + [made];
      legacy := true;
    }
  }

  lemma QuietRest(me: nat, s: State, member: string)
    requires NoEffect(me, s)
    ensures NoRestWrite(me, s) && RestTo(me, s, member)
  {
  }

  /** How the fallback reports what became of its write. */
  function ConcludeFallback(data: ClusterWriteData, verified: bool, error: Option<Txn.Failure>): WriteOutcome {
    if verified then Success(PathRESTToDCS, data.(verification := VerifiedSucceeded))
    else if error.Some? && error.value.Conflict? then
      if Ambiguous(data.restSend) then Uncertain(PathRESTToDCS, data)
      else Failure(PathRESTToDCS, data.(verification := VerifiedFailed), Error(CategoryConflict, false))
    else if error.Some? && data.dcsSend == SendNotSent && data.restSend == SendNotSent then
      Failure(PathRESTToDCS, data.(verification := VerifiedFailed), ClassifyFailure(error.value))
    else Uncertain(PathRESTToDCS, data)
  }

  lemma FallbackFollowsRules(data: ClusterWriteData, verified: bool, error: Option<Txn.Failure>, applied: bool)
    requires data.dcsSend == DcsSendState(error, applied) && data.restSend != NoSend
    ensures Classified(ConcludeFallback(data, verified, error))
    ensures ConcludeFallback(data, verified, error).outcome == Failed ==>
              data.restSend == SendNotSent && error.Some? && !error.value.MaybeSent?
    ensures ConcludeFallback(data, verified, error).outcome == Succeeded <==> verified
    ensures ConcludeFallback(data, verified, error).data.httpStatus == data.httpStatus
  {
  }

  /** verifyTransitionFallback. */
  method VerifyTransition(w: World, service: Service, intent: Intent, plannedLeader: string, me: nat)
    returns (verified: bool, revision: nat)
    modifies w`now
    ensures Later(me, old(w.now), w.now)
    ensures verified ==> ReadBack(service, w.now.log, |old(w.now).log|, intent, plannedLeader)
  {
    hide Later, ReadAfter, TransitionCompleted, SnapshotOf;
    var last;
    ghost var seen;
    verified, last, seen := Verify(w, me, intent.prefix, service.verificationAttempts,
                             (s: Snapshot) => TransitionCompleted(service, s.cluster, intent, plannedLeader));
    revision := RevisionOf(last);
  }

  /** The write half of executeTransitionFallback: compare-and-swap on the
      failover event seen in the history `seen`, then readback. */
  method WriteFallback(w: World, service: Service, intent: Intent, planned: Selection, start: ClusterWriteData,
                       guard: nat, ghost seen: seq<Request>, ghost from: nat, me: nat)
    returns (result: WriteOutcome, ghost writes: seq<Exchange>)
    requires Valid(w.now) && NoDcsWrite(me, w.now) && OneRestWrite(me, w.now)
    requires from <= |seen| && seen <= w.now.log && NoCommitOf(me, seen)
    requires start.restSend != NoSend && start.httpStatus == 0
             && (start.restSend == SendNotSent ==> NoEffect(me, w.now))
    requires ValidateFallback(ClusterAt(seen, intent.prefix), intent, planned)
    requires !LeaderCompleted(ClusterAt(seen, intent.prefix), intent, planned.leader)
    requires guard == FailoverGuard(ClusterAt(seen, intent.prefix))
    modifies w
    ensures Valid(w.now) && old(w.now).log <= w.now.log
    ensures w.trace == old(w.trace) + writes && |writes| == 1
    ensures result.outcome == Failed ==> NoEffect(me, w.now)
    ensures result.outcome == Succeeded ==> ReadBack(service, w.now.log, writes[0].at, intent, planned.leader)
    ensures OnlyFallbackWrite(me, w.now, from, intent, planned)
    ensures OneRestWrite(me, w.now) && RestKept(me, old(w.now), w.now)
    ensures Classified(result) && result.data.httpStatus == 0
  {
    hide FailoverGuard, FailoverKeyOf, Marshal, Lookup, Tally, ClusterAt, Classified, ConcludeFallback, Changes;
    hide ReadBack;
    hide ValidateFallback, LeaderCompleted, TransitionCompleted, SnapshotOf, StoreAt, Payload, Later, Valid, GuardHolds;
    hide NoEffect, NoDcsWrite, OneRestWrite, OnlyRequest, OnlyFallbackWrite, NoCommitOf, DcsSendState, RestKept;
    ghost var unsent := start.restSend == SendNotSent;
    w.Environment(me);
    KeepsRun(me, old(w.now), w.now, unsent);
    LaterKeepsRest(me, old(w.now), w.now);
    ghost var ready := w.now;
    var written, error := w.Put(me, FailoverKeyOf(intent), Marshal(Payload(intent, planned)), Some(guard));
    ghost var only := FallbackRequest(me, seen, intent, planned);
    PutAddsOnly(me, ready, w.now, only, error);
    RestKeptTransitive(me, old(w.now), ready, w.now);
    var data := start.(dcsSend := DcsSendState(error, written.applied), dcsRevision := written.revision);
    writes := [DcsExchange(only, |w.now.log|)];
    ghost var answered := w.now;
    var verified, revision := VerifyTransition(w, service, intent, planned.leader, me);
    FallbackOver(me, answered, w.now, only, unsent && error.Some? && !error.value.MaybeSent?);
    RestKeptTransitive(me, old(w.now), answered, w.now);
    FallbackIsGuarded(me, w.now, seen, from, intent, planned);
    if revision > data.dcsRevision {
      data := data.(dcsRevision := revision);
    }
    FallbackFollowsRules(data, verified, error, written.applied);
    result := ConcludeFallback(data, verified, error);
  }

  /** What the readback after the fallback write leaves unchanged. */
  lemma FallbackOver(me: nat, s: State, t: State, only: Request, quiet: bool)
    requires Later(me, s, t) && OnlyRequest(me, s, only) && OneRestWrite(me, s) && (quiet ==> NoEffect(me, s))
    ensures OnlyRequest(me, t, only) && OneRestWrite(me, t) && (quiet ==> NoEffect(me, t))
    ensures s.log <= t.log && (Valid(s) ==> Valid(t))
    ensures RestKept(me, s, t)
  {
    hide NoEffect, OneRestWrite, OnlyRequest;
    OnlyRequestLater(me, s, t, only);
    OneRestWriteLater(me, s, t);
    LaterKeepsRest(me, s, t);
    if quiet {
      NoEffectLater(me, s, t);
    }
  }

  lemma PutAddsOnly(me: nat, s: State, t: State, only: Request, error: Option<Txn.Failure>)
    requires NoDcsWrite(me, s) && OneRestWrite(me, s) && only.author == me && only.mutation.Put?
    requires match error
             case Some(NotSent(_)) => t == s
             case Some(MaybeSent(_)) => t == s.(flight := s.flight + multiset{only})
             case Some(Conflict(_, _)) => t == s
             case None => t == s.(log := s.log + [only]) && GuardHolds(StoreAt(s.log), only)
    ensures OnlyRequest(me, t, only) && OneRestWrite(me, t) && RestKept(me, s, t)
    ensures s.log <= t.log && (Valid(s) ==> Valid(t))
    ensures error.Some? && !error.value.MaybeSent? ==> t == s
  {
    SameRestKept(me, s, t);
    hide StoreAt, GuardHolds, NoDcsWrite, OnlyRequest, OneRestWrite, Valid;
    WriteEffects(me, s, t, only);
  }

  /** executeTransitionFallback. */
  method ExecuteTransitionFallback(w: World, service: Service, intent: Intent, planned: Selection,
                                   start: ClusterWriteData, me: nat)
    returns (result: WriteOutcome, ghost writes: seq<Exchange>)
    requires Valid(w.now) && NoDcsWrite(me, w.now) && OneRestWrite(me, w.now)
    requires start.restSend != NoSend && start.dcsSend == NoSend && start.httpStatus == 0
    requires start.verification == Unverified
    requires start.restSend == SendNotSent ==> NoEffect(me, w.now)
    modifies w
    ensures Valid(w.now) && old(w.now).log <= w.now.log
    ensures w.trace == old(w.trace) + writes && |writes| <= 1
    ensures result.outcome == Failed ==> NoEffect(me, w.now)
    ensures result.outcome == Succeeded ==>
              ReadBack(service, w.now.log, AnsweredAt(|old(w.now).log|, writes), intent, planned.leader)
    ensures NoDcsWrite(me, w.now) || OnlyFallbackWrite(me, w.now, |old(w.now).log|, intent, planned)
    ensures OneRestWrite(me, w.now) && RestKept(me, old(w.now), w.now)
    ensures Classified(result)
    ensures result.data.httpStatus == 0
  {
    hide FailoverGuard, FailoverKeyOf, Tally, RestKept, ReadBack;
    hide ValidateFallback, LeaderCompleted, TransitionCompleted, SnapshotOf, StoreAt, Payload, Later, Valid;
    hide NoEffect, NoDcsWrite, OneRestWrite, OnlyRequest, OnlyFallbackWrite, NoCommitOf, ReadAfter, DecodeCluster;
    hide EntriesUnder;
    var data := start;
    ghost var from := |w.now.log|;
    writes := [];
    var read := ReadSnapshot(w, me, intent.prefix);
    KeepsRun(me, old(w.now), w.now, start.restSend == SendNotSent);
    LaterKeepsRest(me, old(w.now), w.now);
    ghost var reading := w.now;
    if read.Err? {
      if Ambiguous(data.restSend) {
        return Uncertain(PathRESTToDCS, data), [];
      }
      return Failure(PathRESTToDCS, data.(verification := VerifiedFailed), ClassifyReadError(read.error)), [];
    }
    var current := read.value;
    ghost var seen := w.now.log;
    NothingCommitted(me, w.now);
    if LeaderCompleted(current.cluster, intent, planned.leader) {
      ReadNow(seen, from, intent.prefix);
      LeaderIsEnough(service, seen, from, intent, planned.leader, current);
      return Success(PathRESTToDCS, data.(verification := VerifiedSucceeded, dcsRevision := current.revision)), [];
    }
    var gone: bool := *;
    if !ValidateFallback(current.cluster, intent, planned) || !service.failoverDCS || gone {
      if Ambiguous(data.restSend) {
        return Uncertain(PathRESTToDCS, data), [];
      }
      var category := if !ValidateFallback(current.cluster, intent, planned) then CategoryConflict
                      else if !service.failoverDCS then CategoryConfig else CategoryFailed;
      return Failure(PathRESTToDCS, data.(verification := VerifiedFailed), Error(category, false)), [];
    }
    result, writes := WriteFallback(w, service, intent, planned, data, FailoverGuard(current.cluster), seen, from, me);
    RestKeptTransitive(me, old(w.now), reading, w.now);
  }

  lemma FallbackIsGuarded(me: nat, s: State, seen: seq<Request>, from: nat, intent: Intent, planned: Selection)
    requires seen <= s.log && NoCommitOf(me, seen) && from <= |seen|
    requires ValidateFallback(ClusterAt(seen, intent.prefix), intent, planned)
    requires !LeaderCompleted(ClusterAt(seen, intent.prefix), intent, planned.leader)
    requires OnlyRequest(me, s, FallbackRequest(me, seen, intent, planned))
    ensures OnlyFallbackWrite(me, s, from, intent, planned)
  {
    hide ValidateFallback, LeaderCompleted, ClusterAt, Payload, OnlyRequest, NoCommitOf;
    assert s.log[..|seen|] == seen;
    assert GuardedFallback(me, s, |seen|, intent, planned);
  }

  lemma LeaderIsEnough(service: Service, log: seq<Request>, last: nat, intent: Intent, plannedLeader: string,
                       snapshot: Snapshot)
    requires ReadAfter(log, last, intent.prefix, snapshot) && LeaderCompleted(snapshot.cluster, intent, plannedLeader)
    ensures ReadBack(service, log, last, intent, plannedLeader)
  {
    hide ReadAfter;
  }

  /** The accepted arm of executeTransition: a scheduled 202 must be read back. */
  method ConfirmAccepted(w: World, service: Service, intent: Intent, selection: Selection, start: ClusterWriteData,
                         me: nat)
    returns (result: WriteOutcome)
    requires Valid(w.now) && NoDcsWrite(me, w.now) && OneRestWrite(me, w.now) && RestApplied(me, w.now)
    requires start.httpStatus in ACCEPTING && start.restSend == SendAccepted && start.dcsSend == NoSend
    modifies w`now
    ensures Valid(w.now) && old(w.now).log <= w.now.log
    ensures NoDcsWrite(me, w.now) && OneRestWrite(me, w.now) && RestApplied(me, w.now)
            && RestKept(me, old(w.now), w.now)
    ensures result.outcome != Failed && result.data.httpStatus == start.httpStatus
    ensures result.outcome == Succeeded ==>
              Confirmed(service, result, w.now.log, |old(w.now).log|, intent, selection.leader)
    ensures Classified(result)
  {
    hide TransitionCompleted, SnapshotOf, StoreAt, Later, Valid, NoEffect, NoDcsWrite, OneRestWrite, RestApplied;
    hide ReadBack, RestKept;
    var data := start;
    SameRestKept(me, w.now, w.now);
    if start.httpStatus == 202 && intent.schedule.Some? {
      var verified, revision := VerifyTransition(w, service, intent, selection.leader, me);
      KeepsRun(me, old(w.now), w.now, false);
      RestAppliedLater(me, old(w.now), w.now);
      LaterKeepsRest(me, old(w.now), w.now);
      data := data.(dcsRevision := revision);
      if !verified {
        return Uncertain(PathREST, data);
      }
    }
    return Success(PathREST, data.(verification := VerifiedSucceeded));
  }

  lemma RestAtKept(me: nat, s: State, t: State, selection: Selection)
    requires RestAt(me, s, selection) && RestKept(me, s, t)
    ensures RestAt(me, t, selection)
  {
    hide RestKept, RestTo, NoRestWrite;
    KeptRest(me, s, t, if selection.restMember.Some? then selection.restMember.value.name else "");
  }

  /** The run's only DCS write is the guarded fallback for a selection the plan
      confirmed, taken up after the history had `called` commits. */
  ghost predicate FallbackPlanned(me: nat, s: State, called: nat, plan: Plan, intent: Intent) {
    exists planned: Selection :: PlanMatchesSelection(plan, planned)
                                 && OnlyFallbackWrite(me, s, called, intent, planned)
  }

  /** The run's HTTP exchanges and REST writes are those of the selection that a
      snapshot read during the run gives, revalidated against the plan. */
  ghost predicate RestAsPlanned(me: nat, s: State, from: nat, plan: Plan, intent: Intent, rests: seq<Exchange>,
                                status: nat)
  {
    exists snapshot :: ReadAfter(s.log, from, intent.prefix, snapshot)
                       && RestOfSelection(me, s, snapshot.cluster, plan, intent, rests, status)
  }

  ghost predicate RestOfSelection(me: nat, s: State, cluster: ClusterState, plan: Plan, intent: Intent,
                                  rests: seq<Exchange>, status: nat)
  {
    match ResolveTransition(cluster, intent)
    case Ok(selection) =>
      PlanMatchesSelection(plan, selection) && RestAt(me, s, selection)
      && RestCalls(me, intent, selection, rests, status)
    case Err(_) => false
  }

  lemma RestIsPlanned(me: nat, seen: seq<Request>, s: State, from: nat, plan: Plan, intent: Intent,
                      snapshot: Snapshot, selection: Selection, rests: seq<Exchange>, status: nat)
    requires ReadAfter(seen, from, intent.prefix, snapshot) && seen <= s.log
    requires ResolveTransition(snapshot.cluster, intent) == Ok(selection) && PlanMatchesSelection(plan, selection)
    requires RestAt(me, s, selection) && RestCalls(me, intent, selection, rests, status)
    ensures RestAsPlanned(me, s, from, plan, intent, rests, status)
  {
    hide ReadAfter, ResolveTransition, PlanMatchesSelection, RestAt, RestCalls;
    ReadAfterExtends(seen, s.log, from, from, intent.prefix, snapshot);
    assert RestOfSelection(me, s, snapshot.cluster, plan, intent, rests, status);
  }

  /** executeTransition from the REST write on. */
  method SendTransition(w: World, service: Service, intent: Intent, selection: Selection, me: nat)
    returns (result: WriteOutcome, ghost rests: seq<Exchange>, ghost writes: seq<Exchange>)
    requires Valid(w.now) && NoEffect(me, w.now)
    modifies w
    ensures Valid(w.now) && old(w.now).log <= w.now.log
    ensures w.trace == old(w.trace) + rests + writes && |writes| <= 1
    ensures result.outcome == Failed ==> NoEffect(me, w.now)
    ensures var called := AnsweredAt(|old(w.now).log|, rests);
            && |old(w.now).log| <= called
            && (result.outcome == Succeeded ==>
                  Confirmed(service, result, w.now.log, AnsweredAt(called, writes), intent, selection.leader))
            && (NoDcsWrite(me, w.now) || (result.data.httpStatus == 0
                                          && OnlyFallbackWrite(me, w.now, called, intent, selection)))
    ensures OneRestWrite(me, w.now) && RestAt(me, w.now, selection)
    ensures RestCalls(me, intent, selection, rests, result.data.httpStatus)
    ensures result.data.httpStatus in ACCEPTING ==> RestApplied(me, w.now)
    ensures Classified(result)
  {
    hide Later, Valid, NoEffect, NoDcsWrite, OneRestWrite, RestApplied, OnlyFallbackWrite, RestKept, RestAt, ReadBack;
    hide RestCalls;
    var reply, send, legacy, canceled;
    reply, send, legacy, canceled, rests := CallTransitionREST(w, service, intent, selection, me);
    writes := [];
    ghost var called := w.now;
    var data := TransitionData(intent, selection).(restSend := send, httpStatus := reply.status,
                                                   legacyEndpoint := legacy);
    if reply.status in ACCEPTING {
      result := ConfirmAccepted(w, service, intent, selection, data, me);
      RestAtKept(me, called, w.now, selection);
      return;
    }
    if reply.status != 0 {
      result := Failure(PathREST, data.(verification := VerifiedFailed), ClassifyHTTPStatus(reply.status));
      return;
    }
    var gone: bool := *;
    if gone {
      result := if Ambiguous(send) then Uncertain(PathREST, data)
                else Failure(PathREST, data.(verification := VerifiedFailed), Error(CategoryFailed, false));
      return;
    }
    result, writes := ExecuteTransitionFallback(w, service, intent, selection, data, me);
    RestAtKept(me, called, w.now, selection);
  }

  /** executeTransition. */
  method ExecuteTransition(w: World, service: Service, intent: Intent, requestError: bool, plan: Plan, me: nat)
    returns (result: WriteOutcome, ghost rests: seq<Exchange>, ghost writes: seq<Exchange>)
    requires Valid(w.now) && NoEffect(me, w.now) && Normalized(intent)
    modifies w
    ensures Valid(w.now) && old(w.now).log <= w.now.log
    // everything the run sends: its HTTP exchanges, then at most one DCS write
    ensures w.trace == old(w.trace) + rests + writes && |writes| <= 1
    // no false failure: nothing of a FAILED run took or ever takes effect
    ensures result.outcome == Failed ==> NoEffect(me, w.now)
    // success is confirmed by an accepting response or by a readback after the run's last write
    ensures result.outcome == Succeeded ==>
              Expected(plan, LeaderField).Some?
              && Confirmed(service, result, w.now.log, AnsweredAt(AnsweredAt(|old(w.now).log|, rests), writes), intent,
                           Expected(plan, LeaderField).value)
    // the DCS write happens only without an HTTP response, after the REST write, and only as the guarded fallback
    ensures NoDcsWrite(me, w.now)
            || (result.data.httpStatus == 0
                && FallbackPlanned(me, w.now, AnsweredAt(|old(w.now).log|, rests), plan, intent))
    // one REST write at most, to the member a revalidated snapshot selects
    ensures OneRestWrite(me, w.now)
    ensures (rests == [] && NoRestWrite(me, w.now))
            || RestAsPlanned(me, w.now, |old(w.now).log|, plan, intent, rests, result.data.httpStatus)
    ensures result.data.httpStatus in ACCEPTING ==> RestApplied(me, w.now)
    ensures Classified(result)
  {
    hide SnapshotOf, StoreAt, Payload, Later, Valid, Normalized, RestAt, RestCalls, ReadBack;
    hide NoEffect, NoDcsWrite, OneRestWrite, RestApplied, OnlyFallbackWrite, ReadAfter, PlanMatchesIntent;
    hide PlanMatchesSelection, ResolveTransition, NoRestWrite, RestAsPlanned, SupportsCluster;
    rests, writes := [], [];
    LaterReflexive(me, w.now);
    NothingSent(me, w.now, w.now);
    var noContext: bool := *;
    if noContext || requestError || !PlanMatchesIntent(plan, intent) {
      result := FailedRead(Error(CategoryUsage, false));
      return;
    }
    var read := ReadSnapshot(w, me, intent.prefix);
    NothingSent(me, old(w.now), w.now);
    if read.Err? {
      result := FailedRead(ClassifyReadError(read.error));
      return;
    }
    if !SupportsCluster(service, read.value.cluster) {
      result := FailedRead(Error(CategoryUnsupported, false));
      return;
    }
    var resolved := ResolveTransition(read.value.cluster, intent);
    if resolved.Err? {
      result := Failure(PathREST, NO_DATA.(restSend := SendNotSent, verification := VerifiedFailed),
                        Error(CategoryConflict, false));
      return;
    }
    var selection := resolved.value;
    var data := TransitionData(intent, selection);
    if !PlanMatchesSelection(plan, selection) {
      result := Failure(PathREST, data, Error(CategoryConflict, false));
      return;
    }
    PlannedLeader(plan, selection);
    var gone: bool := *;
    if gone {
      result := Failure(PathREST, data.(verification := VerifiedFailed), Error(CategoryFailed, false));
      return;
    }
    ghost var seen := w.now.log;
    ReadNow(seen, |old(w.now).log|, intent.prefix);
    result, rests, writes := SendTransition(w, service, intent, selection, me);
    StartEarlier(service, result, me, w.now, |old(w.now).log|, |seen|, rests, writes, plan, intent, selection);
    RestIsPlanned(me, seen, w.now, |old(w.now).log|, plan, intent, read.value, selection, rests,
                  result.data.httpStatus);
  }

  /** What is promised from a later start holds from an earlier one. */
  lemma StartEarlier(service: Service, result: WriteOutcome, me: nat, s: State, start: nat, ready: nat,
                     rests: seq<Exchange>, writes: seq<Exchange>, plan: Plan, intent: Intent, selection: Selection)
    requires start <= ready && PlanMatchesSelection(plan, selection)
    ensures var called := AnsweredAt(ready, rests);
            && (Confirmed(service, result, s.log, AnsweredAt(called, writes), intent, selection.leader) ==>
                  Confirmed(service, result, s.log, AnsweredAt(AnsweredAt(start, rests), writes), intent,
                            selection.leader))
            && (OnlyFallbackWrite(me, s, called, intent, selection) ==>
                  FallbackPlanned(me, s, AnsweredAt(start, rests), plan, intent))
  {
    hide GuardedFallback, TransitionCompleted, PlanMatchesSelection, SnapshotOf;
    var later, earlier := AnsweredAt(ready, rests), AnsweredAt(start, rests);
    assert earlier <= later && AnsweredAt(earlier, writes) <= AnsweredAt(later, writes);
    if ReadBack(service, s.log, AnsweredAt(later, writes), intent, selection.leader) {
      var snapshot :| ReadAfter(s.log, AnsweredAt(later, writes), intent.prefix, snapshot)
                      && TransitionCompleted(service, snapshot.cluster, intent, selection.leader);
      ReadAfterExtends(s.log, s.log, AnsweredAt(later, writes), AnsweredAt(earlier, writes), intent.prefix, snapshot);
    }
    assert OnlyFallbackWrite(me, s, later, intent, selection) ==> OnlyFallbackWrite(me, s, earlier, intent, selection);
  }

  /** Before anything is sent, the run has no effect. */
  lemma NothingSent(me: nat, s: State, t: State)
    requires NoEffect(me, s) && Later(me, s, t)
    ensures NoEffect(me, t) && NoDcsWrite(me, t) && OneRestWrite(me, t) && NoRestWrite(me, t)
    ensures s.log <= t.log && (Valid(s) ==> Valid(t))
  {
    hide NoEffect, OneRestWrite;
    QuietLater(me, s, t);
    NoEffectMeansOneRestWrite(me, t);
  }

  lemma PlannedLeader(plan: Plan, selection: Selection)
    requires PlanMatchesSelection(plan, selection)
    ensures Expected(plan, LeaderField) == Some(selection.leader)
  {
  }

  /** What a run promised about its DCS write stays true forever. */
  lemma OnlyFallbackWriteLater(me: nat, s: State, t: State, from: nat, intent: Intent, planned: Selection)
    requires OnlyFallbackWrite(me, s, from, intent, planned) && Later(me, s, t)
    ensures OnlyFallbackWrite(me, t, from, intent, planned)
  {
    hide ValidateFallback, LeaderCompleted, ClusterAt, Payload, OnlyRequest, NoCommitOf, FailoverGuard, Later;
    var read :| from <= read && GuardedFallback(me, s, read, intent, planned);
    LaterKeeps(me, s, t);
    assert t.log[..read] == s.log[..read];
    OnlyRequestLater(me, s, t, FallbackRequest(me, s.log[..read], intent, planned));
    assert GuardedFallback(me, t, read, intent, planned);
  }

  /** A fallback write of a finished run, whenever it commits, in the run or in
      any later state t, finds the failover key exactly as the guarding snapshot
      did. */
  lemma FallbackCommitFindsEvent(me: nat, s: State, t: State, from: nat, intent: Intent, planned: Selection, i: nat)
    requires OnlyFallbackWrite(me, s, from, intent, planned) && Later(me, s, t) && Valid(t)
    requires i < |t.log| && t.log[i].author == me
    ensures exists read :: from <= read <= i && GuardedFallback(me, t, read, intent, planned)
              && var key := FailoverKeyOf(intent);
                 && Lookup(StoreAt(t.log[..i]), key) == Lookup(StoreAt(t.log[..read]), key)
                 && match ClusterAt(t.log[..read], intent.prefix).failover
                    case None => key !in StoreAt(t.log[..i])
                    case Some(f) =>
                      key in StoreAt(t.log[..i]) && f
                          == DecodeFailover(EntryAt(StoreAt(t.log[..i]), intent.prefix, key))
  {
    hide ValidateFallback, LeaderCompleted, ClusterAt, StoreAt, Payload, DecodeFailover, EntryAt, Later;
    hide NoCommitOf;
    OnlyFallbackWriteLater(me, s, t, from, intent, planned);
    var read :| from <= read && GuardedFallback(me, t, read, intent, planned);
    OwnCommit(me, t, FallbackRequest(me, t.log[..read], intent, planned), i);
    CommitsAfter(me, t.log, read, i);
    GuardFromSnapshot(t.log, read, i, intent.prefix);
  }
}
