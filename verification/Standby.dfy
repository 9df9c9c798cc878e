/** demote-cluster and promote-cluster (control/standby_cluster.go): one
    configuration patch through the confirmed leader, then role convergence. */
module Standby {
  import opened Text
  import opened Etcd
  import opened Txn
  import opened Cluster
  import opened Control
  import opened Effects
  import opened Members
  import Target

  datatype StandbyConfig = StandbyConfig(host: string, port: int, restoreCommand: string, primarySlotName: string)

  /** A demotion carries the configuration of the new standby; `effective` is
      the cluster the snapshot is read from: the requested one, or the
      coordinator group of a Citus deployment. */
  datatype RoleIntent = RoleIntent(
    target: Target.Target, effective: Target.Target, prefix: string, standby: Option<StandbyConfig>, force: bool,
    citus: bool)

  datatype RoleData = RoleData(
    previousLeader: string, leader: string, restSend: SendState, verification: Verification, httpStatus: nat,
    dcsRevision: nat,
    pending: seq<Condition>, noop: bool)

  const NO_ROLE := RoleData("", "", NoSend, NoVerification, 0, 0, [], false)

  type RoleOutcome = Control.Result<RoleData>

  const PATCHED: set<nat> := {200}

  function Operation(intent: RoleIntent): string {
    if intent.standby.Some? then "demote-cluster" else "promote-cluster"
  }

  function DesiredRoleOf(intent: RoleIntent): string { if intent.standby.Some? then "standby_leader" else "primary" }

  // ---- leader selection ----

  datatype Selection = Selection(leader: Option<Member>, usable: bool)

  /** resolveStandbyClusterSelection; no leader stands for its not-found error. */
  function ResolveLeader(service: Service, cluster: ClusterState): Selection {
    if TrimSpace(LeaderName(cluster)) == "" then Selection(None, false)
    else match FirstMember(cluster.members, LeaderName(cluster))
      case None => Selection(None, false)
      case Some(member) => Selection(Some(member), service.usableURL(member.data.apiURL))
  }

  // ---- bindings ----

  datatype RoleMaterial =
    | RequestOf(operation: string, target: Target.Target, force: bool, citus: bool, payload: Option<StandbyConfig>)
    | StateOf(operation: string, target: Target.Target, leader: string, role: string, state: string)
    | EndpointOf(url: string)
    | PlanOf(operation: string, target: Target.Target, revision: nat, leader: string, role: string, state: string,
             request: string, stateBinding: string, endpoint: string)

  type RoleMac = RoleMaterial -> string

  ghost predicate Injective(mac: RoleMac) {
    forall a, b :: mac(a) == mac(b) ==> a == b
  }

  function StateToken(mac: RoleMac, intent: RoleIntent, leader: string, role: string, state: string): string {
    mac(StateOf(Operation(intent), Target.Normalize(intent.target), leader, role, state))
  }

  function RequestToken(mac: RoleMac, intent: RoleIntent): string {
    mac(RequestOf(Operation(intent), Target.Normalize(intent.target), intent.force, intent.citus, intent.standby))
  }

  function PlanRevision(plan: Plan): Option<nat> { PlannedRevision(plan, DcsRevision, 0) }

  /** validateStandbyClusterPlan. */
  predicate RolePlanAccepted(mac: RoleMac, plan: Plan, intent: RoleIntent) {
    && PlanValid(plan)
    && plan.operation == Operation(intent) && plan.path == PathREST && plan.risk == RiskAvailability
       && plan.unsafeAfterSend
    && SameCluster(plan.target, intent.target) && |plan.targets| == 1
    && Expected(plan, LeaderField).Some? && Expected(plan, LeaderField).value != ""
    && PlanRevision(plan).Some?
    && Expected(plan, LeaderRole).Some? && Expected(plan, LeaderState).Some?
    && Expected(plan, DesiredRole) == Some(DesiredRoleOf(intent))
    && Expected(plan, RequestForce) == Some(FormatBool(intent.force))
    && Expected(plan, SelectorCitus) == Some(FormatBool(intent.citus))
    && Expected(plan, CitusGroups).Some?
    && Expected(plan, EndpointBinding).Some?
    && plan.targets[0].member == Expected(plan, LeaderField).value
    && Expected(plan, RequestBinding) == Some(RequestToken(mac, intent))
    && Expected(plan, StateBinding)
       == Some(StateToken(mac, intent, Expected(plan, LeaderField).value, Expected(plan, LeaderRole).value,
                          Expected(plan, LeaderState).value))
    && Expected(plan, PlanBinding)
       == Some(mac(PlanOf(Operation(intent), Target.Normalize(intent.target), PlanRevision(plan).value,
                          Expected(plan, LeaderField).value,
                          Expected(plan, LeaderRole).value, Expected(plan, LeaderState).value,
                          Expected(plan, RequestBinding).value,
                          Expected(plan, StateBinding).value, Expected(plan, EndpointBinding).value)))
  }

  // ---- convergence ----

  datatype Condition = NoLeader | NoLeaderMember | WrongRole | NotRunning | PreviousLeaderDown

  /** standbyClusterPending. */
  function Pending(cluster: ClusterState, intent: RoleIntent, previousLeader: string): seq<Condition> {
    if LeaderName(cluster) == "" then [NoLeader]
    else match LastMember(cluster.members, LeaderName(cluster))
      case None => [NoLeaderMember]
      case Some(leader) =>
        (if leader.data.role != DesiredRoleOf(intent) then [WrongRole] else [])
        + (if leader.data.state != "running" then [NotRunning] else [])
        + (if intent.standby.Some? && !Running(cluster, previousLeader) then [PreviousLeaderDown] else [])
  }

  predicate Running(cluster: ClusterState, name: string) {
    LastMember(cluster.members, name).Some? && LastMember(cluster.members, name).value.data.state == "running"
  }

  /** The cluster has the desired role: a running leader member in it and, after
      a demotion, the previous leader running again. */
  predicate HasRole(cluster: ClusterState, intent: RoleIntent, previousLeader: string) {
    && LeaderName(cluster) != "" && Running(cluster, LeaderName(cluster))
    && LastMember(cluster.members, LeaderName(cluster)).value.data.role == DesiredRoleOf(intent)
    && (intent.standby.Some? ==> Running(cluster, previousLeader))
  }

  lemma NothingPending(cluster: ClusterState, intent: RoleIntent, previousLeader: string)
    ensures Pending(cluster, intent, previousLeader) == [] <==> HasRole(cluster, intent, previousLeader)
  {
    hide LastMember, DesiredRoleOf;
  }

  ghost predicate RoleConfirmed(log: seq<Request>, from: nat, intent: RoleIntent, previousLeader: string) {
    exists snapshot :: ReadAfter(log, from, intent.prefix, snapshot)
                       && HasRole(snapshot.cluster, intent, previousLeader)
  }

  lemma RoleConfirmedBy(log: seq<Request>, from: nat, intent: RoleIntent, previousLeader: string, snapshot: Snapshot)
    requires ReadAfter(log, from, intent.prefix, snapshot) && Pending(snapshot.cluster, intent, previousLeader) == []
    ensures RoleConfirmed(log, from, intent, previousLeader)
  {
    hide ReadAfter, Pending, HasRole;
    NothingPending(snapshot.cluster, intent, previousLeader);
  }

  // ---- execution ----

  function RoleSuccess(data: RoleData): RoleOutcome {
    Control.Result(Succeeded, PathREST, data.(verification := VerifiedSucceeded), None)
  }

  function RoleFailure(data: RoleData, error: Error): RoleOutcome {
    Control.Result(Failed, PathREST, data.(verification := VerifiedFailed), Some(error))
  }

  function RoleUnknown(data: RoleData): RoleOutcome {
    Control.Result(Unknown, PathREST, data.(verification := Unverified), Some(Error(CategoryUnknown, false)))
  }

  function RoleRefused(error: Error): RoleOutcome { Control.Result(Failed, PathREST, NO_ROLE, Some(error)) }

  predicate RoleClassified(result: RoleOutcome) {
    && FollowsRules(result.outcome, result.data.restSend, result.data.verification, result.error)
    && (result.data.noop ==> result.data.restSend == SendNotSent && result.data.verification == VerifiedSucceeded)
  }

  /** The leader at `read` is the member the plan confirmed, in the confirmed
      role and state. */
  ghost predicate LeaderAsPlanned(service: Service, log: seq<Request>, from: nat, plan: Plan, intent: RoleIntent) {
    exists snapshot :: ReadAfter(log, from, intent.prefix, snapshot)
                       && ShowsPlannedLeader(service, snapshot.cluster, plan)
  }

  predicate ShowsPlannedLeader(service: Service, cluster: ClusterState, plan: Plan) {
    var leader := ResolveLeader(service, cluster).leader;
    && leader.Some? && LeaderName(cluster) == leader.value.name
    && Expected(plan, LeaderField) == Some(leader.value.name)
    && Expected(plan, LeaderRole) == Some(leader.value.data.role)
    && Expected(plan, LeaderState) == Some(leader.value.data.state)
  }

  lemma LeaderIsPlanned(service: Service, mac: RoleMac, log: seq<Request>, from: nat, plan: Plan, intent: RoleIntent,
                        snapshot: Snapshot)
    requires Injective(mac) && RolePlanAccepted(mac, plan, intent) && ReadAfter(log, from, intent.prefix, snapshot)
    requires ResolveLeader(service, snapshot.cluster).leader.Some?
    requires var leader := ResolveLeader(service, snapshot.cluster).leader.value;
             Expected(plan, StateBinding) == Some(StateToken(mac, intent, leader.name, leader.data.role,
                                                             leader.data.state))
    ensures LeaderAsPlanned(service, log, from, plan, intent)
  {
    hide PlanValid, SameCluster, Expected, PlanRevision, ReadAfter, TrimSpace, FormatBool, Target.Normalize;
    hide RequestToken, Operation;
    FoundMember(snapshot.cluster.members, LeaderName(snapshot.cluster));
    var leader := ResolveLeader(service, snapshot.cluster).leader.value;
    var planned := StateOf(Operation(intent), Target.Normalize(intent.target), Expected(plan, LeaderField).value,
                           Expected(plan, LeaderRole).value, Expected(plan, LeaderState).value);
    var seen := StateOf(Operation(intent), Target.Normalize(intent.target), leader.name, leader.data.role,
                        leader.data.state);
    assert mac(planned) == mac(seen);
    assert ShowsPlannedLeader(service, snapshot.cluster, plan);
  }

  lemma AsPlannedExtends(service: Service, log: seq<Request>, longer: seq<Request>, from: nat, plan: Plan,
                         intent: RoleIntent)
    requires LeaderAsPlanned(service, log, from, plan, intent) && log <= longer
    ensures LeaderAsPlanned(service, longer, from, plan, intent)
  {
    hide ReadAfter, ShowsPlannedLeader;
    var snapshot :| ReadAfter(log, from, intent.prefix, snapshot)
        && ShowsPlannedLeader(service, snapshot.cluster, plan);
    ReadAfterExtends(log, longer, from, from, intent.prefix, snapshot);
  }

  /** verifyStandbyCluster. */
  method VerifyRole(w: World, service: Service, intent: RoleIntent, previousLeader: string, me: nat)
    returns (verified: bool, last: Option<Snapshot>)
    modifies w`now
    ensures Later(me, old(w.now), w.now)
    ensures verified ==> last.Some? && RoleConfirmed(w.now.log, |old(w.now).log|, intent, previousLeader)
  {
    hide Later, ReadAfter, SnapshotOf, Pending, RoleConfirmed;
    ghost var seen;
    verified, last, seen := Verify(w, me, intent.prefix, service.standbyVerificationAttempts,
                             (s: Snapshot) => Pending(s.cluster, intent, previousLeader) == []);
    if verified {
      RoleConfirmedBy(w.now.log, |old(w.now).log|, intent, previousLeader, last.value);
    }
  }

  /** The write half of executeStandbyCluster. */
  method PatchAndVerify(w: World, service: Service, intent: RoleIntent, start: RoleData, leader: string, me: nat)
    returns (result: RoleOutcome, ghost made: Exchange)
    requires Valid(w.now) && NoEffect(me, w.now)
    requires start.restSend == SendNotSent && start.verification == Unverified && !start.noop
    modifies w
    ensures Valid(w.now) && old(w.now).log <= w.now.log
    ensures w.trace == old(w.trace) + [made] && Posted(made, me, Operation(intent), leader)
    ensures result.outcome == Failed || result.data.restSend == SendNotSent ==> NoEffect(me, w.now)
    ensures result.outcome == Succeeded ==> RoleConfirmed(w.now.log, made.at, intent, start.previousLeader)
    ensures NoDcsWrite(me, w.now) && OneRestWrite(me, w.now) && RestConfined(me, w.now, Operation(intent), {leader})
    ensures RoleClassified(result) && result.data.previousLeader == start.previousLeader
  {
    hide NoEffect, NoDcsWrite, RestConfined, OneRestWrite, RestApplied, Valid, Later, Pending, RoleConfirmed, RestStep;
    hide LastMember;
    var data := start;
    w.Environment(me);
    QuietLater(me, old(w.now), w.now);
    QuietIsConfined(me, w.now, Operation(intent), {leader});
    ghost var ready := w.now;
    var reply := w.Rest(me, Operation(intent), leader, PATCHED);
    ghost var call := RestCall(me, Operation(intent), leader);
    made := RestExchange(call, reply, |w.now.log|);
    RestStepEffects(me, ready, w.now, call, PATCHED, reply, {leader});
    OneRestStep(me, ready, w.now, call, PATCHED, reply);
    data := data.(restSend := PatroniSendState(reply), httpStatus := reply.status);
    if reply.status != 0 && reply.status != 200 {
      return RoleFailure(data, ClassifyHTTPStatus(reply.status)), made;
    }
    if reply.status == 0 && data.restSend == SendNotSent {
      return RoleFailure(data, ClassifyHttpFailure(reply)), made;
    }
    ghost var answered := w.now;
    var verified, last := VerifyRole(w, service, intent, start.previousLeader, me);
    StillPatched(me, answered, w.now, Operation(intent), leader);
    if last.Some? {
      data := data.(leader := LeaderName(last.value.cluster), dcsRevision := last.value.revision,
                    pending := if verified then [] else Pending(last.value.cluster, intent, start.previousLeader));
    }
    return if verified then RoleSuccess(data) else RoleUnknown(data), made;
  }

  lemma StillPatched(me: nat, s: State, t: State, operation: string, leader: string)
    requires Later(me, s, t) && NoDcsWrite(me, s) && OneRestWrite(me, s) && RestConfined(me, s, operation, {leader})
    ensures NoDcsWrite(me, t) && OneRestWrite(me, t) && RestConfined(me, t, operation, {leader})
    ensures s.log <= t.log && (Valid(s) ==> Valid(t))
  {
    hide NoDcsWrite, OneRestWrite, RestConfined;
    KeepsRun(me, s, t, false);
    RestConfinedLater(me, s, t, operation, {leader});
  }

  lemma OneRestStep(me: nat, s: State, t: State, call: RestCall, accepting: set<nat>, reply: HttpReply)
    requires NoEffect(me, s) && call.author == me && RestStep(s, t, call, accepting, reply)
    ensures OneRestWrite(me, t)
  {
    hide NoEffect, OneRestWrite;
    RestEffects(me, s, t, call);
  }

  /** At most one HTTP exchange: the patch of the confirmed leader. */
  ghost predicate Patched(rests: seq<Exchange>, me: nat, intent: RoleIntent, leader: string) {
    |rests| <= 1 && (rests != [] ==> Posted(rests[0], me, Operation(intent), leader))
  }

  /** The part of executeStandbyCluster from the bindings on: the leader of the
      snapshot must be the confirmed one. */
  method SendRoleChange(w: World, service: Service, mac: RoleMac, intent: RoleIntent, plan: Plan, snapshot: Snapshot,
                        leader: Member, data: RoleData, ghost from: nat, me: nat)
    returns (result: RoleOutcome, ghost rests: seq<Exchange>)
    requires Valid(w.now) && NoEffect(me, w.now) && from <= |w.now.log|
    requires Injective(mac) && RolePlanAccepted(mac, plan, intent)
             && ReadAfter(w.now.log, from, intent.prefix, snapshot)
    requires ResolveLeader(service, snapshot.cluster).leader == Some(leader)
    requires data.restSend == SendNotSent && data.verification == Unverified && !data.noop
    requires Expected(plan, LeaderField) == Some(data.previousLeader)
    modifies w
    ensures Valid(w.now) && old(w.now).log <= w.now.log
    ensures w.trace == old(w.trace) + rests && Patched(rests, me, intent, data.previousLeader)
    ensures result.outcome == Failed || result.data.restSend == SendNotSent ==> NoEffect(me, w.now)
    ensures result.outcome == Succeeded ==>
              RoleConfirmed(w.now.log, AnsweredAt(from, rests), intent, data.previousLeader)
    ensures NoDcsWrite(me, w.now) && OneRestWrite(me, w.now)
    ensures (rests == [] && NoEffect(me, w.now))
            || (RestConfined(me, w.now, Operation(intent), {data.previousLeader})
                && LeaderAsPlanned(service, w.now.log, from, plan, intent))
    ensures RoleClassified(result)
  {
    hide NoEffect, NoDcsWrite, RestConfined, OneRestWrite, Valid, Later, ReadAfter, RoleConfirmed, LeaderAsPlanned;
    hide RolePlanAccepted, Injective, Expected, StateToken, ResolveLeader, Operation;
    rests := [];
    QuietIsOne(me, w.now);
    if Expected(plan, StateBinding) != Some(StateToken(mac, intent, leader.name, leader.data.role, leader.data.state))
       || Expected(plan, EndpointBinding) != Some(mac(EndpointOf(leader.data.apiURL))) {
      return RoleFailure(data, Error(CategoryConflict, false)), [];
    }
    var gone: bool := *;
    if gone {
      return RoleFailure(data, Error(CategoryFailed, false)), [];
    }
    if !service.patroni {
      return RoleFailure(data, Error(CategoryConfig, false)), [];
    }
    LeaderIsPlanned(service, mac, w.now.log, from, plan, intent, snapshot);
    LeaderNamed(service, mac, plan, intent, snapshot.cluster);
    ghost var seen := w.now.log;
    ghost var made;
    result, made := PatchAndVerify(w, service, intent, data, leader.name, me);
    rests := [made];
    AsPlannedExtends(service, seen, w.now.log, from, plan, intent);
  }

  /** executeStandbyCluster; `groups` is the Citus inventory the snapshots
      showed. */
  method ExecuteRoleChange(w: World, service: Service, mac: RoleMac, intent: RoleIntent, requestError: bool, plan: Plan,
                           groups: string, me: nat)
    returns (result: RoleOutcome, ghost rests: seq<Exchange>)
    requires Valid(w.now) && NoEffect(me, w.now) && Injective(mac)
    modifies w
    ensures Valid(w.now) && old(w.now).log <= w.now.log
    // no false failure, and NOT_SENT is the truth
    ensures result.outcome == Failed || result.data.restSend == SendNotSent ==> NoEffect(me, w.now)
    // success is a snapshot read after the patch
    ensures result.outcome == Succeeded ==>
              Expected(plan, LeaderField).Some?
              && RoleConfirmed(w.now.log, AnsweredAt(|old(w.now).log|, rests), intent,
                               Expected(plan, LeaderField).value)
    // one patch at most, to the confirmed leader, in the confirmed role and state
    ensures w.trace == old(w.trace) + rests && NoDcsWrite(me, w.now) && OneRestWrite(me, w.now)
    ensures (rests == [] && NoEffect(me, w.now))
            || (Expected(plan, LeaderField).Some?
                && Patched(rests, me, intent, Expected(plan, LeaderField).value)
                && RestConfined(me, w.now, Operation(intent), {Expected(plan, LeaderField).value})
                && LeaderAsPlanned(service, w.now.log, |old(w.now).log|, plan, intent))
    ensures RoleClassified(result)
  {
    hide NoEffect, NoDcsWrite, RestConfined, OneRestWrite, Valid, Later, ReadAfter, SnapshotOf, Pending, RoleConfirmed;
    hide LeaderAsPlanned;
    hide RolePlanAccepted, Injective, Expected, SupportsCluster, StateToken, Target.Normalize, ResolveLeader;
    hide SameCluster, DesiredRoleOf, Operation, Patched;
    rests := [];
    QuietIsOne(me, w.now);
    ghost var from := |w.now.log|;
    var noContext: bool := *;
    if noContext || requestError || !RolePlanAccepted(mac, plan, intent) {
      return RoleRefused(Error(CategoryUsage, false)), [];
    }
    LeaderFieldGiven(mac, plan, intent);
    var previous := Expected(plan, LeaderField).value;
    var data := RoleData(previous, "", SendNotSent, Unverified, 0, 0, [], false);
    var read := ReadSnapshot(w, me, intent.prefix);
    QuietLater(me, old(w.now), w.now);
    QuietIsOne(me, w.now);
    if read.Err? {
      return RoleFailure(data, ClassifyReadError(read.error)), [];
    }
    var snapshot := read.value;
    var cluster := snapshot.cluster;
    if !SupportsCluster(service, cluster) || !StandbyFeature(service, cluster) {
      return RoleFailure(data, Error(CategoryUnsupported, false)), [];
    }
    if Expected(plan, CitusGroups) != Some(groups) || !SameCluster(plan.targets[0].(member := ""), intent.effective) {
      return RoleFailure(data, Error(CategoryConflict, false)), [];
    }
    ReadNow(w.now.log, from, intent.prefix);
    var selection := ResolveLeader(service, cluster);
    if selection.leader.Some? && selection.leader.value.name != ""
       && selection.leader.value.data.role == DesiredRoleOf(intent) {
      data := data.(leader := selection.leader.value.name, dcsRevision := snapshot.revision,
                    pending := Pending(cluster, intent, previous));
      if data.pending == [] {
        RoleConfirmedBy(w.now.log, from, intent, previous, snapshot);
        return RoleSuccess(data.(noop := true)), [];
      }
      return RoleFailure(data, Error(CategoryConflict, false)), [];
    }
    if selection.leader.None? || !selection.usable {
      return RoleFailure(data, Error(CategoryConflict, false)), [];
    }
    result, rests := SendRoleChange(w, service, mac, intent, plan, snapshot, selection.leader.value, data, from, me);
  }

  predicate StandbyFeature(service: Service, cluster: ClusterState) {
    forall m :: m in cluster.members ==>
          TrimSpace(m.data.version) != "" && service.standbyFeature(TrimSpace(m.data.version))
  }

  lemma QuietIsOne(me: nat, s: State)
    requires NoEffect(me, s)
    ensures NoDcsWrite(me, s) && OneRestWrite(me, s)
  {
    hide NoEffect, NoDcsWrite, OneRestWrite;
    NoEffectMeansOneRestWrite(me, s);
  }

  lemma LeaderFieldGiven(mac: RoleMac, plan: Plan, intent: RoleIntent)
    requires RolePlanAccepted(mac, plan, intent)
    ensures Expected(plan, LeaderField).Some? && |plan.targets| == 1
  {
    hide PlanValid, SameCluster, Expected, PlanRevision, FormatBool, Target.Normalize, RequestToken, StateToken;
    hide Operation, DesiredRoleOf;
  }

  lemma LeaderNamed(service: Service, mac: RoleMac, plan: Plan, intent: RoleIntent, cluster: ClusterState)
    requires Injective(mac) && RolePlanAccepted(mac, plan, intent) && ResolveLeader(service, cluster).leader.Some?
    requires var leader := ResolveLeader(service, cluster).leader.value;
             Expected(plan, StateBinding) == Some(StateToken(mac, intent, leader.name, leader.data.role,
                                                             leader.data.state))
    ensures Expected(plan, LeaderField) == Some(ResolveLeader(service, cluster).leader.value.name)
  {
    hide PlanValid, SameCluster, Expected, PlanRevision, ResolveLeader, FormatBool, Target.Normalize, RequestToken;
    hide Operation, DesiredRoleOf;
    var leader := ResolveLeader(service, cluster).leader.value;
    var planned := StateOf(Operation(intent), Target.Normalize(intent.target), Expected(plan, LeaderField).value,
                           Expected(plan, LeaderRole).value, Expected(plan, LeaderState).value);
    var seen := StateOf(Operation(intent), Target.Normalize(intent.target), leader.name, leader.data.role,
                        leader.data.state);
    assert mac(planned) == mac(seen);
  }
}
