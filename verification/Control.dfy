/** Results, plans and their rules (control/result.go, control/plan.go,
    control/write_types.go), and the ports a control service talks through. */
module Control {
  import opened Text
  import opened Decimal
  import opened Etcd
  import opened Txn
  import opened Cluster
  import Json
  import Target

  // ---- outcomes ----

  datatype Outcome = Succeeded | Failed | Unknown
  datatype SendState = NoSend | SendNotSent | SendMaybeSent | SendAccepted
  datatype Verification = NoVerification | Unverified | VerifiedSucceeded | VerifiedFailed

  datatype Category =
    | CategoryUsage | CategoryConfig | CategoryUnsupported | CategoryAuth | CategoryNotFound | CategoryConflict
    | CategoryUnreachable | CategoryFailed | CategoryUnknown | CategoryInternal

  datatype Error = Error(category: Category, retryable: bool)

  /** The no-false-failure rule. */
  function ClassifyWrite(send: SendState, verification: Verification, operationError: bool): Outcome {
    match verification
    case VerifiedSucceeded => Succeeded
    case VerifiedFailed => Failed
    case _ =>
      if send.SendMaybeSent? || send.SendAccepted? then Unknown
      else if send.SendNotSent? && operationError then Failed
      else Unknown
  }

  /** The outcome switch of Result.Validate. */
  predicate CategoryFits(outcome: Outcome, error: Option<Error>) {
    match outcome
    case Succeeded => error.None?
    case Failed => error.Some? && error.value.category != CategoryUnknown
    case Unknown => error.Some? && error.value.category == CategoryUnknown
  }

  /** A write result obeys the no-false-failure rule and Result.Validate; only
      refused requests carry no verification. */
  predicate FollowsRules(outcome: Outcome, send: SendState, verification: Verification, error: Option<Error>) {
    && CategoryFits(outcome, error)
    && (if verification == NoVerification then outcome == Failed
        else outcome == ClassifyWrite(send, verification, error.Some?))
  }

  /** The more doubtful of a REST and a DCS send state. */
  function Strongest(rest: SendState, dcs: SendState): SendState {
    if rest.SendMaybeSent? || dcs.SendMaybeSent? then SendMaybeSent
    else if rest.SendAccepted? || dcs.SendAccepted? then SendAccepted
    else if rest.SendNotSent? || dcs.SendNotSent? then SendNotSent
    else NoSend
  }

  predicate Ambiguous(send: SendState) { send.SendMaybeSent? || send.SendAccepted? }

  datatype Path = PathDCS | PathREST | PathRESTToDCS

  datatype Result<+D> = Result(outcome: Outcome, path: Path, data: D, error: Option<Error>)

  /** MemberWriteResult: what one member's part of a write came to. */
  datatype MemberResult = MemberResult(
    target: Target.Target, outcome: Outcome, send: SendState, verification: Verification, httpStatus: nat,
    error: Option<Error>)

  // ---- transport classifications ----

  function PatroniSendState(reply: HttpReply): SendState {
    if reply.status != 0 then SendAccepted
    else match reply.delivery
      case HttpNotSent(_) => SendNotSent
      case HttpMaybeSent(_) => SendMaybeSent
      case HttpReceived => SendAccepted
      case HttpUntyped => SendMaybeSent
  }

  function DcsSendState(error: Option<Failure>, applied: bool): SendState {
    match error
    case None => if applied then SendAccepted else SendMaybeSent
    case Some(NotSent(_)) => SendNotSent
    case Some(MaybeSent(_)) => SendMaybeSent
    case Some(Conflict(_, _)) => SendNotSent
  }

  function ClassifyReadError(kind: ErrorKind): (error: Error)
    ensures error.category in {CategoryConfig, CategoryAuth, CategoryFailed, CategoryUnreachable}
    ensures error.retryable <==> error.category == CategoryUnreachable
    ensures error.category == CategoryUnreachable <==> kind.Deadline? || kind.Transport?
    ensures error.category == CategoryConfig <==> kind.Configuration?
    ensures error.category == CategoryAuth <==> kind.Authentication?
  {
    match kind
    case Configuration => Error(CategoryConfig, false)
    case Authentication => Error(CategoryAuth, false)
    case Canceled => Error(CategoryFailed, false)
    case Deadline => Error(CategoryUnreachable, true)
    case Transport => Error(CategoryUnreachable, true)
  }

  function ClassifyFailure(failure: Failure): (error: Error)
    ensures error.category != CategoryUnknown
  {
    match failure
    case NotSent(kind) => ClassifyReadError(kind)
    case MaybeSent(kind) => ClassifyReadError(kind)
    case Conflict(_, _) => Error(CategoryUnreachable, true)
  }

  function ClassifyHttpFailure(reply: HttpReply): (error: Error)
    ensures error.category != CategoryUnknown
  {
    match reply.delivery
    case HttpNotSent(kind) => ClassifyReadError(kind)
    case HttpMaybeSent(kind) => ClassifyReadError(kind)
    case _ => Error(CategoryUnreachable, true)
  }

  function ClassifyHTTPStatus(status: nat): (error: Error)
    ensures error.category in {CategoryAuth, CategoryNotFound, CategoryConflict, CategoryUnreachable, CategoryFailed}
    ensures error.retryable <==> error.category == CategoryUnreachable
    ensures error.category == CategoryUnreachable <==> status >= 500
    ensures error.category == CategoryAuth <==> status in {401, 403}
    ensures error.category == CategoryNotFound <==> status == 404
    ensures error.category == CategoryConflict <==> status in {409, 412}
  {
    if status == 401 || status == 403 then Error(CategoryAuth, false)
    else if status == 404 then Error(CategoryNotFound, false)
    else if status == 409 || status == 412 then Error(CategoryConflict, false)
    else if status >= 500 then Error(CategoryUnreachable, true)
    else Error(CategoryFailed, false)
  }

  // ---- plans ----

  datatype Risk = RiskAdminWrite | RiskConfiguration | RiskAvailability | RiskDestructive

  /** The precondition fields of the plans modelled here. */
  datatype Field =
    | DcsRevision | LeaderField | CandidateName | CandidateOptions | CandidateSyncEligible | ClusterPaused
    | FailoverRevision
    | RequestLeader | RequestSchedule | RequestForce | RequestCitus | FallbackPath
    | FailoverLeader | FailoverCandidate | FailoverScheduledAt | RestMembers | RestTargets
    | ConfigModRevision | ConfigRequest | ConfigDesired | ConfigNoop | ConfigBinding
    | FlushEvent | SelectorMembers
    | PauseCurrent | PauseDesired | RequestWait
    | RemoveClusterName | RemoveAcknowledgement | RemoveLeader | RemoveBinding
    | LeaderRole | LeaderState | DesiredRole | SelectorCitus | RequestBinding | StateBinding | EndpointBinding
    | PlanBinding
    | SelectorRole | CitusGroups
    | RestartAny | RestartSchedule | RestartVersion | RestartPending | RestartTimeout | RestartForce
    | ReinitForce | ReinitFromLeader | ReinitWait

  datatype Plan = Plan(
    operationID: string, operation: string, target: Target.Target, targets: seq<Target.Target>, path: Path, risk: Risk,
    unsafeAfterSend: bool, summary: string, preconditions: map<Field, string>)

  /** expectedPrecondition: the first precondition of a field. */
  function Expected(plan: Plan, field: Field): Option<string> {
    if field in plan.preconditions then Some(plan.preconditions[field]) else None
  }

  /** Equality of ClusterIDs, which are injective on normal forms. */
  predicate SameCluster(a: Target.Target, b: Target.Target) {
    Target.Normalize(a).(member := "") == Target.Normalize(b).(member := "")
  }

  predicate CrossGroup(operation: string, plan: Target.Target, member: Target.Target) {
    var p, m := Target.Normalize(plan), Target.Normalize(member);
    && operation in ["reload", "restart", "reinit", "flush", "demote-cluster", "promote-cluster"]
    && p.group.None? && m.group.Some? && m.context == p.context && m.namespace == p.namespace && m.scope == p.scope
  }

  predicate PlanTargetsValid(plan: Plan) {
    forall i :: 0 <= i < |plan.targets| ==>
      var t := Target.Normalize(plan.targets[i]);
      && Target.Validate(t, true).None? && t.member != ""
      && (SameCluster(t, plan.target) || CrossGroup(plan.operation, plan.target, t))
      && forall j :: 0 <= j < i ==> Target.Normalize(plan.targets[j]) != t
  }

  /** Plan.Validate. */
  predicate PlanValid(plan: Plan) {
    && plan.operationID != "" && plan.operation != "" && plan.summary != ""
    && Target.Validate(plan.target, true).None?
    && ((plan.operation == "restart" || plan.operation == "reload") ==> plan.target.member != "" || plan.targets != [])
    && PlanTargetsValid(plan)
  }

  /** The revision a plan field states, if it is an integer of at least `least`. */
  function PlannedRevision(plan: Plan, field: Field, least: nat): Option<nat> {
    match Expected(plan, field)
    case None => None
    case Some(text) =>
      match Atoi(text)
      case Some(n) => if n >= least then Some(n) else None
      case None => None
  }

  function FormatBool(b: bool): string { if b then "true" else "false" }

  // ---- the service and its ports ----

  /** Capabilities and options of a control service.  URL syntax, the Patroni
      version range and RFC 3339 time comparison are given as predicates. */
  datatype Service = Service(
    patroni: bool, failoverDCS: bool, configDCS: bool, removerDCS: bool,
    verificationAttempts: nat, standbyVerificationAttempts: nat,
    usableURL: string -> bool, supportedVersion: string -> bool, standbyFeature: string -> bool,
    sameInstant: (string, string) -> bool)

  predicate SupportsCluster(service: Service, cluster: ClusterState) {
    forall m :: m in cluster.members ==>
          TrimSpace(m.data.version) != "" && service.supportedVersion(TrimSpace(m.data.version))
  }

  predicate BoolConfig(value: Json.Json) {
    match value
    case Bool(truth) => truth
    case String(text) => Lower(TrimSpace(text)) in ["1", "true", "yes", "on"]
    case Number(digits) => digits == "1"
    case _ => false
  }

  function LeaderName(cluster: ClusterState): string {
    match cluster.leader
    case None => ""
    case Some(leader) => leader.name
  }

  /** The first member of a name. */
  function FirstMember(members: seq<Member>, name: string): Option<Member> {
    FirstMemberFrom(members, name, 0)
  }

  function FirstMemberFrom(members: seq<Member>, name: string, i: nat): Option<Member>
    decreases |members| - i
  {
    if i >= |members| then None
    else if members[i].name == name then Some(members[i])
    else FirstMemberFrom(members, name, i + 1)
  }

  lemma FoundMember(members: seq<Member>, name: string)
    ensures match FirstMember(members, name)
            case Some(m) => m in members && m.name == name
            case None => forall m :: m in members ==> m.name != name
  {
    FoundMemberFrom(members, name, 0);
  }

  lemma {:induction false} FoundMemberFrom(members: seq<Member>, name: string, i: nat)
    ensures match FirstMemberFrom(members, name, i)
            case Some(m) => m in members && m.name == name
            case None => forall j :: i <= j < |members| ==> members[j].name != name
    decreases |members| - i
  {
    if i < |members| {
      FoundMemberFrom(members, name, i + 1);
    }
  }

  predicate NoFailover(member: Member) { BoolConfig(Json.Get(member.data.tags, "nofailover")) }

  predicate Paused(cluster: ClusterState) { BoolConfig(Json.Get(cluster.config, "pause")) }

  /** A snapshot some read returned while the history went from length `from`
      to its present length. */
  ghost predicate ReadAfter(log: seq<Request>, from: nat, prefix: string, snapshot: Snapshot) {
    exists n :: from <= n <= |log| && snapshot == SnapshotOf(log[..n], prefix)
  }

  lemma ReadAfterExtends(log: seq<Request>, longer: seq<Request>, from: nat, earlier: nat, prefix: string,
                         snapshot: Snapshot)
    requires ReadAfter(log, from, prefix, snapshot) && log <= longer && earlier <= from
    ensures ReadAfter(longer, earlier, prefix, snapshot)
  {
    var n :| from <= n <= |log| && snapshot == SnapshotOf(log[..n], prefix);
    assert longer[..n] == log[..n];
  }

  lemma ReadNow(log: seq<Request>, from: nat, prefix: string)
    requires from <= |log|
    ensures ReadAfter(log, from, prefix, SnapshotOf(log, prefix))
  {
    assert log[..|log|] == log;
  }

  /** snapshots.Snapshot: other writers run, then one consistent read. */
  method ReadSnapshot(w: World, me: nat, prefix: string) returns (result: Text.Result<Snapshot, ErrorKind>)
    modifies w`now
    ensures Later(me, old(w.now), w.now)
    ensures result.Ok? ==> result.value == SnapshotOf(w.now.log, prefix)
  {
    w.Environment(me);
    var fails: bool := *;
    var kind: ErrorKind := *;
    if fails {
      return Err(kind);
    }
    return Ok(SnapshotOf(w.now.log, prefix));
  }

  /** The verification loop all commands share: read, test, wait, repeat, until
      a snapshot matches, the attempts are used up, or the wait is canceled.
      `seen` are the snapshots it got: only the last can match, and it decides. */
  method Verify(w: World, me: nat, prefix: string, attempts: nat, matches: Snapshot -> bool)
    returns (verified: bool, last: Option<Snapshot>, ghost seen: seq<Snapshot>)
    modifies w`now
    ensures Later(me, old(w.now), w.now)
    ensures |seen| <= attempts
    ensures forall i :: 0 <= i < |seen| ==> ReadAfter(w.now.log, |old(w.now).log|, prefix, seen[i])
    ensures last == if seen == [] then None else Some(seen[|seen| - 1])
    ensures forall i :: 0 <= i < |seen| ==> (matches(seen[i]) <==> verified && i == |seen| - 1)
    ensures verified ==> seen != []
  {
    hide ReadAfter, SnapshotOf, Later;
    verified, last, seen := false, None, [];
    LaterReflexive(me, w.now);
    var attempt := 0;
    while attempt < attempts
      invariant Later(me, old(w.now), w.now)
      invariant |seen| <= attempt <= attempts
      invariant forall i :: 0 <= i < |seen| ==> ReadAfter(w.now.log, |old(w.now).log|, prefix, seen[i])
      invariant last == if seen == [] then None else Some(seen[|seen| - 1])
      invariant forall i :: 0 <= i < |seen| ==> !matches(seen[i])
    {
      var canceled: bool := *;
      if canceled {
        return false, last, seen;
      }
      ghost var before := w.now;
      var read := ReadSnapshot(w, me, prefix);
      ReadsKept(me, old(w.now), before, w.now, prefix, seen);
      attempt := attempt + 1;
      if read.Ok? {
        last, seen := Some(read.value), seen + [read.value];
        ReadNow(w.now.log, |old(w.now).log|, prefix);
        if matches(read.value) {
          return true, last, seen;
        }
      }
    }
  }

  lemma ReadsKept(me: nat, start: State, s: State, t: State, prefix: string, seen: seq<Snapshot>)
    requires Later(me, start, s) && Later(me, s, t)
    requires forall i :: 0 <= i < |seen| ==> ReadAfter(s.log, |start.log|, prefix, seen[i])
    ensures Later(me, start, t) && |start.log| <= |t.log|
    ensures forall i :: 0 <= i < |seen| ==> ReadAfter(t.log, |start.log|, prefix, seen[i])
  {
    hide ReadAfter;
    LaterTransitive(me, start, s, t);
    forall i | 0 <= i < |seen|
      ensures ReadAfter(t.log, |start.log|, prefix, seen[i])
    {
      ReadAfterExtends(s.log, t.log, |start.log|, |start.log|, prefix, seen[i]);
    }
  }

  function RevisionOf(last: Option<Snapshot>): nat {
    match last
    case None => 0
    case Some(snapshot) => snapshot.revision
  }

  lemma LaterKeeps(me: nat, s: State, t: State)
    requires Later(me, s, t)
    ensures s.log <= t.log && s.rest <= t.rest && (Valid(s) ==> Valid(t))
  {
  }

  lemma NoEffectLater(me: nat, s: State, t: State)
    requires NoEffect(me, s) && Later(me, s, t)
    ensures NoEffect(me, t)
  {
    forall r: Request | r.author == me
      ensures Tally(t, r) == 0
    {
      assert Tally(t, r) <= Tally(s, r);
    }
    forall c: RestCall | c.author == me
      ensures RestTally(t, c) == 0
    {
      assert RestTally(t, c) <= RestTally(s, c);
    }
  }
}
