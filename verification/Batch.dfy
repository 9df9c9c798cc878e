/** Batch member writes: reload (control/reload.go), restart (control/restart.go)
    and reinitialize (control/reinitialize.go), over targets resolved across
    snapshots (control/citus.go). */
module Batch {
  import opened Text
  import opened Decimal
  import opened Etcd
  import opened Txn
  import opened Cluster
  import opened Control
  import opened Effects
  import opened Members
  import Target

  datatype Role = AnyRole | LeaderRoleOnly | PrimaryRole | StandbyLeaderRole | ReplicaRole | StandbyRole

  datatype Command =
    | Reload
    | Restart(any: bool, schedule: Option<string>, postgresVersion: string, pending: bool, timeout: string, force: bool)
    | Reinitialize(force: bool, fromLeader: bool, wait: bool)

  /** The snapshot of one cluster or Citus group. */
  datatype GroupSnapshot = GroupSnapshot(target: Target.Target, prefix: string, cluster: ClusterState)

  datatype Resolved = Resolved(target: Target.Target, member: Member, snapshot: GroupSnapshot)

  type BatchOutcome = Control.Result<seq<MemberResult>>

  function Operation(command: Command): string {
    match command
    case Reload => "reload"
    case Restart(_, _, _, _, _, _) => "restart"
    case Reinitialize(_, _, _) => "reinit"
  }

  /** The removal of a scheduled restart. */
  const FLUSH := "flush restart"

  lemma OperationsDiffer(command: Command)
    ensures Operation(command) != FLUSH
  {
    assert |Operation(command)| != |FLUSH|;
  }

  // ---- resolving planned targets ----

  function WireRole(role: string): string { Underscored(Lower(role)) }

  function Underscored(s: string): string {
    if s == "" then "" else [if s[0] == '-' then '_' else s[0]] + Underscored(s[1..])
  }

  /** memberMatchesRole. */
  predicate MatchesRole(cluster: ClusterState, member: Member, role: Role) {
    var isLeader := member.name == LeaderName(cluster);
    match role
    case AnyRole => true
    case LeaderRoleOnly => isLeader
    case PrimaryRole => isLeader && WireRole(member.data.role) != "standby_leader"
    case StandbyLeaderRole => isLeader && WireRole(member.data.role) !in ["primary", "master"]
    case ReplicaRole => !isLeader
    case StandbyRole => !isLeader
  }

  /** Equality of ClusterIDs, as a map key. */
  function ClusterOf(target: Target.Target): Target.Target { Target.Normalize(target).(member := "") }

  /** The last snapshot of a cluster. */
  function SnapshotFor(snapshots: seq<GroupSnapshot>, cluster: Target.Target): Option<GroupSnapshot> {
    if snapshots == [] then None
    else if ClusterOf(snapshots[|snapshots| - 1].target) == cluster then Some(snapshots[|snapshots| - 1])
    else SnapshotFor(snapshots[..|snapshots| - 1], cluster)
  }

  /** What a planned target resolves to: a member of its own cluster, still in
      the requested role. */
  function Resolve(snapshots: seq<GroupSnapshot>, planned: Target.Target, role: Role): Option<Resolved> {
    var target := Target.Normalize(planned);
    match SnapshotFor(snapshots, ClusterOf(target))
    case None => None
    case Some(snapshot) =>
      match FirstMember(snapshot.cluster.members, target.member)
      case None => None
      case Some(member) => if MatchesRole(snapshot.cluster, member, role) then Some(Resolved(target, member, snapshot))
      else None
  }

  predicate PendingRestart(member: Member) { member.data.pendingRestart == Some(true) }

  predicate WantsPending(command: Command) { command.Restart? && command.pending && command.schedule.None? }

  /** The target can be written to: it resolves, and has the pending restart
      the command asks for. */
  predicate Writable(snapshots: seq<GroupSnapshot>, planned: Target.Target, role: Role, command: Command) {
    var resolved := Resolve(snapshots, planned, role);
    resolved.Some? && (WantsPending(command) ==> PendingRestart(resolved.value.member))
  }

  function Conflict(target: Target.Target): MemberResult {
    MemberResult(target, Failed, SendNotSent, VerifiedFailed, 0, Some(Error(CategoryConflict, false)))
  }

  /** resolvePlannedMembersAcrossSnapshots: a map of the snapshots, then one
      loop over the targets. */
  method ResolvePlannedMembers(snapshots: seq<GroupSnapshot>, targets: seq<Target.Target>, role: Role)
    returns (resolved: seq<Resolved>, conflicts: seq<MemberResult>)
    ensures forall r :: r in resolved ==>
              exists i :: 0 <= i < |targets| && Resolve(snapshots, targets[i], role) == Some(r)
    ensures forall c :: c in conflicts ==>
              exists i :: 0 <= i < |targets| && Resolve(snapshots, targets[i], role).None?
                          && c == Conflict(Target.Normalize(targets[i]))
    ensures conflicts == [] <==> forall i :: 0 <= i < |targets| ==> Resolve(snapshots, targets[i], role).Some?
    ensures conflicts == [] ==> |resolved| == |targets| && forall i :: 0 <= i < |targets| ==>
              Resolve(snapshots, targets[i], role) == Some(resolved[i])
  {
    hide Target.Normalize, MatchesRole;
    var byCluster: map<Target.Target, GroupSnapshot> := map[];
    var i := 0;
    while i < |snapshots|
      invariant i <= |snapshots|
      invariant forall key :: SnapshotFor(snapshots[..i], key) == if key in byCluster then Some(byCluster[key])
                else None
    {
      assert snapshots[..i + 1][..i] == snapshots[..i];
      byCluster := byCluster[ClusterOf(snapshots[i].target) := snapshots[i]];
      i := i + 1;
    }
    assert snapshots[..i] == snapshots;
    resolved, conflicts := [], [];
    i := 0;
    while i < |targets|
      invariant i <= |targets|
      invariant forall r :: r in resolved ==> exists j :: 0 <= j < i && Resolve(snapshots, targets[j], role) == Some(r)
      invariant forall c :: c in conflicts ==>
                exists j :: 0 <= j < i && Resolve(snapshots, targets[j], role).None?
                            && c == Conflict(Target.Normalize(targets[j]))
      invariant conflicts == [] <==> forall j :: 0 <= j < i ==> Resolve(snapshots, targets[j], role).Some?
      invariant conflicts == [] ==>
                |resolved| == i && forall j :: 0 <= j < i ==> Resolve(snapshots, targets[j], role) == Some(resolved[j])
    {
      var target := Target.Normalize(targets[i]);
      var found: Option<Resolved> := None;
      if ClusterOf(target) in byCluster {
        var snapshot := byCluster[ClusterOf(target)];
        var member := FirstMember(snapshot.cluster.members, target.member);
        if member.Some? && MatchesRole(snapshot.cluster, member.value, role) {
          found := Some(Resolved(target, member.value, snapshot));
        }
      }
      assert found == Resolve(snapshots, targets[i], role);
      if found.Some? {
        resolved := resolved + [found.value];
      } else {
        conflicts := conflicts + [Conflict(target)];
      }
      i := i + 1;
    }
  }

  /** requirePendingRestart. */
  method RequirePendingRestart(resolved: seq<Resolved>, earlier: seq<MemberResult>)
    returns (remaining: seq<Resolved>, conflicts: seq<MemberResult>)
    ensures conflicts == [] <==> earlier == [] && forall i :: 0 <= i < |resolved| ==> PendingRestart(resolved[i].member)
    ensures conflicts == [] ==> remaining == resolved
    ensures forall c :: c in conflicts ==>
              c in earlier || exists i :: 0 <= i < |resolved| && c == Conflict(resolved[i].target)
  {
    remaining, conflicts := [], earlier;
    var i := 0;
    while i < |resolved|
      invariant i <= |resolved|
      invariant conflicts == [] <==> earlier == [] && forall j :: 0 <= j < i ==> PendingRestart(resolved[j].member)
      invariant conflicts == [] ==> remaining == resolved[..i]
      invariant forall c :: c in conflicts ==>
                  c in earlier || exists j :: 0 <= j < i && c == Conflict(resolved[j].target)
    {
      if PendingRestart(resolved[i].member) {
        remaining := remaining + [resolved[i]];
      } else {
        conflicts := conflicts + [Conflict(resolved[i].target)];
      }
      i := i + 1;
    }
    assert resolved[..i] == resolved;
  }

  // ---- results ----

  predicate Untried(result: MemberResult) {
    result.outcome == Failed && result.send == SendNotSent && result.verification == VerifiedFailed
    && result.httpStatus == 0 && result.error == Some(Error(CategoryConflict, false))
  }

  /** One result per planned target, in plan order. */
  predicate InPlanOrder(results: seq<MemberResult>, targets: seq<Target.Target>) {
    |results| == |targets| && forall i :: 0 <= i < |targets| ==>
          Target.Normalize(results[i].target) == Target.Normalize(targets[i])
  }

  /** abortBatchForTargetChange: the conflicts by member, everybody else
      skipped. */
  method AbortBatch(targets: seq<Target.Target>, conflicts: seq<MemberResult>) returns (members: seq<MemberResult>)
    requires forall c :: c in conflicts ==> Untried(c)
    ensures InPlanOrder(members, targets)
    ensures forall i :: 0 <= i < |members| ==> Untried(members[i])
  {
    hide Target.Normalize;
    var byMember: map<Target.Target, MemberResult> := map[];
    var i := 0;
    while i < |conflicts|
      invariant i <= |conflicts|
      invariant forall key :: key in byMember ==>
                  Untried(byMember[key]) && Target.Normalize(byMember[key].target) == key
    {
      byMember := byMember[Target.Normalize(conflicts[i].target) := conflicts[i]];
      i := i + 1;
    }
    members := [];
    i := 0;
    while i < |targets|
      invariant i == |members| <= |targets|
      invariant forall j :: 0 <= j < i ==>
                Untried(members[j]) && Target.Normalize(members[j].target) == Target.Normalize(targets[j])
    {
      var key := Target.Normalize(targets[i]);
      members := members + [if key in byMember then byMember[key] else Conflict(targets[i])];
      i := i + 1;
    }
  }

  /** finalizeBatchWrite. */
  method FinalizeBatch(results: seq<MemberResult>) returns (result: BatchOutcome)
    ensures result.outcome == BatchVerdict(results) && result.data == results
    ensures CategoryFits(result.outcome, result.error)
  {
    var outcome := Succeeded;
    var i := 0;
    while i < |results|
      invariant i <= |results|
      invariant outcome == BatchVerdict(results[..i])
    {
      VerdictStep(results, i);
      if results[i].outcome == Unknown {
        outcome := Unknown;
      } else if results[i].outcome == Failed && outcome != Unknown {
        outcome := Failed;
      }
      i := i + 1;
    }
    assert results[..i] == results;
    var error := match outcome
      case Succeeded => None
      case Failed => Some(Error(CategoryFailed, false))
      case Unknown => Some(Error(CategoryUnknown, false));
    return Control.Result(outcome, PathREST, results, error);
  }

  function Refused(error: Error): BatchOutcome { Control.Result(Failed, PathREST, [], Some(error)) }

  // ---- one member ----

  /** How a member is named in REST writes: its group and name, which tell the
      targets of one plan apart. */
  function Address(target: Target.Target): string {
    Target.GroupText(target.group) + "/" + target.member
  }

  lemma AddressInjective(a: Target.Target, b: Target.Target)
    requires Address(a) == Address(b) && a.context == b.context && a.namespace == b.namespace && a.scope == b.scope
    ensures a == b
  {
    hide FormatInt;
    var x, y := Target.GroupText(a.group), Target.GroupText(b.group);
    assert Address(a)[|x|] == '/' && Address(b)[|y|] == '/';
    assert forall i :: 0 <= i < |x| ==> Address(a)[i] == x[i] != '/';
    assert forall i :: 0 <= i < |y| ==> Address(b)[i] == y[i] != '/';
    assert |x| == |y|;
    assert Address(a)[..|x|] == x && Address(b)[..|y|] == y;
    assert Address(a)[|x| + 1..] == a.member && Address(b)[|y| + 1..] == b.member;
    SameGroup(a.group, b.group);
  }

  lemma SameGroup(a: Option<int>, b: Option<int>)
    requires Target.GroupText(a) == Target.GroupText(b)
    ensures a == b
  {
    hide FormatInt, Target.GroupText;
    GroupIsNotADash(a);
    GroupIsNotADash(b);
    if a.Some? && b.Some? {
      GroupTextOfGroup(a.value);
      GroupTextOfGroup(b.value);
      FormatIntInjective(a.value, b.value);
    }
  }

  lemma GroupTextOfGroup(n: int)
    ensures Target.GroupText(Some(n)) == FormatInt(n)
  {
    hide FormatInt;
  }

  lemma GroupIsNotADash(group: Option<int>)
    ensures Target.GroupText(group) == "-" <==> group.None?
  {
    hide FormatInt;
    if group.Some? {
      NotADash(group.value);
    }
  }

  lemma NotADash(n: int)
    ensures FormatInt(n) != "-"
  {
    var digits := Itoa(if n >= 0 then n else -n);
    assert |digits| >= 1 && IsDigit(digits[0]);
  }

  /** No write of this operation to this member took effect or still can. */
  ghost predicate Untouched(me: nat, s: State, operation: string, address: string) {
    RestTally(s, RestCall(me, operation, address)) == 0
  }

  function Allowance(c: RestCall, operation: string, address: string, writes: nat, flushes: nat): nat {
    if c.member != address then 0
    else if c.operation == operation then writes
    else if c.operation == FLUSH then flushes
    else 0
  }

  /** Between two states the run has written to nobody but `address`, and there at
      most `writes` times in this operation and removed at most `flushes` scheduled restarts. */
  ghost predicate OnlyTouches(me: nat, s: State, t: State, operation: string, address: string, writes: nat,
                              flushes: nat)
  {
    && s.log <= t.log && s.rest <= t.rest
    && (Valid(s) ==> Valid(t))
    && (NoDcsWrite(me, s) ==> NoDcsWrite(me, t))
    && forall c: RestCall :: c.author == me ==>
         RestTally(t, c) <= RestTally(s, c) + Allowance(c, operation, address, writes, flushes)
  }

  lemma LaterTouchesNobody(me: nat, s: State, t: State, operation: string, address: string)
    requires Later(me, s, t)
    ensures OnlyTouches(me, s, t, operation, address, 0, 0)
  {
    hide NoDcsWrite, RestTally;
    if NoDcsWrite(me, s) {
      NoDcsWriteLater(me, s, t);
    }
  }

  lemma TouchesThenTouches(me: nat, s: State, t: State, u: State, operation: string, address: string,
                           m: nat, n: nat, p: nat, q: nat)
    requires OnlyTouches(me, s, t, operation, address, m, n) && OnlyTouches(me, t, u, operation, address, p, q)
    ensures OnlyTouches(me, s, u, operation, address, m + p, n + q)
  {
    hide NoDcsWrite, Valid, RestTally;
    assert s.log <= u.log && s.rest <= u.rest;
  }

  lemma RestTouches(me: nat, s: State, t: State, operation: string, done: string, address: string, accepting: set<nat>,
                    reply: HttpReply)
    requires RestStep(s, t, RestCall(me, done, address), accepting, reply)
    requires operation != FLUSH && (done == operation || done == FLUSH)
    ensures OnlyTouches(me, s, t, operation, address,
                        if done == operation then 1 else 0, if done == FLUSH then 1 else 0)
    ensures !AmbiguousReply(reply) && (reply.status == 0 || reply.status !in accepting) ==> t == s
    ensures reply.status != 0 && reply.status in accepting ==> RestCall(me, done, address) in t.rest
  {
    var call := RestCall(me, done, address);
    assert t.rest == s.rest || t.rest == s.rest + [call];
    forall c: RestCall
      ensures RestTally(t, c) <= RestTally(s, c) + (if c == call then 1 else 0)
    {
    }
    if NoDcsWrite(me, s) {
      forall r: Request | r.author == me
        ensures Tally(t, r) == 0
      {
        assert Tally(t, r) == Tally(s, r);
      }
    }
  }

  lemma ClassifyFollowsRules(target: Target.Target, reply: HttpReply, accepting: set<nat>)
    requires reply.status != 0 ==> reply.delivery.HttpReceived?
    ensures var result := Classify(target, reply, accepting);
            && MemberRules(result) && result.target == target
            && (result.outcome == Failed || result.send == SendNotSent ==>
                !AmbiguousReply(reply) && (reply.status == 0 || reply.status !in accepting))
            && (result.outcome == Succeeded ==> reply.status != 0 && reply.status in accepting)
  {
  }

  const ACCEPTED: set<nat> := {200, 202}
  const BELOW_400: set<nat> := set s: nat | 0 < s < 400

  /** What the write of an operation to one member promises about its result. */
  ghost predicate PostDone(me: nat, s: State, t: State, operation: string, target: Target.Target,
                           result: MemberResult)
  {
    && OnlyTouches(me, s, t, operation, Address(target), 1, 0)
    && result.target == target && MemberRules(result)
    && (result.outcome == Failed || result.send == SendNotSent ==> Untouched(me, t, operation, Address(target)))
    && (result.outcome == Succeeded && result.httpStatus != 0 ==> RestCall(me, operation, Address(target)) in t.rest)
  }

  /** The member write of a command; others act before it. */
  method Post(w: World, command: Command, target: Target.Target, accepting: set<nat>, me: nat)
    returns (result: MemberResult, reply: HttpReply, ghost made: Exchange)
    requires Untouched(me, w.now, Operation(command), Address(target))
    modifies w
    ensures PostDone(me, old(w.now), w.now, Operation(command), target, result)
    ensures result == Classify(target, reply, accepting) && (reply.status != 0 ==> reply.delivery.HttpReceived?)
    ensures w.trace == old(w.trace) + [made] && Posted(made, me, Operation(command), Address(target))
    ensures made.reply == reply && made.at == |w.now.log|
  {
    hide Later, OnlyTouches, RestStep, Operation, Address, RestTally, MemberRules, Classify, Valid, NoDcsWrite;
    w.Environment(me);
    ghost var ready := w.now;
    LaterTouchesNobody(me, old(w.now), ready, Operation(command), Address(target));
    StaysUntouched(me, old(w.now), ready, Operation(command), Operation(command), Address(target), 0);
    reply := w.Rest(me, Operation(command), Address(target), accepting);
    made := RestExchange(RestCall(me, Operation(command), Address(target)), reply, |w.now.log|);
    OperationsDiffer(command);
    RestTouches(me, ready, w.now, Operation(command), Operation(command), Address(target), accepting, reply);
    TouchesThenTouches(me, old(w.now), ready, w.now, Operation(command), Address(target), 0, 0, 1, 0);
    result := Classify(target, reply, accepting);
    ClassifyFollowsRules(target, reply, accepting);
    ClassifyStatus(target, reply, accepting);
  }

  lemma ClassifyStatus(target: Target.Target, reply: HttpReply, accepting: set<nat>)
    ensures Classify(target, reply, accepting).httpStatus == reply.status
  {
  }

  /** Touching an address in one operation leaves the other untouched. */
  lemma StaysUntouched(me: nat, s: State, t: State, operation: string, kept: string, address: string, flushes: nat)
    requires Untouched(me, s, kept, address) && OnlyTouches(me, s, t, operation, address, 0, flushes)
    requires kept == FLUSH ==> flushes == 0 || operation == FLUSH
    ensures Untouched(me, t, kept, address)
  {
    hide NoDcsWrite, Valid, RestTally;
    assert Allowance(RestCall(me, kept, address), operation, address, 0, flushes) == 0;
  }

  /** A result kept while others act, possibly improved by readback. */
  lemma DoneLater(me: nat, s: State, t: State, u: State, operation: string, target: Target.Target, result: MemberResult,
                  final: MemberResult)
    requires PostDone(me, s, t, operation, target, result) && OnlyTouches(me, t, u, operation, Address(target), 0, 0)
    requires final.target == target && MemberRules(final) && final.send == result.send
             && final.httpStatus == result.httpStatus
    requires final.outcome == Failed ==> result.outcome == Failed
    requires final.outcome == Succeeded && final.httpStatus != 0 ==> result.outcome == Succeeded
    ensures PostDone(me, s, u, operation, target, final)
  {
    hide Address, NoDcsWrite, Valid, MemberRules, RestTally;
    TouchesThenTouches(me, s, t, u, operation, Address(target), 1, 0, 0, 0);
    if Untouched(me, t, operation, Address(target)) {
      StaysUntouched(me, t, u, operation, operation, Address(target), 0);
    }
  }

  // ---- one turn of the batch: everything sent to one member ----

  /** decodeScheduledRestart: the schedule, if one is recorded. */
  function ScheduledRestart(member: Member): Option<string> {
    match member.data.scheduledRestart
    case Object(fields) =>
      (match (StringField(fields, "schedule"), StringField(fields, "postgres_version"))
       case (Some(at), Some(_)) => if at == "" then None else Some(at)
       case _ => None)
    case _ => None
  }

  /** A forced schedule on a member with a recorded one removes that first. */
  predicate Replaces(command: Command, member: Member) {
    command.Restart? && command.schedule.Some? && command.force && ScheduledRestart(member).Some?
  }

  /** The exchanges with one member: its write, before it the removal of a
      schedule that is being replaced, or only the first part of that. */
  ghost predicate Turn(turn: seq<Exchange>, me: nat, command: Command, resolved: Resolved) {
    var address := Address(resolved.target);
    || turn == []
    || (|turn| == 1 && Posted(turn[0], me, Operation(command), address))
    || (1 <= |turn| <= 2 && Replaces(command, resolved.member) && Posted(turn[0], me, FLUSH, address)
        && (|turn| == 2 ==> Posted(turn[1], me, Operation(command), address)))
  }

  /** The member took the removal of its scheduled restart. */
  ghost predicate FlushAccepted(turn: seq<Exchange>, me: nat, address: string) {
    turn != [] && Posted(turn[0], me, FLUSH, address) && turn[0].reply.status in BELOW_400
  }

  /** The truth of one result about its own member: each of the two writes takes
      effect at most once, the second only when a schedule is replaced; FAILED
      and NOT_SENT mean that the write of the command does not, and FAILED that
      the removal does not either unless the member took it. */
  ghost predicate TargetDone(me: nat, s: State, command: Command, resolved: Resolved, result: MemberResult,
                             turn: seq<Exchange>)
  {
    var operation, address := Operation(command), Address(resolved.target);
    && result.target == resolved.target && MemberRules(result) && Turn(turn, me, command, resolved)
    && RestTally(s, RestCall(me, operation, address)) <= 1
    && RestTally(s, RestCall(me, FLUSH, address)) <= (if Replaces(command, resolved.member) then 1 else 0)
    && (result.outcome == Failed || result.send == SendNotSent ==> Untouched(me, s, operation, address))
    && (result.outcome == Failed ==>
          if FlushAccepted(turn, me, address) then RestCall(me, FLUSH, address) in s.rest
          else Untouched(me, s, FLUSH, address))
    && (result.outcome == Succeeded && result.httpStatus != 0 ==> RestCall(me, operation, address) in s.rest)
  }

  /** What one turn changes. */
  ghost predicate TurnDone(me: nat, s: State, t: State, command: Command, resolved: Resolved, result: MemberResult,
                           turn: seq<Exchange>)
  {
    OnlyTouches(me, s, t, Operation(command), Address(resolved.target), 1, 1)
    && TargetDone(me, t, command, resolved, result, turn)
  }

  ghost predicate Fresh(me: nat, s: State, command: Command, resolved: Resolved) {
    Untouched(me, s, Operation(command), Address(resolved.target)) && Untouched(me, s, FLUSH, Address(resolved.target))
  }

  lemma Skipped(me: nat, s: State, command: Command, resolved: Resolved, error: Error)
    requires Fresh(me, s, command, resolved) && error.category != CategoryUnknown
    ensures TurnDone(me, s, s, command, resolved, NotSentResult(resolved.target, error), [])
  {
    hide Address, RestTally, NoDcsWrite, Valid;
  }

  /** A turn of one write. */
  lemma PlainTurn(me: nat, s: State, t: State, command: Command, resolved: Resolved, result: MemberResult,
                  made: Exchange)
    requires Fresh(me, s, command, resolved) && PostDone(me, s, t, Operation(command), resolved.target, result)
    requires Posted(made, me, Operation(command), Address(resolved.target))
    ensures TurnDone(me, s, t, command, resolved, result, [made])
  {
    hide Address, Operation, NoDcsWrite, Valid, MemberRules, RestTally, Replaces;
    OperationsDiffer(command);
  }

  /** A turn that first removed a schedule. */
  lemma ReplacingTurn(me: nat, s: State, mid: State, t: State, command: Command, resolved: Resolved,
                      result: MemberResult,
                      flush: Exchange, made: Exchange)
    requires Fresh(me, s, command, resolved) && Replaces(command, resolved.member)
    requires OnlyTouches(me, s, mid, Operation(command), Address(resolved.target), 0, 1)
    requires Posted(flush, me, FLUSH, Address(resolved.target)) && flush.reply.status != 0
    requires if flush.reply.status in BELOW_400 then flush.call in mid.rest
             else Untouched(me, mid, FLUSH, Address(resolved.target))
    requires PostDone(me, mid, t, Operation(command), resolved.target, result)
    requires Posted(made, me, Operation(command), Address(resolved.target))
    ensures TurnDone(me, s, t, command, resolved, result, [flush, made])
  {
    hide Address, Operation, NoDcsWrite, Valid, MemberRules, BELOW_400;
    OperationsDiffer(command);
    var address := Address(resolved.target);
    TouchesThenTouches(me, s, mid, t, Operation(command), address, 0, 1, 1, 0);
    if flush.call in mid.rest {
      assert flush.call in t.rest;
    }
    TouchedBounds(me, s, mid, t, Operation(command), address);
  }

  lemma TouchedBounds(me: nat, s: State, mid: State, t: State, operation: string, address: string)
    requires OnlyTouches(me, s, mid, operation, address, 0, 1) && OnlyTouches(me, mid, t, operation, address, 1, 0)
    requires Untouched(me, s, operation, address) && Untouched(me, s, FLUSH, address) && operation != FLUSH
    ensures RestTally(t, RestCall(me, operation, address)) <= 1 && RestTally(t, RestCall(me, FLUSH, address)) <= 1
    ensures Untouched(me, mid, FLUSH, address) ==> Untouched(me, t, FLUSH, address)
  {
    hide NoDcsWrite, Valid, RestTally;
    assert Allowance(RestCall(me, FLUSH, address), operation, address, 1, 0) == 0;
  }

  /** A turn that ends with a removal of unknown fate, or one that was not sent. */
  lemma AbandonedTurn(me: nat, s: State, t: State, command: Command, resolved: Resolved, flush: Exchange)
    requires Fresh(me, s, command, resolved) && Replaces(command, resolved.member)
    requires OnlyTouches(me, s, t, Operation(command), Address(resolved.target), 0, 1)
    requires Posted(flush, me, FLUSH, Address(resolved.target)) && flush.reply.status == 0
    requires !AmbiguousReply(flush.reply) ==> Untouched(me, t, FLUSH, Address(resolved.target))
    ensures TurnDone(me, s, t, command, resolved, Classify(resolved.target, flush.reply, BELOW_400), [flush])
  {
    hide Address, Operation, NoDcsWrite, Valid, MemberRules, RestTally, BELOW_400, Classify;
    OperationsDiffer(command);
    assert 0 !in BELOW_400 by { NoStatusIsBelow(); }
    ClassifyFollowsRules(resolved.target, flush.reply, BELOW_400);
    ClassifyStatus(resolved.target, flush.reply, BELOW_400);
    StaysUntouched(me, s, t, Operation(command), Operation(command), Address(resolved.target), 1);
  }

  lemma NoStatusIsBelow()
    ensures 0 !in BELOW_400
  {
  }

  /** An unfinished result after readback: verified, or unknown unless it had
      already failed. */
  function AfterReadback(result: MemberResult, verified: bool): MemberResult {
    if verified then result.(outcome := Succeeded, verification := VerifiedSucceeded, error := None)
    else if result.outcome != Failed then
          result.(outcome := Unknown, verification := Unverified, error := Some(Error(CategoryUnknown, false)))
    else result
  }

  /** scheduledRestartMatches, for a member of that name. */
  predicate ShowsSchedule(service: Service, cluster: ClusterState, name: string, at: string) {
    exists m :: m in cluster.members && m.name == name && m.data.scheduledRestart.Object?
                && StringField(m.data.scheduledRestart.fields, "schedule").Some?
                && var seen := StringField(m.data.scheduledRestart.fields, "schedule").value;
                   seen != "" && (seen == at || service.sameInstant(at, seen))
  }

  predicate SawCreating(observed: seq<Option<string>>) { Some("creating replica") in observed }

  /** The states observed by polling show completion: the member is out of the
      creating state, and either the request was accepted or it was seen
      creating before. */
  predicate CompletedAt(observed: seq<Option<string>>, accepted: bool, k: nat) {
    && k < |observed|
    && observed[k].Some? && observed[k].value != "creating replica"
    && (accepted || SawCreating(observed[..k]))
  }

  predicate Completed(observed: seq<Option<string>>, accepted: bool) {
    exists k: nat | k < |observed| :: CompletedAt(observed, accepted, k)
  }

  /** A snapshot read after the history had `last` commits shows the schedule. */
  ghost predicate ScheduleRead(service: Service, log: seq<Request>, last: nat, resolved: Resolved, at: string) {
    exists snapshot :: ReadAfter(log, last, resolved.snapshot.prefix, snapshot)
                       && ShowsSchedule(service, snapshot.cluster, resolved.member.name, at)
  }

  lemma ScheduleReadLater(service: Service, log: seq<Request>, longer: seq<Request>, last: nat, resolved: Resolved,
                          at: string)
    requires ScheduleRead(service, log, last, resolved, at) && log <= longer
    ensures ScheduleRead(service, longer, last, resolved, at)
  {
    hide ReadAfter, ShowsSchedule;
    var snapshot :| ReadAfter(log, last, resolved.snapshot.prefix, snapshot)
                    && ShowsSchedule(service, snapshot.cluster, resolved.member.name, at);
    ReadAfterExtends(log, longer, last, last, resolved.snapshot.prefix, snapshot);
  }

  function Accepting(command: Command): set<nat> { if command.Reinitialize? then BELOW_400 else ACCEPTED }

  /** Which answers a command reads back. */
  predicate ReadsBack(command: Command, answer: MemberResult) {
    match command
    case Reload => false
    case Restart(_, schedule, _, _, _, _) =>
      schedule.Some? && (answer.httpStatus == 202 || answer.send == SendMaybeSent
                         || (answer.send == SendAccepted && answer.httpStatus == 0))
    case Reinitialize(_, _, wait) => wait && (0 < answer.httpStatus < 400 || answer.send == SendMaybeSent)
  }

  /** What the readback of a command must have shown: a snapshot read after the
      answer with the schedule, or polls of a completed reinitialization. */
  ghost predicate Evidence(service: Service, log: seq<Request>, answer: Exchange, polls: seq<Option<string>>,
                           command: Command, resolved: Resolved)
  {
    match command
    case Reload => false
    case Restart(_, schedule, _, _, _, _) =>
      schedule.Some? && ScheduleRead(service, log, answer.at, resolved, schedule.value)
    case Reinitialize(_, _, _) => answer.RestExchange? && Completed(polls, 0 < answer.reply.status < 400)
  }

  /** The result is the answer's classification, and where the answer is read
      back, a success only with the evidence for it. */
  ghost predicate Told(service: Service, log: seq<Request>, answer: Exchange, polls: seq<Option<string>>,
                       command: Command, resolved: Resolved, result: MemberResult)
  {
    && answer.RestExchange?
    && var plain := Classify(resolved.target, answer.reply, Accepting(command));
       if ReadsBack(command, plain) then
         result == AfterReadback(plain, false)
         || (result == AfterReadback(plain, true) && Evidence(service, log, answer, polls, command, resolved))
       else result == plain
  }

  /** What one member's result reports: nothing sent, the answer to its write, or
      a removal that ended without an answer. */
  ghost predicate TurnTold(service: Service, log: seq<Request>, turn: seq<Exchange>, polls: seq<Option<string>>,
                           me: nat,
                           command: Command, resolved: Resolved, result: MemberResult) {
    if turn == [] then result.outcome == Failed && result.send == SendNotSent && result.httpStatus == 0
    else
      var last := turn[|turn| - 1];
      if Posted(last, me, Operation(command), Address(resolved.target)) then
        Told(service, log, last, polls, command, resolved, result)
      else last.RestExchange? && last.reply.status == 0 && result == Classify(resolved.target, last.reply, BELOW_400)
  }

  lemma TurnToldLater(service: Service, log: seq<Request>, longer: seq<Request>, turn: seq<Exchange>,
                      polls: seq<Option<string>>, me: nat, command: Command, resolved: Resolved, result: MemberResult)
    requires TurnTold(service, log, turn, polls, me, command, resolved, result) && log <= longer
    ensures TurnTold(service, longer, turn, polls, me, command, resolved, result)
  {
    hide Operation, Address, Classify, AfterReadback, ReadsBack, ScheduleRead, Completed;
    if turn != [] {
      var last := turn[|turn| - 1];
      if Evidence(service, log, last, polls, command, resolved) && command.Restart? {
        ScheduleReadLater(service, log, longer, last.at, resolved, command.schedule.value);
      }
    }
  }

  // ---- restart ----

  /** The removal of a recorded schedule before a forced one. */
  method FlushSchedule(w: World, command: Command, resolved: Resolved, me: nat)
    returns (reply: HttpReply, ghost made: Exchange)
    requires Fresh(me, w.now, command, resolved)
    modifies w
    ensures OnlyTouches(me, old(w.now), w.now, Operation(command), Address(resolved.target), 0, 1)
    ensures w.trace == old(w.trace) + [made] && Posted(made, me, FLUSH, Address(resolved.target)) && made.reply == reply
    ensures reply.status != 0 && reply.status in BELOW_400 ==> made.call in w.now.rest
    ensures !AmbiguousReply(reply) && (reply.status == 0 || reply.status !in BELOW_400) ==>
              Untouched(me, w.now, FLUSH, Address(resolved.target))
    ensures reply.status != 0 ==> reply.delivery.HttpReceived?
  {
    hide Later, OnlyTouches, RestStep, Operation, Address, RestTally, Valid, NoDcsWrite, BELOW_400;
    var address := Address(resolved.target);
    w.Environment(me);
    ghost var ready := w.now;
    LaterTouchesNobody(me, old(w.now), ready, Operation(command), address);
    StaysUntouched(me, old(w.now), ready, Operation(command), FLUSH, address, 0);
    reply := w.Rest(me, FLUSH, address, BELOW_400);
    made := RestExchange(RestCall(me, FLUSH, address), reply, |w.now.log|);
    OperationsDiffer(command);
    RestTouches(me, ready, w.now, Operation(command), FLUSH, address, BELOW_400, reply);
    TouchesThenTouches(me, old(w.now), ready, w.now, Operation(command), address, 0, 0, 0, 1);
  }

  /** The restart of one member: a recorded schedule is first removed when a
      forced schedule replaces it. */
  method RestartMember(w: World, service: Service, command: Command, resolved: Resolved, me: nat)
    returns (result: MemberResult, ghost turn: seq<Exchange>)
    requires command.Restart? && Fresh(me, w.now, command, resolved)
    modifies w
    ensures TurnDone(me, old(w.now), w.now, command, resolved, result, turn)
    ensures w.trace == old(w.trace) + turn && TurnTold(service, w.now.log, turn, [], me, command, resolved, result)
  {
    hide OnlyTouches, Operation, Address, RestTally, Replaces, BELOW_400, TurnDone, PostDone, Fresh, Classify, Told;
    OperationsDiffer(command);
    ghost var made;
    if command.schedule.Some? && command.force && ScheduledRestart(resolved.member).Some? {
      assert Replaces(command, resolved.member) by { ReplacesBy(command, resolved.member); }
      var reply;
      ghost var flush;
      reply, flush := FlushSchedule(w, command, resolved, me);
      if reply.status == 0 {
        NoStatusIsBelow();
        AbandonedTurn(me, old(w.now), w.now, command, resolved, flush);
        return Classify(resolved.target, reply, BELOW_400), [flush];
      }
      ghost var mid := w.now;
      FreshAfterFlush(me, old(w.now), mid, command, resolved);
      result, made := PostRestart(w, service, command, resolved, me);
      ReplacingTurn(me, old(w.now), mid, w.now, command, resolved, result, flush, made);
      turn := [flush, made];
    } else {
      FreshUntouched(me, w.now, command, resolved);
      result, made := PostRestart(w, service, command, resolved, me);
      PlainTurn(me, old(w.now), w.now, command, resolved, result, made);
      turn := [made];
    }
  }

  lemma ReplacesBy(command: Command, member: Member)
    requires command.Restart? && command.schedule.Some? && command.force && ScheduledRestart(member).Some?
    ensures Replaces(command, member)
  {
  }

  lemma FreshUntouched(me: nat, s: State, command: Command, resolved: Resolved)
    requires Fresh(me, s, command, resolved)
    ensures Untouched(me, s, Operation(command), Address(resolved.target))
  {
    hide Address, Operation, RestTally;
  }

  lemma FreshAfterFlush(me: nat, s: State, t: State, command: Command, resolved: Resolved)
    requires Fresh(me, s, command, resolved)
    requires OnlyTouches(me, s, t, Operation(command), Address(resolved.target), 0, 1)
    ensures Untouched(me, t, Operation(command), Address(resolved.target))
  {
    hide Address, Operation, OnlyTouches;
    OperationsDiffer(command);
    StaysUntouched(me, s, t, Operation(command), Operation(command), Address(resolved.target), 1);
  }

  /** The restart itself, with readback of a schedule. */
  method PostRestart(w: World, service: Service, command: Command, resolved: Resolved, me: nat)
    returns (result: MemberResult, ghost made: Exchange)
    requires command.Restart? && Untouched(me, w.now, Operation(command), Address(resolved.target))
    modifies w
    ensures PostDone(me, old(w.now), w.now, Operation(command), resolved.target, result)
    ensures w.trace == old(w.trace) + [made] && Posted(made, me, Operation(command), Address(resolved.target))
    ensures Told(service, w.now.log, made, [], command, resolved, result)
  {
    hide Later, OnlyTouches, Address, Operation, RestTally, MemberRules, ShowsSchedule, SnapshotOf, Classify, PostDone;
    hide ReadAfter, ScheduleRead;
    var target := resolved.target;
    var reply;
    result, reply, made := Post(w, command, target, ACCEPTED, me);
    ClassifyStatus(target, reply, ACCEPTED);
    if command.schedule.Some? && (reply.status == 202 || result.send == SendMaybeSent
                                  || (result.send == SendAccepted && reply.status == 0)) {
      ghost var posted := w.now;
      ReadbackApplies(target, reply);
      ghost var seen;
      var verified, last;
      verified, last, seen := Verify(w, me, resolved.snapshot.prefix, service.verificationAttempts,
                                   (s: Snapshot) => ShowsSchedule(service, s.cluster, resolved.member.name,
                                                                  command.schedule.value));
      if verified {
        ScheduleReadBy(service, w.now.log, made.at, resolved, command.schedule.value, last.value);
      }
      LaterTouchesNobody(me, posted, w.now, Operation(command), Address(target));
      ReadbackRules(target, reply, ACCEPTED, verified);
      DoneLater(me, old(w.now), posted, w.now, Operation(command), target, result, AfterReadback(result, verified));
      result := AfterReadback(result, verified);
    }
  }

  lemma ScheduleReadBy(service: Service, log: seq<Request>, last: nat, resolved: Resolved, at: string,
                       snapshot: Snapshot)
    requires ReadAfter(log, last, resolved.snapshot.prefix, snapshot)
    requires ShowsSchedule(service, snapshot.cluster, resolved.member.name, at)
    ensures ScheduleRead(service, log, last, resolved, at)
  {
    hide ReadAfter, ShowsSchedule;
  }

  /** Exactly when a FAILED result means that nothing happened at the member: when
      no recorded schedule was replaced, or the member did not take its removal. */
  lemma FailedMeansNothing(me: nat, s: State, command: Command, resolved: Resolved, result: MemberResult,
                           turn: seq<Exchange>)
    requires TargetDone(me, s, command, resolved, result, turn) && result.outcome == Failed
    ensures var address := Address(resolved.target);
            (Untouched(me, s, Operation(command), address) && Untouched(me, s, FLUSH, address))
            <==> !(Replaces(command, resolved.member) && FlushAccepted(turn, me, address))
  {
    hide Address, MemberRules, Replaces;
    OperationsDiffer(command);
    var address := Address(resolved.target);
    if FlushAccepted(turn, me, address) {
      assert RestCall(me, FLUSH, address) in multiset(s.rest);
      assert Replaces(command, resolved.member);
    }
  }

  /** The other case occurs: after an accepted removal every rejected restart is
      reported FAILED although the schedule is gone. */
  lemma RemovalSurvivesFailure(me: nat, s: State, command: Command, resolved: Resolved, status: nat)
    returns (t: State, result: MemberResult, turn: seq<Exchange>)
    requires Fresh(me, s, command, resolved) && Replaces(command, resolved.member)
    requires status != 0 && status !in ACCEPTED
    ensures |turn| == 2 && turn[0].RestExchange? && turn[1].RestExchange? && turn[1].reply.status == status
    ensures RestStep(s, t, RestCall(me, FLUSH, Address(resolved.target)), BELOW_400, turn[0].reply)
    ensures RestStep(t, t, RestCall(me, Operation(command), Address(resolved.target)), ACCEPTED, turn[1].reply)
    ensures result == Classify(resolved.target, turn[1].reply, ACCEPTED) && result.outcome == Failed
    ensures TurnDone(me, s, t, command, resolved, result, turn)
    ensures !Untouched(me, t, FLUSH, Address(resolved.target))
  {
    hide Address, Operation, Replaces, MemberRules;
    var address := Address(resolved.target);
    var ok, rejected := HttpReply(200, "", HttpReceived), HttpReply(status, "", HttpReceived);
    var flush := RestExchange(RestCall(me, FLUSH, address), ok, |s.log|);
    var made := RestExchange(RestCall(me, Operation(command), address), rejected, |s.log|);
    t, turn, result := s.(rest := s.rest + [flush.call]), [flush, made], Classify(resolved.target, rejected, ACCEPTED);
    OperationsDiffer(command);
    RestTouches(me, s, t, Operation(command), FLUSH, address, BELOW_400, ok);
    RejectedPost(me, t, command, resolved, rejected);
    ReplacingTurn(me, s, t, t, command, resolved, result, flush, made);
    assert flush.call in multiset(t.rest);
  }

  lemma RejectedPost(me: nat, s: State, command: Command, resolved: Resolved, reply: HttpReply)
    requires reply.status != 0 && reply.status !in ACCEPTED && reply.delivery.HttpReceived?
    requires Untouched(me, s, Operation(command), Address(resolved.target))
    ensures PostDone(me, s, s, Operation(command), resolved.target, Classify(resolved.target, reply, ACCEPTED))
  {
    hide Address, Operation, Replaces, MemberRules, Classify, RestTally;
    ClassifyFollowsRules(resolved.target, reply, ACCEPTED);
    ClassifyStatus(resolved.target, reply, ACCEPTED);
    RejectedIsFailed(resolved.target, reply);
    LaterReflexive(me, s);
    LaterTouchesNobody(me, s, s, Operation(command), Address(resolved.target));
  }

  lemma RejectedIsFailed(target: Target.Target, reply: HttpReply)
    requires reply.status != 0 && reply.status !in ACCEPTED
    ensures Classify(target, reply, ACCEPTED).outcome == Failed
  {
  }

  lemma ReadbackApplies(target: Target.Target, reply: HttpReply)
    requires reply.status != 0 ==> reply.delivery.HttpReceived?
    ensures reply.status == 202 || Classify(target, reply, ACCEPTED).send == SendMaybeSent
            || (Classify(target, reply, ACCEPTED).send == SendAccepted && reply.status == 0)
            ==> Classify(target, reply, ACCEPTED).outcome != Failed && Ambiguous(Classify(target, reply, ACCEPTED).send)
  {
  }

  lemma ReadbackRules(target: Target.Target, reply: HttpReply, accepting: set<nat>, verified: bool)
    requires var result := Classify(target, reply, accepting); result.outcome != Failed && Ambiguous(result.send)
    ensures var result := Classify(target, reply, accepting);
            && MemberRules(AfterReadback(result, verified))
            && AfterReadback(result, verified).outcome != Failed
            && (AfterReadback(result, verified).httpStatus != 0 ==> result.outcome == Succeeded)
            && AfterReadback(result, verified).target == target
  {
  }

  // ---- reinitialize ----

  /** verifyReinitialize: polls the member, None standing for a failed poll. */
  method VerifyReinitialize(w: World, service: Service, accepted: bool, me: nat)
    returns (completed: bool, ghost observed: seq<Option<string>>)
    modifies w`now
    ensures Later(me, old(w.now), w.now)
    ensures |observed| <= service.verificationAttempts
    ensures completed <==> Completed(observed, accepted)
  {
    hide Later;
    observed := [];
    LaterReflexive(me, w.now);
    var seenCreating := false;
    var attempt := 0;
    while attempt < service.verificationAttempts
      invariant |observed| <= attempt <= service.verificationAttempts
      invariant Later(me, old(w.now), w.now)
      invariant seenCreating == SawCreating(observed)
      invariant forall k: nat :: !CompletedAt(observed, accepted, k)
    {
      var canceled: bool := *;
      if canceled {
        return false, observed;
      }
      ghost var before := w.now;
      w.Environment(me);
      LaterTransitive(me, old(w.now), before, w.now);
      var poll: Option<string> := *;
      CompletionStep(observed, poll, accepted);
      observed := observed + [poll];
      attempt := attempt + 1;
      if poll == Some("creating replica") {
        seenCreating := true;
        continue;
      }
      if poll.Some? && (accepted || seenCreating) {
        assert CompletedAt(observed, accepted, |observed| - 1);
        return true, observed;
      }
    }
    completed := false;
  }

  lemma CompletionStep(observed: seq<Option<string>>, poll: Option<string>, accepted: bool)
    requires forall k: nat :: !CompletedAt(observed, accepted, k)
    ensures forall k: nat :: CompletedAt(observed + [poll], accepted, k) <==>
              k == |observed| && poll.Some? && poll.value != "creating replica" && (accepted || SawCreating(observed))
  {
    var longer := observed + [poll];
    forall k: nat
      ensures CompletedAt(longer, accepted, k) <==>
              k == |observed| && poll.Some? && poll.value != "creating replica" && (accepted || SawCreating(observed))
    {
      if k < |observed| {
        assert longer[..k] == observed[..k] && longer[k] == observed[k];
        assert !CompletedAt(observed, accepted, k);
      } else if k == |observed| {
        assert longer[..k] == observed;
      }
    }
  }

  method ReinitializeMember(w: World, service: Service, command: Command, resolved: Resolved, me: nat)
    returns (result: MemberResult, ghost made: Exchange, ghost polls: seq<Option<string>>)
    requires command.Reinitialize? && Untouched(me, w.now, Operation(command), Address(resolved.target))
    modifies w
    ensures PostDone(me, old(w.now), w.now, Operation(command), resolved.target, result)
    ensures w.trace == old(w.trace) + [made] && Posted(made, me, Operation(command), Address(resolved.target))
    ensures Told(service, w.now.log, made, polls, command, resolved, result)
  {
    hide Later, OnlyTouches, Address, Operation, RestTally, MemberRules, Classify, Completed, PostDone, BELOW_400;
    polls := [];
    var target := resolved.target;
    var reply;
    result, reply, made := Post(w, command, target, BELOW_400, me);
    ClassifyStatus(target, reply, BELOW_400);
    var accepted := 0 < reply.status < 400;
    if command.wait && (accepted || result.send == SendMaybeSent) {
      ghost var posted := w.now;
      ReinitApplies(target, reply);
      var completed;
      completed, polls := VerifyReinitialize(w, service, accepted, me);
      LaterTouchesNobody(me, posted, w.now, Operation(command), Address(target));
      ReadbackRules(target, reply, BELOW_400, completed);
      DoneLater(me, old(w.now), posted, w.now, Operation(command), target, result, AfterReadback(result, completed));
      result := AfterReadback(result, completed);
    }
  }

  lemma ReinitApplies(target: Target.Target, reply: HttpReply)
    requires reply.status != 0 ==> reply.delivery.HttpReceived?
    ensures 0 < reply.status < 400 || Classify(target, reply, BELOW_400).send == SendMaybeSent ==>
              Classify(target, reply, BELOW_400).outcome != Failed && Ambiguous(Classify(target, reply, BELOW_400).send)
  {
    assert 0 < reply.status < 400 <==> reply.status in BELOW_400;
  }

  // ---- the batch ----

  function Flat(turns: seq<seq<Exchange>>): seq<Exchange> {
    if turns == [] then [] else Flat(turns[..|turns| - 1]) + turns[|turns| - 1]
  }

  lemma {:induction false} FlatOfNothing(turns: seq<seq<Exchange>>)
    requires forall i :: 0 <= i < |turns| ==> turns[i] == []
    ensures Flat(turns) == []
  {
    if turns != [] {
      FlatOfNothing(turns[..|turns| - 1]);
    }
  }

  lemma TargetDoneKept(me: nat, s: State, t: State, command: Command, resolved: Resolved, other: Resolved,
                       result: MemberResult, turn: seq<Exchange>)
    requires TargetDone(me, s, command, resolved, result, turn)
    requires OnlyTouches(me, s, t, Operation(command), Address(other.target), 1, 1)
    requires Address(resolved.target) != Address(other.target)
    ensures TargetDone(me, t, command, resolved, result, turn)
  {
    hide Address, Operation, MemberRules, NoDcsWrite, Valid, Turn, Replaces, FlushAccepted;
    var address := Address(resolved.target);
    assert RestTally(t, RestCall(me, Operation(command), address)) <= RestTally(s,
             RestCall(me, Operation(command), address));
    assert RestTally(t, RestCall(me, FLUSH, address)) <= RestTally(s, RestCall(me, FLUSH, address));
  }

  lemma FreshKept(me: nat, s: State, t: State, command: Command, resolved: Resolved, other: Resolved)
    requires Fresh(me, s, command, resolved) && OnlyTouches(me, s, t, Operation(command), Address(other.target), 1, 1)
    requires Address(resolved.target) != Address(other.target)
    ensures Fresh(me, t, command, resolved)
  {
    hide Address, Operation, NoDcsWrite, Valid;
    var address := Address(resolved.target);
    assert RestTally(t, RestCall(me, Operation(command), address)) <= RestTally(s,
             RestCall(me, Operation(command), address));
    assert RestTally(t, RestCall(me, FLUSH, address)) <= RestTally(s, RestCall(me, FLUSH, address));
  }

  predicate DistinctAddresses(resolved: seq<Resolved>) {
    forall i, j :: 0 <= i < j < |resolved| ==> Address(resolved[i].target) != Address(resolved[j].target)
  }

  /** The member loop the three commands share. */
  method WriteMembers(w: World, service: Service, command: Command, resolved: seq<Resolved>, me: nat)
    returns (results: seq<MemberResult>, ghost turns: seq<seq<Exchange>>, ghost polls: seq<seq<Option<string>>>)
    requires Valid(w.now) && NoEffect(me, w.now) && DistinctAddresses(resolved)
    modifies w
    ensures Valid(w.now) && old(w.now).log <= w.now.log && NoDcsWrite(me, w.now)
    ensures |results| == |resolved| == |turns| == |polls|
    ensures w.trace == old(w.trace) + Flat(turns)
    ensures forall i :: 0 <= i < |results| ==> TargetDone(me, w.now, command, resolved[i], results[i], turns[i])
    ensures forall i :: 0 <= i < |results| ==>
              TurnTold(service, w.now.log, turns[i], polls[i], me, command, resolved[i], results[i])
  {
    hide OnlyTouches, Address, Operation, Valid, NoDcsWrite, NoEffect, TargetDone, Fresh, TurnTold;
    results, turns, polls := [], [], [];
    NothingTouched(me, w.now, command, resolved);
    var i := 0;
    while i < |resolved|
      invariant i == |results| == |turns| == |polls| <= |resolved|
      invariant Valid(w.now) && old(w.now).log <= w.now.log && NoDcsWrite(me, w.now)
      invariant w.trace == old(w.trace) + Flat(turns)
      invariant forall j :: 0 <= j < i ==> TargetDone(me, w.now, command, resolved[j], results[j], turns[j])
      invariant forall j :: 0 <= j < i ==>
                TurnTold(service, w.now.log, turns[j], polls[j], me, command, resolved[j], results[j])
      invariant forall j :: i <= j < |resolved| ==> Fresh(me, w.now, command, resolved[j])
    {
      ghost var before := w.now;
      var result;
      ghost var turn, seen;
      result, turn, seen := WriteMember(w, service, command, resolved[i], me);
      TurnKeeps(me, before, w.now, command, resolved[i]);
      forall j | 0 <= j < i
        ensures TargetDone(me, w.now, command, resolved[j], results[j], turns[j])
        ensures TurnTold(service, w.now.log, turns[j], polls[j], me, command, resolved[j], results[j])
      {
        TargetDoneKept(me, before, w.now, command, resolved[j], resolved[i], results[j], turns[j]);
        TurnToldLater(service, before.log, w.now.log, turns[j], polls[j], me, command, resolved[j], results[j]);
      }
      forall j | i < j < |resolved|
        ensures Fresh(me, w.now, command, resolved[j])
      {
        FreshKept(me, before, w.now, command, resolved[j], resolved[i]);
      }
      assert (turns + [turn])[..|turns|] == turns;
      results, turns, polls := results + [result], turns + [turn], polls + [seen];
      i := i + 1;
    }
  }

  lemma TurnKeeps(me: nat, s: State, t: State, command: Command, resolved: Resolved)
    requires OnlyTouches(me, s, t, Operation(command), Address(resolved.target), 1, 1)
    ensures s.log <= t.log && (Valid(s) ==> Valid(t)) && (NoDcsWrite(me, s) ==> NoDcsWrite(me, t))
  {
    hide Address, Operation, NoDcsWrite, Valid;
  }

  lemma NothingTouched(me: nat, s: State, command: Command, resolved: seq<Resolved>)
    requires NoEffect(me, s)
    ensures NoDcsWrite(me, s)
    ensures forall j :: 0 <= j < |resolved| ==> Fresh(me, s, command, resolved[j])
  {
    hide Address, Operation;
  }

  lemma ReloadTold(service: Service, log: seq<Request>, made: Exchange, polls: seq<Option<string>>, command: Command,
                   resolved: Resolved)
    requires command.Reload? && made.RestExchange?
    ensures Told(service, log, made, polls, command, resolved, Classify(resolved.target, made.reply, ACCEPTED))
  {
    hide Classify;
  }

  /** One turn of that loop. */
  method WriteMember(w: World, service: Service, command: Command, resolved: Resolved, me: nat)
    returns (result: MemberResult, ghost turn: seq<Exchange>, ghost polls: seq<Option<string>>)
    requires Fresh(me, w.now, command, resolved)
    modifies w
    ensures TurnDone(me, old(w.now), w.now, command, resolved, result, turn)
    ensures w.trace == old(w.trace) + turn
    ensures TurnTold(service, w.now.log, turn, polls, me, command, resolved, result)
  {
    hide Address, TurnDone, Fresh, PostDone, Operation, Told;
    polls := [];
    var gone: bool := *;
    if gone {
      Skipped(me, w.now, command, resolved, Error(CategoryFailed, false));
      return NotSentResult(resolved.target, Error(CategoryFailed, false)), [], [];
    }
    if !service.usableURL(resolved.member.data.apiURL) {
      Skipped(me, w.now, command, resolved, Error(CategoryConfig, false));
      return NotSentResult(resolved.target, Error(CategoryConfig, false)), [], [];
    }
    ghost var made;
    match command {
      case Reload =>
        FreshUntouched(me, w.now, command, resolved);
        var reply;
        result, reply, made := Post(w, command, resolved.target, ACCEPTED, me);
        assert Told(service, w.now.log, made, polls, command, resolved,
                    result) by { ReloadTold(service, w.now.log, made, polls, command, resolved); }
        PlainTurn(me, old(w.now), w.now, command, resolved, result, made);
        turn := [made];
      case Restart(_, _, _, _, _, _) =>
        result, turn := RestartMember(w, service, command, resolved, me);
      case Reinitialize(_, _, _) =>
        FreshUntouched(me, w.now, command, resolved);
        result, made, polls := ReinitializeMember(w, service, command, resolved, me);
        PlainTurn(me, old(w.now), w.now, command, resolved, result, made);
        turn := [made];
    }
  }

  /** What the plan must say about the command itself. */
  predicate CommandFields(plan: Plan, command: Command, role: Role, roleName: string) {
    match command
    case Reload => Expected(plan, SelectorRole) == Some(roleName)
    case Restart(any, schedule, version, pending, timeout, force) =>
      && Expected(plan, SelectorRole) == Some(roleName)
      && Expected(plan, RestartAny) == Some(FormatBool(any))
      && Expected(plan, RestartSchedule) == Some(if schedule.Some? then schedule.value else "")
      && Expected(plan, RestartVersion) == Some(version)
      && Expected(plan, RestartPending) == Some(FormatBool(pending))
      && Expected(plan, RestartTimeout) == Some(timeout)
      && Expected(plan, RestartForce) == Some(FormatBool(force))
    case Reinitialize(force, fromLeader, wait) =>
      && role == ReplicaRole
      && Expected(plan, ReinitForce) == Some(FormatBool(force))
      && Expected(plan, ReinitFromLeader) == Some(FormatBool(fromLeader))
      && Expected(plan, ReinitWait) == Some(FormatBool(wait))
  }

  function RiskOf(command: Command): Risk {
    match command
    case Reload => RiskAdminWrite
    case Restart(_, _, _, _, _, _) => RiskAvailability
    case Reinitialize(_, _, _) => RiskDestructive
  }

  /** validateReloadPlan, validateRestartPlan and validateReinitializePlan. */
  predicate BatchPlanAccepted(plan: Plan, command: Command, target: Target.Target, role: Role, roleName: string,
                              members: seq<string>, citus: bool)
  {
    && PlanValid(plan)
    && plan.operation == Operation(command) && plan.path == PathREST && plan.risk == RiskOf(command)
       && plan.unsafeAfterSend
    && SameCluster(plan.target, target)
    && Expected(plan, SelectorMembers) == Some(Join(members, ","))
    && Expected(plan, SelectorCitus) == Some(FormatBool(citus))
    && Expected(plan, CitusGroups).Some?
    && CommandFields(plan, command, role, roleName)
  }

  /** A valid plan names each member once: the addresses differ. */
  lemma PlannedAddressesDiffer(plan: Plan, i: nat, j: nat)
    requires PlanTargetsValid(plan) && i < j < |plan.targets|
    ensures Address(Target.Normalize(plan.targets[i])) != Address(Target.Normalize(plan.targets[j]))
  {
    hide Address, Target.Normalize, Target.Validate;
    var a, b := Target.Normalize(plan.targets[i]), Target.Normalize(plan.targets[j]);
    assert a != b;
    Target.NormalizeIdempotent(plan.targets[i]);
    Target.NormalizeIdempotent(plan.targets[j]);
    if Address(a) == Address(b) {
      AddressInjective(a, b);
    }
  }

  /** What the results say about the members' writes, turn by turn; targets that
      do not resolve were never written to. */
  ghost predicate BatchDone(me: nat, s: State, service: Service, command: Command, snapshots: seq<GroupSnapshot>,
                            role: Role, targets: seq<Target.Target>, results: seq<MemberResult>,
                            turns: seq<seq<Exchange>>, polls: seq<seq<Option<string>>>)
  {
    && NoDcsWrite(me, s)
    && |results| == |targets| == |turns| == |polls|
    && forall i :: 0 <= i < |targets| ==>
         match Resolve(snapshots, targets[i], role)
         case Some(resolved) =>
           && TargetDone(me, s, command, resolved, results[i].(target := resolved.target), turns[i])
           && TurnTold(service, s.log, turns[i], polls[i], me, command, resolved,
                       results[i].(target := resolved.target))
         case None => Untried(results[i]) && turns[i] == []
  }

  /** ExecuteReload, ExecuteRestart and ExecuteReinitialize on the snapshots of
      their clusters; `features` tells whether every member supports what the
      command needs. */
  method ExecuteBatch(w: World, service: Service, command: Command, request: BatchRequest, plan: Plan,
                      read: Text.Result<seq<GroupSnapshot>, Error>, groups: string, features: bool, me: nat)
    returns (result: BatchOutcome, ghost turns: seq<seq<Exchange>>, ghost polls: seq<seq<Option<string>>>)
    requires Valid(w.now) && NoEffect(me, w.now)
    requires read.Err? ==> read.error.category != CategoryUnknown
    modifies w
    ensures Valid(w.now) && old(w.now).log <= w.now.log
    ensures CategoryFits(result.outcome, result.error)
    // everything the run sends, turn by turn in plan order
    ensures w.trace == old(w.trace) + Flat(turns)
    // refused before anything was sent, or one result per planned target in plan order
    ensures (result.outcome == Failed && result.data == [] && w.now == old(w.now) && turns == [])
            || (read.Ok? && InPlanOrder(result.data, plan.targets) && result.outcome == BatchVerdict(result.data))
    // all or nothing: one changed target stops every write
    ensures read.Ok? && (exists i :: 0 <= i < |plan.targets|
                                     && !Writable(read.value, plan.targets[i], request.role, command)) ==>
              w.now == old(w.now) && Flat(turns) == [] && forall i :: 0 <= i < |result.data| ==> Untried(result.data[i])
    // and otherwise each result tells the truth about its own member
    ensures result.data == [] || (read.Ok?
                                  && BatchDone(me, w.now, service, command, read.value, request.role, plan.targets,
                                               result.data, turns, polls))
  {
    hide NoEffect, Valid, NoDcsWrite, TargetDone, BatchPlanAccepted, Writable, Address, Target.Normalize, BatchVerdict;
    hide Operation, Resolve;
    turns, polls := [], [];
    if request.invalid || !BatchPlanAccepted(plan, command, request.target, request.role, request.roleName,
                                             request.members, request.citus) {
      return Refused(Error(CategoryUsage, false)), [], [];
    }
    if !service.patroni {
      return Refused(Error(CategoryConfig, false)), [], [];
    }
    if read.Err? {
      return Refused(read.error), [], [];
    }
    if !features {
      return Refused(Error(CategoryUnsupported, false)), [], [];
    }
    if Expected(plan, CitusGroups) != Some(groups) {
      return Refused(Error(CategoryConflict, false)), [], [];
    }
    var resolved, conflicts := ResolveWritable(read.value, plan.targets, request.role, command);
    if conflicts != [] {
      var members := AbortBatch(plan.targets, conflicts);
      turns, polls := seq(|plan.targets|, _ => []), seq(|plan.targets|, _ => []);
      FlatOfNothing(turns);
      AbortedDone(me, w.now, service, command, read.value, request.role, plan.targets, members, turns, polls);
      result := FinalizeBatch(members);
      return;
    }
    AcceptedTargets(plan, command, request);
    ResolvedDistinct(read.value, plan, request.role, resolved);
    var results;
    results, turns, polls := WriteMembers(w, service, command, resolved, me);
    DoneTargets(me, w.now, command, resolved, results, turns);
    ResolvedInOrder(read.value, plan.targets, request.role, resolved, results);
    result := FinalizeBatch(results);
  }

  lemma DoneTargets(me: nat, s: State, command: Command, resolved: seq<Resolved>, results: seq<MemberResult>,
                    turns: seq<seq<Exchange>>)
    requires |resolved| == |results| == |turns|
    requires forall i :: 0 <= i < |results| ==> TargetDone(me, s, command, resolved[i], results[i], turns[i])
    ensures forall i :: 0 <= i < |results| ==> results[i].target == resolved[i].target
    ensures forall i :: 0 <= i < |results| ==> results[i].(target := resolved[i].target) == results[i]
  {
    hide Address, Operation, MemberRules, Turn, Replaces, FlushAccepted, RestTally;
  }

  lemma AbortedDone(me: nat, s: State, service: Service, command: Command, snapshots: seq<GroupSnapshot>, role: Role,
                    targets: seq<Target.Target>, results: seq<MemberResult>, turns: seq<seq<Exchange>>,
                    polls: seq<seq<Option<string>>>)
    requires NoEffect(me, s) && |results| == |targets| == |turns| == |polls|
    requires forall i :: 0 <= i < |results| ==> Untried(results[i]) && turns[i] == []
    ensures BatchDone(me, s, service, command, snapshots, role, targets, results, turns, polls)
  {
    hide Address, Resolve, Operation, Replaces;
  }

  /** The caller's selection, as normalized. */
  datatype BatchRequest = BatchRequest(invalid: bool, target: Target.Target, role: Role, roleName: string,
                                       members: seq<string>, citus: bool)

  lemma AcceptedTargets(plan: Plan, command: Command, request: BatchRequest)
    requires BatchPlanAccepted(plan, command, request.target, request.role, request.roleName, request.members,
                               request.citus)
    ensures PlanTargetsValid(plan)
  {
    hide PlanTargetsValid, SameCluster, Expected, CommandFields, Join, FormatBool, Operation;
  }

  /** The resolution step of the three commands. */
  method ResolveWritable(snapshots: seq<GroupSnapshot>, targets: seq<Target.Target>, role: Role, command: Command)
    returns (resolved: seq<Resolved>, conflicts: seq<MemberResult>)
    ensures conflicts == [] <==> forall i :: 0 <= i < |targets| ==> Writable(snapshots, targets[i], role, command)
    ensures conflicts == [] ==> |resolved| == |targets| && forall i :: 0 <= i < |targets| ==>
              Resolve(snapshots, targets[i], role) == Some(resolved[i])
    ensures forall c :: c in conflicts ==> Untried(c)
  {
    hide Resolve, Target.Normalize;
    resolved, conflicts := ResolvePlannedMembers(snapshots, targets, role);
    ghost var all := resolved;
    ghost var found := conflicts;
    if WantsPending(command) {
      resolved, conflicts := RequirePendingRestart(resolved, conflicts);
    }
    if conflicts == [] {
      forall i | 0 <= i < |targets|
        ensures Writable(snapshots, targets[i], role, command)
      {
        assert Resolve(snapshots, targets[i], role) == Some(all[i]);
      }
    } else if found == [] {
      var k :| 0 <= k < |all| && !PendingRestart(all[k].member);
      assert !Writable(snapshots, targets[k], role, command);
    } else {
      var k :| 0 <= k < |targets| && Resolve(snapshots, targets[k], role).None?;
      assert !Writable(snapshots, targets[k], role, command);
    }
  }

  lemma ResolvedDistinct(snapshots: seq<GroupSnapshot>, plan: Plan, role: Role, resolved: seq<Resolved>)
    requires PlanTargetsValid(plan) && |resolved| == |plan.targets|
    requires forall i :: 0 <= i < |plan.targets| ==> Resolve(snapshots, plan.targets[i], role) == Some(resolved[i])
    ensures DistinctAddresses(resolved)
  {
    hide Address, Target.Normalize, PlanTargetsValid, MatchesRole, SnapshotFor, FirstMember;
    forall i, j | 0 <= i < j < |resolved|
      ensures Address(resolved[i].target) != Address(resolved[j].target)
    {
      PlannedAddressesDiffer(plan, i, j);
    }
  }

  lemma ResolvedInOrder(snapshots: seq<GroupSnapshot>, targets: seq<Target.Target>, role: Role, resolved: seq<Resolved>,
                        results: seq<MemberResult>)
    requires |resolved| == |targets| == |results|
    requires forall i :: 0 <= i < |targets| ==> Resolve(snapshots, targets[i], role) == Some(resolved[i])
    requires forall i :: 0 <= i < |results| ==> results[i].target == resolved[i].target
    ensures InPlanOrder(results, targets)
    ensures forall i :: 0 <= i < |targets| ==> resolved[i].target == Target.Normalize(targets[i])
  {
    hide Target.Normalize, MatchesRole, SnapshotFor, FirstMember;
    forall i | 0 <= i < |targets|
      ensures Target.Normalize(results[i].target) == Target.Normalize(targets[i])
              && resolved[i].target == Target.Normalize(targets[i])
    {
      assert resolved[i].target == Target.Normalize(targets[i]);
      Target.NormalizeIdempotent(targets[i]);
    }
  }
}
