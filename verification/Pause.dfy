/** Pause and resume (control/pause.go): one configuration patch tried on member
    after member until somebody answers, then convergence by readback. */
module Pause {
  import opened Text
  import opened Decimal
  import opened Etcd
  import opened Txn
  import opened Cluster
  import opened Control
  import opened Effects
  import opened Members
  import Target

  datatype PauseIntent = PauseIntent(operation: string, target: Target.Target, prefix: string, desired: bool,
                                     wait: bool, citus: bool)

  datatype PauseData = PauseData(
    results: seq<MemberResult>, pending: seq<string>, restSend: SendState, verification: Verification,
    dcsRevision: nat, noop: bool)

  const NO_PAUSE := PauseData([], [], NoSend, NoVerification, 0, false)

  type PauseOutcome = Control.Result<PauseData>

  const PATCHED: set<nat> := {200}

  // ---- plans ----

  function PausePreconditions(revision: nat, current: bool, intent: PauseIntent,
                              targets: seq<Target.Target>): map<Field, string>
  {
    map[DcsRevision := Itoa(revision), PauseCurrent := FormatBool(current), PauseDesired := FormatBool(intent.desired),
        RequestWait := FormatBool(intent.wait), RequestCitus := FormatBool(intent.citus), RestMembers :=
              Join(TargetNames(targets), ",")]
  }

  /** preparePause on a snapshot. */
  function BuildPausePlan(operationID: string, summary: string, intent: PauseIntent,
                          snapshot: Snapshot): Text.Result<Plan, Category>
  {
    var targets := MemberTargets(intent.target, LeaderFirst(snapshot.cluster));
    if Paused(snapshot.cluster) == intent.desired then Err(CategoryConflict)
    else if targets == [] then Err(CategoryNotFound)
    else
      var plan := Plan(operationID, intent.operation, intent.target, targets, PathREST, RiskAvailability, true, summary,
                       PausePreconditions(snapshot.revision, Paused(snapshot.cluster), intent, targets));
      if PlanValid(plan) then Ok(plan) else Err(CategoryInternal)
  }

  /** validatePausePlan. */
  predicate PausePlanAccepted(plan: Plan, intent: PauseIntent) {
    && PlanValid(plan)
    && plan.operation == intent.operation && plan.path == PathREST && plan.risk == RiskAvailability
       && plan.unsafeAfterSend
    && SameCluster(plan.target, intent.target)
    && Expected(plan, PauseDesired) == Some(FormatBool(intent.desired))
    && Expected(plan, RequestWait) == Some(FormatBool(intent.wait))
    && Expected(plan, RequestCitus) == Some(FormatBool(intent.citus))
    && Expected(plan, RestMembers) == Some(Join(TargetNames(plan.targets), ","))
    && plan.targets != []
  }

  /** A prepared plan is accepted for its own request, and only a cluster not
      yet in the desired state gets one. */
  lemma PreparedPauseIsAccepted(operationID: string, summary: string, intent: PauseIntent, snapshot: Snapshot)
    requires BuildPausePlan(operationID, summary, intent, snapshot).Ok?
    ensures PausePlanAccepted(BuildPausePlan(operationID, summary, intent, snapshot).value, intent)
    ensures Paused(snapshot.cluster) != intent.desired
  {
    hide Itoa, Join, FormatBool, PlanValid, LeaderFirst, Paused, MemberTargets, TargetNames, Target.Normalize;
  }

  // ---- convergence ----

  predicate MemberPaused(member: Member) { member.data.pause == Some(true) }

  predicate Converged(members: seq<Member>, name: string, desired: bool) {
    LastMember(members, name).Some? && MemberPaused(LastMember(members, name).value) == desired
  }

  /** pausePendingMembers, before sorting. */
  function Lagging(members: seq<Member>, planned: seq<string>, desired: bool): seq<string> {
    if planned == [] then []
    else
      Lagging(members, planned[..|planned| - 1], desired)
      + (if Converged(members, planned[|planned| - 1], desired) then [] else [planned[|planned| - 1]])
  }

  lemma {:induction false} NobodyLags(members: seq<Member>, planned: seq<string>, desired: bool)
    ensures Lagging(members, planned, desired) == [] <==>
              forall i :: 0 <= i < |planned| ==> Converged(members, planned[i], desired)
  {
    if planned != [] {
      NobodyLags(members, planned[..|planned| - 1], desired);
    }
  }

  /** One snapshot is authoritative: the flag is set and, when waiting, every
      planned member is present in the desired state. */
  predicate Authoritative(cluster: ClusterState, planned: seq<string>, desired: bool, wait: bool) {
    && Paused(cluster) == desired
    && (wait ==> forall i :: 0 <= i < |planned| ==> Converged(cluster.members, planned[i], desired))
  }

  /** verifyPauseState's test of one snapshot. */
  predicate PauseMatches(cluster: ClusterState, planned: seq<string>, desired: bool, wait: bool) {
    Paused(cluster) == desired && (!wait || Lagging(cluster.members, planned, desired) == [])
  }

  lemma MatchingIsAuthoritative(cluster: ClusterState, planned: seq<string>, desired: bool, wait: bool)
    ensures PauseMatches(cluster, planned, desired, wait) <==> Authoritative(cluster, planned, desired, wait)
  {
    hide Paused;
    NobodyLags(cluster.members, planned, desired);
  }

  ghost predicate Settled(log: seq<Request>, from: nat, intent: PauseIntent, planned: seq<string>) {
    exists snapshot :: ReadAfter(log, from, intent.prefix, snapshot)
                       && Authoritative(snapshot.cluster, planned, intent.desired, intent.wait)
  }

  lemma SettledBy(log: seq<Request>, from: nat, intent: PauseIntent, planned: seq<string>, snapshot: Snapshot)
    requires ReadAfter(log, from, intent.prefix, snapshot)
             && PauseMatches(snapshot.cluster, planned, intent.desired, intent.wait)
    ensures Settled(log, from, intent, planned)
  {
    hide ReadAfter, PauseMatches, Authoritative;
    MatchingIsAuthoritative(snapshot.cluster, planned, intent.desired, intent.wait);
  }

  predicate Matches(intent: PauseIntent, planned: seq<string>, snapshot: Snapshot) {
    PauseMatches(snapshot.cluster, planned, intent.desired, intent.wait)
  }

  /** What verifyPauseState reports of the snapshots it read, oldest first:
      verified, the pending members and the revision. */
  function ReadbackOf(intent: PauseIntent, planned: seq<string>, seen: seq<Snapshot>): (bool, seq<string>, nat) {
    if seen == [] then (false, [], 0)
    else
      var last := seen[|seen| - 1];
      if Matches(intent, planned, last) then (true, [], last.revision)
      else (false, SortStrings(Lagging(last.cluster.members, planned, intent.desired)), last.revision)
  }

  /** Snapshots of a readback: each read after the history had `from` commits, and
      none but the last one matching. */
  ghost predicate Readback(log: seq<Request>, from: nat, intent: PauseIntent, planned: seq<string>,
                           seen: seq<Snapshot>)
  {
    forall i :: 0 <= i < |seen| ==>
      ReadAfter(log, from, intent.prefix, seen[i]) && (i < |seen| - 1 ==> !Matches(intent, planned, seen[i]))
  }

  /** verifyPauseState. */
  method VerifyPauseState(w: World, service: Service, intent: PauseIntent, planned: seq<string>, ghost from: nat,
                          me: nat)
    returns (verified: bool, pending: seq<string>, revision: nat, ghost seen: seq<Snapshot>)
    requires from <= |w.now.log|
    modifies w`now
    ensures Later(me, old(w.now), w.now)
    ensures |seen| <= service.verificationAttempts && Readback(w.now.log, from, intent, planned, seen)
    ensures (verified, pending, revision) == ReadbackOf(intent, planned, seen)
    ensures verified ==> Settled(w.now.log, from, intent, planned)
  {
    hide Later, ReadAfter, PauseMatches, SnapshotOf, Settled, Lagging;
    var last;
    verified, last, seen := Verify(w, me, intent.prefix, service.verificationAttempts,
                             (s: Snapshot) => PauseMatches(s.cluster, planned, intent.desired, intent.wait));
    pending := if verified || last.None? then []
    else SortStrings(Lagging(last.value.cluster.members, planned, intent.desired));
    revision := RevisionOf(last);
    forall i | 0 <= i < |seen|
      ensures ReadAfter(w.now.log, from, intent.prefix, seen[i])
    {
      ReadAfterExtends(w.now.log, w.now.log, |old(w.now).log|, from, intent.prefix, seen[i]);
    }
    if verified {
      SettledBy(w.now.log, from, intent, planned, last.value);
    }
  }

  // ---- attempts ----

  /** Results follow the plan, the first HTTP answer ends the attempts, and an
      unknown one is an attempt without an HTTP answer. */
  predicate Probed(results: seq<MemberResult>, targets: seq<Target.Target>) {
    && |results| <= |targets|
    && forall i :: 0 <= i < |results| ==>
         && results[i].target == targets[i]
         && (i < |results| - 1 ==> results[i].httpStatus == 0)
         && (results[i].outcome == Unknown ==> Ambiguous(results[i].send))
         && (results[i].httpStatus != 0 ==> results[i].send == SendAccepted)
         && (results[i].outcome != Unknown && results[i].httpStatus == 0 ==> results[i].send == SendNotSent)
         && (results[i].outcome != Unknown && results[i].error.Some? ==>
             results[i].error.value.category != CategoryUnknown)
  }

  predicate Answered(results: seq<MemberResult>) { results != [] && results[|results| - 1].httpStatus != 0 }

  predicate Accepted(results: seq<MemberResult>) { results != [] && results[|results| - 1].httpStatus == 200 }

  /** The member loop of executePause. */
  method ProbeMembers(w: World, service: Service, intent: PauseIntent, targets: seq<Target.Target>,
                      members: seq<Member>, me: nat)
    returns (results: seq<MemberResult>, canceled: bool, ghost rests: seq<Exchange>)
    requires Valid(w.now) && NoEffect(me, w.now)
    modifies w
    ensures Valid(w.now) && old(w.now).log <= w.now.log
    // what is sent, and what can take effect, is what the results say
    ensures w.trace == old(w.trace) + rests && Recounts(me, intent.operation, PATCHED, rests, results)
    ensures AnsweredAt(|old(w.now).log|, rests) <= |w.now.log|
    ensures NoDcsWrite(me, w.now) && RestBounded(me, w.now, intent.operation, results)
    ensures Probed(results, targets)
    ensures canceled ==> !Answered(results)
    ensures !canceled && !Answered(results) ==> |results| == |targets|
    ensures !HasUnknown(results) && !Accepted(results) ==> NoEffect(me, w.now)
    ensures Accepted(results) ==> RestApplied(me, w.now)
  {
    hide NoEffect, NoDcsWrite, RestBounded, Valid, Later, RestApplied, HasUnknown, Recounts;
    results, canceled, rests := [], false, [];
    QuietIsBounded(me, w.now, intent.operation, []);
    NothingRecounted(me, intent.operation, PATCHED);
    var i := 0;
    while i < |targets|
      invariant i == |results| <= |targets|
      invariant Valid(w.now) && old(w.now).log <= w.now.log
      invariant w.trace == old(w.trace) + rests && Recounts(me, intent.operation, PATCHED, rests, results)
      invariant AnsweredAt(|old(w.now).log|, rests) <= |w.now.log|
      invariant NoDcsWrite(me, w.now) && RestBounded(me, w.now, intent.operation, results)
      invariant Probed(results, targets)
      invariant !Answered(results)
      invariant !HasUnknown(results) ==> NoEffect(me, w.now)
    {
      var gone: bool := *;
      if gone {
        return results, true, rests;
      }
      ghost var quiet := !HasUnknown(results);
      var result;
      ghost var made;
      result, made := WriteToMember(w, service, intent.operation, PATCHED, targets[i],
                                    LastMember(members, targets[i].member), results, quiet, me);
      RecountsNext(me, intent.operation, PATCHED, rests, results, made, result);
      UnknownAppend(results, result);
      results, rests := results + [result], rests + made;
      if result.httpStatus != 0 {
        return results, false, rests;
      }
      i := i + 1;
    }
  }

  // ---- execution ----

  function PauseSuccess(data: PauseData): PauseOutcome {
    Control.Result(Succeeded, PathREST, data.(verification := VerifiedSucceeded), None)
  }

  function PauseFailure(data: PauseData, error: Error): PauseOutcome {
    Control.Result(Failed, PathREST, data.(verification := VerifiedFailed), Some(error))
  }

  function PauseUnknown(data: PauseData): PauseOutcome {
    Control.Result(Unknown, PathREST, data.(verification := Unverified), Some(Error(CategoryUnknown, false)))
  }

  function PauseRefused(error: Error): PauseOutcome { Control.Result(Failed, PathREST, NO_PAUSE, Some(error)) }

  /** terminalPauseFailure: the last error of the results. */
  function TerminalFailure(results: seq<MemberResult>): Error {
    if results == [] then Error(CategoryUnreachable, true)
    else match results[|results| - 1].error
      case Some(error) => error
      case None => TerminalFailure(results[..|results| - 1])
  }

  lemma {:induction false} TerminalFailureIsKnown(results: seq<MemberResult>, targets: seq<Target.Target>)
    requires Probed(results, targets) && !HasUnknown(results)
    ensures TerminalFailure(results).category != CategoryUnknown
  {
    if results != [] {
      var front := results[..|results| - 1];
      assert forall i :: 0 <= i < |front| ==> front[i] == results[i];
      TerminalFailureIsKnown(front, targets);
    }
  }

  predicate PauseClassified(result: PauseOutcome) {
    FollowsRules(result.outcome, result.data.restSend, result.data.verification, result.error)
  }

  /** The snapshot that an execution starts from already shows the desired flag. */
  predicate FlagIsSet(intent: PauseIntent, first: Option<Snapshot>) {
    first.Some? && Paused(first.value.cluster) == intent.desired
  }

  /** What an execution reports of a flag that is already set, as shown by
      `first`, after the readback `seen`. */
  function AlreadySetOutcome(intent: PauseIntent, planned: seq<string>, first: Snapshot,
                             seen: seq<Snapshot>): PauseOutcome
  {
    var data := PauseData([], [], SendNotSent, Unverified, 0, true);
    if !intent.wait then PauseSuccess(data.(dcsRevision := first.revision))
    else
      var (verified, pending, revision) := ReadbackOf(intent, planned, seen);
      if verified then PauseSuccess(data.(pending := pending, dcsRevision := revision))
      else PauseUnknown(data.(pending := pending, dcsRevision := revision))
  }

  /** Exactly when such a report breaks the rule for write results: it was to wait,
      and no snapshot of the readback shows convergence. */
  lemma WaitingBreaksRule(intent: PauseIntent, planned: seq<string>, first: Snapshot, seen: seq<Snapshot>)
    requires forall i :: 0 <= i < |seen| - 1 ==> !Matches(intent, planned, seen[i])
    ensures var result := AlreadySetOutcome(intent, planned, first, seen);
            && CategoryFits(result.outcome, result.error)
            && (!PauseClassified(result) <==>
                intent.wait && forall i :: 0 <= i < |seen| ==> !Matches(intent, planned, seen[i]))
            && (!PauseClassified(result) ==> result.outcome == Unknown && result.data.restSend == SendNotSent)
  {
    hide Matches, Lagging;
  }

  /** So a caller can tell beforehand: every readback of a flag that is already
      set obeys the rule if and only if the request does not wait. */
  lemma NotWaitingIsSafe(intent: PauseIntent, planned: seq<string>, first: Snapshot)
    ensures (forall seen :: PauseClassified(AlreadySetOutcome(intent, planned, first, seen))) <==> !intent.wait
  {
    hide Matches, Lagging;
    WaitingBreaksRule(intent, planned, first, []);
  }

  /** Every attempt was not sent, except that the last may be an HTTP
      rejection. */
  predicate NothingSent(results: seq<MemberResult>) {
    forall i :: 0 <= i < |results| ==>
      || results[i].send == SendNotSent
      || (i == |results| - 1 && results[i].httpStatus != 0 && results[i].httpStatus != 200)
  }

  lemma FailedAttempts(results: seq<MemberResult>, targets: seq<Target.Target>)
    requires Probed(results, targets) && !HasUnknown(results)
    requires !Accepted(results)
    ensures NothingSent(results)
  {
  }

  /** What a report after the attempts promises, where `last` is the length of
      the history when the last of them had been answered. */
  ghost predicate Reported(me: nat, s: State, last: nat, intent: PauseIntent, targets: seq<Target.Target>,
                           result: PauseOutcome)
  {
    && (result.outcome == Failed ==> NoEffect(me, s) && NothingSent(result.data.results))
    && (result.outcome == Succeeded ==>
          || Settled(s.log, last, intent, TargetNames(targets))
          || (!intent.wait && Accepted(result.data.results) && RestApplied(me, s)))
    && CategoryFits(result.outcome, result.error)
  }

  /** finishPauseHTTPResponse, finishCanceledPause and the end of executePause:
      how the attempts are reported. */
  method Finish(w: World, service: Service, intent: PauseIntent, targets: seq<Target.Target>, data: PauseData,
                canceled: bool, ghost last: nat, me: nat)
    returns (result: PauseOutcome)
    requires Valid(w.now) && NoDcsWrite(me, w.now) && last <= |w.now.log|
    requires RestBounded(me, w.now, intent.operation, data.results)
    requires Probed(data.results, targets) && data.restSend == AggregateSend(data.results) && !data.noop
    requires canceled ==> !Answered(data.results)
    requires !HasUnknown(data.results) && !Accepted(data.results) ==> NoEffect(me, w.now)
    requires Accepted(data.results) ==> RestApplied(me, w.now)
    modifies w`now
    ensures Valid(w.now) && old(w.now).log <= w.now.log
    ensures NoDcsWrite(me, w.now) && RestBounded(me, w.now, intent.operation, data.results)
    ensures Reported(me, w.now, last, intent, targets, result) && PauseClassified(result)
    ensures result.data.results == data.results && !result.data.noop
  {
    hide NoEffect, NoDcsWrite, RestBounded, Valid, Later, RestApplied, HasUnknown, AggregateSend, Settled;
    hide TerminalFailure, Probed, NothingSent, TargetNames, ReadbackOf, Readback;
    var results := data.results;
    AggregateDoubt(results, targets);
    if Accepted(results) && !intent.wait {
      return PauseSuccess(data);
    }
    if canceled && HasUnknown(results) {
      return PauseUnknown(data);
    }
    if Accepted(results) || HasUnknown(results) {
      label verifying:
      var verified, pending, revision, _ := VerifyPauseState(w, service, intent, TargetNames(targets), last, me);
      StillBounded(me, old@verifying(w.now), w.now, intent.operation, results, false);
      var reported := data.(pending := pending, dcsRevision := revision);
      if verified {
        return PauseSuccess(reported);
      }
      return PauseUnknown(reported);
    }
    FailedAttempts(results, targets);
    TerminalFailureIsKnown(results, targets);
    if canceled {
      return PauseFailure(data, Error(CategoryFailed, false));
    }
    if Answered(results) {
      return PauseFailure(data, ClassifyHTTPStatus(results[|results| - 1].httpStatus));
    }
    return PauseFailure(data, TerminalFailure(results));
  }

  lemma AggregateDoubt(results: seq<MemberResult>, targets: seq<Target.Target>)
    requires Probed(results, targets)
    ensures HasUnknown(results) || Answered(results) ==> Ambiguous(AggregateSend(results))
  {
  }

  /** The arm of executePause for a flag that is already set: nothing is sent. */
  method AlreadySet(w: World, service: Service, intent: PauseIntent, targets: seq<Target.Target>, snapshot: Snapshot,
                    ghost from: nat, me: nat)
    returns (result: PauseOutcome, ghost seen: seq<Snapshot>)
    requires Valid(w.now) && NoEffect(me, w.now) && from <= |w.now.log|
    requires ReadAfter(w.now.log, from, intent.prefix, snapshot) && Paused(snapshot.cluster) == intent.desired
    modifies w`now
    ensures Valid(w.now) && old(w.now).log <= w.now.log && NoEffect(me, w.now)
    ensures NoDcsWrite(me, w.now) && RestBounded(me, w.now, intent.operation, [])
    ensures Reported(me, w.now, from, intent, targets, result)
    ensures Readback(w.now.log, from, intent, TargetNames(targets), seen)
    ensures result == AlreadySetOutcome(intent, TargetNames(targets), snapshot, seen)
  {
    hide NoEffect, NoDcsWrite, RestBounded, Valid, Later, RestApplied, Settled, TargetNames, Paused, ReadAfter;
    hide PauseMatches;
    var data := PauseData([], [], SendNotSent, Unverified, 0, true);
    QuietIsBounded(me, w.now, intent.operation, []);
    if !intent.wait {
      FlagIsEnough(snapshot.cluster, TargetNames(targets), intent);
      SettledBy(w.now.log, from, intent, TargetNames(targets), snapshot);
      return PauseSuccess(data.(dcsRevision := snapshot.revision)), [];
    }
    var verified, pending, revision;
    verified, pending, revision, seen := VerifyPauseState(w, service, intent, TargetNames(targets), from, me);
    StillBounded(me, old(w.now), w.now, intent.operation, [], true);
    data := data.(pending := pending, dcsRevision := revision);
    result := if verified then PauseSuccess(data) else PauseUnknown(data);
  }

  /** The arm of executePause that sends the patch. */
  method SendPause(w: World, service: Service, intent: PauseIntent, targets: seq<Target.Target>, members: seq<Member>,
                   me: nat)
    returns (result: PauseOutcome, ghost rests: seq<Exchange>)
    requires Valid(w.now) && NoEffect(me, w.now)
    modifies w
    ensures Valid(w.now) && old(w.now).log <= w.now.log
    ensures Reported(me, w.now, AnsweredAt(|old(w.now).log|, rests), intent, targets, result)
    ensures PauseClassified(result) && !result.data.noop
    ensures Probed(result.data.results, targets)
    ensures w.trace == old(w.trace) + rests && Recounts(me, intent.operation, PATCHED, rests, result.data.results)
    ensures NoDcsWrite(me, w.now) && RestBounded(me, w.now, intent.operation, result.data.results)
  {
    hide NoEffect, NoDcsWrite, RestBounded, Valid, RestApplied, HasUnknown, AggregateSend, Reported, Recounts;
    var results, canceled;
    results, canceled, rests := ProbeMembers(w, service, intent, targets, members, me);
    var data := PauseData(results, [], AggregateSend(results), Unverified, 0, false);
    result := Finish(w, service, intent, targets, data, canceled, AnsweredAt(|old(w.now).log|, rests), me);
  }

  lemma ReportedFrom(me: nat, s: State, later: nat, last: nat, intent: PauseIntent, targets: seq<Target.Target>,
                     result: PauseOutcome)
    requires last <= later && Reported(me, s, later, intent, targets, result)
    ensures Reported(me, s, last, intent, targets, result)
  {
    hide Authoritative, SnapshotOf, NoEffect, RestApplied, NothingSent;
    if Settled(s.log, later, intent, TargetNames(targets)) {
      var snapshot :| ReadAfter(s.log, later, intent.prefix, snapshot)
                      && Authoritative(snapshot.cluster, TargetNames(targets), intent.desired, intent.wait);
      ReadAfterExtends(s.log, s.log, later, last, intent.prefix, snapshot);
    }
  }

  /** executePause for both operations. */
  method ExecutePause(w: World, service: Service, intent: PauseIntent, requestError: bool, plan: Plan, me: nat)
    returns (result: PauseOutcome, ghost rests: seq<Exchange>, ghost first: Option<Snapshot>, ghost seen: seq<Snapshot>)
    requires Valid(w.now) && NoEffect(me, w.now)
    modifies w
    ensures Valid(w.now) && old(w.now).log <= w.now.log
    // refused at once, or run on the plan of the request from one snapshot
    ensures if first.None? then result.outcome == Failed && result.data == NO_PAUSE
            else !requestError && PausePlanAccepted(plan, intent) && SupportsCluster(service, first.value.cluster)
                 && ReadAfter(w.now.log, |old(w.now).log|, intent.prefix, first.value)
    // the rule for write results is broken exactly by waiting in vain on a flag that was set from the start
    ensures Readback(w.now.log, |old(w.now).log|, intent, TargetNames(plan.targets), seen)
    ensures !PauseClassified(result) <==>
              FlagIsSet(intent, first) && intent.wait
              && forall i :: 0 <= i < |seen| ==> !Matches(intent, TargetNames(plan.targets), seen[i])
    ensures FlagIsSet(intent, first) ==>
              result == AlreadySetOutcome(intent, TargetNames(plan.targets), first.value, seen)
    ensures result.data.noop <==> FlagIsSet(intent, first)
    // no false failure; success means an accepted patch (without waiting) or one authoritative later snapshot
    ensures Reported(me, w.now, AnsweredAt(|old(w.now).log|, rests), intent, plan.targets, result)
    // attempts follow the plan and stop at the first HTTP answer, and nothing else is sent
    ensures Probed(result.data.results, plan.targets)
    ensures w.trace == old(w.trace) + rests && Recounts(me, intent.operation, PATCHED, rests, result.data.results)
    ensures NoDcsWrite(me, w.now) && RestBounded(me, w.now, intent.operation, result.data.results)
    ensures result.data.noop ==> NoEffect(me, w.now) && result.data.results == []
  {
    hide NoEffect, NoDcsWrite, RestBounded, Valid, Later, RestApplied, HasUnknown, AggregateSend, Settled, Recounts;
    hide SnapshotOf, PausePlanAccepted, TargetNames;
    hide SupportsCluster, Paused, LeaderFirst, Join, Authoritative, PauseMatches, ReadAfter;
    hide Matches, ReadbackOf;
    rests, first, seen := [], None, [];
    QuietIsBounded(me, w.now, intent.operation, []);
    NothingRecounted(me, intent.operation, PATCHED);
    NothingAggregated();
    var noContext: bool := *;
    if noContext || requestError || !PausePlanAccepted(plan, intent) {
      result := PauseRefused(Error(CategoryUsage, false));
      return;
    }
    var read := ReadSnapshot(w, me, intent.prefix);
    StillBounded(me, old(w.now), w.now, intent.operation, [], true);
    if read.Err? {
      result := PauseRefused(ClassifyReadError(read.error));
      return;
    }
    var cluster := read.value.cluster;
    if !SupportsCluster(service, cluster) {
      result := PauseRefused(Error(CategoryUnsupported, false));
      return;
    }
    var data := PauseData([], [], SendNotSent, Unverified, 0, false);
    first := Some(read.value);
    ReadNow(w.now.log, |old(w.now).log|, intent.prefix);
    ghost var start := w.now.log;
    if Paused(cluster) == intent.desired {
      result, seen := AlreadySet(w, service, intent, plan.targets, read.value, |old(w.now).log|, me);
      ReadAfterExtends(start, w.now.log, |old(w.now).log|, |old(w.now).log|, intent.prefix, read.value);
      WaitingBreaksRule(intent, TargetNames(plan.targets), read.value, seen);
      return;
    }
    var current := MemberTargets(intent.target, LeaderFirst(cluster));
    if Join(TargetNames(current), ",") != Join(TargetNames(plan.targets), ",") {
      result := PauseFailure(data, Error(CategoryConflict, false));
      return;
    }
    result, rests := SendPause(w, service, intent, plan.targets, cluster.members, me);
    ReportedFrom(me, w.now, AnsweredAt(|start|, rests), AnsweredAt(|old(w.now).log|, rests), intent, plan.targets,
                 result);
    ReadAfterExtends(start, w.now.log, |old(w.now).log|, |old(w.now).log|, intent.prefix, read.value);
  }

  lemma FlagIsEnough(cluster: ClusterState, planned: seq<string>, intent: PauseIntent)
    requires Paused(cluster) == intent.desired && !intent.wait
    ensures PauseMatches(cluster, planned, intent.desired, intent.wait)
  {
    hide Paused;
  }
}
