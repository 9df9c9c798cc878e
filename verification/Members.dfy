/** Members of a snapshot and what became of one REST write to each of them. */
module Members {
  import opened Text
  import opened Etcd
  import opened Txn
  import opened Cluster
  import opened Control
  import opened Effects
  import Target

  /** The members with a REST address, the leader first. */
  function LeaderFirst(cluster: ClusterState): seq<Member> {
    var leader := LeaderName(cluster);
    (if leader == "" then [] else FirstReachable(cluster.members, leader)) + OtherReachable(cluster.members, leader)
  }

  function FirstReachable(members: seq<Member>, name: string): seq<Member> {
    if members == [] then []
    else if members[0].name == name && TrimSpace(members[0].data.apiURL) != "" then [members[0]]
    else FirstReachable(members[1..], name)
  }

  function OtherReachable(members: seq<Member>, leader: string): seq<Member> {
    if members == [] then []
    else
      var rest := OtherReachable(members[1..], leader);
      if members[0].name != leader && TrimSpace(members[0].data.apiURL) != "" then [members[0]] + rest else rest
  }

  function MemberTargets(cluster: Target.Target, members: seq<Member>): seq<Target.Target> {
    seq(|members|, i requires 0 <= i < |members| => cluster.(member := members[i].name))
  }

  function TargetNames(targets: seq<Target.Target>): seq<string> {
    seq(|targets|, i requires 0 <= i < |targets| => targets[i].member)
  }

  /** Equality of the comma-joined member IDs, which are injective on normal
      forms and never contain a comma. */
  predicate SameTargets(a: seq<Target.Target>, b: seq<Target.Target>) {
    |a| == |b| && forall i :: 0 <= i < |a| ==> Target.Normalize(a[i]) == Target.Normalize(b[i])
  }

  /** The last member of a name (a map filled in order), if any. */
  function LastMember(members: seq<Member>, name: string): Option<Member> {
    if members == [] then None
    else if members[|members| - 1].name == name then Some(members[|members| - 1])
    else LastMember(members[..|members| - 1], name)
  }

  function NotSentResult(target: Target.Target, error: Error): MemberResult {
    MemberResult(target, Failed, SendNotSent, VerifiedFailed, 0, Some(error))
  }

  /** The response classifiers of the member writes (flush, pause, reload,
      restart, reinitialize), which differ in the accepted statuses. */
  function Classify(target: Target.Target, reply: HttpReply, accepting: set<nat>): MemberResult {
    var send := PatroniSendState(reply);
    if reply.status != 0 && reply.status in accepting then
         MemberResult(target, Succeeded, send, VerifiedSucceeded, reply.status, None)
    else if reply.status != 0 then MemberResult(target, Failed, send, VerifiedFailed, reply.status,
                                                Some(ClassifyHTTPStatus(reply.status)))
    else if Ambiguous(send) then MemberResult(target, Unknown, send, Unverified, 0, Some(Error(CategoryUnknown, false)))
    else NotSentResult(target, ClassifyHttpFailure(reply))
  }

  predicate MemberRules(result: MemberResult) {
    result.verification != NoVerification
    && FollowsRules(result.outcome, result.send, result.verification, result.error)
  }

  /** aggregateRESTSendState. */
  function AggregateSend(results: seq<MemberResult>): SendState {
    if exists i :: 0 <= i < |results| && results[i].send == SendMaybeSent then SendMaybeSent
    else if exists i :: 0 <= i < |results| && results[i].send == SendAccepted then SendAccepted
    else SendNotSent
  }

  /** aggregateRESTSendState's loop: the first doubtful attempt decides. */
  method AggregateRESTSendState(results: seq<MemberResult>) returns (state: SendState)
    ensures state == AggregateSend(results)
  {
    state := SendNotSent;
    var i := 0;
    while i < |results|
      invariant i <= |results|
      invariant forall j :: 0 <= j < i ==> results[j].send != SendMaybeSent
      invariant state == if exists j :: 0 <= j < i && results[j].send == SendAccepted then SendAccepted else SendNotSent
    {
      if results[i].send == SendMaybeSent {
        return SendMaybeSent;
      }
      if results[i].send == SendAccepted {
        state := SendAccepted;
      }
      i := i + 1;
    }
  }

  /** flushHasAmbiguousREST. */
  predicate HasUnknown(results: seq<MemberResult>) {
    exists i :: 0 <= i < |results| && results[i].outcome == Unknown
  }

  lemma UnknownAppend(results: seq<MemberResult>, result: MemberResult)
    ensures HasUnknown(results + [result]) <==> HasUnknown(results) || result.outcome == Unknown
  {
    var longer := results + [result];
    assert longer[|results|] == result;
    if i: nat :| i < |results| && results[i].outcome == Unknown {
      assert longer[i].outcome == Unknown;
    }
  }

  // ---- what the results say about the writes behind them ----

  /** The exchange that a member result reports. */
  ghost predicate Reports(exchange: Exchange, me: nat, operation: string, accepting: set<nat>, result: MemberResult) {
    && exchange.RestExchange? && exchange.call == RestCall(me, operation, result.target.member)
    && result == Classify(result.target, exchange.reply, accepting)
  }

  /** The HTTP exchanges of a run are those its results report, in that order;
      a result without an exchange says that nothing was sent. */
  ghost predicate Recounts(me: nat, operation: string, accepting: set<nat>, rests: seq<Exchange>,
                           results: seq<MemberResult>)
  {
    if results == [] then rests == []
    else
      var front, last := results[..|results| - 1], results[|results| - 1];
      || (last.outcome == Failed && last.send == SendNotSent && last.httpStatus == 0
          && Recounts(me, operation, accepting, rests, front))
      || (rests != [] && Reports(rests[|rests| - 1], me, operation, accepting, last)
          && Recounts(me, operation, accepting, rests[..|rests| - 1], front))
  }

  lemma NothingRecounted(me: nat, operation: string, accepting: set<nat>)
    ensures Recounts(me, operation, accepting, [], [])
  {
  }

  /** One attempt made `made` exchanges: one, which its result reports, or none
      at all. */
  ghost predicate Attempted(made: seq<Exchange>, me: nat, operation: string, accepting: set<nat>,
                            result: MemberResult)
  {
    if made == [] then result.outcome == Failed && result.send == SendNotSent && result.httpStatus == 0
    else |made| == 1 && Reports(made[0], me, operation, accepting, result)
  }

  lemma RecountsNext(me: nat, operation: string, accepting: set<nat>, rests: seq<Exchange>,
                     results: seq<MemberResult>, made: seq<Exchange>, result: MemberResult)
    requires Recounts(me, operation, accepting, rests, results) && Attempted(made, me, operation, accepting, result)
    ensures Recounts(me, operation, accepting, rests + made, results + [result])
  {
    hide Reports;
    assert (results + [result])[..|results|] == results;
    if made == [] {
      assert rests + made == rests;
    } else {
      assert (rests + made)[..|rests|] == rests && (rests + made)[|rests|] == made[0];
    }
  }

  /** How many attempts at a member took effect or may do so. */
  function OpenAttempts(results: seq<MemberResult>, member: string): nat {
    if results == [] then 0
    else
      var last := results[|results| - 1];
      OpenAttempts(results[..|results| - 1], member) + (if last.target.member == member && last.outcome != Failed then
                                                        1 else 0)
  }

  /** No REST write of the run but `operation` on a member with an open
      attempt, at most one for each. */
  ghost predicate RestBounded(me: nat, s: State, operation: string, results: seq<MemberResult>) {
    forall c: RestCall :: c.author == me ==>
      RestTally(s, c) <= if c.operation == operation then OpenAttempts(results, c.member) else 0
  }

  lemma {:induction false} NoOpenAttempts(results: seq<MemberResult>, member: string)
    requires forall i :: 0 <= i < |results| ==> results[i].outcome == Failed || results[i].target.member != member
    ensures OpenAttempts(results, member) == 0
  {
    if results != [] {
      var front := results[..|results| - 1];
      assert forall i :: 0 <= i < |front| ==> front[i] == results[i];
      NoOpenAttempts(front, member);
    }
  }

  /** If every attempt failed, nothing of the run takes effect. */
  lemma AllFailedIsQuiet(me: nat, s: State, operation: string, results: seq<MemberResult>)
    requires NoDcsWrite(me, s) && RestBounded(me, s, operation, results)
    requires forall i :: 0 <= i < |results| ==> results[i].outcome == Failed
    ensures NoEffect(me, s)
  {
    hide RestTally;
    forall c: RestCall | c.author == me
      ensures RestTally(s, c) == 0
    {
      NoOpenAttempts(results, c.member);
    }
  }

  /** Nothing reaches a member the results do not name. */
  lemma BoundedIsConfined(me: nat, s: State, operation: string, results: seq<MemberResult>, call: RestCall)
    requires RestBounded(me, s, operation, results) && call.author == me && RestTally(s, call) > 0
    ensures call.operation == operation
    ensures exists i :: 0 <= i < |results| && results[i].target.member == call.member && results[i].outcome != Failed
  {
    hide RestTally;
    if forall i :: 0 <= i < |results| ==> results[i].outcome == Failed || results[i].target.member != call.member {
      NoOpenAttempts(results, call.member);
    }
  }

  lemma QuietIsBounded(me: nat, s: State, operation: string, results: seq<MemberResult>)
    requires NoEffect(me, s)
    ensures NoDcsWrite(me, s) && RestBounded(me, s, operation, results)
  {
  }

  lemma RestBoundedLater(me: nat, s: State, t: State, operation: string, results: seq<MemberResult>)
    requires RestBounded(me, s, operation, results) && RestKept(me, s, t)
    ensures RestBounded(me, t, operation, results)
  {
    hide RestTally, OpenAttempts;
  }

  /** What others do leaves these promises alone. */
  lemma StillBounded(me: nat, s: State, t: State, operation: string, results: seq<MemberResult>, quiet: bool)
    requires Later(me, s, t) && NoDcsWrite(me, s) && RestBounded(me, s, operation, results)
             && (quiet ==> NoEffect(me, s))
    ensures NoDcsWrite(me, t) && RestBounded(me, t, operation, results) && (quiet ==> NoEffect(me, t))
    ensures s.log <= t.log && (Valid(s) ==> Valid(t))
  {
    hide NoEffect, RestBounded, NoDcsWrite, RestKept;
    NoDcsWriteLater(me, s, t);
    LaterKeepsRest(me, s, t);
    RestBoundedLater(me, s, t, operation, results);
    if quiet {
      NoEffectLater(me, s, t);
    }
  }

  /** An attempt that reached nobody adds nothing to what is open. */
  lemma UnsentBounded(me: nat, s: State, operation: string, results: seq<MemberResult>, result: MemberResult)
    requires RestBounded(me, s, operation, results)
    ensures RestBounded(me, s, operation, results + [result])
  {
    hide RestTally;
    assert (results + [result])[..|results|] == results;
  }

  /** One attempt adds at most the write it reports. */
  lemma AttemptBounded(me: nat, s: State, t: State, operation: string, accepting: set<nat>, reply: HttpReply,
                       target: Target.Target, results: seq<MemberResult>)
    requires RestStep(s, t, RestCall(me, operation, target.member), accepting, reply)
    requires reply.status != 0 ==> reply.delivery.HttpReceived?
    requires NoDcsWrite(me, s) && RestBounded(me, s, operation, results)
    ensures var result := Classify(target, reply, accepting);
            && NoDcsWrite(me, t) && RestBounded(me, t, operation, results + [result])
            && (result.outcome == Failed ==> t == s)
            && (result.outcome == Succeeded ==> RestApplied(me, t))
    ensures s.log == t.log && s.flight == t.flight && (Valid(s) ==> Valid(t))
  {
    hide RestBounded, ClassifyHTTPStatus, ClassifyHttpFailure;
    var call := RestCall(me, operation, target.member);
    var result := Classify(target, reply, accepting);
    RestStepAdds(me, s, t, call, accepting, reply);
    AddsBounded(me, s, t, call, target, results, result);
  }

  lemma AddsBounded(me: nat, s: State, t: State, call: RestCall, target: Target.Target, results: seq<MemberResult>,
                    result: MemberResult)
    requires RestBounded(me, s, call.operation, results) && call.member == target.member == result.target.member
    requires forall c: RestCall :: RestTally(t, c) <= RestTally(s, c) + (if c == call && t != s then 1 else 0)
    requires result.outcome == Failed ==> t == s
    ensures RestBounded(me, t, call.operation, results + [result])
  {
    hide RestTally;
    assert (results + [result])[..|results|] == results;
  }

  /** One attempt of a member loop, after the attempts `before`: nothing is sent
      to a member without a usable address. */
  method WriteToMember(w: World, service: Service, operation: string, accepting: set<nat>, target: Target.Target,
                       member: Option<Member>, ghost before: seq<MemberResult>, ghost quiet: bool, me: nat)
    returns (result: MemberResult, ghost made: seq<Exchange>)
    requires Valid(w.now) && NoDcsWrite(me, w.now) && RestBounded(me, w.now, operation, before)
    requires quiet ==> NoEffect(me, w.now)
    modifies w
    ensures Valid(w.now) && old(w.now).log <= w.now.log
    ensures w.trace == old(w.trace) + made && Attempted(made, me, operation, accepting, result)
    ensures AnsweredAt(|w.now.log|, made) == |w.now.log|
    ensures NoDcsWrite(me, w.now) && RestBounded(me, w.now, operation, before + [result])
    ensures result.target == target && MemberRules(result)
    ensures result.outcome == Unknown ==> result.httpStatus == 0 && Ambiguous(result.send)
    ensures result.httpStatus != 0 ==> result.send == SendAccepted
    ensures result.outcome == Failed && result.httpStatus == 0 ==> result.send == SendNotSent
    ensures result.outcome == Succeeded <==> result.httpStatus != 0 && result.httpStatus in accepting
    ensures quiet && result.outcome == Failed ==> NoEffect(me, w.now)
    ensures result.outcome == Succeeded ==> RestApplied(me, w.now)
  {
    hide NoEffect, NoDcsWrite, RestBounded, Valid, Later, RestApplied, RestStep, ClassifyHTTPStatus;
    hide ClassifyHttpFailure;
    if !service.patroni || member.None? || !service.usableURL(member.value.data.apiURL) {
      result, made := NotSentResult(target, Error(CategoryConfig, false)), [];
      UnsentBounded(me, w.now, operation, before, result);
      return;
    }
    w.Environment(me);
    StillBounded(me, old(w.now), w.now, operation, before, quiet);
    ghost var ready := w.now;
    var reply := w.Rest(me, operation, target.member, accepting);
    AttemptBounded(me, ready, w.now, operation, accepting, reply, target, before);
    result := Classify(target, reply, accepting);
    made := [RestExchange(RestCall(me, operation, target.member), reply, |w.now.log|)];
  }

  lemma NothingAggregated()
    ensures AggregateSend([]) == SendNotSent && !HasUnknown([])
  {
  }

  /** UNKNOWN if any member is, else FAILED if any member is, else SUCCEEDED. */
  function BatchVerdict(results: seq<MemberResult>): Outcome {
    if exists i :: 0 <= i < |results| && results[i].outcome == Unknown then Unknown
    else if exists i :: 0 <= i < |results| && results[i].outcome == Failed then Failed
    else Succeeded
  }

  lemma VerdictStep(results: seq<MemberResult>, i: nat)
    requires i < |results|
    ensures BatchVerdict(results[..i + 1]) ==
            if results[i].outcome == Unknown then Unknown
            else if results[i].outcome == Failed && BatchVerdict(results[..i]) != Unknown then Failed
            else BatchVerdict(results[..i])
  {
    var front, longer := results[..i], results[..i + 1];
    assert forall j :: 0 <= j < i ==> longer[j] == front[j];
    assert longer[i] == results[i];
  }
}
