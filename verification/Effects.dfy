/** Bookkeeping of what one run of a command has done to the shared state, and
    what it keeps while others act. */
module Effects {
  import opened Etcd
  import opened Txn
  import opened Control

  /** No DCS request of this run is committed or on the wire. */
  ghost predicate NoDcsWrite(me: nat, s: State) {
    forall r: Request :: r.author == me ==> Tally(s, r) == 0
  }

  /** The only DCS request of this run is `only`, and it takes effect at most
      once. */
  ghost predicate OnlyRequest(me: nat, s: State, only: Request) {
    forall r: Request :: r.author == me ==> Tally(s, r) <= (if r == only then 1 else 0)
  }

  ghost predicate OnlyRest(me: nat, s: State, only: RestCall) {
    forall c: RestCall :: c.author == me ==> RestTally(s, c) <= (if c == only then 1 else 0)
  }

  /** At most one REST write of this run takes effect, and at most once. */
  ghost predicate OneRestWrite(me: nat, s: State) {
    exists only: RestCall :: OnlyRest(me, s, only)
  }

  /** A REST write of this run took effect. */
  ghost predicate RestApplied(me: nat, s: State) {
    exists i :: 0 <= i < |s.rest| && s.rest[i].author == me
  }

  ghost predicate NoCommitOf(me: nat, log: seq<Request>) {
    forall i :: 0 <= i < |log| ==> log[i].author != me
  }

  lemma NoDcsWriteLater(me: nat, s: State, t: State)
    requires NoDcsWrite(me, s) && Later(me, s, t)
    ensures NoDcsWrite(me, t)
  {
    forall r: Request | r.author == me
      ensures Tally(t, r) == 0
    {
      assert Tally(t, r) <= Tally(s, r);
    }
  }

  lemma OneRestWriteLater(me: nat, s: State, t: State)
    requires OneRestWrite(me, s) && Later(me, s, t)
    ensures OneRestWrite(me, t)
  {
    var only: RestCall :| OnlyRest(me, s, only);
    forall c: RestCall | c.author == me
      ensures RestTally(t, c) <= (if c == only then 1 else 0)
    {
      assert RestTally(t, c) <= RestTally(s, c);
    }
    assert OnlyRest(me, t, only);
  }

  lemma RestAppliedLater(me: nat, s: State, t: State)
    requires RestApplied(me, s) && Later(me, s, t)
    ensures RestApplied(me, t)
  {
    var i :| 0 <= i < |s.rest| && s.rest[i].author == me;
    assert t.rest[i] == s.rest[i];
  }

  lemma OnlyRequestLater(me: nat, s: State, t: State, only: Request)
    requires OnlyRequest(me, s, only) && Later(me, s, t)
    ensures OnlyRequest(me, t, only)
  {
    forall r: Request | r.author == me
      ensures Tally(t, r) <= (if r == only then 1 else 0)
    {
      assert Tally(t, r) <= Tally(s, r);
    }
  }

  lemma NoEffectMeansOneRestWrite(me: nat, s: State)
    requires NoEffect(me, s)
    ensures NoDcsWrite(me, s) && OneRestWrite(me, s)
  {
    assert OnlyRest(me, s, RestCall(me, "", ""));
  }

  /** What one REST exchange adds to the tallies of its author. */
  lemma RestEffects(me: nat, s: State, t: State, call: RestCall)
    requires NoEffect(me, s) && call.author == me
    requires t == s || t == s.(rest := s.rest + [call]) || t == s.(restFlight := s.restFlight + multiset{call})
    ensures NoDcsWrite(me, t) && OneRestWrite(me, t)
    ensures t == s ==> NoEffect(me, t)
    ensures t.rest != s.rest ==> RestApplied(me, t)
    ensures (Valid(s) ==> Valid(t)) && s.log <= t.log
  {
    assert t.rest != s.rest ==> t.rest[|s.rest|].author == me;
    forall c: RestCall | c.author == me
      ensures RestTally(t, c) <= (if c == call then 1 else 0)
    {
      assert RestTally(s, c) == 0;
    }
    assert OnlyRest(me, t, call);
    forall r: Request | r.author == me
      ensures Tally(t, r) == 0
    {
      assert Tally(s, r) == 0;
    }
  }

  lemma KeepsRun(me: nat, s: State, t: State, unsent: bool)
    requires Later(me, s, t) && NoDcsWrite(me, s) && OneRestWrite(me, s) && (unsent ==> NoEffect(me, s))
    ensures s.log <= t.log && (Valid(s) ==> Valid(t))
    ensures NoDcsWrite(me, t) && OneRestWrite(me, t) && (unsent ==> NoEffect(me, t))
  {
    hide NoEffect, OneRestWrite;
    NoDcsWriteLater(me, s, t);
    OneRestWriteLater(me, s, t);
    if unsent {
      NoEffectLater(me, s, t);
    }
  }

  lemma NothingCommitted(me: nat, s: State)
    requires NoDcsWrite(me, s)
    ensures NoCommitOf(me, s.log)
  {
    forall i | 0 <= i < |s.log|
      ensures s.log[i].author != me
    {
      assert s.log[i] in multiset(s.log);
      assert Tally(s, s.log[i]) > 0;
    }
  }

  /** What a guarded write adds, however it was delivered. */
  lemma WriteEffects(me: nat, s: State, t: State, only: Request)
    requires NoDcsWrite(me, s) && OneRestWrite(me, s) && only.author == me
    requires t == s || t == s.(flight := s.flight + multiset{only})
             || (t == s.(log := s.log + [only]) && GuardHolds(StoreAt(s.log), only)
                 && Changes(StoreAt(s.log), only.mutation))
    ensures OnlyRequest(me, t, only) && OneRestWrite(me, t)
    ensures s.log <= t.log && (Valid(s) ==> Valid(t))
  {
    hide StoreAt, GuardHolds, Changes;
    forall r: Request | r.author == me
      ensures Tally(t, r) <= (if r == only then 1 else 0)
    {
      assert Tally(s, r) == 0;
    }
    var rest: RestCall :| OnlyRest(me, s, rest);
    assert forall c: RestCall :: RestTally(t, c) == RestTally(s, c);
    assert OnlyRest(me, t, rest);
    ProcessIsLater(me, s, only);
  }

  lemma CommitsAfter(me: nat, log: seq<Request>, read: nat, i: nat)
    requires read <= |log| && NoCommitOf(me, log[..read]) && i < |log| && log[i].author == me
    ensures read <= i
  {
    var j := if i < read then i else 0;
    assert j < read ==> log[..read][j].author != me;
  }

  lemma OwnCommit(me: nat, s: State, only: Request, i: nat)
    requires OnlyRequest(me, s, only) && i < |s.log| && s.log[i].author == me
    ensures s.log[i] == only
  {
    assert s.log[i] in multiset(s.log);
    assert Tally(s, s.log[i]) > 0;
  }

  ghost predicate NoRestWrite(me: nat, s: State) {
    forall c: RestCall :: c.author == me ==> RestTally(s, c) == 0
  }

  lemma NoRestWriteLater(me: nat, s: State, t: State)
    requires NoRestWrite(me, s) && Later(me, s, t)
    ensures NoRestWrite(me, t)
  {
    forall c: RestCall | c.author == me
      ensures RestTally(t, c) == 0
    {
      assert RestTally(t, c) <= RestTally(s, c);
    }
  }

  /** What the first DCS write of a run without REST writes adds. */
  lemma FirstWriteEffects(me: nat, s: State, t: State, only: Request)
    requires NoEffect(me, s) && only.author == me
    requires t == s || t == s.(flight := s.flight + multiset{only})
             || (t == s.(log := s.log + [only]) && GuardHolds(StoreAt(s.log), only)
                 && Changes(StoreAt(s.log), only.mutation))
    ensures OnlyRequest(me, t, only) && NoRestWrite(me, t)
    ensures s.log <= t.log && (Valid(s) ==> Valid(t))
    ensures t == s ==> NoEffect(me, t)
  {
    hide StoreAt, GuardHolds, Changes, NoEffect;
    NoEffectMeansOneRestWrite(me, s);
    WriteEffects(me, s, t, only);
    forall c: RestCall | c.author == me
      ensures RestTally(t, c) == 0
    {
      NoEffectMeansNoRest(me, s, c);
      assert RestTally(t, c) == RestTally(s, c);
    }
  }

  lemma NoEffectMeansNoRest(me: nat, s: State, c: RestCall)
    requires NoEffect(me, s) && c.author == me
    ensures RestTally(s, c) == 0
  {
  }

  /** A run of which nothing took effect keeps that while others act. */
  lemma QuietLater(me: nat, s: State, t: State)
    requires NoEffect(me, s) && Later(me, s, t)
    ensures NoEffect(me, t) && NoDcsWrite(me, t) && NoRestWrite(me, t)
    ensures s.log <= t.log && (Valid(s) ==> Valid(t))
  {
    NoEffectLater(me, s, t);
  }

  /** Every REST write of this run is `operation` on one of `members`. */
  ghost predicate RestConfined(me: nat, s: State, operation: string, members: set<string>) {
    forall c: RestCall :: c.author == me && RestTally(s, c) > 0 ==> c.operation == operation && c.member in members
  }

  lemma RestConfinedLater(me: nat, s: State, t: State, operation: string, members: set<string>)
    requires RestConfined(me, s, operation, members) && Later(me, s, t)
    ensures RestConfined(me, t, operation, members)
  {
    forall c: RestCall | c.author == me && RestTally(t, c) > 0
      ensures c.operation == operation && c.member in members
    {
      assert RestTally(t, c) <= RestTally(s, c);
    }
  }

  lemma QuietIsConfined(me: nat, s: State, operation: string, members: set<string>)
    requires NoEffect(me, s)
    ensures NoDcsWrite(me, s) && RestConfined(me, s, operation, members)
  {
  }

  /** No status and no certainty that nothing left: the write may take effect. */
  predicate AmbiguousReply(reply: HttpReply) { reply.status == 0 && !reply.delivery.HttpNotSent? }

  /** What one REST exchange of a run changes. */
  lemma RestStepEffects(me: nat, s: State, t: State, call: RestCall, accepting: set<nat>, reply: HttpReply,
                        members: set<string>)
    requires RestStep(s, t, call, accepting, reply) && call.author == me && call.member in members
    requires NoDcsWrite(me, s) && RestConfined(me, s, call.operation, members)
    ensures NoDcsWrite(me, t) && RestConfined(me, t, call.operation, members)
    ensures s.log == t.log && s.flight == t.flight && s.rest <= t.rest && (Valid(s) ==> Valid(t))
    ensures !AmbiguousReply(reply) && (reply.status == 0 || reply.status !in accepting) ==> t == s
    ensures reply.status != 0 && reply.status in accepting ==> RestApplied(me, t)
  {
    assert t.rest != s.rest ==> t.rest[|s.rest|] == call;
    forall c: RestCall | c.author == me && RestTally(t, c) > 0
      ensures c.operation == call.operation && c.member in members
    {
      assert c == call || RestTally(t, c) == RestTally(s, c);
    }
    forall r: Request | r.author == me
      ensures Tally(t, r) == 0
    {
      assert Tally(t, r) == Tally(s, r);
    }
  }

  /** What one REST exchange adds to the tallies. */
  lemma RestStepAdds(me: nat, s: State, t: State, call: RestCall, accepting: set<nat>, reply: HttpReply)
    requires RestStep(s, t, call, accepting, reply) && call.author == me && NoDcsWrite(me, s)
    ensures NoDcsWrite(me, t) && s.log == t.log && s.flight == t.flight && s.rest <= t.rest && (Valid(s) ==> Valid(t))
    ensures forall c: RestCall :: RestTally(t, c) <= RestTally(s, c) + (if c == call && t != s then 1 else 0)
    ensures !AmbiguousReply(reply) && (reply.status == 0 || reply.status !in accepting) ==> t == s
    ensures reply.status != 0 && reply.status in accepting ==> RestApplied(me, t)
  {
    assert t.rest != s.rest ==> t.rest[|s.rest|] == call;
    assert forall r: Request :: Tally(t, r) == Tally(s, r);
  }

  /** What the first DCS write of a run adds, whatever its REST writes were. */
  lemma DcsWriteEffects(me: nat, s: State, t: State, only: Request)
    requires NoDcsWrite(me, s) && only.author == me
    requires t == s || t == s.(flight := s.flight + multiset{only})
             || (t == s.(log := s.log + [only]) && GuardHolds(StoreAt(s.log), only)
                 && Changes(StoreAt(s.log), only.mutation))
    ensures OnlyRequest(me, t, only)
    ensures t.rest == s.rest && t.restFlight == s.restFlight
    ensures s.log <= t.log && (Valid(s) ==> Valid(t))
  {
    hide StoreAt, GuardHolds, Changes, ValidLog, Tally;
    WriteTallies(s, t, only);
    forall r: Request | r.author == me
      ensures Tally(t, r) <= (if r == only then 1 else 0)
    {
      assert Tally(s, r) == 0;
    }
    ProcessIsLater(me, s, only);
  }

  lemma WriteTallies(s: State, t: State, only: Request)
    requires t == s || t == s.(flight := s.flight + multiset{only}) || t == s.(log := s.log + [only])
    ensures forall r: Request :: Tally(t, r) <= Tally(s, r) + (if r == only then 1 else 0)
  {
  }

  /** Every REST write of this run goes to one member. */
  ghost predicate RestTo(me: nat, s: State, member: string) {
    forall c: RestCall :: c.author == me && RestTally(s, c) > 0 ==> c.member == member
  }

  /** Between the two states the run has issued no further REST write. */
  ghost predicate RestKept(me: nat, s: State, t: State) {
    forall c: RestCall :: c.author == me ==> RestTally(t, c) <= RestTally(s, c)
  }

  lemma LaterKeepsRest(me: nat, s: State, t: State)
    requires Later(me, s, t)
    ensures RestKept(me, s, t)
  {
  }

  lemma SameRestKept(me: nat, s: State, t: State)
    requires t.rest == s.rest && t.restFlight == s.restFlight
    ensures RestKept(me, s, t)
  {
  }

  lemma RestKeptTransitive(me: nat, s: State, t: State, u: State)
    requires RestKept(me, s, t) && RestKept(me, t, u)
    ensures RestKept(me, s, u)
  {
    hide RestTally;
  }

  /** How long the history was when the last of the exchanges a run made had
      been answered; `start` if it made none. */
  ghost function AnsweredAt(start: nat, made: seq<Exchange>): nat {
    if made == [] then start else made[|made| - 1].at
  }

  ghost predicate Posted(exchange: Exchange, me: nat, operation: string, member: string) {
    exchange.RestExchange? && exchange.call == RestCall(me, operation, member)
  }

  lemma KeptRest(me: nat, s: State, t: State, member: string)
    requires RestKept(me, s, t)
    ensures RestTo(me, s, member) ==> RestTo(me, t, member)
    ensures NoRestWrite(me, s) ==> NoRestWrite(me, t)
  {
    hide RestTally;
  }

  lemma RestStepGoesTo(me: nat, s: State, t: State, call: RestCall)
    requires NoEffect(me, s) && call.author == me
    requires t == s || t == s.(rest := s.rest + [call]) || t == s.(restFlight := s.restFlight + multiset{call})
    ensures RestTo(me, t, call.member)
  {
    forall c: RestCall | c.author == me && RestTally(t, c) > 0
      ensures c == call
    {
      assert RestTally(s, c) == 0;
    }
  }
}
