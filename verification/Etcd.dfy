/** The etcd key space as a history of committed requests, together with the
    requests that are still on the wire.

    Commit number i of the history (counting from zero) carries revision i + 2,
    because an empty etcd store answers with header revision 1.  A store is
    never kept beside the history: it is replayed from it, so "the store at
    revision r" is well defined for every past r. */
module Etcd {
  import opened Text
  import opened Json

  /** Raw value bytes: their text and what a JSON decoder makes of them. */
  datatype Blob = Blob(text: string, json: Option<Json>)

  /** json.Marshal of a tree; the rendered text itself is never looked at. */
  function Marshal(document: Json): Blob { Blob("", Some(document)) }

  datatype Versioned = Versioned(value: Blob, modRevision: nat)
  type Store = map<string, Versioned>

  datatype Mutation =
    | Put(key: string, value: Blob)
    | Delete(key: string)
    | DeletePrefix(prefix: string)

  /** A mutation of one author, optionally under the transaction guard
      ModRevision(key) = expected. */
  datatype Request = Request(author: nat, mutation: Mutation, guard: Option<nat>)

  /** A Patroni REST write of one author, taken by the member at `member`. */
  datatype RestCall = RestCall(author: nat, operation: string, member: string)

  // ---- the store a history leaves behind ----

  function Apply(store: Store, mutation: Mutation, revision: nat): Store {
    match mutation
    case Put(key, value) => store[key := Versioned(value, revision)]
    case Delete(key) => store - {key}
    case DeletePrefix(prefix) => map key | key in store && !(prefix <= key) :: store[key]
  }

  function HeaderRevision(log: seq<Request>): nat { |log| + 1 }

  function StoreAt(log: seq<Request>): Store
    decreases |log|, 1
  {
    if log == [] then map[] else AfterLast(log)
  }

  /** What the last commit of a history makes of the store before it. */
  function AfterLast(log: seq<Request>): Store
    requires log != []
    decreases |log|, 0
  {
    Apply(StoreAt(log[..|log| - 1]), log[|log| - 1].mutation, HeaderRevision(log))
  }

  lemma StoreStep(log: seq<Request>)
    requires log != []
    ensures StoreAt(log) == Apply(StoreAt(log[..|log| - 1]), log[|log| - 1].mutation, HeaderRevision(log))
  {
  }

  function ModRevision(store: Store, key: string): nat {
    if key in store then store[key].modRevision else 0
  }

  function Lookup(store: Store, key: string): Option<Versioned> {
    if key in store then Some(store[key]) else None
  }

  predicate GuardHolds(store: Store, request: Request) {
    match request.mutation
    case Put(key, _) => request.guard.None? || ModRevision(store, key) == request.guard.value
    case Delete(key) => request.guard.None? || ModRevision(store, key) == request.guard.value
    case DeletePrefix(_) => true
  }

  /** Whether the request changes anything: deleting absent keys does not
      produce a revision. */
  predicate Changes(store: Store, mutation: Mutation) {
    match mutation
    case Put(_, _) => true
    case Delete(key) => key in store
    case DeletePrefix(prefix) => exists key :: key in store && prefix <= key
  }

  // ---- the state shared by all writers ----

  /** `log` and `rest` are the writes that took effect; `flight` and
      `restFlight` are writes whose sender got no answer and that may still
      take effect, at most once each. */
  datatype State = State(
    log: seq<Request>,
    flight: multiset<Request>,
    rest: seq<RestCall>,
    restFlight: multiset<RestCall>)

  /** Every commit in the history met its own guard. */
  ghost predicate Valid(s: State) {
    ValidLog(s.log)
  }

  ghost predicate ValidLog(log: seq<Request>) {
    forall i :: 0 <= i < |log| ==> GuardHolds(StoreAt(log[..i]), log[i]) && Changes(StoreAt(log[..i]), log[i].mutation)
  }

  /** The server takes one request: it commits, or leaves the store alone. */
  function Process(s: State, request: Request): State {
    var store := StoreAt(s.log);
    if GuardHolds(store, request) && Changes(store, request.mutation) then s.(log := s.log + [request]) else s
  }

  /** One step of anything that is not the writer `me`: another writer's
      request, the late arrival or the loss of a request on the wire. */
  datatype Action =
    | Write(request: Request)
    | Launch(request: Request)
    | Arrive(request: Request)
    | Lose(request: Request)
    | RestWrite(call: RestCall)
    | RestLaunch(call: RestCall)
    | RestArrive(call: RestCall)
    | RestLose(call: RestCall)

  predicate Enabled(me: nat, s: State, action: Action) {
    match action
    case Write(r) => r.author != me
    case Launch(r) => r.author != me
    case Arrive(r) => r in s.flight
    case Lose(r) => r in s.flight
    case RestWrite(c) => c.author != me
    case RestLaunch(c) => c.author != me
    case RestArrive(c) => c in s.restFlight
    case RestLose(c) => c in s.restFlight
  }

  function Perform(s: State, action: Action): State {
    match action
    case Write(r) => Process(s, r)
    case Launch(r) => s.(flight := s.flight + multiset{r})
    case Arrive(r) => Process(s.(flight := s.flight - multiset{r}), r)
    case Lose(r) => s.(flight := s.flight - multiset{r})
    case RestWrite(c) => s.(rest := s.rest + [c])
    case RestLaunch(c) => s.(restFlight := s.restFlight + multiset{c})
    case RestArrive(c) => s.(rest := s.rest + [c], restFlight := s.restFlight - multiset{c})
    case RestLose(c) => s.(restFlight := s.restFlight - multiset{c})
  }

  /** How often a request has taken effect or may still do so. */
  ghost function Tally(s: State, request: Request): nat {
    multiset(s.log)[request] + s.flight[request]
  }

  ghost function RestTally(s: State, call: RestCall): nat {
    multiset(s.rest)[call] + s.restFlight[call]
  }

  /** What every interleaving of others keeps: history only grows, and nothing
      of `me` is added to what `me` already has committed or on the wire. */
  ghost predicate Later(me: nat, s: State, t: State) {
    && s.log <= t.log
    && s.rest <= t.rest
    && (Valid(s) ==> Valid(t))
    && (forall r: Request :: r.author == me ==> Tally(t, r) <= Tally(s, r))
    && (forall c: RestCall :: c.author == me ==> RestTally(t, c) <= RestTally(s, c))
  }

  /** Nothing of `me` took effect, and nothing of `me` ever can. */
  ghost predicate NoEffect(me: nat, s: State) {
    && (forall r: Request :: r.author == me ==> Tally(s, r) == 0)
    && (forall c: RestCall :: c.author == me ==> RestTally(s, c) == 0)
  }

  lemma LaterReflexive(me: nat, s: State)
    ensures Later(me, s, s)
  {
  }

  lemma LaterTransitive(me: nat, s: State, t: State, u: State)
    requires Later(me, s, t) && Later(me, t, u)
    ensures Later(me, s, u)
  {
    assert s.log <= u.log && s.rest <= u.rest;
  }

  lemma ProcessIsLater(me: nat, s: State, request: Request)
    ensures var t := Process(s, request);
            && s.log <= t.log && (Valid(s) ==> Valid(t))
            && t.(log := s.log) == s
            && (forall r: Request :: Tally(t, r) <= Tally(s, r) + (if r == request then 1 else 0))
  {
    var t := Process(s, request);
    if t.log != s.log {
      if Valid(s) {
        forall i | 0 <= i < |t.log|
          ensures GuardHolds(StoreAt(t.log[..i]), t.log[i]) && Changes(StoreAt(t.log[..i]), t.log[i].mutation)
        {
          assert t.log[..i] == s.log[..i];
          assert s.log[..|s.log|] == s.log;
        }
      }
    }
  }

  lemma PerformIsLater(me: nat, s: State, action: Action)
    requires Enabled(me, s, action)
    ensures Later(me, s, Perform(s, action))
  {
    hide Process, ValidLog, Later, Tally, RestTally;
    match action
    case Write(r) => WriteIsLater(me, s, r);
    case Launch(r) => FlightIsLater(me, s, r);
    case Arrive(r) => ArriveIsLater(me, s, r);
    case Lose(r) => FlightIsLater(me, s, r);
    case RestWrite(c) => RestIsLater(me, s, c);
    case RestLaunch(c) => RestIsLater(me, s, c);
    case RestArrive(c) => RestIsLater(me, s, c);
    case RestLose(c) => RestIsLater(me, s, c);
  }

  lemma WriteIsLater(me: nat, s: State, r: Request)
    requires r.author != me
    ensures Later(me, s, Process(s, r))
  {
    hide Process, ValidLog;
    ProcessIsLater(me, s, r);
  }

  lemma FlightIsLater(me: nat, s: State, r: Request)
    ensures r.author != me ==> Later(me, s, s.(flight := s.flight + multiset{r}))
    ensures Later(me, s, s.(flight := s.flight - multiset{r}))
  {
    hide ValidLog;
  }

  lemma RestIsLater(me: nat, s: State, c: RestCall)
    ensures c.author != me ==>
              Later(me, s, s.(rest := s.rest + [c])) && Later(me, s, s.(restFlight := s.restFlight + multiset{c}))
    ensures c in s.restFlight ==> Later(me, s, s.(rest := s.rest + [c], restFlight := s.restFlight - multiset{c}))
    ensures Later(me, s, s.(restFlight := s.restFlight - multiset{c}))
  {
    hide ValidLog;
    assert s.rest <= s.rest + [c];
  }

  lemma ArriveIsLater(me: nat, s: State, r: Request)
    requires r in s.flight
    ensures Later(me, s, Process(s.(flight := s.flight - multiset{r}), r))
  {
    hide Process, ValidLog;
    ProcessIsLater(me, s.(flight := s.flight - multiset{r}), r);
  }

  /** A run of the rest of the world: any number of enabled actions. */
  ghost predicate Run(me: nat, states: seq<State>, actions: seq<Action>) {
    && |states| == |actions| + 1
    && forall i :: 0 <= i < |actions| ==>
          Enabled(me, states[i], actions[i]) && states[i + 1] == Perform(states[i], actions[i])
  }

  /** Whatever others do, in any order and any number of steps, stays within
      Later: it can neither rewrite history nor forge writes of `me`. */
  lemma {:induction false} EveryRunIsLater(me: nat, states: seq<State>, actions: seq<Action>)
    requires Run(me, states, actions)
    ensures Later(me, states[0], states[|actions|])
    decreases |actions|
  {
    hide Later, Perform, Enabled;
    var n := |actions|;
    if n == 0 {
      LaterReflexive(me, states[0]);
    } else {
      assert Run(me, states[..n], actions[..n - 1]);
      EveryRunIsLater(me, states[..n], actions[..n - 1]);
      PerformIsLater(me, states[n - 1], actions[n - 1]);
      LaterTransitive(me, states[0], states[n - 1], states[n]);
    }
  }

  /** "No effect" is final: no run of others can change it. */
  lemma NoEffectIsFinal(me: nat, states: seq<State>, actions: seq<Action>)
    requires Run(me, states, actions) && NoEffect(me, states[0])
    ensures NoEffect(me, states[|actions|])
  {
    EveryRunIsLater(me, states, actions);
    forall r: Request | r.author == me
      ensures Tally(states[|actions|], r) == 0
    {
      assert Tally(states[|actions|], r) <= Tally(states[0], r);
    }
    forall c: RestCall | c.author == me
      ensures RestTally(states[|actions|], c) == 0
    {
      assert RestTally(states[|actions|], c) <= RestTally(states[0], c);
    }
  }

  // ---- what revisions identify ----

  lemma {:induction false} RevisionsBelowHeader(log: seq<Request>, key: string)
    requires key in StoreAt(log)
    ensures 2 <= StoreAt(log)[key].modRevision <= HeaderRevision(log)
  {
    var n := |log| - 1;
    if key in StoreAt(log[..n]) {
      RevisionsBelowHeader(log[..n], key);
    }
  }

  /** The entry a key has at a later point, if its revision is not newer, is
      the entry it had all along. */
  lemma {:induction false} OldRevisionUnchanged(log: seq<Request>, m: nat, n: nat, key: string)
    requires m <= n <= |log|
    requires key in StoreAt(log[..n]) && StoreAt(log[..n])[key].modRevision <= m + 1
    ensures Lookup(StoreAt(log[..m]), key) == Some(StoreAt(log[..n])[key])
    decreases n
  {
    if m < n {
      assert log[..n][..n - 1] == log[..n - 1];
      OldRevisionUnchanged(log, m, n - 1, key);
    }
  }

  /** Equal positive ModRevisions mean the same entry, value included; an
      absent key was absent at both points. */
  lemma SameRevisionSameEntry(log: seq<Request>, m: nat, n: nat, key: string)
    requires m <= n <= |log|
    requires ModRevision(StoreAt(log[..m]), key) == ModRevision(StoreAt(log[..n]), key)
    ensures Lookup(StoreAt(log[..m]), key) == Lookup(StoreAt(log[..n]), key)
  {
    if key in StoreAt(log[..m]) {
      RevisionsBelowHeader(log[..m], key);
      OldRevisionUnchanged(log, m, n, key);
    } else if key in StoreAt(log[..n]) {
      RevisionsBelowHeader(log[..n], key);
    }
  }

  /** Two keys never share a ModRevision. */
  lemma {:induction false} RevisionIdentifiesKey(log: seq<Request>, a: string, b: string)
    requires a in StoreAt(log) && b in StoreAt(log)
    requires StoreAt(log)[a].modRevision == StoreAt(log)[b].modRevision
    ensures a == b
  {
    var n := |log| - 1;
    if a in StoreAt(log[..n]) {
      RevisionsBelowHeader(log[..n], a);
    }
    if b in StoreAt(log[..n]) {
      RevisionsBelowHeader(log[..n], b);
    }
    if a in StoreAt(log[..n]) && b in StoreAt(log[..n]) && StoreAt(log)[a] == StoreAt(log[..n])[a]
       && StoreAt(log)[b] == StoreAt(log[..n])[b] {
      RevisionIdentifiesKey(log[..n], a, b);
    }
  }

  predicate Touches(mutation: Mutation, key: string) {
    match mutation
    case Put(k, _) => k == key
    case Delete(k) => k == key
    case DeletePrefix(prefix) => prefix <= key
  }

  /** After a commit that touches a key, the key never again has an older
      revision. */
  lemma {:induction false} RevisionNeverReturns(log: seq<Request>, i: nat, n: nat, key: string)
    requires i < n <= |log| && Touches(log[i].mutation, key)
    ensures key in StoreAt(log[..n]) ==> StoreAt(log[..n])[key].modRevision >= i + 2
    decreases n
  {
    assert log[..n][..n - 1] == log[..n - 1];
    if i < n - 1 {
      RevisionNeverReturns(log, i, n - 1, key);
    }
  }

  /** At most one request guarded by the same positive revision of a key ever
      commits, whoever sent it and however it was delivered. */
  lemma OneCommitPerRevision(log: seq<Request>, i: nat, j: nat, key: string, revision: nat)
    requires ValidLog(log) && i < |log| && j < |log| && revision > 0
    requires log[i].mutation.Put? || log[i].mutation.Delete?
    requires log[j].mutation.Put? || log[j].mutation.Delete?
    requires log[i].mutation.key == key && log[i].guard == Some(revision)
    requires log[j].mutation.key == key && log[j].guard == Some(revision)
    ensures i == j
  {
    if i < j {
      SpentRevision(log, i, j, key, revision);
    } else if j < i {
      SpentRevision(log, j, i, key, revision);
    }
  }

  lemma SpentRevision(log: seq<Request>, i: nat, j: nat, key: string, revision: nat)
    requires i < j <= |log| && revision > 0
    requires Touches(log[i].mutation, key)
    requires ModRevision(StoreAt(log[..i]), key) == revision
    ensures ModRevision(StoreAt(log[..j]), key) != revision
  {
    RevisionsBelowHeader(log[..i], key);
    RevisionNeverReturns(log, i, j, key);
  }

  /** A guarded request that commits finds exactly the entry its guard was
      taken from. */
  lemma GuardedCommitFindsEntry(log: seq<Request>, read: nat, i: nat, key: string)
    requires ValidLog(log) && read <= i < |log|
    requires (log[i].mutation.Put? || log[i].mutation.Delete?) && log[i].mutation.key == key
    requires log[i].guard == Some(ModRevision(StoreAt(log[..read]), key))
    ensures Lookup(StoreAt(log[..i]), key) == Lookup(StoreAt(log[..read]), key)
  {
    assert GuardHolds(StoreAt(log[..i]), log[i]);
    SameRevisionSameEntry(log, read, i, key);
  }
}
