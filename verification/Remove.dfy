/** Removing a cluster's DCS state (control/remove.go): an inventory sealed into
    the plan, one delete of the exact root, and readback. */
module Remove {
  import opened Text
  import opened Decimal
  import opened Etcd
  import opened Txn
  import opened Cluster
  import opened Control
  import opened Effects
  import Target

  const ACKNOWLEDGEMENT := "Yes I am aware"

  datatype RemoveRequest = RemoveRequest(target: Target.Target, prefix: string, citus: bool)

  datatype RemoveConfirmation = RemoveConfirmation(clusterName: string, acknowledgement: string, leader: string)

  /** The key inventory travels as JSON text; None stands for text that is
      missing or does not parse. */
  datatype RemovePlan = RemovePlan(plan: Plan, keys: Option<seq<string>>)

  datatype RemoveData = RemoveData(
    expectedKeys: nat, deleted: nat, remaining: seq<string>, send: SendState, verification: Verification,
    dcsRevision: nat, noop: bool)

  const NO_REMOVE := RemoveData(0, 0, [], NoSend, NoVerification, 0, false)

  type RemoveOutcome = Control.Result<RemoveData>

  /** normalizeRemoveRequest. */
  predicate RemoveAccepted(request: RemoveRequest) {
    && Target.Normalize(request.target) == request.target && request.target.member == ""
    && ClusterPrefix(request.target) == Some(request.prefix)
    && (request.citus ==> request.target.group.Some?)
  }

  /** The exact root: with the trailing slash, so that no sibling shares it. */
  function Root(request: RemoveRequest): string { request.prefix + "/" }

  function Relatives(entries: seq<Entry>): seq<string> {
    seq(|entries|, i requires 0 <= i < |entries| => entries[i].relative)
  }

  /** removeInventory. */
  function Inventory(snapshot: Snapshot): seq<string> { SortStrings(Relatives(snapshot.entries)) }

  lemma InventoryIsEmpty(log: seq<Request>, prefix: string)
    ensures Inventory(SnapshotOf(log, prefix)) == [] <==> Matching(StoreAt(log), prefix + "/") == {}
  {
    hide DecodeCluster, StoreAt, ClassifyRelativePath;
    var snapshot := SnapshotOf(log, prefix);
    EntriesUnderKeys(StoreAt(log), prefix);
    SortStringsSorts(Relatives(snapshot.entries));
    assert |multiset(Inventory(snapshot))| == |multiset(Relatives(snapshot.entries))|;
    assert |snapshot.entries| == |Matching(StoreAt(log), prefix + "/")|;
  }

  // ---- plans ----

  datatype RemoveMaterial = RemoveMaterial(target: Target.Target, revision: nat, clusterName: string, leader: string,
                                           keys: seq<string>, citus: bool)

  type RemoveMac = RemoveMaterial -> string

  ghost predicate Injective(mac: RemoveMac) {
    forall a, b :: mac(a) == mac(b) ==> a == b
  }

  /** A plan issued by PrepareRemove: the request and the length of the history
      its inventory was read from. */
  datatype IssuedRemove = IssuedRemove(request: RemoveRequest, read: nat)

  function IssuedMaterial(log: seq<Request>, issued: IssuedRemove): RemoveMaterial
    requires issued.read <= |log|
  {
    var snapshot := SnapshotOf(log[..issued.read], issued.request.prefix);
    RemoveMaterial(issued.request.target, snapshot.revision, issued.request.target.scope, LeaderName(snapshot.cluster),
                   Inventory(snapshot), issued.request.citus)
  }

  ghost predicate IssuedAs(log: seq<Request>, m: RemoveMaterial, made: set<IssuedRemove>) {
    exists issued :: issued in made && issued.read <= |log| && RemoveAccepted(issued.request)
                     && m == IssuedMaterial(log, issued)
  }

  /** The keyed hash cannot be forged: a binding that verifies was issued. */
  ghost predicate Unforged(mac: RemoveMac, log: seq<Request>, plan: RemovePlan, made: set<IssuedRemove>) {
    forall m: RemoveMaterial :: Expected(plan.plan, RemoveBinding) == Some(mac(m)) ==> IssuedAs(log, m, made)
  }

  /** removePlanKeys. */
  predicate ValidKeys(keys: seq<string>) {
    && InOrder(keys)
    && (forall i :: 0 <= i < |keys| ==> TrimSpace(keys[i]) != "")
    && (forall i :: 0 < i < |keys| ==> keys[i - 1] != keys[i])
  }

  function PlanRevision(plan: Plan): Option<nat> { PlannedRevision(plan, DcsRevision, 1) }

  /** validateRemovePlan. */
  predicate RemovePlanAccepted(mac: RemoveMac, plan: RemovePlan, request: RemoveRequest) {
    && PlanValid(plan.plan)
    && plan.plan.operation == "remove" && plan.plan.path == PathDCS && plan.plan.risk == RiskDestructive
       && plan.plan.unsafeAfterSend
    && SameCluster(plan.plan.target, request.target)
    && Expected(plan.plan, RemoveClusterName) == Some(request.target.scope)
    && Expected(plan.plan, RemoveAcknowledgement) == Some(ACKNOWLEDGEMENT)
    && Expected(plan.plan, RemoveLeader).Some?
    && Expected(plan.plan, RequestCitus) == Some(FormatBool(request.citus))
    && plan.keys.Some? && plan.keys.value != [] && ValidKeys(plan.keys.value)
    && PlanRevision(plan.plan).Some?
    && Expected(plan.plan, RemoveBinding)
       == Some(mac(RemoveMaterial(request.target, PlanRevision(plan.plan).value, request.target.scope,
                                  Expected(plan.plan, RemoveLeader).value, plan.keys.value, request.citus)))
  }

  /** validateRemoveConfirmation. */
  predicate Confirms(plan: Plan, confirmation: RemoveConfirmation) {
    && Expected(plan, RemoveClusterName) == Some(confirmation.clusterName)
    && Expected(plan, RemoveAcknowledgement) == Some(confirmation.acknowledgement)
    && Expected(plan, RemoveLeader) == Some(confirmation.leader)
  }

  /** An accepted plan was issued on an inventory and a leader it still names. */
  lemma AcceptedRemoveWasIssued(mac: RemoveMac, log: seq<Request>, plan: RemovePlan, request: RemoveRequest,
                                made: set<IssuedRemove>)
    returns (issued: IssuedRemove)
    requires Injective(mac) && Unforged(mac, log, plan, made)
    requires RemoveAccepted(request) && RemovePlanAccepted(mac, plan, request)
    ensures issued in made && issued.read <= |log| && issued.request.prefix == request.prefix
            && issued.request.target == request.target
    ensures plan.keys == Some(Inventory(SnapshotOf(log[..issued.read], request.prefix)))
    ensures Expected(plan.plan, RemoveLeader)
            == Some(LeaderName(SnapshotOf(log[..issued.read], request.prefix).cluster))
  {
    hide PlanValid, SameCluster, Expected, ValidKeys, SnapshotOf, ClusterPrefix, PlanRevision, FormatBool, Inventory;
    hide LeaderName, Target.Normalize;
    var m := RemoveMaterial(request.target, PlanRevision(plan.plan).value, request.target.scope,
                            Expected(plan.plan, RemoveLeader).value, plan.keys.value, request.citus);
    assert IssuedAs(log, m, made);
    issued :| issued in made && issued.read <= |log| && RemoveAccepted(issued.request)
              && m == IssuedMaterial(log, issued);
  }

  // ---- execution ----

  function RemoveSuccess(data: RemoveData): RemoveOutcome {
    Control.Result(Succeeded, PathDCS, data.(verification := VerifiedSucceeded), None)
  }

  function RemoveFailure(data: RemoveData, error: Error): RemoveOutcome {
    Control.Result(Failed, PathDCS, data.(verification := VerifiedFailed), Some(error))
  }

  function RemoveUnknown(data: RemoveData): RemoveOutcome {
    Control.Result(Unknown, PathDCS, data.(verification := Unverified), Some(Error(CategoryUnknown, false)))
  }

  function RemoveRefused(error: Error): RemoveOutcome { Control.Result(Failed, PathDCS, NO_REMOVE, Some(error)) }

  /** removeSendState. */
  function RemoveSend(error: Option<Failure>): SendState {
    match error
    case None => SendAccepted
    case Some(NotSent(_)) => SendNotSent
    case Some(_) => SendMaybeSent
  }

  predicate RemoveClassified(result: RemoveOutcome) {
    && FollowsRules(result.outcome, result.data.send, result.data.verification, result.error)
    && (result.data.noop ==> result.data.send == SendNotSent && result.data.verification == VerifiedSucceeded)
  }

  function RemoveWrite(me: nat, request: RemoveRequest): Request { Request(me, DeletePrefix(Root(request)), None) }

  /** At `read` the cluster had exactly the keys and the leader of a prepare. */
  ghost predicate Revalidated(log: seq<Request>, read: nat, issued: IssuedRemove) {
    && issued.read <= |log| && read <= |log|
    && var then_, now := SnapshotOf(log[..issued.read], issued.request.prefix),
    SnapshotOf(log[..read], issued.request.prefix);
       Inventory(now) == Inventory(then_) && Inventory(now) != []
       && LeaderName(now.cluster) == LeaderName(then_.cluster)
  }

  /** The run deletes nothing, or only the exact root and only after finding the
      inventory and the leader of an issued plan again. */
  ghost predicate RemoveRun(me: nat, s: State, from: nat, request: RemoveRequest, made: set<IssuedRemove>) {
    NoDcsWrite(me, s) || (OnlyRequest(me, s, RemoveWrite(me, request))
                          && ConfirmedInventory(s.log, from, request, made))
  }

  ghost predicate ConfirmedInventory(log: seq<Request>, from: nat, request: RemoveRequest, made: set<IssuedRemove>) {
    exists read, issued :: from <= read && issued in made && issued.request.prefix == request.prefix
                           && Revalidated(log, read, issued)
  }

  lemma InventoryConfirmed(log: seq<Request>, longer: seq<Request>, from: nat, read: nat, request: RemoveRequest,
                           issued: IssuedRemove, made: set<IssuedRemove>)
    requires log <= longer && from <= read && issued in made && issued.request.prefix == request.prefix
             && Revalidated(log, read, issued)
    ensures ConfirmedInventory(longer, from, request, made)
  {
    hide SnapshotOf, Inventory, LeaderName;
    assert longer[..read] == log[..read] && longer[..issued.read] == log[..issued.read];
    assert Revalidated(longer, read, issued);
  }

  /** A snapshot read after the history had `last` commits shows no key. */
  ghost predicate Emptied(log: seq<Request>, last: nat, request: RemoveRequest) {
    exists snapshot :: ReadAfter(log, last, request.prefix, snapshot) && Inventory(snapshot) == []
  }

  lemma EmptiedBy(log: seq<Request>, last: nat, request: RemoveRequest, snapshot: Snapshot)
    requires ReadAfter(log, last, request.prefix, snapshot) && Inventory(snapshot) == []
    ensures Emptied(log, last, request)
  {
    hide ReadAfter, Inventory;
  }

  lemma DeleteClusterEffects(me: nat, s: State, t: State, request: RemoveRequest, error: Option<Failure>)
    requires NoEffect(me, s)
    requires match error
             case Some(NotSent(_)) => t == s
             case Some(MaybeSent(_)) => t == s.(flight := s.flight + multiset{RemoveWrite(me, request)})
             case Some(Conflict(_, _)) => false
             case None =>
               t == (if Matching(StoreAt(s.log), Root(request)) != {} then
                     s.(log := s.log + [RemoveWrite(me, request)]) else s)
    ensures OnlyRequest(me, t, RemoveWrite(me, request)) && NoRestWrite(me, t)
    ensures s.log <= t.log && (Valid(s) ==> Valid(t))
    ensures RemoveSend(error) == SendNotSent ==> NoEffect(me, t)
  {
    hide StoreAt, NoEffect, OnlyRequest, NoRestWrite, Valid;
    if Matching(StoreAt(s.log), Root(request)) != {} {
      var key :| key in Matching(StoreAt(s.log), Root(request));
      assert Changes(StoreAt(s.log), RemoveWrite(me, request).mutation);
    }
    FirstWriteEffects(me, s, t, RemoveWrite(me, request));
  }

  /** verifyRemove. */
  method VerifyRemove(w: World, service: Service, request: RemoveRequest, me: nat)
    returns (verified: bool, last: Option<Snapshot>)
    modifies w`now
    ensures Later(me, old(w.now), w.now)
    ensures verified ==> Emptied(w.now.log, |old(w.now).log|, request)
  {
    hide Later, ReadAfter, SnapshotOf, Inventory, Emptied;
    ghost var seen;
    verified, last, seen := Verify(w, me, request.prefix, service.verificationAttempts,
                                   (s: Snapshot) => Inventory(s) == []);
    if verified {
      EmptiedBy(w.now.log, |old(w.now).log|, request, last.value);
    }
  }

  /** The delete half of ExecuteRemove. */
  method DeleteAndVerify(w: World, service: Service, request: RemoveRequest, start: RemoveData, me: nat)
    returns (result: RemoveOutcome, ghost writes: seq<Exchange>)
    requires Valid(w.now) && NoEffect(me, w.now)
    requires start.send == SendNotSent && !start.noop
    modifies w
    ensures Valid(w.now) && old(w.now).log <= w.now.log
    ensures w.trace == old(w.trace) + writes && |writes| == 1
    ensures result.outcome == Failed || result.data.send == SendNotSent ==> NoEffect(me, w.now)
    ensures result.outcome == Succeeded ==> Emptied(w.now.log, writes[0].at, request)
    ensures OnlyRequest(me, w.now, RemoveWrite(me, request)) && NoRestWrite(me, w.now)
    ensures RemoveClassified(result)
  {
    hide NoEffect, NoRestWrite, OnlyRequest, Valid, Later, StoreAt, Inventory, Emptied, Lookup;
    hide RemoveClassified, Conclude;
    w.Environment(me);
    QuietLater(me, old(w.now), w.now);
    ghost var before := w.now;
    var deleted, error := w.DeleteCluster(me, Root(request));
    DeleteClusterEffects(me, before, w.now, request, error);
    writes := [DcsExchange(RemoveWrite(me, request), |w.now.log|)];
    var data := start.(deleted := deleted.deleted, dcsRevision := deleted.revision, send := RemoveSend(error));
    ghost var answered := w.now;
    var verified, last := VerifyRemove(w, service, request, me);
    LaterKeeps(me, answered, w.now);
    OnlyRequestLater(me, answered, w.now, RemoveWrite(me, request));
    NoRestWriteLater(me, answered, w.now);
    if data.send == SendNotSent {
      QuietLater(me, answered, w.now);
    }
    data := data.(remaining := if verified || last.None? then [] else Inventory(last.value));
    if RevisionOf(last) > data.dcsRevision {
      data := data.(dcsRevision := RevisionOf(last));
    }
    ConclusionFollowsRules(data, verified, error);
    result := Conclude(data, verified, error);
  }

  /** How ExecuteRemove reports what became of its delete. */
  function Conclude(data: RemoveData, verified: bool, error: Option<Failure>): RemoveOutcome {
    if verified then RemoveSuccess(data.(noop := data.send == SendNotSent))
    else if error.Some? && data.send == SendNotSent then RemoveFailure(data, ClassifyFailure(error.value))
    else RemoveUnknown(data)
  }

  lemma ConclusionFollowsRules(data: RemoveData, verified: bool, error: Option<Failure>)
    requires data.send == RemoveSend(error) && !data.noop
    ensures RemoveClassified(Conclude(data, verified, error))
    ensures Conclude(data, verified, error).outcome == Failed ==> data.send == SendNotSent
    ensures Conclude(data, verified, error).outcome == Succeeded <==> verified
    ensures Conclude(data, verified, error).data.send == data.send
  {
  }

  method ExecuteRemove(w: World, service: Service, mac: RemoveMac, request: RemoveRequest,
                       confirmation: RemoveConfirmation, plan: RemovePlan,
                       ghost made: set<IssuedRemove>, me: nat)
    returns (result: RemoveOutcome, ghost writes: seq<Exchange>)
    requires Valid(w.now) && NoEffect(me, w.now)
    requires Injective(mac) && Unforged(mac, w.now.log, plan, made)
    modifies w
    ensures Valid(w.now) && old(w.now).log <= w.now.log
    // no false failure, and NOT_SENT is the truth
    ensures result.outcome == Failed || result.data.send == SendNotSent ==> NoEffect(me, w.now)
    // success is a snapshot read after the run's only write
    ensures w.trace == old(w.trace) + writes && |writes| <= 1
    ensures result.outcome == Succeeded ==> Emptied(w.now.log, AnsweredAt(|old(w.now).log|, writes), request)
    ensures RemoveRun(me, w.now, |old(w.now).log|, request, made) && NoRestWrite(me, w.now)
    // anything is deleted only under the exact confirmation of the plan
    ensures NoDcsWrite(me, w.now)
            || (Confirms(plan.plan, confirmation) && confirmation.acknowledgement == ACKNOWLEDGEMENT
                && confirmation.clusterName == request.target.scope)
    ensures RemoveClassified(result)
  {
    hide NoEffect, NoDcsWrite, NoRestWrite, OnlyRequest, Valid, Later, ReadAfter, SnapshotOf, StoreAt, Inventory;
    hide Emptied, RemoveAccepted, RemovePlanAccepted;
    hide Expected, SupportsCluster, LeaderName, Unforged, Injective, ConfirmedInventory, ValidKeys;
    writes := [];
    ghost var from := |w.now.log|;
    ghost var start := w.now.log;
    LaterReflexive(me, w.now);
    QuietLater(me, w.now, w.now);
    var noContext: bool := *;
    if noContext || !RemoveAccepted(request) || !RemovePlanAccepted(mac, plan, request) {
      return RemoveRefused(Error(CategoryUsage, false)), [];
    }
    RemovePlanParts(mac, plan, request);
    ghost var issued := AcceptedRemoveWasIssued(mac, w.now.log, plan, request, made);
    if !Confirms(plan.plan, confirmation) {
      return RemoveRefused(Error(CategoryUsage, false)), [];
    }
    var data := RemoveData(|plan.keys.value|, 0, [], SendNotSent, Unverified, 0, false);
    var read := ReadSnapshot(w, me, request.prefix);
    QuietLater(me, old(w.now), w.now);
    if read.Err? {
      return RemoveFailure(data, ClassifyReadError(read.error)), [];
    }
    if !SupportsCluster(service, read.value.cluster) {
      return RemoveRefused(Error(CategoryUnsupported, false)), [];
    }
    var current := Inventory(read.value);
    ReadNow(w.now.log, from, request.prefix);
    if current == [] {
      EmptiedBy(w.now.log, from, request, read.value);
      return RemoveSuccess(data.(noop := true, dcsRevision := read.value.revision)), [];
    }
    data := data.(remaining := current);
    if current != plan.keys.value || Some(LeaderName(read.value.cluster)) != Expected(plan.plan, RemoveLeader) {
      return RemoveFailure(data, Error(CategoryConflict, false)), [];
    }
    var gone: bool := *;
    if gone {
      return RemoveFailure(data, Error(CategoryFailed, false)), [];
    }
    if !service.removerDCS {
      return RemoveFailure(data, Error(CategoryConfig, false)), [];
    }
    ghost var seen := w.now.log;
    assert Revalidated(seen, |seen|, issued) by {
      assert seen[..|seen|] == seen && seen[..issued.read] == start[..issued.read];
    }
    result, writes := DeleteAndVerify(w, service, request, data, me);
    InventoryConfirmed(seen, w.now.log, from, |seen|, request, issued, made);
  }

  lemma RemovePlanParts(mac: RemoveMac, plan: RemovePlan, request: RemoveRequest)
    requires RemovePlanAccepted(mac, plan, request)
    ensures plan.keys.Some? && plan.keys.value != []
    ensures Expected(plan.plan, RemoveClusterName) == Some(request.target.scope)
    ensures Expected(plan.plan, RemoveAcknowledgement) == Some(ACKNOWLEDGEMENT)
  {
    hide PlanValid, SameCluster, Expected, ValidKeys, PlanRevision, FormatBool;
  }

  /** PrepareRemove: the plan it returns is accepted for its request and bound
      to the inventory it read. */
  method PrepareRemove(w: World, service: Service, mac: RemoveMac, request: RemoveRequest, operationID: string,
                       summary: string, me: nat)
    returns (result: Text.Result<RemovePlan, Error>, ghost issued: IssuedRemove)
    modifies w`now
    ensures Later(me, old(w.now), w.now)
    ensures result.Ok? ==>
              && RemoveAccepted(request) && issued == IssuedRemove(request, |w.now.log|)
              && Expected(result.value.plan, RemoveBinding) == Some(mac(IssuedMaterial(w.now.log, issued)))
              && result.value.keys == Some(Inventory(SnapshotOf(w.now.log, request.prefix)))
                 && result.value.keys.value != []
  {
    hide Later, SnapshotOf, RemoveAccepted, PlanValid, Inventory, LeaderName, SupportsCluster, Expected;
    issued := IssuedRemove(request, 0);
    LaterReflexive(me, w.now);
    if !RemoveAccepted(request) {
      return Err(Error(CategoryUsage, false)), issued;
    }
    var read := ReadSnapshot(w, me, request.prefix);
    if read.Err? {
      return Err(ClassifyReadError(read.error)), issued;
    }
    var snapshot := read.value;
    if !SupportsCluster(service, snapshot.cluster) {
      return Err(Error(CategoryUnsupported, false)), issued;
    }
    var keys := Inventory(snapshot);
    if keys == [] {
      return Err(Error(CategoryNotFound, false)), issued;
    }
    issued := IssuedRemove(request, |w.now.log|);
    assert w.now.log[..|w.now.log|] == w.now.log;
    var binding := mac(RemoveMaterial(request.target, snapshot.revision, request.target.scope,
                                      LeaderName(snapshot.cluster), keys, request.citus));
    var plan := Plan(operationID, "remove", request.target, [], PathDCS, RiskDestructive, true, summary,
                     RemovePreconditions(snapshot.revision, request, LeaderName(snapshot.cluster), binding));
    BindingField(plan, snapshot.revision, request, LeaderName(snapshot.cluster), binding);
    if !PlanValid(plan) {
      return Err(Error(CategoryInternal, false)), issued;
    }
    return Ok(RemovePlan(plan, Some(keys))), issued;
  }

  function RemovePreconditions(revision: nat, request: RemoveRequest, leader: string,
                               binding: string): map<Field, string>
  {
    map[DcsRevision := Itoa(revision), RemoveClusterName := request.target.scope,
        RemoveAcknowledgement := ACKNOWLEDGEMENT,
        RemoveLeader := leader, RequestCitus := FormatBool(request.citus), RemoveBinding := binding]
  }

  lemma BindingField(plan: Plan, revision: nat, request: RemoveRequest, leader: string, binding: string)
    requires plan.preconditions == RemovePreconditions(revision, request, leader, binding)
    ensures Expected(plan, RemoveBinding) == Some(binding)
    ensures Expected(plan, RemoveLeader) == Some(leader)
    ensures Expected(plan, DcsRevision) == Some(Itoa(revision))
  {
    hide Itoa, FormatBool;
  }

  // ---- what a remove reaches ----

  /** A committed remove takes every key under the exact root and no other. */
  lemma RemoveTakesExactlyTheRoot(log: seq<Request>, me: nat, request: RemoveRequest, i: nat)
    requires i < |log| && log[i] == RemoveWrite(me, request)
    ensures forall key :: Lookup(StoreAt(log[..i + 1]), key) ==
              if Root(request) <= key then None else Lookup(StoreAt(log[..i]), key)
  {
    var before, after := StoreAt(log[..i]), StoreAt(log[..i + 1]);
    assert log[..i + 1][..i] == log[..i];
    StoreStep(log[..i + 1]);
    assert after == Apply(before, DeletePrefix(Root(request)), i + 2);
    forall key
      ensures Lookup(after, key) == if Root(request) <= key then None else Lookup(before, key)
    {
      assert key in after <==> key in before && !(Root(request) <= key);
    }
  }

  // ---- what the unguarded delete does not promise ----

  lemma InventoryMembers(log: seq<Request>, prefix: string, relative: string)
    ensures relative in Inventory(SnapshotOf(log, prefix)) <==>
              prefix + "/" + relative in Matching(StoreAt(log), prefix + "/")
  {
    hide DecodeCluster, StoreAt, ClassifyRelativePath, SortStrings, SortedKeys;
    var snapshot := SnapshotOf(log, prefix);
    var keys := SortedKeys(Matching(StoreAt(log), prefix + "/"));
    EntriesUnderKeys(StoreAt(log), prefix);
    SortStringsSorts(Relatives(snapshot.entries));
    assert relative in multiset(Inventory(snapshot)) <==> relative in multiset(Relatives(snapshot.entries));
    if relative in Relatives(snapshot.entries) {
      var i :| 0 <= i < |keys| && snapshot.entries[i].relative == relative;
      assert keys[i] in keys && keys[i] == prefix + "/" + relative;
    }
    var key := prefix + "/" + relative;
    if key in Matching(StoreAt(log), prefix + "/") {
      assert key in keys;
      var i :| 0 <= i < |keys| && keys[i] == key;
      assert Relatives(snapshot.entries)[i] == key[|prefix| + 1..] == relative;
    }
  }

  /** Equal inventories are equal sets of keys. */
  lemma InventoryIdentifiesKeys(a: seq<Request>, b: seq<Request>, prefix: string)
    ensures Inventory(SnapshotOf(a, prefix)) == Inventory(SnapshotOf(b, prefix))
            <==> Matching(StoreAt(a), prefix + "/") == Matching(StoreAt(b), prefix + "/")
  {
    hide DecodeCluster, StoreAt, ClassifyRelativePath, SortStrings, SortedKeys;
    if Inventory(SnapshotOf(a, prefix)) == Inventory(SnapshotOf(b, prefix)) {
      forall key
        ensures key in Matching(StoreAt(a), prefix + "/") <==> key in Matching(StoreAt(b), prefix + "/")
      {
        if prefix + "/" <= key {
          assert key == prefix + "/" + key[|prefix| + 1..];
          InventoryMembers(a, prefix, key[|prefix| + 1..]);
          InventoryMembers(b, prefix, key[|prefix| + 1..]);
        }
      }
    }
    if Matching(StoreAt(a), prefix + "/") == Matching(StoreAt(b), prefix + "/") {
      EntriesUnderKeys(StoreAt(a), prefix);
      EntriesUnderKeys(StoreAt(b), prefix);
      assert Relatives(SnapshotOf(a, prefix).entries) == Relatives(SnapshotOf(b, prefix).entries);
    }
  }

  /** The keys a commit takes away. */
  ghost predicate Takes(log: seq<Request>, i: nat, key: string)
    requires i < |log|
  {
    key in StoreAt(log[..i]) && key !in StoreAt(log[..i + 1])
  }

  /** A committed remove takes exactly the keys that a snapshot before it listed if
      and only if the inventory is still the same when it commits. */
  lemma RemoveTakesInventoryIff(log: seq<Request>, me: nat, request: RemoveRequest, read: nat, i: nat)
    requires read <= i < |log| && log[i] == RemoveWrite(me, request)
    ensures (forall key :: Takes(log, i, key) <==> key in Matching(StoreAt(log[..read]), Root(request)))
            <==> Inventory(SnapshotOf(log[..i], request.prefix)) == Inventory(SnapshotOf(log[..read], request.prefix))
  {
    hide StoreAt, SnapshotOf, Inventory, RemoveWrite;
    RemoveTakesExactlyTheRoot(log, me, request, i);
    InventoryIdentifiesKeys(log[..i], log[..read], request.prefix);
    forall key
      ensures Takes(log, i, key) <==> key in Matching(StoreAt(log[..i]), Root(request))
    {
      assert Lookup(StoreAt(log[..i + 1]), key)
             == if Root(request) <= key then None else Lookup(StoreAt(log[..i]), key);
    }
    var before, listed := Matching(StoreAt(log[..i]), Root(request)), Matching(StoreAt(log[..read]), Root(request));
    if forall key :: Takes(log, i, key) <==> key in listed {
      assert forall key :: key in before <==> key in listed;
    }
  }

  lemma CommitChanges(log: seq<Request>, request: Request)
    requires ValidLog(log) && GuardHolds(StoreAt(log), request) && Changes(StoreAt(log), request.mutation)
    ensures ValidLog(log + [request])
  {
    hide StoreAt, GuardHolds, Changes;
    var longer := log + [request];
    forall i | 0 <= i < |longer|
      ensures GuardHolds(StoreAt(longer[..i]), longer[i]) && Changes(StoreAt(longer[..i]), longer[i].mutation)
    {
      assert longer[..i] == log[..i];
      assert log[..|log|] == log;
    }
  }

  lemma PutThenRemove(log: seq<Request>, put: Request, remove: Request, root: string)
    requires ValidLog(log) && put.mutation.Put? && put.guard.None? && remove.mutation == DeletePrefix(root)
    requires root <= put.mutation.key
    ensures ValidLog(log + [put]) && ValidLog(log + [put] + [remove])
    ensures put.mutation.key in StoreAt(log + [put])
    ensures Matching(StoreAt(log + [put] + [remove]), root) == {}
  {
    hide StoreAt;
    CommitChanges(log, put);
    assert (log + [put])[..|log|] == log;
    StoreStep(log + [put]);
    assert put.mutation.key in StoreAt(log + [put]);
    CommitChanges(log + [put], remove);
    assert (log + [put] + [remove])[..|log| + 1] == log + [put];
    StoreStep(log + [put] + [remove]);
  }

  /** Whatever a snapshot listed, a key that another writer puts under the root before
      the delete commits is deleted with it, unlisted and unconfirmed. */
  lemma UnlistedKeyIsRemoved(log: seq<Request>, me: nat, request: RemoveRequest, author: nat, key: string, value: Blob)
    returns (longer: seq<Request>)
    requires ValidLog(log) && Root(request) <= key && key !in StoreAt(log)
    ensures log < longer && |longer| == |log| + 2 && ValidLog(longer) && longer[|log| + 1] == RemoveWrite(me, request)
    ensures key !in Matching(StoreAt(longer[..|log|]), Root(request)) && Takes(longer, |log| + 1, key)
  {
    hide StoreAt, ValidLog;
    var put := Request(author, Put(key, value), None);
    longer := log + [put] + [RemoveWrite(me, request)];
    PutThenRemove(log, put, RemoveWrite(me, request), Root(request));
    assert longer[..|log|] == log && longer[..|log| + 1] == log + [put] && longer[..|log| + 2] == longer;
    assert key !in Matching(StoreAt(longer), Root(request));
  }

  /** A delete whose fate is unknown is reported UNKNOWN, and may still arrive after a
      cluster has been created again under the root: then nothing of it is left. */
  lemma UnknownRemoveStillArrives(me: nat, s: State, request: RemoveRequest, author: nat, key: string, value: Blob,
                                  data: RemoveData, kind: ErrorKind)
    returns (states: seq<State>, actions: seq<Action>)
    requires Valid(s) && RemoveWrite(me, request) in s.flight && author != me && Root(request) <= key
    requires data.send == RemoveSend(Some(MaybeSent(kind)))
    ensures Conclude(data, false, Some(MaybeSent(kind))).outcome == Unknown
    ensures Run(me, states, actions) && |states| == 3 && states[0] == s
    ensures key in StoreAt(states[1].log)
    ensures states[2].log == states[1].log + [RemoveWrite(me, request)]
    ensures Matching(StoreAt(states[2].log), Root(request)) == {}
  {
    hide StoreAt;
    var put := Request(author, Put(key, value), None);
    var remove := RemoveWrite(me, request);
    actions := [Write(put), Arrive(remove)];
    states := [s, Perform(s, actions[0]), Perform(Perform(s, actions[0]), actions[1])];
    PutThenRemove(s.log, put, remove, Root(request));
    assert states[1].log == s.log + [put] && states[1].flight == s.flight;
    assert Changes(StoreAt(states[1].log), remove.mutation);
  }

  lemma PrefixesOverlap(a: string, b: string, key: string)
    requires a <= key && b <= key
    ensures a <= b || b <= a
  {
    if |a| <= |b| {
      assert a == key[..|a|] && b == key[..|b|];
    }
  }

  /** A segment without slashes is found whole again. */
  lemma SegmentsAgree(a: string, restA: string, b: string, restB: string)
    requires '/' !in a && '/' !in b
    requires a + "/" + restA <= b + "/" + restB
    ensures a == b && restA <= restB
  {
    var left, right := a + "/" + restA, b + "/" + restB;
    assert left[|a|] == '/' && right[|a|] == '/' && right[|b|] == '/';
    assert forall i :: 0 <= i < |b| ==> right[i] == b[i] != '/';
    assert forall i :: 0 <= i < |a| ==> left[i] == a[i] != '/';
    assert left == right[..|left|];
    assert left[..|a|] == a && right[..|a|] == b;
    assert left[|a| + 1..] == restA && right[|a| + 1..] == restB;
  }

  lemma RootForm(request: RemoveRequest)
    requires RemoveAccepted(request)
    ensures Root(request) == "/" + TrimBoth(request.target.namespace, '/') + "/" + ScopePart(request.target.scope,
              request.target.group)
  {
    hide ClusterPrefix, Target.Normalize, TrimBoth, ScopePart;
    PrefixForm(request.target);
  }

  predicate Shares(a: RemoveRequest, b: RemoveRequest, key: string) { Root(a) <= key && Root(b) <= key }

  ghost predicate Overlap(a: RemoveRequest, b: RemoveRequest) { exists key: string :: Shares(a, b, key) }

  /** A root as the names between its slashes: those of the namespace, those of
      the scope, and the group. */
  function RootSegments(t: Target.Target): seq<string> {
    Split(TrimBoth(t.namespace, '/'), '/') + Split(t.scope, '/')
    + (if t.group.Some? then [FormatInt(t.group.value)] else [])
  }

  /** Every name followed by a slash. */
  function Closed(segments: seq<string>): string {
    if segments == [] then "" else segments[0] + "/" + Closed(segments[1..])
  }

  lemma {:induction false} ClosedConcat(a: seq<string>, b: seq<string>)
    ensures Closed(a + b) == Closed(a) + Closed(b)
  {
    if a == [] {
      assert a + b == b;
    } else {
      assert (a + b)[1..] == a[1..] + b;
      ClosedConcat(a[1..], b);
    }
  }

  lemma {:induction false} ClosedSplit(s: string)
    ensures Closed(Split(s, '/')) == s + "/"
  {
    if s != "" {
      ClosedSplit(s[1..]);
      var rest := Split(s[1..], '/');
      assert s == [s[0]] + s[1..];
      if s[0] == '/' {
        assert ([""] + rest)[1..] == rest;
      } else {
        var parts := [[s[0]] + rest[0]] + rest[1..];
        assert parts[1..] == rest[1..];
        assert Closed(parts) == [s[0]] + (rest[0] + "/" + Closed(rest[1..]));
      }
    }
  }

  /** Between lists of slash-free names, prefixes of text are prefixes of lists. */
  lemma {:induction false} ClosedPrefix(a: seq<string>, b: seq<string>)
    requires forall s :: s in a + b ==> '/' !in s
    ensures Closed(a) <= Closed(b) <==> a <= b
  {
    if a != [] && b != [] {
      assert a[0] in a + b && b[0] in a + b;
      assert forall s :: s in a[1..] + b[1..] ==> s in a + b;
      ClosedPrefix(a[1..], b[1..]);
      if Closed(a) <= Closed(b) {
        SegmentsAgree(a[0], Closed(a[1..]), b[0], Closed(b[1..]));
      }
      assert a <= b <==> a[0] == b[0] && a[1..] <= b[1..];
      assert a[0] == b[0] && Closed(a[1..]) <= Closed(b[1..]) ==> Closed(a) <= Closed(b);
    } else if a != [] {
      assert |Closed(a)| > 0;
    }
  }

  lemma RootIsClosed(request: RemoveRequest)
    requires RemoveAccepted(request)
    ensures Root(request) == "/" + Closed(RootSegments(request.target))
    ensures forall s :: s in RootSegments(request.target) ==> '/' !in s
  {
    hide RemoveAccepted, TrimBoth, Split, Root, FormatInt;
    var t := request.target;
    RootForm(request);
    var namespace, scope := Split(TrimBoth(t.namespace, '/'), '/'), Split(t.scope, '/');
    var group := if t.group.Some? then [FormatInt(t.group.value)] else [];
    if t.group.Some? {
      Target.FormatIntIsPlain(t.group.value);
      assert Closed(group) == FormatInt(t.group.value) + "/" + Closed([]);
    }
    ClosedSplit(TrimBoth(t.namespace, '/'));
    ClosedSplit(t.scope);
    ClosedConcat(namespace + scope, group);
    ClosedConcat(namespace, scope);
  }

  /** One root contains the other exactly when its names are the first names of
      the other. */
  lemma RootsNest(a: RemoveRequest, b: RemoveRequest)
    requires RemoveAccepted(a) && RemoveAccepted(b)
    ensures Root(a) <= Root(b) <==> RootSegments(a.target) <= RootSegments(b.target)
  {
    hide RemoveAccepted, RootSegments, Root;
    RootIsClosed(a);
    RootIsClosed(b);
    var left, right := RootSegments(a.target), RootSegments(b.target);
    ClosedPrefix(left, right);
    SamePlace("/", Closed(left), Closed(right));
  }

  /** The roots of two requests share a key exactly when the names of one are the
      first names of the other. */
  lemma RootsOverlap(a: RemoveRequest, b: RemoveRequest)
    requires RemoveAccepted(a) && RemoveAccepted(b)
    ensures Overlap(a, b) <==>
              RootSegments(a.target) <= RootSegments(b.target) || RootSegments(b.target) <= RootSegments(a.target)
  {
    hide RemoveAccepted, RootSegments, Root;
    RootsNest(a, b);
    RootsNest(b, a);
    if key: string :| Shares(a, b, key) {
      PrefixesOverlap(Root(a), Root(b), key);
    }
    if Root(a) <= Root(b) {
      assert Shares(a, b, Root(b));
    } else if Root(b) <= Root(a) {
      assert Shares(a, b, Root(a));
    }
  }

  lemma SamePlace(above: string, a: string, b: string)
    ensures above + a <= above + b <==> a <= b
  {
    assert (above + a)[|above|..] == a && (above + b)[|above|..] == b;
  }

  /** Within one namespace and for scopes without a slash that means: the same
      scope, and equal groups or one of them without a group.  A sibling scope is
      never touched, a scope's own Citus groups are. */
  lemma SiblingRoots(a: RemoveRequest, b: RemoveRequest)
    requires RemoveAccepted(a) && RemoveAccepted(b) && a.target.namespace == b.target.namespace
    requires '/' !in a.target.scope && '/' !in b.target.scope
    ensures Overlap(a, b) <==>
              a.target.scope == b.target.scope
              && (a.target.group == b.target.group || a.target.group.None? || b.target.group.None?)
  {
    hide RemoveAccepted, TrimBoth, Split, FormatInt, Overlap;
    RootsOverlap(a, b);
    SplitWhole(a.target.scope, '/');
    SplitWhole(b.target.scope, '/');
    var namespace := Split(TrimBoth(a.target.namespace, '/'), '/');
    var left, right := RootSegments(a.target), RootSegments(b.target);
    assert left[|namespace|] == a.target.scope && right[|namespace|] == b.target.scope;
    if a.target.group.Some? && b.target.group.Some? {
      assert left[|namespace| + 1] == FormatInt(a.target.group.value)
             && right[|namespace| + 1] == FormatInt(b.target.group.value);
      if FormatInt(a.target.group.value) == FormatInt(b.target.group.value) {
        FormatIntInjective(a.target.group.value, b.target.group.value);
      }
    }
  }

  // ---- clusters that lie inside one another ----

  predicate Printable(s: string) { s != "" && forall i :: 0 <= i < |s| ==> Graphic(s[i]) }

  predicate Name(s: string) { Printable(s) && '/' !in s }

  function RequestFor(context: string, namespace: string, scope: string): RemoveRequest {
    var target := Target.Target(context, namespace, scope, None, "");
    RemoveRequest(target, if ClusterPrefix(target).Some? then ClusterPrefix(target).value else "", false)
  }

  lemma PrintableIsNormal(context: string, parts: seq<string>, scope: string)
    requires |parts| >= 1 && forall p :: p in parts ==> Target.Clean(p)
    requires Printable(context) && Printable(scope)
    ensures var t := RequestFor(context, "/" + Join(parts, "/"), scope).target; Target.Normalize(t) == t
  {
    hide TrimSpace, Trimmed, Target.NormalizeNamespace, Join, Target.Clean, ClusterPrefix;
    Target.NormalizeNamespaceOfClean(parts);
    GraphicEndsTrimmed(scope);
    GraphicEndsTrimmed(context);
    TrimSpaceOfTrimmed(scope);
    TrimSpaceOfTrimmed(context);
    Target.TrimSpaceOfEmpty();
  }

  lemma PrintableIsValid(s: string)
    ensures Printable(s) ==> s != "" && !Target.InvalidIdentityPart(s)
    ensures !Target.InvalidIdentityPart("")
  {
  }

  lemma PrintableIsAccepted(context: string, parts: seq<string>, scope: string)
    requires |parts| >= 1 && forall p :: p in parts ==> Target.Clean(p)
    requires Printable(context) && Printable("/" + Join(parts, "/")) && Printable(scope)
    ensures RemoveAccepted(RequestFor(context, "/" + Join(parts, "/"), scope))
  {
    hide Target.Normalize, Target.Clean, Target.InvalidIdentityPart, Join, TrimBoth, Printable;
    var namespace := "/" + Join(parts, "/");
    PrintableIsNormal(context, parts, scope);
    PrintableIsValid(context);
    PrintableIsValid(namespace);
    PrintableIsValid(scope);
    var t := RequestFor(context, namespace, scope).target;
    assert Target.Validate(t, true).None?;
  }

  lemma NameIsClean(name: string)
    requires Name(name)
    ensures Target.Clean(name)
  {
    GraphicEndsTrimmed(name);
  }

  lemma AcceptedBelow(context: string, space: string, name: string, scope: string)
    requires Printable(context) && Name(space) && Name(name) && Printable(scope)
    ensures RemoveAccepted(RequestFor(context, "/" + space, scope))
    ensures RemoveAccepted(RequestFor(context, "/" + space + "/" + name, scope))
  {
    hide RemoveAccepted, Target.Clean, ClusterPrefix;
    NameIsClean(space);
    NameIsClean(name);
    assert "/" + Join([space], "/") == "/" + space;
    assert [space, name][1..] == [name];
    assert "/" + Join([space, name], "/") == "/" + space + "/" + name;
    PrintableIsAccepted(context, [space], scope);
    PrintableIsAccepted(context, [space, name], scope);
  }

  lemma TrimmedRooted(s: string)
    requires s != "" && s[0] != '/' && s[|s| - 1] != '/'
    ensures TrimBoth("/" + s, '/') == s
  {
    assert ("/" + s)[1..] == s;
    assert TrimLeft(s, '/') == s;
    assert TrimLeft("/" + s, '/') == s;
  }

  /** The names of a root in a namespace of one name, and of two. */
  lemma PlainSegments(context: string, space: string, name: string, scope: string)
    requires Name(space) && Name(name)
    ensures RootSegments(RequestFor(context, "/" + space, scope).target) == [space] + Split(scope, '/')
    ensures RootSegments(RequestFor(context, "/" + space + "/" + name, scope).target)
            == [space, name] + Split(scope, '/')
  {
    hide ClusterPrefix, TrimBoth, Split;
    TrimmedRooted(space);
    SplitWhole(space, '/');
    TrimmedRooted(space + "/" + name);
    assert "/" + (space + "/" + name) == "/" + space + "/" + name;
    SplitWhole(name, '/');
    SplitCons(space, name, '/');
    assert space + ['/'] + name == space + "/" + name;
  }

  /** A slash in a scope is accepted, and the whole root of such a cluster lies
      inside the root of another one of the same namespace. */
  lemma SlashedScopeIsInside(context: string, space: string, name: string, rest: string)
    requires Printable(context) && Name(space) && Name(name) && Printable(rest)
    ensures var outer := RequestFor(context, "/" + space, name);
            var inner := RequestFor(context, "/" + space, name + "/" + rest);
            RemoveAccepted(outer) && RemoveAccepted(inner) && Root(outer) < Root(inner)
  {
    hide RemoveAccepted, Root, Split, RootSegments, ClusterPrefix;
    var slashed := name + "/" + rest;
    var outer, inner := RequestFor(context, "/" + space, name), RequestFor(context, "/" + space, slashed);
    AcceptedBelow(context, space, name, name);
    AcceptedBelow(context, space, name, slashed);
    PlainSegments(context, space, name, name);
    PlainSegments(context, space, name, slashed);
    SplitWhole(name, '/');
    SplitCons(name, rest, '/');
    assert name + ['/'] + rest == slashed;
    assert [space] + [name] < [space] + ([name] + Split(rest, '/'));
    RootsNest(outer, inner);
    RootsNest(inner, outer);
  }

  /** So does that of a cluster whose namespace ends in another cluster's scope,
      with no slash in either scope. */
  lemma NestedNamespaceIsInside(context: string, space: string, name: string, scope: string)
    requires Printable(context) && Name(space) && Name(name) && Name(scope)
    ensures var outer := RequestFor(context, "/" + space, name);
            var inner := RequestFor(context, "/" + space + "/" + name, scope);
            RemoveAccepted(outer) && RemoveAccepted(inner) && Root(outer) < Root(inner)
  {
    hide RemoveAccepted, Root, Split, RootSegments, ClusterPrefix;
    var outer, inner := RequestFor(context, "/" + space, name), RequestFor(context, "/" + space + "/" + name, scope);
    AcceptedBelow(context, space, name, name);
    AcceptedBelow(context, space, name, scope);
    PlainSegments(context, space, name, name);
    PlainSegments(context, space, name, scope);
    SplitWhole(name, '/');
    assert [space] + [name] == [space, name] < [space, name] + Split(scope, '/');
    RootsNest(outer, inner);
    RootsNest(inner, outer);
  }
}
