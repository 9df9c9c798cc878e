/** edit-config (control/edit_config.go): a plan sealed with message
    authentication codes, a compare-and-swap on the config key, and readback. */
module EditConfig {
  import opened Text
  import opened Decimal
  import opened Json
  import opened Etcd
  import opened Txn
  import opened Cluster
  import opened Control
  import opened Effects
  import opened ConfigTree
  import Target

  datatype EditRequest = EditRequest(target: Target.Target, prefix: string, edit: Edit, citus: bool)

  /** What normalizeEditConfigRequest accepts. */
  predicate Accepted(request: EditRequest) {
    && Target.Normalize(request.target) == request.target && request.target.member == ""
    && ClusterPrefix(request.target) == Some(request.prefix)
    && (request.edit.replacement.Some? || request.edit.patch.Some? || request.edit.settings != [])
  }

  function ConfigKeyOf(request: EditRequest): string { KeyUnder(request.prefix, "config") }

  /** The plan's changed paths travel as JSON text; None stands for text that
      is missing or does not parse. */
  datatype EditPlan = EditPlan(plan: Plan, changedPaths: Option<seq<string>>)

  datatype ConfigEditData = ConfigEditData(
    changedPaths: seq<string>, beforeRevision: nat, dcsRevision: nat, send: SendState, verification: Verification,
    noop: bool)

  const NO_EDIT := ConfigEditData([], 0, 0, NoSend, NoVerification, false)

  type EditOutcome = Control.Result<ConfigEditData>

  // ---- plan tokens ----

  /** What the three kinds of plan token are computed over. */
  datatype Material =
    | RequestMaterial(edit: Edit, citus: bool)
    | ValueMaterial(value: Fields)
    | BindingMaterial(target: Target.Target, revision: nat, request: string, desired: string,
                      changedPaths: seq<string>, noop: string, selector: string)

  /** The service's keyed hash, as an injective function. */
  type Mac = Material -> string

  ghost predicate Injective(mac: Mac) {
    forall a, b :: mac(a) == mac(b) ==> a == b
  }

  function TrimmedSettings(settings: seq<Setting>): seq<Setting> {
    seq(|settings|, i requires 0 <= i < |settings| => settings[i].(path := TrimSpace(settings[i].path)))
  }

  function RequestToken(mac: Mac, request: EditRequest): string {
    mac(RequestMaterial(request.edit.(settings := TrimmedSettings(request.edit.settings)), request.citus))
  }

  function ValueToken(mac: Mac, value: Fields): string { mac(ValueMaterial(value)) }

  // ---- reading the config key ----

  /** configEntryForEdit. */
  function ConfigEntryForEdit(snapshot: Snapshot): Option<Entry> {
    var found := FindEntry(snapshot.entries, "config");
    if found.Some? && (forall i :: 0 <= i < |snapshot.issues| ==> snapshot.issues[i].relative != "config") then found
    else None
  }

  lemma FoundEntry(entries: seq<Entry>, relative: string)
    ensures match FindEntry(entries, relative)
            case Some(e) => e in entries && e.relative == relative
            case None => forall e :: e in entries ==> e.relative != relative
  {
    FoundEntryFrom(entries, relative, 0);
  }

  lemma {:induction false} FoundEntryFrom(entries: seq<Entry>, relative: string, i: nat)
    ensures match FindEntryFrom(entries, relative, i)
            case Some(e) => e in entries && e.relative == relative
            case None => forall j :: i <= j < |entries| ==> entries[j].relative != relative
    decreases |entries| - i
  {
    if i < |entries| {
      FoundEntryFrom(entries, relative, i + 1);
    }
  }

  /** The entry edit-config works on is the config key itself. */
  lemma ConfigEntryIsConfigKey(log: seq<Request>, prefix: string)
    requires ConfigEntryForEdit(SnapshotOf(log, prefix)).Some?
    ensures var key := KeyUnder(prefix, "config"); var entry := ConfigEntryForEdit(SnapshotOf(log, prefix)).value;
            && key in StoreAt(log)
            && entry.value == StoreAt(log)[key].value
            && entry.modRevision == StoreAt(log)[key].modRevision
            && entry.modRevision > 0
  {
    hide ClassifyRelativePath, DecodeCluster, StoreAt;
    var store := StoreAt(log);
    EntriesUnderMembers(store, prefix);
    FoundEntry(EntriesUnder(store, prefix), "config");
    var entry := ConfigEntryForEdit(SnapshotOf(log, prefix)).value;
    assert entry == EntryAt(store, prefix, entry.key);
    assert entry.key == prefix + "/" + entry.key[|prefix| + 1..];
    RevisionsBelowHeader(log, entry.key);
  }

  // ---- prepared plans ----

  /** A plan issued by PrepareEditConfig: the request and the length of the
      history its snapshot was read from. */
  datatype Issued = Issued(request: EditRequest, read: nat)

  ghost predicate Genuine(log: seq<Request>, issued: Issued) {
    && issued.read <= |log|
    && Accepted(issued.request)
    && ConfigEntryForEdit(SnapshotOf(log[..issued.read], issued.request.prefix)).Some?
  }

  /** The configuration shown when the plan was prepared. */
  function Before(log: seq<Request>, issued: Issued): Fields
    requires issued.read <= |log|
  {
    ClusterAt(log[..issued.read], issued.request.prefix).config
  }

  function PreparedRevision(log: seq<Request>, issued: Issued): nat
    requires issued.read <= |log|
  {
    ModRevision(StoreAt(log[..issued.read]), ConfigKeyOf(issued.request))
  }

  function BindingFor(mac: Mac, request: EditRequest, revision: nat, preview: Preview): Material {
    BindingMaterial(request.target, revision, RequestToken(mac, request), ValueToken(mac, preview.after),
                    preview.changedPaths, FormatBool(preview.noop), FormatBool(request.citus))
  }

  function IssuedBinding(mac: Mac, log: seq<Request>, issued: Issued): Material
    requires issued.read <= |log|
  {
    BindingFor(mac, issued.request, PreparedRevision(log, issued), PreviewOf(Before(log, issued), issued.request.edit))
  }

  /** The keyed hash cannot be forged: a plan binding that verifies was made by
      a prepare of this service. */
  ghost predicate Unforged(mac: Mac, log: seq<Request>, plan: EditPlan, made: set<Issued>) {
    forall m: Material :: m.BindingMaterial? && Expected(plan.plan, ConfigBinding) == Some(mac(m)) ==>
          IssuedAs(mac, log, m, made)
  }

  ghost predicate IssuedAs(mac: Mac, log: seq<Request>, m: Material, made: set<Issued>) {
    exists issued :: issued in made && Genuine(log, issued) && m == IssuedBinding(mac, log, issued)
  }

  function EditPreconditions(mac: Mac, revision: nat, modRevision: nat, request: EditRequest,
                             preview: Preview): map<Field, string>
  {
    map[DcsRevision := Itoa(revision),
        ConfigModRevision := Itoa(modRevision),
        ConfigRequest := RequestToken(mac, request),
        ConfigDesired := ValueToken(mac, preview.after),
        ConfigNoop := FormatBool(preview.noop),
        RequestCitus := FormatBool(request.citus),
        ConfigBinding := mac(BindingFor(mac, request, modRevision, preview))]
  }

  /** editConfigPlanRevision. */
  function PlanRevision(plan: Plan): Option<nat> { PlannedRevision(plan, ConfigModRevision, 1) }

  predicate SortedPaths(paths: seq<string>) { InOrder(paths) }

  /** The binding a plan claims for a request. */
  function ClaimedBinding(plan: EditPlan, request: EditRequest): Option<Material> {
    match (PlanRevision(plan.plan), Expected(plan.plan, ConfigRequest), Expected(plan.plan, ConfigDesired),
           plan.changedPaths, Expected(plan.plan, ConfigNoop), Expected(plan.plan, RequestCitus))
    case (Some(revision), Some(token), Some(desired), Some(paths), Some(noop), Some(citus)) =>
      Some(BindingMaterial(request.target, revision, token, desired, paths, noop, citus))
    case _ => None
  }

  /** validateEditConfigPlan. */
  predicate PlanAccepted(mac: Mac, plan: EditPlan, request: EditRequest) {
    && PlanValid(plan.plan)
    && plan.plan.operation == "edit-config" && plan.plan.path == PathDCS && plan.plan.risk == RiskConfiguration
       && plan.plan.unsafeAfterSend
    && SameCluster(plan.plan.target, request.target)
    && Expected(plan.plan, ConfigRequest) == Some(RequestToken(mac, request))
    && Expected(plan.plan, RequestCitus) == Some(FormatBool(request.citus))
    && (plan.changedPaths.Some? ==> SortedPaths(plan.changedPaths.value))
    && Expected(plan.plan, ConfigNoop) in [Some("true"), Some("false")]
    && ClaimedBinding(plan, request).Some?
    && Expected(plan.plan, ConfigBinding) == Some(mac(ClaimedBinding(plan, request).value))
  }

  /** An accepted plan was prepared by this service for this very edit, and its
      revision and desired token are those of that prepare. */
  lemma AcceptedPlanWasIssued(mac: Mac, log: seq<Request>, plan: EditPlan, request: EditRequest, made: set<Issued>)
    returns (issued: Issued)
    requires Injective(mac) && Unforged(mac, log, plan, made)
    requires Accepted(request) && PlanAccepted(mac, plan, request)
    ensures issued in made && Genuine(log, issued)
    ensures Expected(plan.plan, ConfigBinding) == Some(mac(IssuedBinding(mac, log, issued)))
    ensures issued.request.prefix == request.prefix
    ensures PlanRevision(plan.plan) == Some(PreparedRevision(log, issued))
    ensures Expected(plan.plan, ConfigDesired) == Some(ValueToken(mac, After(Before(log, issued), issued.request.edit)))
  {
    hide SnapshotOf, ConfigEntryForEdit, PlanValid, Accepted, After, Before, PreparedRevision, ValueToken, RequestToken;
    hide SameCluster, ChangedConfigPaths;
    hide SortedPaths, PlanRevision, Expected, FormatBool, ClusterAt, StoreAt, InOrder;
    var m := ClaimedBinding(plan, request).value;
    assert IssuedAs(mac, log, m, made);
    issued :| issued in made && Genuine(log, issued) && m == IssuedBinding(mac, log, issued);
    assert m.target == request.target == issued.request.target;
    SamePrefix(log, issued, request);
  }

  lemma SamePrefix(log: seq<Request>, issued: Issued, request: EditRequest)
    requires Genuine(log, issued) && Accepted(request) && issued.request.target == request.target
    ensures issued.request.prefix == request.prefix
  {
    hide ClusterPrefix, ConfigEntryForEdit, SnapshotOf, Target.Normalize;
  }

  // ---- prepare ----

  method PrepareEditConfig(w: World, service: Service, mac: Mac, request: EditRequest, operationID: string,
                           summary: string, me: nat)
    returns (result: Text.Result<EditPlan, Error>, ghost issued: Issued)
    modifies w`now
    ensures Later(me, old(w.now), w.now)
    ensures result.Ok? ==>
              && Genuine(w.now.log, issued) && issued.request == request
              && |old(w.now).log| <= issued.read
              && Expected(result.value.plan, ConfigBinding) == Some(mac(IssuedBinding(mac, w.now.log, issued)))
              && (PreparedRevision(w.now.log, issued) <= MAX_INT ==> PlanAccepted(mac, result.value, request))
  {
    hide Later, SnapshotOf, ClusterAt, StoreAt, Accepted, Genuine, PlanAccepted, PlanValid, EditPreconditions, Expected;
    hide PreviewOf, IssuedBinding;
    hide ConfigEntryForEdit, PreparedRevision, FindEntry;
    issued := Issued(request, 0);
    LaterReflexive(me, w.now);
    if !Accepted(request) {
      return Err(Error(CategoryUsage, false)), issued;
    }
    var read := ReadSnapshot(w, me, request.prefix);
    if read.Err? {
      return Err(ClassifyReadError(read.error)), issued;
    }
    var snapshot := read.value;
    if !SupportsCluster(service, snapshot.cluster) {
      return Err(Error(CategoryUnsupported, false)), issued;
    }
    SnapshotDecodes(w.now.log, request.prefix);
    var entry := ConfigEntryForEdit(snapshot);
    if entry.None? {
      return Err(Error(if FindEntry(snapshot.entries, "config").None? then CategoryNotFound else CategoryConfig,
                       false)), issued;
    }
    var preview := PreviewEditConfig(snapshot.cluster.config, request.edit);
    var plan := Plan(operationID, "edit-config", request.target, [], PathDCS, RiskConfiguration, true, summary,
                     EditPreconditions(mac, snapshot.revision, entry.value.modRevision, request, preview));
    if !PlanValid(plan) {
      return Err(Error(CategoryInternal, false)), issued;
    }
    issued := Issued(request, |w.now.log|);
    LaterKeeps(me, old(w.now), w.now);
    PreparedIsIssued(mac, w.now.log, request, preview, plan);
    return Ok(EditPlan(plan, Some(preview.changedPaths))), issued;
  }

  lemma SnapshotDecodes(log: seq<Request>, prefix: string)
    ensures SnapshotOf(log, prefix).cluster == ClusterAt(log, prefix)
    ensures SnapshotOf(log, prefix).revision == HeaderRevision(log)
  {
    hide EntriesUnder, DecodeCluster, StoreAt;
  }

  lemma EditPlanFields(mac: Mac, plan: Plan, revision: nat, modRevision: nat, request: EditRequest, preview: Preview)
    requires plan.preconditions == EditPreconditions(mac, revision, modRevision, request, preview)
    ensures Expected(plan, ConfigModRevision) == Some(Itoa(modRevision))
    ensures Expected(plan, ConfigRequest) == Some(RequestToken(mac, request))
    ensures Expected(plan, ConfigDesired) == Some(ValueToken(mac, preview.after))
    ensures Expected(plan, ConfigNoop) == Some(FormatBool(preview.noop))
    ensures Expected(plan, RequestCitus) == Some(FormatBool(request.citus))
    ensures Expected(plan, ConfigBinding) == Some(mac(BindingFor(mac, request, modRevision, preview)))
  {
    hide Itoa, RequestToken, ValueToken, FormatBool, BindingFor;
  }

  lemma SameClusterReflexive(target: Target.Target)
    ensures SameCluster(target, target)
  {
    hide Target.Normalize;
  }

  lemma PreparedIsIssued(mac: Mac, log: seq<Request>, request: EditRequest, preview: Preview, plan: Plan)
    requires Accepted(request) && ConfigEntryForEdit(SnapshotOf(log, request.prefix)).Some?
    requires preview == PreviewOf(ClusterAt(log, request.prefix).config, request.edit)
    requires PlanValid(plan)
    requires plan.operation == "edit-config" && plan.target == request.target && plan.path == PathDCS
             && plan.risk == RiskConfiguration && plan.unsafeAfterSend
    requires plan.preconditions == EditPreconditions(mac, HeaderRevision(log),
                                                     ConfigEntryForEdit(SnapshotOf(log,
                                                           request.prefix)).value.modRevision, request, preview)
    ensures Genuine(log, Issued(request, |log|))
    ensures Expected(plan, ConfigBinding) == Some(mac(IssuedBinding(mac, log, Issued(request, |log|))))
    ensures PreparedRevision(log, Issued(request, |log|)) <= MAX_INT ==>
              PlanAccepted(mac, EditPlan(plan, Some(preview.changedPaths)), request)
  {
    hide Accepted, SnapshotOf, ClusterAt, StoreAt, ConfigEntryForEdit, RequestToken, ValueToken, EditPreconditions;
    hide Expected, PlanAccepted, PlanValid;
    hide Itoa, PreviewOf, KeyUnder, PlanRevision, BindingFor;
    assert log[..|log|] == log;
    ConfigEntryIsConfigKey(log, request.prefix);
    var revision := ConfigEntryForEdit(SnapshotOf(log, request.prefix)).value.modRevision;
    EditPlanFields(mac, plan, HeaderRevision(log), revision, request, preview);
    if revision <= MAX_INT {
      PreparedPlanAccepted(mac, HeaderRevision(log), revision, request, ClusterAt(log, request.prefix).config, plan);
    }
  }

  lemma PreparedPlanAccepted(mac: Mac, revision: nat, modRevision: nat, request: EditRequest, current: Fields,
                             plan: Plan)
    requires 0 < modRevision <= MAX_INT && PlanValid(plan)
    requires plan.operation == "edit-config" && plan.target == request.target && plan.path == PathDCS
             && plan.risk == RiskConfiguration && plan.unsafeAfterSend
    requires plan.preconditions == EditPreconditions(mac, revision, modRevision, request,
                                                     PreviewOf(current, request.edit))
    ensures PlanAccepted(mac, EditPlan(plan, Some(PreviewOf(current, request.edit).changedPaths)), request)
  {
    hide PlanValid, RequestToken, ValueToken, EditPreconditions, Expected, Itoa, Atoi, SameCluster, PreviewOf, InOrder;
    hide PlanRevision, FormatBool;
    var preview := PreviewOf(current, request.edit);
    EditPlanFields(mac, plan, revision, modRevision, request, preview);
    SameClusterReflexive(request.target);
    RevisionField(plan, modRevision);
    PreviewPathsSorted(current, request.edit);
    BoolText(preview.noop);
    assert ClaimedBinding(EditPlan(plan, Some(preview.changedPaths)), request)
           == Some(BindingFor(mac, request, modRevision, preview));
  }

  lemma RevisionField(plan: Plan, n: nat)
    requires Expected(plan, ConfigModRevision) == Some(Itoa(n)) && 0 < n <= MAX_INT
    ensures PlanRevision(plan) == Some(n)
  {
    hide Itoa, Atoi, Expected;
    AtoiItoa(n);
  }

  lemma BoolText(b: bool)
    ensures Some(FormatBool(b)) in [Some("true"), Some("false")]
  {
  }

  lemma PreviewPathsSorted(current: Fields, edit: Edit)
    ensures SortedPaths(PreviewOf(current, edit).changedPaths)
  {
    hide InOrder, ChangedConfigPaths, After;
    ChangedConfigPathsExact(current, After(current, edit));
  }

  // ---- execute ----

  function EditSuccess(data: ConfigEditData): EditOutcome { Control.Result(Succeeded, PathDCS, data, None) }

  function EditFailure(data: ConfigEditData, error: Error): EditOutcome {
    Control.Result(Failed, PathDCS, data.(verification := VerifiedFailed), Some(error))
  }

  function EditUnknown(data: ConfigEditData): EditOutcome {
    Control.Result(Unknown, PathDCS, data.(verification := Unverified), Some(Error(CategoryUnknown, false)))
  }

  function EditRefused(error: Error): EditOutcome { Control.Result(Failed, PathDCS, NO_EDIT, Some(error)) }

  /** ConfigEditData.Validate and the rule for write results. */
  predicate EditClassified(result: EditOutcome) {
    && FollowsRules(result.outcome, result.data.send, result.data.verification, result.error)
    && (result.data.noop ==> result.data.send == SendNotSent && result.data.verification == VerifiedSucceeded)
    && SortedPaths(result.data.changedPaths)
  }

  /** The write a prepared edit stands for: the configuration computed from the
      one it was prepared on, guarded by its revision. */
  function EditWrite(me: nat, log: seq<Request>, issued: Issued): Request
    requires issued.read <= |log|
  {
    Request(me, Put(ConfigKeyOf(issued.request), Marshal(Object(After(Before(log, issued), issued.request.edit)))),
            Some(PreparedRevision(log, issued)))
  }

  /** The plan was issued as `issued`, and the run writes at most that. */
  ghost predicate WritesIssued(mac: Mac, me: nat, s: State, plan: EditPlan, issued: Issued) {
    && Genuine(s.log, issued)
    && Expected(plan.plan, ConfigBinding) == Some(mac(IssuedBinding(mac, s.log, issued)))
    && OnlyRequest(me, s, EditWrite(me, s.log, issued))
  }

  /** Everything one execution of a plan can ever commit. */
  ghost predicate EditRun(mac: Mac, me: nat, s: State, plan: EditPlan, made: set<Issued>) {
    NoDcsWrite(me, s) || exists issued :: issued in made && WritesIssued(mac, me, s, plan, issued)
  }

  predicate ShowsDesired(mac: Mac, snapshot: Snapshot, desired: string) {
    ConfigEntryForEdit(snapshot).Some? && ValueToken(mac, snapshot.cluster.config) == desired
  }

  /** A snapshot read after the history had `last` commits shows the desired
      configuration. */
  ghost predicate ReadBackEdit(mac: Mac, log: seq<Request>, last: nat, request: EditRequest, desired: string) {
    exists snapshot :: ReadAfter(log, last, request.prefix, snapshot) && ShowsDesired(mac, snapshot, desired)
  }

  /** A snapshot read after the run's last write shows exactly the confirmed
      configuration. */
  ghost predicate EditConfirmed(mac: Mac, log: seq<Request>, last: nat, request: EditRequest, plan: EditPlan) {
    && Expected(plan.plan, ConfigDesired).Some?
    && ReadBackEdit(mac, log, last, request, Expected(plan.plan, ConfigDesired).value)
  }

  lemma ReadBackBy(mac: Mac, log: seq<Request>, last: nat, request: EditRequest, desired: string, snapshot: Snapshot)
    requires ReadAfter(log, last, request.prefix, snapshot)
    requires ConfigEntryForEdit(snapshot).Some? && ValueToken(mac, snapshot.cluster.config) == desired
    ensures ReadBackEdit(mac, log, last, request, desired)
  {
    hide ReadAfter, ConfigEntryForEdit, ValueToken;
    assert ShowsDesired(mac, snapshot, desired);
  }

  function EditRequestOf(me: nat, request: EditRequest, after: Fields, expected: nat): Request {
    Request(me, Put(ConfigKeyOf(request), Marshal(Object(after))), Some(expected))
  }

  /** verifyEditConfig. */
  method VerifyEditConfig(w: World, service: Service, mac: Mac, request: EditRequest, desired: string, me: nat)
    returns (verified: bool, revision: nat)
    modifies w`now
    ensures Later(me, old(w.now), w.now)
    ensures verified ==> ReadBackEdit(mac, w.now.log, |old(w.now).log|, request, desired)
  {
    hide Later, ReadAfter, SnapshotOf, ShowsDesired;
    var last;
    ghost var seen;
    verified, last, seen := Verify(w, me, request.prefix, service.verificationAttempts,
                                   (s: Snapshot) => ShowsDesired(mac, s, desired));
    revision := RevisionOf(last);
  }

  /** The write half of ExecuteEditConfig: compare-and-swap, then readback. */
  method SwapAndVerify(w: World, service: Service, mac: Mac, request: EditRequest, start: ConfigEditData, after: Fields,
                       desired: string, me: nat)
    returns (result: EditOutcome, ghost writes: seq<Exchange>)
    requires Valid(w.now) && NoEffect(me, w.now)
    requires SortedPaths(start.changedPaths) && start.send == SendNotSent && start.verification == Unverified
             && !start.noop
    modifies w
    ensures Valid(w.now) && old(w.now).log <= w.now.log
    ensures w.trace == old(w.trace) + writes && |writes| == 1
    ensures result.outcome == Failed || result.data.send == SendNotSent ==> NoEffect(me, w.now)
    ensures result.outcome == Succeeded ==> ReadBackEdit(mac, w.now.log, writes[0].at, request, desired)
    ensures OnlyRequest(me, w.now, EditRequestOf(me, request, after, start.beforeRevision)) && NoRestWrite(me, w.now)
    ensures EditClassified(result)
  {
    hide NoEffect, NoDcsWrite, NoRestWrite, OnlyRequest, Valid, Later, StoreAt, Marshal, Lookup, Changes, ReadBackEdit;
    hide SortedPaths, KeyUnder;
    var data := start;
    w.Environment(me);
    QuietLater(me, old(w.now), w.now);
    ghost var before := w.now;
    var written, error := w.Put(me, ConfigKeyOf(request), Marshal(Object(after)), Some(start.beforeRevision));
    data := data.(send := DcsSendState(error, written.applied), dcsRevision := written.revision);
    ghost var only := EditRequestOf(me, request, after, start.beforeRevision);
    writes := [DcsExchange(only, |w.now.log|)];
    PutEffects(me, before, w.now, only, error);
    ghost var answered := w.now;
    var verified, revision := VerifyEditConfig(w, service, mac, request, desired, me);
    SwapOver(me, answered, w.now, only, data.send == SendNotSent);
    if revision > data.dcsRevision {
      data := data.(dcsRevision := revision);
    }
    if verified {
      return EditSuccess(data.(verification := VerifiedSucceeded, noop := data.send == SendNotSent)), writes;
    }
    if error.Some? && error.value.Conflict? {
      return EditFailure(data, Error(CategoryConflict, false)), writes;
    }
    if data.send == SendNotSent {
      return EditFailure(data, ClassifyFailure(error.value)), writes;
    }
    return EditUnknown(data), writes;
  }

  /** What the readback after the write leaves unchanged. */
  lemma SwapOver(me: nat, s: State, t: State, only: Request, quiet: bool)
    requires Later(me, s, t) && OnlyRequest(me, s, only) && NoRestWrite(me, s) && (quiet ==> NoEffect(me, s))
    ensures OnlyRequest(me, t, only) && NoRestWrite(me, t) && (quiet ==> NoEffect(me, t))
    ensures s.log <= t.log && (Valid(s) ==> Valid(t))
  {
    hide NoEffect, OnlyRequest, NoRestWrite;
    OnlyRequestLater(me, s, t, only);
    NoRestWriteLater(me, s, t);
    if quiet {
      NoEffectLater(me, s, t);
    }
  }

  method ExecuteEditConfig(w: World, service: Service, mac: Mac, request: EditRequest, plan: EditPlan,
                           ghost made: set<Issued>, me: nat)
    returns (result: EditOutcome, ghost writes: seq<Exchange>)
    requires Valid(w.now) && NoEffect(me, w.now)
    requires Injective(mac) && Unforged(mac, w.now.log, plan, made)
    modifies w
    ensures Valid(w.now) && old(w.now).log <= w.now.log
    // no false failure, and NOT_SENT is the truth
    ensures result.outcome == Failed || result.data.send == SendNotSent ==> NoEffect(me, w.now)
    // success is a snapshot read after the run's only write
    ensures w.trace == old(w.trace) + writes && |writes| <= 1
    ensures result.outcome == Succeeded ==>
              EditConfirmed(mac, w.now.log, AnsweredAt(|old(w.now).log|, writes), request, plan)
    // whatever this run commits, now or later, is the prepared write
    ensures EditRun(mac, me, w.now, plan, made) && NoRestWrite(me, w.now)
    ensures EditClassified(result)
  {
    hide NoEffect, NoDcsWrite, NoRestWrite, OnlyRequest, Valid, Later, ReadAfter, SnapshotOf, StoreAt, Marshal, Lookup;
    hide Changes;
    hide PlanAccepted, Accepted, Unforged, Injective, Genuine, Expected, ReadBackEdit;
    hide ConfigEntryForEdit, After, ChangedConfigPaths, InOrder;
    hide IssuedBinding, Before, PreparedRevision, ValueToken, SupportsCluster, WritesIssued, PlanRevision, FormatBool;
    writes := [];
    ghost var from := |w.now.log|;
    LaterReflexive(me, w.now);
    QuietLater(me, w.now, w.now);
    var noContext: bool := *;
    EmptyIsSorted();
    if noContext || !Accepted(request) || !PlanAccepted(mac, plan, request) {
      return EditRefused(Error(CategoryUsage, false)), [];
    }
    PlanParts(mac, plan, request);
    ghost var issued := AcceptedPlanWasIssued(mac, w.now.log, plan, request, made);
    var expected := PlanRevision(plan.plan).value;
    var desired := Expected(plan.plan, ConfigDesired).value;
    var data := ConfigEditData(plan.changedPaths.value, expected, 0, SendNotSent, Unverified, false);
    var read := ReadSnapshot(w, me, request.prefix);
    QuietLater(me, old(w.now), w.now);
    if read.Err? {
      return EditFailure(data, ClassifyReadError(read.error)), [];
    }
    var snapshot := read.value;
    if !SupportsCluster(service, snapshot.cluster) {
      return EditRefused(Error(CategoryUnsupported, false)), [];
    }
    var entry := ConfigEntryForEdit(snapshot);
    if entry.None? {
      return EditFailure(data, Error(CategoryConflict, false)), [];
    }
    ReadNow(w.now.log, from, request.prefix);
    var currentToken := ValueToken(mac, snapshot.cluster.config);
    if entry.value.modRevision != expected {
      data := data.(dcsRevision := snapshot.revision);
      if currentToken == desired {
        ReadBackBy(mac, w.now.log, from, request, desired, snapshot);
        return EditSuccess(data.(noop := true, verification := VerifiedSucceeded)), [];
      }
      return EditFailure(data, Error(CategoryConflict, false)), [];
    }
    var preview := PreviewEditConfig(snapshot.cluster.config, request.edit);
    if ValueToken(mac, preview.after) != desired || preview.changedPaths != plan.changedPaths.value {
      return EditFailure(data, Error(CategoryUsage, false)), [];
    }
    if Expected(plan.plan, ConfigNoop) != Some(FormatBool(preview.noop)) {
      return EditFailure(data, Error(CategoryUsage, false)), [];
    }
    if preview.noop {
      ReadBackBy(mac, w.now.log, from, request, desired, snapshot);
      return EditSuccess(data.(noop := true, dcsRevision := snapshot.revision, verification := VerifiedSucceeded)), [];
    }
    var gone: bool := *;
    if gone {
      return EditFailure(data, Error(CategoryFailed, false)), [];
    }
    if !service.configDCS {
      return EditFailure(data, Error(CategoryConfig, false)), [];
    }
    result, writes := SwapAndVerify(w, service, mac, request, data, preview.after, desired, me);
    PreparedWrite(mac, me, old(w.now).log, w.now, plan, request, issued, preview.after,
                  EditRequestOf(me, request, preview.after, expected));
  }

  lemma EmptyIsSorted()
    ensures SortedPaths([])
  {
  }

  lemma PlanParts(mac: Mac, plan: EditPlan, request: EditRequest)
    requires PlanAccepted(mac, plan, request)
    ensures PlanRevision(plan.plan).Some? && Expected(plan.plan, ConfigDesired).Some?
    ensures plan.changedPaths.Some? && SortedPaths(plan.changedPaths.value)
  {
    hide PlanRevision, Expected, SortedPaths, PlanValid, SameCluster, RequestToken, FormatBool;
  }

  lemma PutEffects(me: nat, s: State, t: State, only: Request, error: Option<Failure>)
    requires NoEffect(me, s) && only.author == me && only.mutation.Put?
    requires match error
             case Some(NotSent(_)) => t == s
             case Some(MaybeSent(_)) => t == s.(flight := s.flight + multiset{only})
             case Some(Conflict(_, _)) => t == s
             case None => t == s.(log := s.log + [only]) && GuardHolds(StoreAt(s.log), only)
    ensures OnlyRequest(me, t, only) && NoRestWrite(me, t)
    ensures s.log <= t.log && (Valid(s) ==> Valid(t))
    ensures error.Some? && !error.value.MaybeSent? ==> NoEffect(me, t)
  {
    hide StoreAt, GuardHolds, NoEffect, OnlyRequest, NoRestWrite, Valid;
    FirstWriteEffects(me, s, t, only);
  }

  /** What the run wrote is the write the plan was prepared for. */
  lemma PreparedWrite(mac: Mac, me: nat, log: seq<Request>, s: State, plan: EditPlan, request: EditRequest,
                      issued: Issued, after: Fields, only: Request)
    requires Injective(mac) && log <= s.log && Genuine(log, issued) && OnlyRequest(me, s, only)
    requires issued.request.prefix == request.prefix
    requires Expected(plan.plan, ConfigBinding) == Some(mac(IssuedBinding(mac, log, issued)))
    requires Expected(plan.plan, ConfigDesired)
             == Some(ValueToken(mac, After(Before(log, issued), issued.request.edit)))
    requires Expected(plan.plan, ConfigDesired) == Some(ValueToken(mac, after))
    requires only == Request(me, Put(ConfigKeyOf(request), Marshal(Object(after))), Some(PreparedRevision(log, issued)))
    ensures WritesIssued(mac, me, s, plan, issued)
  {
    hide ConfigEntryForEdit, After, Accepted, OnlyRequest, SnapshotOf, ClusterAt, StoreAt, Expected, KeyUnder;
    hide PreviewOf, RequestToken;
    assert s.log[..issued.read] == log[..issued.read];
    assert ValueMaterial(after) == ValueMaterial(After(Before(log, issued), issued.request.edit));
  }

  // ---- one plan, any number of executions ----

  lemma PreparedStays(mac: Mac, log: seq<Request>, longer: seq<Request>, issued: Issued, me: nat)
    requires log <= longer && Genuine(log, issued)
    ensures Genuine(longer, issued)
    ensures IssuedBinding(mac, longer, issued) == IssuedBinding(mac, log, issued)
    ensures EditWrite(me, longer, issued) == EditWrite(me, log, issued)
  {
    hide ConfigEntryForEdit, After, Accepted, SnapshotOf, ClusterAt, StoreAt, KeyUnder, PreviewOf, RequestToken;
    assert longer[..issued.read] == log[..issued.read];
  }

  /** What an execution promised about its commits stays true forever. */
  lemma EditRunLater(mac: Mac, me: nat, s: State, t: State, plan: EditPlan, made: set<Issued>)
    requires EditRun(mac, me, s, plan, made) && Later(me, s, t)
    ensures EditRun(mac, me, t, plan, made)
  {
    hide OnlyRequest, NoDcsWrite, ConfigEntryForEdit, SnapshotOf, Accepted, Expected, IssuedBinding, EditWrite, Later;
    LaterKeeps(me, s, t);
    if NoDcsWrite(me, s) {
      NoDcsWriteLater(me, s, t);
    } else {
      var issued :| issued in made && WritesIssued(mac, me, s, plan, issued);
      PreparedStays(mac, s.log, t.log, issued, me);
      OnlyRequestLater(me, s, t, EditWrite(me, s.log, issued));
      assert WritesIssued(mac, me, t, plan, issued);
    }
  }

  /** A committed write of an execution is a prepared write. */
  lemma EditCommit(mac: Mac, me: nat, s: State, plan: EditPlan, made: set<Issued>, i: nat) returns (issued: Issued)
    requires EditRun(mac, me, s, plan, made) && i < |s.log| && s.log[i].author == me
    ensures issued in made && Genuine(s.log, issued)
    ensures Expected(plan.plan, ConfigBinding) == Some(mac(IssuedBinding(mac, s.log, issued)))
    ensures s.log[i] == EditWrite(me, s.log, issued)
  {
    hide OnlyRequest, NoDcsWrite, ConfigEntryForEdit, SnapshotOf, Accepted, Expected, IssuedBinding, EditWrite;
    if NoDcsWrite(me, s) {
      NothingCommitted(me, s);
    }
    issued :| issued in made && WritesIssued(mac, me, s, plan, issued);
    OwnCommit(me, s, EditWrite(me, s.log, issued), i);
  }

  lemma GenuineRevisionPositive(log: seq<Request>, issued: Issued)
    requires Genuine(log, issued)
    ensures PreparedRevision(log, issued) > 0
  {
    hide SnapshotOf, StoreAt, Accepted, ConfigEntryForEdit, KeyUnder;
    ConfigEntryIsConfigKey(log[..issued.read], issued.request.prefix);
  }

  /** However often a plan is executed, by however many runs, with whatever
      delivery and whatever other writers do: at most one of its writes ever
      commits. */
  lemma PlanCommitsAtMostOnce(mac: Mac, s: State, plan: EditPlan, made: set<Issued>, runs: set<nat>, i: nat, j: nat)
    requires Valid(s) && Injective(mac)
    requires forall me :: me in runs ==> EditRun(mac, me, s, plan, made)
    requires i < |s.log| && s.log[i].author in runs
    requires j < |s.log| && s.log[j].author in runs
    ensures i == j
  {
    hide EditRun, ConfigEntryForEdit, SnapshotOf, Accepted, Expected, PreparedRevision, Before, After, PreviewOf;
    hide KeyUnder, ClusterPrefix, RequestToken;
    var first := EditCommit(mac, s.log[i].author, s, plan, made, i);
    var second := EditCommit(mac, s.log[j].author, s, plan, made, j);
    assert IssuedBinding(mac, s.log, first) == IssuedBinding(mac, s.log, second);
    assert first.request.target == second.request.target;
    assert first.request.prefix == second.request.prefix by {
      GenuineAccepted(s.log, first);
      GenuineAccepted(s.log, second);
    }
    GenuineRevisionPositive(s.log, first);
    OneCommitPerRevision(s.log, i, j, ConfigKeyOf(first.request), PreparedRevision(s.log, first));
  }

  lemma GenuineAccepted(log: seq<Request>, issued: Issued)
    requires Genuine(log, issued)
    ensures ClusterPrefix(issued.request.target) == Some(issued.request.prefix)
  {
    hide ClusterPrefix, ConfigEntryForEdit, SnapshotOf, Target.Normalize;
  }

  /** The commit finds the config key byte for byte as the prepare read it, and
      leaves exactly the configuration the plan confirmed. */
  lemma CommitReplacesPrepared(log: seq<Request>, issued: Issued, me: nat, i: nat)
    requires ValidLog(log) && Genuine(log, issued) && i < |log| && log[i] == EditWrite(me, log, issued)
    ensures issued.read <= i
    ensures var key := ConfigKeyOf(issued.request);
            && Lookup(StoreAt(log[..i]), key) == Lookup(StoreAt(log[..issued.read]), key)
            && Lookup(StoreAt(log[..i + 1]), key)
               == Some(Versioned(Marshal(Object(After(Before(log, issued), issued.request.edit))), i + 2))
  {
    hide ConfigEntryForEdit, SnapshotOf, Accepted, After, Before, KeyUnder, Changes;
    var key := ConfigKeyOf(issued.request);
    GenuineRevisionPositive(log, issued);
    assert GuardHolds(StoreAt(log[..i]), log[i]);
    if i < issued.read {
      SpentRevision(log, i, issued.read, key, PreparedRevision(log, issued));
    }
    GuardedCommitFindsEntry(log, issued.read, i, key);
    assert log[..i + 1][..i] == log[..i];
  }
}
