/** The pipeline-facing use cases, statement by statement: each commits exactly its unit of
    work as defined in module Transactions, or nothing, whatever statement fails. When a request is
    accepted, what it then writes, and with which error it is refused otherwise are stated beside
    that in the terms of module Acceptance, and for a run's templates in those of `Pins`. */
module UseCases {
  import opened Wrappers
  import opened Sequences
  import opened RunStates
  import opened Database
  import opened Outbox
  import opened Transactions
  import opened UnitOfWork
  import opened Statements
  import opened AuditReplay
  import Acceptance
  import StageStates

  /** The use case committed its unit of work, or it failed and committed nothing; the error is
      the unit of work's own, or the database's if an operation on it failed. */
  ghost predicate CommitsOrNothing<T(!new)>(policy: Policy, before: Db, after: Db, tx: Tx, r: Result<T, Error>, faulty: bool) {
    && (r.Success? ==> Apply(policy, before, tx) == Success(after))
    && (r.Failure? ==> after == before && FailsAs(Apply(policy, before, tx), r.error, faulty))
  }

  /** A failing operation on the database, or the error the unit of work itself ends in. */
  ghost predicate FailsAs<T(!new)>(own: Result<T, Error>, e: Error, faulty: bool) {
    (e == Persistence && faulty) || own == Failure(e)
  }

  // ---- BeginRun: validation ------------------------------------------------------------------

  /** The registry, the tag vocabulary and the template manifest. */
  datatype Catalog = Catalog(
    pipelines: set<string>, vocabulary: set<string>, templates: set<TemplateRef>, latest: map<string, string>)

  datatype BeginRequest = BeginRequest(
    pipeline: string, tags: set<string>, declared: seq<DeclaredStage>,
    mode: AttachmentMode, aggregation: Option<TemplateRef>)

  datatype BeginError =
    | UnknownPipeline
    | UnknownTag(tags: set<string>)
    | DuplicateStages(ids: set<string>)
    | MissingAggregation
    | UnknownTemplate(name: string)
    | NotPersisted

  const LATEST := "latest"

  /** `_maybe_resolve_latest`. */
  function Resolve(catalog: Catalog, ref: TemplateRef): Option<TemplateRef> {
    if ref.version != LATEST then Some(ref)
    else if ref.name in catalog.latest then Some(TemplateRef(ref.name, catalog.latest[ref.name]))
    else None
  }

  /** What a template asked for is stored as: the version named, or for `latest` the version that
      is the name's latest. */
  predicate Pins(catalog: Catalog, asked: TemplateRef, pinned: TemplateRef) {
    if asked.version != "latest" then pinned == asked
    else asked.name in catalog.latest && pinned == TemplateRef(asked.name, catalog.latest[asked.name])
  }

  /** `latest` of a name without any version. */
  predicate Unresolved(catalog: Catalog, asked: TemplateRef) {
    asked.version == "latest" && asked.name !in catalog.latest
  }

  ghost predicate Known(catalog: Catalog, asked: TemplateRef) {
    exists pinned :: pinned in catalog.templates && Pins(catalog, asked, pinned)
  }

  lemma ResolveExact(catalog: Catalog, asked: TemplateRef)
    ensures match Resolve(catalog, asked)
            case Some(pinned) =>
              && !Unresolved(catalog, asked)
              && (forall other :: Pins(catalog, asked, other) <==> other == pinned)
              && (Known(catalog, asked) <==> pinned in catalog.templates)
            case None => Unresolved(catalog, asked) && !Known(catalog, asked)
  {
  }

  /** Ids declared more than once. */
  function Repeated(declared: seq<DeclaredStage>): set<string> {
    set id | id in StageIds(declared) && Count(StageIds(declared), id) > 1
  }

  lemma RepeatedExact(declared: seq<DeclaredStage>, id: string)
    ensures id in Repeated(declared)
            <==> exists i, j :: 0 <= i < j < |declared| && declared[i].stageId == id == declared[j].stageId
  {
    var ids := StageIds(declared);
    if i, j :| 0 <= i < j < |declared| && declared[i].stageId == id == declared[j].stageId {
      assert ids[i] in ids;
      TwoPlacesCountTwice(ids, i, j);
    }
    if id in Repeated(declared) {
      var i, j := CountedTwiceHasTwoPlaces(ids, id);
      assert declared[i].stageId == id == declared[j].stageId;
    }
  }

  /** What a request must satisfy. A PER_STAGE request's aggregation template is not looked at. */
  ghost predicate Acceptable(catalog: Catalog, q: BeginRequest) {
    && q.pipeline in catalog.pipelines
    && q.tags <= catalog.vocabulary
    && Repeated(q.declared) == {}
    && (q.mode.SingleAggregated? ==> q.aggregation.Some? && Known(catalog, q.aggregation.value))
    && forall ds :: ds in q.declared ==> Known(catalog, ds.template)
  }

  /** The run a request begins: every template pinned and known. */
  ghost predicate Pinned(catalog: Catalog, q: BeginRequest, info: RunInfo) {
    && info.pipeline == q.pipeline && info.tags == q.tags && info.mode == q.mode
    && |info.declared| == |q.declared|
    && (forall i :: 0 <= i < |q.declared| ==>
          && info.declared[i].stageId == q.declared[i].stageId
          && info.declared[i].order == q.declared[i].order
          && Pins(catalog, q.declared[i].template, info.declared[i].template)
          && info.declared[i].template in catalog.templates)
    && (if q.mode.PerStage? then info.aggregation.None?
        else && q.aggregation.Some? && info.aggregation.Some?
             && Pins(catalog, q.aggregation.value, info.aggregation.value)
             && info.aggregation.value in catalog.templates)
  }

  /** The templates looked at, in order. */
  function Asked(q: BeginRequest): seq<TemplateRef> {
    if q.mode.SingleAggregated? && q.aggregation.Some? then [q.aggregation.value] + Templates(q.declared)
    else Templates(q.declared)
  }

  function Templates(declared: seq<DeclaredStage>): (refs: seq<TemplateRef>)
    ensures |refs| == |declared| && forall i :: 0 <= i < |refs| ==> refs[i] == declared[i].template
  {
    seq(|declared|, i requires 0 <= i < |declared| => declared[i].template)
  }

  /** The first `latest` without a version has this name. */
  ghost predicate FirstUnresolved(catalog: Catalog, asked: seq<TemplateRef>, name: string) {
    exists i :: 0 <= i < |asked| && asked[i].name == name && Unresolved(catalog, asked[i])
      && forall j :: 0 <= j < i ==> !Unresolved(catalog, asked[j])
  }

  /** Every version is resolved, and the first template that does not exist has this name. */
  ghost predicate FirstMissing(catalog: Catalog, asked: seq<TemplateRef>, name: string) {
    && (forall i :: 0 <= i < |asked| ==> !Unresolved(catalog, asked[i]))
    && exists i :: 0 <= i < |asked| && asked[i].name == name && !Known(catalog, asked[i])
         && forall j :: 0 <= j < i ==> Known(catalog, asked[j])
  }

  /** The error names the first violation, in the order of the checks. */
  ghost predicate Explains(catalog: Catalog, q: BeginRequest, e: BeginError) {
    match e
    case UnknownPipeline => q.pipeline !in catalog.pipelines
    case UnknownTag(tags) =>
      q.pipeline in catalog.pipelines && tags == q.tags - catalog.vocabulary && tags != {}
    case DuplicateStages(ids) =>
      q.pipeline in catalog.pipelines && q.tags <= catalog.vocabulary && ids == Repeated(q.declared) && ids != {}
    case MissingAggregation =>
      && q.pipeline in catalog.pipelines && q.tags <= catalog.vocabulary && Repeated(q.declared) == {}
      && q.mode.SingleAggregated? && q.aggregation.None?
    case UnknownTemplate(name) =>
      ShapeOk(catalog, q) && (FirstUnresolved(catalog, Asked(q), name) || FirstMissing(catalog, Asked(q), name))
    case NotPersisted => false
  }

  /** The dict of counts, and the ids counted more than once. */
  method CountDuplicates(declared: seq<DeclaredStage>) returns (duplicates: set<string>)
    ensures duplicates == Repeated(declared)
  {
    var counts: map<string, nat> := map[];
    ghost var ids := StageIds(declared);
    for k := 0 to |declared|
      invariant forall id :: id in counts <==> id in ids[..k]
      invariant forall id :: id in counts ==> counts[id] == Count(ids[..k], id)
    {
      var id := declared[k].stageId;
      assert ids[..k + 1] == ids[..k] + [id];
      counts := counts[id := (if id in counts then counts[id] else 0) + 1];
    }
    assert ids[..|declared|] == ids;
    duplicates := set id | id in counts && counts[id] > 1;
  }

  /** Step 5a for the stages: every `latest` pinned, or the first name without an entry. */
  method PinStages(catalog: Catalog, declared: seq<DeclaredStage>) returns (r: Result<seq<DeclaredStage>, string>)
    ensures r.Success? ==>
              && |r.value| == |declared|
              && forall k :: 0 <= k < |declared| ==> PinnedStage(catalog, declared[k], r.value[k])
    ensures r.Failure? ==> FirstUnresolved(catalog, Templates(declared), r.error)
  {
    var pinned: seq<DeclaredStage> := [];
    for i := 0 to |declared|
      invariant |pinned| == i && forall k :: 0 <= k < i ==> PinnedStage(catalog, declared[k], pinned[k])
    {
      var ref := Resolve(catalog, declared[i].template);
      ResolveExact(catalog, declared[i].template);
      if ref.None? {
        assert Templates(declared)[i] == declared[i].template;
        assert forall j :: 0 <= j < i ==> PinnedStage(catalog, declared[j], pinned[j]);
        return Failure(declared[i].template.name);
      }
      pinned := pinned + [declared[i].(template := ref.value)];
    }
    return Success(pinned);
  }

  predicate PinnedStage(catalog: Catalog, asked: DeclaredStage, pinned: DeclaredStage) {
    && pinned.stageId == asked.stageId && pinned.order == asked.order
    && Pins(catalog, asked.template, pinned.template)
  }

  /** A pinned template is known exactly if it exists. */
  lemma PinnedKnown(catalog: Catalog, asked: TemplateRef, pinned: TemplateRef)
    requires Pins(catalog, asked, pinned)
    ensures !Unresolved(catalog, asked) && (Known(catalog, asked) <==> pinned in catalog.templates)
  {
  }

  /** Step 5b for the stages: every pinned template exists, or the first that does not. */
  method CheckStages(catalog: Catalog, declared: seq<DeclaredStage>, pinned: seq<DeclaredStage>) returns (r: Option<string>)
    requires |pinned| == |declared|
    requires forall k :: 0 <= k < |declared| ==> PinnedStage(catalog, declared[k], pinned[k])
    ensures r.None? ==> forall k :: 0 <= k < |pinned| ==>
              pinned[k].template in catalog.templates && Known(catalog, declared[k].template)
    ensures r.Some? ==> FirstMissing(catalog, Templates(declared), r.value)
  {
    for i := 0 to |pinned|
      invariant forall k :: 0 <= k < i ==>
                  pinned[k].template in catalog.templates && Known(catalog, declared[k].template)
    {
      PinnedKnown(catalog, declared[i].template, pinned[i].template);
      if pinned[i].template !in catalog.templates {
        assert Templates(declared)[i] == declared[i].template;
        return Some(declared[i].template.name);
      }
    }
    return None;
  }

  /** The aggregation template, looked at in SINGLE_AGGREGATED mode only. */
  method PinAggregation(catalog: Catalog, q: BeginRequest) returns (r: Result<Option<TemplateRef>, BeginError>)
    requires ShapeOk(catalog, q)
    ensures r.Success? ==> if q.mode.PerStage? then r.value.None?
                           else r.value.Some? && Pins(catalog, q.aggregation.value, r.value.value)
    ensures r.Failure? ==> Explains(catalog, q, r.error)
  {
    if q.mode.PerStage? {
      return Success(None);
    }
    var ref := Resolve(catalog, q.aggregation.value);
    ResolveExact(catalog, q.aggregation.value);
    assert Asked(q)[0] == q.aggregation.value;
    return if ref.None? then Failure(UnknownTemplate(q.aggregation.value.name)) else Success(ref);
  }

  /** Steps 1 to 4: registry, vocabulary, duplicates, mode. */
  method ValidateShape(catalog: Catalog, q: BeginRequest) returns (refusal: Option<BeginError>)
    ensures refusal.None? <==> ShapeOk(catalog, q)
    ensures refusal.Some? ==> Explains(catalog, q, refusal.value)
  {
    if q.pipeline !in catalog.pipelines {
      return Some(UnknownPipeline);
    }
    var invalidTags := q.tags - catalog.vocabulary;
    if invalidTags != {} {
      return Some(UnknownTag(invalidTags));
    }
    assert forall t :: t in q.tags ==> t in invalidTags || t in catalog.vocabulary;
    var duplicates := CountDuplicates(q.declared);
    if duplicates != {} {
      return Some(DuplicateStages(duplicates));
    }
    if q.mode.SingleAggregated? && q.aggregation.None? {
      return Some(MissingAggregation);
    }
    return None;
  }

  ghost predicate ShapeOk(catalog: Catalog, q: BeginRequest) {
    && q.pipeline in catalog.pipelines && q.tags <= catalog.vocabulary && Repeated(q.declared) == {}
    && (q.mode.SingleAggregated? ==> q.aggregation.Some?)
  }

  /** A template looked at earlier that is in order changes nothing. */
  lemma UnresolvedAfter(catalog: Catalog, earlier: TemplateRef, refs: seq<TemplateRef>, name: string)
    requires !Unresolved(catalog, earlier) && FirstUnresolved(catalog, refs, name)
    ensures FirstUnresolved(catalog, [earlier] + refs, name)
  {
    var i :| 0 <= i < |refs| && refs[i].name == name && Unresolved(catalog, refs[i])
             && forall j :: 0 <= j < i ==> !Unresolved(catalog, refs[j]);
    var asked := [earlier] + refs;
    assert asked[i + 1] == refs[i];
    assert forall j :: 0 < j < i + 1 ==> asked[j] == refs[j - 1];
  }

  lemma MissingAfter(catalog: Catalog, earlier: TemplateRef, refs: seq<TemplateRef>, name: string)
    requires !Unresolved(catalog, earlier) && Known(catalog, earlier) && FirstMissing(catalog, refs, name)
    ensures FirstMissing(catalog, [earlier] + refs, name)
  {
    var i :| 0 <= i < |refs| && refs[i].name == name && !Known(catalog, refs[i])
             && forall j :: 0 <= j < i ==> Known(catalog, refs[j]);
    var asked := [earlier] + refs;
    assert asked[i + 1] == refs[i];
    assert forall j :: 0 < j < i + 1 ==> asked[j] == refs[j - 1];
  }

  lemma AggregationMissing(catalog: Catalog, q: BeginRequest, pinned: TemplateRef)
    requires ShapeOk(catalog, q) && q.mode.SingleAggregated?
    requires Pins(catalog, q.aggregation.value, pinned) && pinned !in catalog.templates
    requires forall k :: 0 <= k < |q.declared| ==> !Unresolved(catalog, q.declared[k].template)
    ensures FirstMissing(catalog, Asked(q), q.aggregation.value.name)
  {
    PinnedKnown(catalog, q.aggregation.value, pinned);
    assert Asked(q)[0] == q.aggregation.value;
  }

  /** Step 5b, the aggregation template before the stages. */
  method CheckExist(catalog: Catalog, q: BeginRequest, aggregation: Option<TemplateRef>, pinned: seq<DeclaredStage>)
    returns (unknown: Option<string>)
    requires ShapeOk(catalog, q) && |pinned| == |q.declared|
    requires forall k :: 0 <= k < |q.declared| ==> PinnedStage(catalog, q.declared[k], pinned[k])
    requires if q.mode.PerStage? then aggregation.None?
             else aggregation.Some? && Pins(catalog, q.aggregation.value, aggregation.value)
    ensures unknown.None? ==> Acceptable(catalog, q)
    ensures unknown.None? ==>
              && (aggregation.Some? ==> aggregation.value in catalog.templates)
              && forall k :: 0 <= k < |pinned| ==> pinned[k].template in catalog.templates
    ensures unknown.Some? ==> FirstMissing(catalog, Asked(q), unknown.value)
  {
    if aggregation.Some? {
      PinnedKnown(catalog, q.aggregation.value, aggregation.value);
    } else {
      assert Asked(q) == Templates(q.declared);
    }
    forall k | 0 <= k < |q.declared|
      ensures !Unresolved(catalog, q.declared[k].template)
    {
      PinnedKnown(catalog, q.declared[k].template, pinned[k].template);
    }
    if aggregation.Some? && aggregation.value !in catalog.templates {
      AggregationMissing(catalog, q, aggregation.value);
      return Some(q.aggregation.value.name);
    }
    unknown := CheckStages(catalog, q.declared, pinned);
    if unknown.Some? && aggregation.Some? {
      MissingAfter(catalog, q.aggregation.value, Templates(q.declared), unknown.value);
    }
  }

  /** Steps 1 to 5 of `execute`, in order. */
  method Validate(catalog: Catalog, q: BeginRequest, now: Time) returns (r: Result<RunInfo, BeginError>)
    ensures r.Success? <==> Acceptable(catalog, q)
    ensures r.Success? ==> Pinned(catalog, q, r.value) && ValidInfo(r.value) && r.value.createdAt == now
    ensures r.Failure? ==> Explains(catalog, q, r.error)
  {
    var refusal := ValidateShape(catalog, q);
    if refusal.Some? {
      return Failure(refusal.value);
    }
    var aggregation := PinAggregation(catalog, q);
    if aggregation.Failure? {
      UnknownRefuses(catalog, q, aggregation.error.name);
      return Failure(aggregation.error);
    }
    var pinned := PinStages(catalog, q.declared);
    if pinned.Failure? {
      UnresolvedStage(catalog, q, aggregation.value, pinned.error);
      UnknownRefuses(catalog, q, pinned.error);
      return Failure(UnknownTemplate(pinned.error));
    }
    var unknown := CheckExist(catalog, q, aggregation.value, pinned.value);
    if unknown.Some? {
      UnknownRefuses(catalog, q, unknown.value);
      return Failure(UnknownTemplate(unknown.value));
    }
    forall i, j | 0 <= i < j < |q.declared|
      ensures q.declared[i].stageId != q.declared[j].stageId
    {
      RepeatedExact(q.declared, q.declared[i].stageId);
    }
    return Success(RunInfo(q.pipeline, q.tags, pinned.value, q.mode, aggregation.value, now));
  }

  lemma UnresolvedStage(catalog: Catalog, q: BeginRequest, aggregation: Option<TemplateRef>, name: string)
    requires ShapeOk(catalog, q) && FirstUnresolved(catalog, Templates(q.declared), name)
    requires if q.mode.PerStage? then aggregation.None?
             else aggregation.Some? && Pins(catalog, q.aggregation.value, aggregation.value)
    ensures FirstUnresolved(catalog, Asked(q), name)
  {
    if aggregation.Some? {
      PinnedKnown(catalog, q.aggregation.value, aggregation.value);
      UnresolvedAfter(catalog, q.aggregation.value, Templates(q.declared), name);
    } else {
      assert Asked(q) == Templates(q.declared);
    }
  }

  /** Acceptable requests know every template asked for. */
  lemma AllAskedKnown(catalog: Catalog, q: BeginRequest)
    requires q.mode.SingleAggregated? ==> q.aggregation.Some? && Known(catalog, q.aggregation.value)
    requires forall ds :: ds in q.declared ==> Known(catalog, ds.template)
    ensures forall i :: 0 <= i < |Asked(q)| ==> Known(catalog, Asked(q)[i])
  {
    forall i | 0 <= i < |q.declared|
      ensures Known(catalog, Templates(q.declared)[i])
    {
      assert q.declared[i] in q.declared;
    }
  }

  lemma UnknownRefuses(catalog: Catalog, q: BeginRequest, name: string)
    requires FirstUnresolved(catalog, Asked(q), name) || FirstMissing(catalog, Asked(q), name)
    ensures !Acceptable(catalog, q)
  {
    var i :| 0 <= i < |Asked(q)| && (Unresolved(catalog, Asked(q)[i]) || !Known(catalog, Asked(q)[i]));
    ResolveExact(catalog, Asked(q)[i]);
    if Acceptable(catalog, q) {
      AllAskedKnown(catalog, q);
    }
  }

  // ---- BeginRun ------------------------------------------------------------------------------

  /** The stage rows, one statement for each declared stage. */
  method SaveStages(conn: Connection<Db>, run: string, declared: seq<DeclaredStage>) returns (ok: bool)
    requires run in conn.working.stages && conn.working.stages[run] == map[]
    modifies conn`working, conn`faults
    ensures ok ==>
              && conn.working.(stages := old(conn.working).stages) == old(conn.working)
              && conn.working.stages == old(conn.working).stages[run := InitialStages(declared)]
    ensures conn.faults == old(conn.faults) + if ok then 0 else 1
  {
    ghost var start := conn.working;
    for i := 0 to |declared|
      invariant run in conn.working.stages
      invariant conn.working.(stages := start.stages) == start
      invariant conn.working.stages == start.stages[run := InitialStages(declared[..i])]
      invariant conn.faults == old(conn.faults)
    {
      var ds := declared[i];
      ok := SaveStage(conn, run, Stage(ds.stageId, StageStates.Pending, ds.template, None, None, None, None));
      if !ok {
        return;
      }
      assert declared[..i + 1][..i] == declared[..i];
    }
    assert declared[..|declared|] == declared;
    return true;
  }

  /** Step 7: audit, run, then one row per declared stage. */
  method BeginBody(conn: Connection<Db>, run: string, info: RunInfo, now: Time) returns (ok: bool)
    requires run !in conn.working.runs && run !in conn.working.stages && ValidInfo(info) && info.createdAt == now
    modifies conn`working, conn`faults
    ensures ok ==> BeginTx(old(conn.working), run, info, now) == Success(conn.working)
    ensures conn.faults == old(conn.faults) + if ok then 0 else 1
  {
    ghost var start := conn.working;
    ok := RecordAudit(conn, BeginRun(now, run, info.pipeline, StageIds(info.declared)));
    if !ok {
      return;
    }
    ok := SaveRun(conn, run, Run(info, Initiated, now));
    if !ok {
      return;
    }
    ok := SaveStages(conn, run, info.declared);
    if ok {
      assert conn.working.stages == start.stages[run := InitialStages(info.declared)];
    }
  }

  /** An accepted request begins its run, fully or not at all; a refused one touches nothing.
      The run id is a UUID drawn for this call. */
  method Begin(policy: Policy, catalog: Catalog, conn: Connection<Db>, mutex: Lock, q: BeginRequest, run: string, now: Time)
    returns (r: Result<string, BeginError>)
    requires conn.Valid() && mutex.Valid() && !mutex.held
    requires run !in conn.committed.runs && run !in conn.committed.stages
    modifies conn, mutex
    ensures conn.Valid() && mutex.Valid() && !mutex.held
    ensures r.Success? ==>
              && r.value == run && Acceptable(catalog, q)
              && exists info :: Pinned(catalog, q, info) && info.createdAt == now
                   && Acceptance.Began(old(conn.committed), conn.committed, run, info, now)
                   && Apply(policy, old(conn.committed), Tx.Begin(run, info, now)) == Success(conn.committed)
    ensures r.Failure? ==>
              && conn.committed == old(conn.committed)
              && (r.error == NotPersisted || Explains(catalog, q, r.error))
    ensures r == Failure(NotPersisted) ==> Acceptable(catalog, q) && old(conn.faults) < conn.faults
    ensures r.Failure? && r.error != NotPersisted ==> !Acceptable(catalog, q)
  {
    var validated := Validate(catalog, q, now);
    if validated.Failure? {
      return Failure(validated.error);
    }
    var uow := new SqliteUnitOfWork(conn, mutex);
    var begun := uow.Enter();
    if begun.Failure? {
      return Failure(NotPersisted);
    }
    var ok := BeginBody(conn, run, validated.value, now);
    var left := uow.Exit(!ok);
    if !ok || left.Failure? {
      return Failure(NotPersisted);
    }
    Acceptance.BeginExact(policy, old(conn.committed), run, validated.value, now);
    return Success(run);
  }

  // ---- SubmitStageReport ------------------------------------------------------------------------

  datatype Submitted = Submitted(state: StageState, wasRetry: bool)

  /** The block of `execute`, statement by statement. */
  method SubmitBody(conn: Connection<Db>, run: string, s: Submission, now: Time) returns (r: Result<Submitted, Error>)
    modifies conn`working, conn`faults
    ensures old(conn.faults) <= conn.faults
    ensures r.Success? ==>
              && SubmitTx(old(conn.working), run, s, now) == Success(conn.working)
              && run in old(conn.working).stages && s.stageId in old(conn.working).stages[run]
              && r.value.wasRetry == !old(conn.working).stages[run][s.stageId].state.Pending?
              && r.value.state == if r.value.wasRetry then StageStates.Retried else StageStates.Submitted
    ensures r.Failure? ==>
              FailsAs(SubmitTx(old(conn.working), run, s, now), r.error, old(conn.faults) < conn.faults)
  {
    ghost var start := conn.working;
    var loaded := GetRun(conn, run);
    if loaded.Failure? {
      return Failure(loaded.error);
    }
    var row := loaded.value;
    if !Collecting(row.state) {
      return Failure(InvalidRunState(row.state));
    }
    if s.stageId !in DeclaredIds(row.info) {
      return Failure(UnknownStage);
    }
    var current := GetStage(conn, run, s.stageId);
    if current.Failure? {
      return Failure(current.error);
    }
    var stage := current.value;
    if StageStates.Terminal(stage.state) {
      return Failure(InvalidStageState(stage.state));
    }
    if !stage.state.Pending? && !stage.state.Submitted? && !stage.state.Retried? {
      return Failure(InvalidStageState(stage.state));
    }
    var wasRetry := !stage.state.Pending?;
    var nextState := if wasRetry then StageStates.Retried else StageStates.Submitted;
    var next := Stage(s.stageId, nextState, stage.template, s.report, s.body, s.position, Some(now));
    if !ValidStage(next) {
      return Failure(InvalidValue);
    }
    var moves := row.state.Initiated?;
    var ok := RecordAudit(conn, SubmitStageReport(now, run, next.stageId, stage.state, nextState, wasRetry, moves));
    if !ok {
      return Failure(Persistence);
    }
    ok := SaveStage(conn, run, next);
    if !ok {
      return Failure(Persistence);
    }
    if moves {
      var moved := UpdateState(conn, run, Aggregating, now);
      if moved.Failure? {
        return Failure(Persistence);
      }
    }
    return Success(Submitted(nextState, wasRetry));
  }

  method Submit(policy: Policy, conn: Connection<Db>, mutex: Lock, run: string, s: Submission, now: Time)
    returns (r: Result<Submitted, Error>)
    requires conn.Valid() && mutex.Valid() && !mutex.held
    modifies conn, mutex
    ensures conn.Valid() && mutex.Valid() && !mutex.held
    ensures CommitsOrNothing(policy, old(conn.committed), conn.committed, Tx.Submit(run, s, now), r,
                             old(conn.faults) < conn.faults)
    // On any store the service reaches: accepted exactly when submittable, unless the database fails.
    ensures Sound(old(conn.committed)) ==>
              && (r.Success? ==>
                    && Acceptance.Submittable(old(conn.committed), run, s)
                    && Acceptance.TookReport(old(conn.committed), conn.committed, run, s, now))
              && (r.Failure? && conn.faults == old(conn.faults) ==>
                    && !Acceptance.Submittable(old(conn.committed), run, s)
                    && Acceptance.SubmitRefused(old(conn.committed), run, s, r.error))
              && (r.Failure? && r.error != Persistence ==> !Acceptance.Submittable(old(conn.committed), run, s))
    ensures r.Success? ==>
              && r.value.wasRetry == !old(conn.committed).stages[run][s.stageId].state.Pending?
              && r.value.state == if r.value.wasRetry then StageStates.Retried else StageStates.Submitted
  {
    var uow := new SqliteUnitOfWork(conn, mutex);
    var begun := uow.Enter();
    if begun.Failure? {
      return Failure(Persistence);
    }
    r := SubmitBody(conn, run, s, now);
    var left := uow.Exit(r.Failure?);
    if left.Failure? {
      return Failure(Persistence);
    }
    if Sound(old(conn.committed)) {
      Acceptance.SubmittableIff(policy, old(conn.committed), run, s, now);
      if r.Success? {
        Acceptance.SubmitExact(policy, old(conn.committed), run, s, now);
      }
    }
  }

  // ---- FinalizeRun --------------------------------------------------------------------------------

  method FinalizeBody(conn: Connection<Db>, run: string, now: Time) returns (r: Result<(), Error>)
    modifies conn`working, conn`faults
    ensures old(conn.faults) <= conn.faults
    ensures r.Success? ==> FinalizeTx(old(conn.working), run, now) == Success(conn.working)
    ensures r.Failure? ==> FailsAs(FinalizeTx(old(conn.working), run, now), r.error, old(conn.faults) < conn.faults)
  {
    var loaded := GetRun(conn, run);
    if loaded.Failure? {
      return Failure(loaded.error);
    }
    if !loaded.value.state.Aggregating? {
      return Failure(InvalidRunState(loaded.value.state));
    }
    var ok := RecordAudit(conn, FinalizeRun(now, run, Aggregating, Ready));
    if !ok {
      return Failure(Persistence);
    }
    var moved := UpdateState(conn, run, Ready, now);
    return if moved.Failure? then Failure(Persistence) else Success(());
  }

  /** The delivery tasks handed to the background scheduler. */
  class Scheduler {
    var scheduled: seq<string>

    constructor ()
      ensures scheduled == []
    {
      scheduled := [];
    }

    method Schedule(run: string)
      modifies this
      ensures scheduled == old(scheduled) + [run]
    {
      scheduled := scheduled + [run];
    }
  }

  /** A delivery is scheduled exactly when the run's READY state is durable, never before. */
  method Finalize(policy: Policy, conn: Connection<Db>, mutex: Lock, scheduler: Scheduler, run: string, now: Time)
    returns (r: Result<(), Error>)
    requires conn.Valid() && mutex.Valid() && !mutex.held
    modifies conn, mutex, scheduler
    ensures conn.Valid() && mutex.Valid() && !mutex.held
    ensures CommitsOrNothing(policy, old(conn.committed), conn.committed, Tx.Finalize(run, now), r,
                             old(conn.faults) < conn.faults)
    ensures scheduler.scheduled == old(scheduler.scheduled) + if r.Success? then [run] else []
    ensures r.Success? ==> run in conn.committed.runs && conn.committed.runs[run].state.Ready?
  {
    var uow := new SqliteUnitOfWork(conn, mutex);
    var begun := uow.Enter();
    if begun.Failure? {
      return Failure(Persistence);
    }
    r := FinalizeBody(conn, run, now);
    var left := uow.Exit(r.Failure?);
    if left.Failure? {
      return Failure(Persistence);
    }
    if r.Success? {
      scheduler.Schedule(run);
    }
  }
}
