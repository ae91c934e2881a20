/** What an email contains, read off a run's declaration and stage rows alone. */
module EmailContent {
  import opened Wrappers
  import opened Sequences
  import opened Database
  import opened Assembly
  import StageStates

  // ---- The stages that take part --------------------------------------------------------------

  /** The order declared for this id, by its last declaration; 0 when there is none. */
  predicate OrderIs(declared: seq<DeclaredStage>, id: string, order: nat) {
    || (order == 0 && forall i :: 0 <= i < |declared| ==> declared[i].stageId != id)
    || (exists i :: 0 <= i < |declared| && declared[i].stageId == id && declared[i].order == order
          && forall j :: i < j < |declared| ==> declared[j].stageId != id)
  }

  function Members(rows: seq<Stage>): set<Stage> {
    set s | s in rows
  }

  predicate TakesPart(s: Stage) {
    s.state == StageStates.Submitted || s.state == StageStates.Retried || s.state == StageStates.Accepted
  }

  /** A row that takes part, with its declared order. */
  datatype Place = Place(row: Stage, order: nat)

  predicate PlaceBefore(a: Place, b: Place) {
    a.order < b.order || (a.order == b.order && StringLess(a.row.stageId, b.row.stageId))
  }

  /** The rows of the table that take part, each once, by order and then by id. */
  ghost predicate InPlace(info: RunInfo, table: set<Stage>, places: seq<Place>) {
    && (forall s :: s in table && TakesPart(s) <==> exists i :: 0 <= i < |places| && places[i].row == s)
    && (forall i :: 0 <= i < |places| ==> OrderIs(info.declared, places[i].row.stageId, places[i].order))
    && (forall i, j :: 0 <= i < j < |places| ==> PlaceBefore(places[i], places[j]))
  }

  /** A row's own report under its own template; nothing without a report. */
  predicate RendersTo(cfg: Rendering, s: Stage, html: string) {
    match s.report
    case None => html == ""
    case Some(report) => cfg.render(s.template, StageContext(report)) == Success(html)
  }

  ghost predicate Renderable(cfg: Rendering, s: Stage) {
    exists html :: RendersTo(cfg, s, html)
  }

  ghost predicate AllRender(cfg: Rendering, places: seq<Place>, htmls: seq<string>) {
    |htmls| == |places| && forall i :: 0 <= i < |places| ==> RendersTo(cfg, places[i].row, htmls[i])
  }

  // ---- Picking some of them --------------------------------------------------------------------

  predicate Ascending(picked: seq<nat>) {
    forall j, k :: 0 <= j < k < |picked| ==> picked[j] < picked[k]
  }

  /** `picked` are, in order, the indices below `n` that are in `chosen`. */
  ghost predicate Picks(n: nat, chosen: set<nat>, picked: seq<nat>) {
    Ascending(picked) && forall i: nat :: i in picked <==> i < n && i in chosen
  }

  function NonBlank(htmls: seq<string>): set<nat> {
    set i: nat | i < |htmls| && !Blank(htmls[i])
  }

  function AtPosition(places: seq<Place>, p: Position): set<nat> {
    set i: nat | i < |places| && places[i].row.position == Some(p)
  }

  // ---- The email -------------------------------------------------------------------------------

  /** One attachment for each stage whose rendering is not blank, in order. */
  ghost predicate StageAttachments(run: string, info: RunInfo, places: seq<Place>, htmls: seq<string>, attachments: seq<Attachment>)
    requires |htmls| == |places|
  {
    exists picked :: Picks(|htmls|, NonBlank(htmls), picked) && AttachedBy(run, info, places, htmls, picked, attachments)
  }

  predicate AttachedBy(run: string, info: RunInfo, places: seq<Place>, htmls: seq<string>, picked: seq<nat>,
                       attachments: seq<Attachment>)
    requires |htmls| == |places|
  {
    |attachments| == |picked| && forall k :: 0 <= k < |picked| ==>
      && picked[k] < |htmls| && attachments[k].content == htmls[picked[k]]
      && attachments[k].filename == Filename(info.pipeline, run, Some(places[picked[k]].row.stageId))
  }

  ghost predicate SectionsAre(places: seq<Place>, htmls: seq<string>, sections: seq<Section>)
    requires |htmls| == |places|
  {
    |sections| == |places| && forall i :: 0 <= i < |places| ==>
      sections[i].stageId == places[i].row.stageId && sections[i].order == places[i].order && sections[i].html == htmls[i]
  }

  /** The aggregation template's rendering of all sections in order. */
  ghost predicate AggregatedAs(cfg: Rendering, run: string, info: RunInfo, places: seq<Place>, htmls: seq<string>,
                               r: Result<string, RenderError>)
    requires |htmls| == |places|
  {
    match info.aggregation
    case None => r == Failure(Unexpected)
    case Some(template) =>
      exists sections :: SectionsAre(places, htmls, sections)
        && cfg.render(template, AggregationContext(run, info.pipeline, info.tags, info.createdAt, sections)) == r
  }

  ghost predicate AttachmentsAre(cfg: Rendering, run: string, info: RunInfo, places: seq<Place>, htmls: seq<string>,
                                 attachments: seq<Attachment>)
    requires |htmls| == |places|
  {
    match info.mode
    case PerStage => StageAttachments(run, info, places, htmls, attachments)
    case SingleAggregated =>
      && |attachments| == 1 && attachments[0].filename == Filename(info.pipeline, run, None)
      && AggregatedAs(cfg, run, info, places, htmls, Success(attachments[0].content))
  }

  ghost predicate SummariesAre(places: seq<Place>, htmls: seq<string>, summaries: seq<StageSummary>)
    requires |htmls| == |places|
  {
    |summaries| == |places| && forall i :: 0 <= i < |places| ==>
      && summaries[i].stageId == places[i].row.stageId && summaries[i].order == places[i].order
      && (summaries[i].hadContent <==> !Blank(htmls[i]))
  }

  /** The body contributions meant for this position, in order. */
  ghost predicate ContributionsAre(places: seq<Place>, p: Position, cs: seq<Contribution>) {
    exists picked :: Picks(|places|, AtPosition(places, p), picked) && ContributedBy(places, picked, cs)
  }

  predicate ContributedBy(places: seq<Place>, picked: seq<nat>, cs: seq<Contribution>) {
    |cs| == |picked| && forall k :: 0 <= k < |picked| ==>
      && picked[k] < |places|
      && cs[k].stageId == places[picked[k]].row.stageId && cs[k].order == places[picked[k]].order
      && cs[k].context == places[picked[k]].row.body
  }

  ghost predicate BodyContextIs(run: string, info: RunInfo, places: seq<Place>, htmls: seq<string>, context: Context)
    requires |htmls| == |places|
  {
    && context.BodyContext? && context.run == run && context.pipeline == info.pipeline && context.tags == info.tags
    && context.createdAt == info.createdAt && context.mode == info.mode
    && SummariesAre(places, htmls, context.summaries)
    && ContributionsAre(places, BeforeStagesSummary, context.before)
    && ContributionsAre(places, AfterStagesSummary, context.after)
  }

  /** The pipeline's own body template if it has one, else the default. */
  ghost predicate BodyRendersAs(cfg: Rendering, run: string, info: RunInfo, places: seq<Place>, htmls: seq<string>,
                                r: Result<string, RenderError>)
    requires |htmls| == |places|
  {
    exists context :: BodyContextIs(run, info, places, htmls, context)
      && (if info.pipeline in cfg.bodyOverrides then cfg.render(cfg.bodyOverrides[info.pipeline], context) == r
          else cfg.render(cfg.bodyTemplate, context) == r)
  }

  /** The email of a run with this declaration and this stage table. */
  ghost predicate Presents(cfg: Rendering, run: string, info: RunInfo, table: set<Stage>, email: Email) {
    exists places, htmls ::
      && InPlace(info, table, places) && AllRender(cfg, places, htmls)
      && email.subject == cfg.subject(info.pipeline, run)
      && AttachmentsAre(cfg, run, info, places, htmls, email.attachments)
      && BodyRendersAs(cfg, run, info, places, htmls, Success(email.body))
  }

  /** Row `k` is the first that does not render. */
  ghost predicate StageFails(cfg: Rendering, places: seq<Place>, k: nat, e: RenderError) {
    && k < |places| && places[k].row.report.Some?
    && cfg.render(places[k].row.template, StageContext(places[k].row.report.value)) == Failure(e)
    && forall i :: 0 <= i < k ==> Renderable(cfg, places[i].row)
  }

  /** No email: the first of the stages in order, then the attachment, then the body, that does
      not render, with its error. */
  ghost predicate Fails(cfg: Rendering, run: string, info: RunInfo, table: set<Stage>, e: RenderError) {
    exists places ::
      InPlace(info, table, places) &&
      ( || (exists k: nat :: StageFails(cfg, places, k, e))
        || (exists htmls :: AllRender(cfg, places, htmls) && LaterFails(cfg, run, info, places, htmls, e)))
  }

  ghost predicate LaterFails(cfg: Rendering, run: string, info: RunInfo, places: seq<Place>, htmls: seq<string>, e: RenderError)
    requires |htmls| == |places|
  {
    if info.mode.SingleAggregated? && AggregatedAs(cfg, run, info, places, htmls, Failure(e)) then true
    else BodyRendersAs(cfg, run, info, places, htmls, Failure(e))
         && (info.mode.SingleAggregated? ==> exists html :: AggregatedAs(cfg, run, info, places, htmls, Success(html)))
  }

  // ---- Places ------------------------------------------------------------------------------------

  lemma {:induction false} OrderOfIs(declared: seq<DeclaredStage>, id: string)
    ensures OrderIs(declared, id, OrderOf(declared, id))
  {
    if declared != [] {
      var n := |declared| - 1;
      OrderOfIs(declared[..n], id);
      if declared[n].stageId != id && !(forall i :: 0 <= i < n ==> declared[..n][i].stageId != id) {
        var i :| 0 <= i < n && declared[..n][i].stageId == id && declared[..n][i].order == OrderOf(declared[..n], id)
                 && forall j :: i < j < n ==> declared[..n][j].stageId != id;
        assert declared[i] == declared[..n][i];
        assert forall j :: i < j < n ==> declared[j] == declared[..n][j];
      }
    }
  }

  lemma OrderUnique(declared: seq<DeclaredStage>, id: string, a: nat, b: nat)
    requires OrderIs(declared, id, a) && OrderIs(declared, id, b)
    ensures a == b
  {
  }

  function PlacesOf(info: RunInfo, stages: seq<Stage>): (places: seq<Place>)
    ensures |places| == |stages|
    ensures forall i :: 0 <= i < |places| ==> places[i] == Place(stages[i], OrderOf(info.declared, stages[i].stageId))
  {
    seq(|stages|, i requires 0 <= i < |stages| => Place(stages[i], OrderOf(info.declared, stages[i].stageId)))
  }

  lemma PresentedInPlace(info: RunInfo, rows: seq<Stage>)
    requires Keyed(rows)
    ensures InPlace(info, Members(rows), PlacesOf(info, Presented(info, rows)))
  {
    var stages := Presented(info, rows);
    var places := PlacesOf(info, stages);
    PresentedExact(info, rows);
    forall s | s in rows && TakesPart(s)
      ensures exists i :: 0 <= i < |places| && places[i].row == s
    {
      var i :| 0 <= i < |stages| && stages[i] == s;
      assert places[i].row == s;
    }
    forall i | 0 <= i < |places|
      ensures places[i].row in rows && TakesPart(places[i].row)
      ensures OrderIs(info.declared, places[i].row.stageId, places[i].order)
    {
      assert stages[i] in stages;
      OrderOfIs(info.declared, stages[i].stageId);
    }
    forall i, j | 0 <= i < j < |places|
      ensures PlaceBefore(places[i], places[j])
    {
      assert PresentedBefore(info, stages[i], stages[j]);
    }
  }

  lemma SamePlaceIn(info: RunInfo, table: set<Stage>, a: seq<Place>, b: seq<Place>, x: Place)
    requires InPlace(info, table, a) && InPlace(info, table, b) && x in a
    ensures x in b
  {
    var i :| 0 <= i < |a| && a[i] == x;
    assert x.row in table && TakesPart(x.row);
    var j :| 0 <= j < |b| && b[j].row == x.row;
    OrderUnique(info.declared, x.row.stageId, a[i].order, b[j].order);
    assert b[j] == x;
  }

  /** There is one such list of places. */
  lemma PlacesUnique(info: RunInfo, table: set<Stage>, a: seq<Place>, b: seq<Place>)
    requires InPlace(info, table, a) && InPlace(info, table, b)
    ensures a == b
  {
    var before := (x: Place, y: Place) => PlaceBefore(x, y);
    forall x
      ensures x in a <==> x in b
    {
      if x in a { SamePlaceIn(info, table, a, b, x); }
      if x in b { SamePlaceIn(info, table, b, a, x); }
    }
    forall x, y
      ensures !(before(x, y) && before(y, x))
    {
      StringLessTotal(x.row.stageId, y.row.stageId);
    }
    AscendingUnique(a, b, before);
  }

  // ---- Picks -------------------------------------------------------------------------------------

  lemma PicksUnique(n: nat, chosen: set<nat>, a: seq<nat>, b: seq<nat>)
    requires Picks(n, chosen, a) && Picks(n, chosen, b)
    ensures a == b
  {
    AscendingUnique(a, b, (x: nat, y: nat) => x < y);
  }

  /** The picked are those `f` keeps, and collecting lists what it makes of them. */
  predicate Collected<T, U(==)>(s: seq<T>, f: T -> Option<U>, us: seq<U>, picked: seq<nat>) {
    && Ascending(picked) && |us| == |picked|
    && forall k :: 0 <= k < |picked| ==> picked[k] < |s| && f(s[picked[k]]) == Some(us[k])
  }

  ghost predicate PickedAll<T, U>(s: seq<T>, f: T -> Option<U>, picked: seq<nat>) {
    forall i: nat :: i in picked <==> i < |s| && f(s[i]).Some?
  }

  lemma OneMorePicked<T, U>(s: seq<T>, f: T -> Option<U>, us: seq<U>, before: seq<nat>)
    requires s != [] && Collected(s[..|s| - 1], f, us, before) && PickedAll(s[..|s| - 1], f, before)
    ensures var n := |s| - 1;
            if f(s[n]).Some? then Collected(s, f, us + [f(s[n]).value], before + [n]) && PickedAll(s, f, before + [n])
            else Collected(s, f, us, before) && PickedAll(s, f, before)
  {
    var n := |s| - 1;
    forall k | 0 <= k < |before|
      ensures before[k] < n && f(s[before[k]]) == Some(us[k])
    {
      assert s[..n][before[k]] == s[before[k]];
    }
    forall i: nat | i < n
      ensures i in before <==> f(s[i]).Some?
    {
      assert s[..n][i] == s[i];
    }
  }

  /** Collecting is picking. */
  lemma {:induction false} CollectPicks<T, U>(s: seq<T>, f: T -> Option<U>) returns (picked: seq<nat>)
    ensures Collected(s, f, Collect(s, f), picked) && PickedAll(s, f, picked)
  {
    picked := [];
    if s != [] {
      var n := |s| - 1;
      picked := CollectPicks(s[..n], f);
      OneMorePicked(s, f, Collect(s[..n], f), picked);
      if f(s[n]).Some? {
        picked := picked + [n];
      }
    }
  }

  // ---- Fragments ---------------------------------------------------------------------------------

  /** The fragments carry these places and renderings. */
  predicate Carry(places: seq<Place>, htmls: seq<string>, fragments: seq<Fragment>) {
    && |htmls| == |places| == |fragments|
    && forall i :: 0 <= i < |places| ==>
         fragments[i] == Fragment(places[i].row.stageId, places[i].order, htmls[i], places[i].row.body, places[i].row.position)
  }

  lemma StageAttachmentsExact(run: string, info: RunInfo, places: seq<Place>, htmls: seq<string>,
                              fragments: seq<Fragment>, attachments: seq<Attachment>)
    requires Carry(places, htmls, fragments)
    ensures StageAttachments(run, info, places, htmls, attachments)
       <==> attachments == Collect(fragments, StageAttachment(info, run))
  {
    var f := StageAttachment(info, run);
    var collected := Collect(fragments, f);
    var picked := CollectPicks(fragments, f);
    assert Picks(|htmls|, NonBlank(htmls), picked);
    assert AttachedBy(run, info, places, htmls, picked, collected);
    if StageAttachments(run, info, places, htmls, attachments) {
      var other :| Picks(|htmls|, NonBlank(htmls), other) && AttachedBy(run, info, places, htmls, other, attachments);
      PicksUnique(|htmls|, NonBlank(htmls), picked, other);
      assert forall k :: 0 <= k < |attachments| ==> attachments[k] == collected[k];
    }
  }

  lemma BucketContributes(places: seq<Place>, htmls: seq<string>, fragments: seq<Fragment>, p: Position)
    returns (picked: seq<nat>)
    requires Carry(places, htmls, fragments)
    ensures Picks(|places|, AtPosition(places, p), picked) && ContributedBy(places, picked, Bucket(fragments, p))
  {
    var f := ContributionAt(p);
    picked := CollectPicks(fragments, f);
    forall i: nat
      ensures i in picked <==> i in AtPosition(places, p)
    {
      if i < |fragments| {
        assert f(fragments[i]).Some? <==> places[i].row.position == Some(p);
      }
    }
  }

  lemma ContributionsExact(places: seq<Place>, htmls: seq<string>, fragments: seq<Fragment>, p: Position, cs: seq<Contribution>)
    requires Carry(places, htmls, fragments)
    ensures ContributionsAre(places, p, cs) <==> cs == Bucket(fragments, p)
  {
    var picked := BucketContributes(places, htmls, fragments, p);
    if ContributionsAre(places, p, cs) {
      var other :| Picks(|places|, AtPosition(places, p), other) && ContributedBy(places, other, cs);
      PicksUnique(|places|, AtPosition(places, p), picked, other);
      assert forall k :: 0 <= k < |cs| ==> cs[k] == Bucket(fragments, p)[k];
    }
  }

  lemma SectionsExact(places: seq<Place>, htmls: seq<string>, fragments: seq<Fragment>, sections: seq<Section>)
    requires Carry(places, htmls, fragments)
    ensures SectionsAre(places, htmls, sections) <==> sections == Sections(fragments)
  {
    if SectionsAre(places, htmls, sections) {
      assert forall i :: 0 <= i < |sections| ==> sections[i] == Sections(fragments)[i];
    }
  }

  lemma SummariesExact(places: seq<Place>, htmls: seq<string>, fragments: seq<Fragment>, summaries: seq<StageSummary>)
    requires Carry(places, htmls, fragments)
    ensures SummariesAre(places, htmls, summaries) <==> summaries == Summaries(fragments)
  {
    if SummariesAre(places, htmls, summaries) {
      assert forall i :: 0 <= i < |summaries| ==> summaries[i] == Summaries(fragments)[i];
    }
  }

  function BodyContextOf(run: string, info: RunInfo, fragments: seq<Fragment>): Context {
    BodyContext(run, info.pipeline, info.tags, info.createdAt, Summaries(fragments), info.mode,
                Bucket(fragments, BeforeStagesSummary), Bucket(fragments, AfterStagesSummary))
  }

  lemma BodyContextExact(run: string, info: RunInfo, places: seq<Place>, htmls: seq<string>, fragments: seq<Fragment>,
                         context: Context)
    requires Carry(places, htmls, fragments)
    ensures BodyContextIs(run, info, places, htmls, context) <==> context == BodyContextOf(run, info, fragments)
  {
    if context.BodyContext? {
      SummariesExact(places, htmls, fragments, context.summaries);
      ContributionsExact(places, htmls, fragments, BeforeStagesSummary, context.before);
      ContributionsExact(places, htmls, fragments, AfterStagesSummary, context.after);
    }
  }

  lemma BodyExact(cfg: Rendering, run: string, info: RunInfo, places: seq<Place>, htmls: seq<string>,
                  fragments: seq<Fragment>, r: Result<string, RenderError>)
    requires Carry(places, htmls, fragments)
    ensures BodyRendersAs(cfg, run, info, places, htmls, r) <==> Body(cfg, run, info, fragments) == r
  {
    BodyContextExact(run, info, places, htmls, fragments, BodyContextOf(run, info, fragments));
    if BodyRendersAs(cfg, run, info, places, htmls, r) {
      var context :| BodyContextIs(run, info, places, htmls, context)
        && (if info.pipeline in cfg.bodyOverrides then cfg.render(cfg.bodyOverrides[info.pipeline], context) == r
            else cfg.render(cfg.bodyTemplate, context) == r);
      BodyContextExact(run, info, places, htmls, fragments, context);
    }
  }

  lemma AggregatedExact(cfg: Rendering, run: string, info: RunInfo, places: seq<Place>, htmls: seq<string>,
                        fragments: seq<Fragment>, r: Result<string, RenderError>)
    requires Carry(places, htmls, fragments) && info.aggregation.Some?
    ensures AggregatedAs(cfg, run, info, places, htmls, r) <==>
            cfg.render(info.aggregation.value,
                       AggregationContext(run, info.pipeline, info.tags, info.createdAt, Sections(fragments))) == r
  {
    SectionsExact(places, htmls, fragments, Sections(fragments));
    if AggregatedAs(cfg, run, info, places, htmls, r) {
      var sections :| SectionsAre(places, htmls, sections)
        && cfg.render(info.aggregation.value,
                      AggregationContext(run, info.pipeline, info.tags, info.createdAt, sections)) == r;
      SectionsExact(places, htmls, fragments, sections);
    }
  }

  lemma AttachmentsExact(cfg: Rendering, run: string, info: RunInfo, places: seq<Place>, htmls: seq<string>,
                         fragments: seq<Fragment>, attachments: seq<Attachment>)
    requires Carry(places, htmls, fragments)
    ensures AttachmentsAre(cfg, run, info, places, htmls, attachments)
       <==> Attachments(cfg, run, info, fragments) == Success(attachments)
  {
    if info.mode.PerStage? {
      StageAttachmentsExact(run, info, places, htmls, fragments, attachments);
    } else if info.aggregation.Some? && |attachments| == 1 {
      AggregatedExact(cfg, run, info, places, htmls, fragments, Success(attachments[0].content));
      assert attachments == [Attachment(attachments[0].filename, attachments[0].content)];
    }
  }

  lemma LaterFailsExact(cfg: Rendering, run: string, info: RunInfo, places: seq<Place>, htmls: seq<string>,
                        fragments: seq<Fragment>, e: RenderError)
    requires Carry(places, htmls, fragments)
    ensures LaterFails(cfg, run, info, places, htmls, e) <==>
              var attachments := Attachments(cfg, run, info, fragments);
              attachments == Failure(e)
              || (attachments.Success? && Body(cfg, run, info, fragments) == Failure(e))
  {
    BodyExact(cfg, run, info, places, htmls, fragments, Failure(e));
    if info.mode.SingleAggregated? && info.aggregation.Some? {
      AggregatedExact(cfg, run, info, places, htmls, fragments, Failure(e));
      var r := cfg.render(info.aggregation.value,
                          AggregationContext(run, info.pipeline, info.tags, info.createdAt, Sections(fragments)));
      if r.Success? {
        AggregatedExact(cfg, run, info, places, htmls, fragments, r);
      }
      forall html
        ensures AggregatedAs(cfg, run, info, places, htmls, Success(html)) <==> r == Success(html)
      {
        AggregatedExact(cfg, run, info, places, htmls, fragments, Success(html));
      }
    }
  }

  // ---- Rendering the stages ------------------------------------------------------------------------

  lemma HtmlExact(cfg: Rendering, s: Stage, html: string)
    ensures RendersTo(cfg, s, html) <==> Html(cfg, s) == Success(html)
    ensures Html(cfg, s).Failure? ==> s.report.Some? && cfg.render(s.template, StageContext(s.report.value)) == Html(cfg, s)
  {
  }

  lemma {:induction false} RenderAllExact(cfg: Rendering, info: RunInfo, stages: seq<Stage>, htmls: seq<string>)
    requires AllRender(cfg, PlacesOf(info, stages), htmls)
    ensures RenderAll(cfg, info, stages).Success?
    ensures Carry(PlacesOf(info, stages), htmls, RenderAll(cfg, info, stages).value)
  {
    if stages != [] {
      var n := |stages| - 1;
      var places := PlacesOf(info, stages);
      assert forall i :: 0 <= i < n ==> PlacesOf(info, stages[..n])[i] == places[i];
      RenderAllExact(cfg, info, stages[..n], htmls[..n]);
      HtmlExact(cfg, stages[n], htmls[n]);
      assert RendersTo(cfg, places[n].row, htmls[n]);
    }
  }

  lemma {:induction false} RenderAllFails(cfg: Rendering, info: RunInfo, stages: seq<Stage>) returns (k: nat)
    requires RenderAll(cfg, info, stages).Failure?
    ensures StageFails(cfg, PlacesOf(info, stages), k, RenderAll(cfg, info, stages).error)
  {
    var n := |stages| - 1;
    var places, before := PlacesOf(info, stages), RenderAll(cfg, info, stages[..n]);
    assert forall i :: 0 <= i < n ==> PlacesOf(info, stages[..n])[i] == places[i];
    if before.Failure? {
      k := RenderAllFails(cfg, info, stages[..n]);
      forall i | 0 <= i < k
        ensures Renderable(cfg, places[i].row)
      {
        assert Renderable(cfg, PlacesOf(info, stages[..n])[i].row);
      }
    } else {
      k := n;
      HtmlExact(cfg, stages[n], "");
      RenderAllPointwise(cfg, info, stages[..n]);
      forall i | 0 <= i < n
        ensures Renderable(cfg, places[i].row)
      {
        assert Html(cfg, stages[..n][i]).Success?;
        HtmlExact(cfg, stages[i], Html(cfg, stages[i]).value);
        assert RendersTo(cfg, places[i].row, Html(cfg, stages[i]).value);
      }
    }
  }

  /** What the rendered stages render to. */
  lemma Rendered(cfg: Rendering, info: RunInfo, stages: seq<Stage>) returns (htmls: seq<string>)
    requires RenderAll(cfg, info, stages).Success?
    ensures AllRender(cfg, PlacesOf(info, stages), htmls)
    ensures Carry(PlacesOf(info, stages), htmls, RenderAll(cfg, info, stages).value)
  {
    var fragments := RenderAll(cfg, info, stages).value;
    RenderAllPointwise(cfg, info, stages);
    htmls := seq(|fragments|, i requires 0 <= i < |fragments| => fragments[i].html);
    forall i | 0 <= i < |stages|
      ensures RendersTo(cfg, stages[i], htmls[i])
    {
      HtmlExact(cfg, stages[i], htmls[i]);
    }
  }

  // ---- The whole email -----------------------------------------------------------------------------

  lemma ComposedPresents(cfg: Rendering, run: string, info: RunInfo, rows: seq<Stage>, email: Email)
    requires Keyed(rows) && Compose(cfg, run, info, rows) == Success(email)
    ensures Presents(cfg, run, info, Members(rows), email)
  {
    var stages := Presented(info, rows);
    var places, fragments := PlacesOf(info, stages), RenderAll(cfg, info, stages).value;
    PresentedInPlace(info, rows);
    var htmls := Rendered(cfg, info, stages);
    AttachmentsExact(cfg, run, info, places, htmls, fragments, email.attachments);
    BodyExact(cfg, run, info, places, htmls, fragments, Success(email.body));
  }

  lemma PresentedComposes(cfg: Rendering, run: string, info: RunInfo, rows: seq<Stage>, email: Email)
    requires Keyed(rows) && Presents(cfg, run, info, Members(rows), email)
    ensures Compose(cfg, run, info, rows) == Success(email)
  {
    var table := Members(rows);
    var places, htmls :|
      && InPlace(info, table, places) && AllRender(cfg, places, htmls)
      && email.subject == cfg.subject(info.pipeline, run)
      && AttachmentsAre(cfg, run, info, places, htmls, email.attachments)
      && BodyRendersAs(cfg, run, info, places, htmls, Success(email.body));
    var stages := Presented(info, rows);
    PresentedInPlace(info, rows);
    PlacesUnique(info, table, places, PlacesOf(info, stages));
    RenderAllExact(cfg, info, stages, htmls);
    var fragments := RenderAll(cfg, info, stages).value;
    AttachmentsExact(cfg, run, info, places, htmls, fragments, email.attachments);
    BodyExact(cfg, run, info, places, htmls, fragments, Success(email.body));
  }

  /** The composed email, and when there is one: the subject of the run; one attachment for each
      stage with a non-blank rendering, or the one aggregated file; the body rendered from a
      summary for each stage and the contributions meant for before and for after. */
  lemma EmailExact(cfg: Rendering, run: string, info: RunInfo, rows: seq<Stage>, email: Email)
    requires Keyed(rows)
    ensures Compose(cfg, run, info, rows) == Success(email) <==> Presents(cfg, run, info, Members(rows), email)
  {
    if Compose(cfg, run, info, rows) == Success(email) {
      ComposedPresents(cfg, run, info, rows, email);
    }
    if Presents(cfg, run, info, Members(rows), email) {
      PresentedComposes(cfg, run, info, rows, email);
    }
  }

  /** When there is none, the first rendering that fails says why. */
  lemma ErrorExact(cfg: Rendering, run: string, info: RunInfo, rows: seq<Stage>)
    requires Keyed(rows) && Compose(cfg, run, info, rows).Failure?
    ensures Fails(cfg, run, info, Members(rows), Compose(cfg, run, info, rows).error)
  {
    var e := Compose(cfg, run, info, rows).error;
    var stages := Presented(info, rows);
    var places := PlacesOf(info, stages);
    PresentedInPlace(info, rows);
    if RenderAll(cfg, info, stages).Failure? {
      var k := RenderAllFails(cfg, info, stages);
      assert StageFails(cfg, places, k, e);
    } else {
      var htmls := Rendered(cfg, info, stages);
      LaterFailsExact(cfg, run, info, places, htmls, RenderAll(cfg, info, stages).value, e);
    }
  }
}
