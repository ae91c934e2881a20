/** Assembling a run's email from its stage rows (assemble_and_deliver.py): which stages take
    part, in which order, what is attached, and where body contributions go. */
module Assembly {
  import opened Wrappers
  import opened Sequences
  import opened Database
  import StageStates

  // ---- Values ----------------------------------------------------------------------

  datatype Fragment = Fragment(
    stageId: string, order: nat, html: string, body: Option<string>, position: Option<Position>)

  datatype Contribution = Contribution(stageId: string, order: nat, context: Option<string>)

  datatype Section = Section(stageId: string, order: nat, html: string)

  datatype StageSummary = StageSummary(stageId: string, order: nat, hadContent: bool)

  datatype Attachment = Attachment(filename: string, content: string)

  datatype Email = Email(subject: string, body: string, attachments: seq<Attachment>)

  /** What a template is rendered with. */
  datatype Context =
    | StageContext(json: string)
    | AggregationContext(run: string, pipeline: string, tags: set<string>, createdAt: Time, sections: seq<Section>)
    | BodyContext(run: string, pipeline: string, tags: set<string>, createdAt: Time,
                  summaries: seq<StageSummary>, mode: AttachmentMode,
                  before: seq<Contribution>, after: seq<Contribution>)

  /** The four error classes the delivery task catches, and anything else. */
  datatype RenderError = TemplateFailed | RenderedTooLarge | ContextTooLarge | ContextInvalid | Unexpected

  /** The renderer is a deterministic function of template and context; templates and
      subjects come from the configuration. */
  datatype Rendering = Rendering(
    render: (TemplateRef, Context) -> Result<string, RenderError>,
    bodyTemplate: TemplateRef, bodyOverrides: map<string, TemplateRef>,
    subject: (string, string) -> string)

  // ---- Order and selection -----------------------------------------------------------

  /** The dict built from the declared stages, 0 for an undeclared id. */
  function OrderOf(declared: seq<DeclaredStage>, id: string): nat {
    if declared == [] then 0
    else
      var last := declared[|declared| - 1];
      if last.stageId == id then last.order else OrderOf(declared[..|declared| - 1], id)
  }

  predicate KeyBefore(order1: nat, id1: string, order2: nat, id2: string) {
    order1 < order2 || (order1 == order2 && StringLess(id1, id2))
  }

  predicate PresentedBefore(info: RunInfo, a: Stage, b: Stage) {
    KeyBefore(OrderOf(info.declared, a.stageId), a.stageId, OrderOf(info.declared, b.stageId), b.stageId)
  }

  function ByStageOrder(info: RunInfo): (Stage, Stage) -> bool {
    (a: Stage, b: Stage) => PresentedBefore(info, a, b)
  }

  function Contributing(): Stage -> Option<Stage> {
    (s: Stage) => if StageStates.Contributes(s.state) then Some(s) else None
  }

  /** The stages that take part, in presentation order. */
  function Presented(info: RunInfo, rows: seq<Stage>): seq<Stage> {
    Sort(Collect(rows, Contributing()), ByStageOrder(info))
  }

  // ---- Fragments -------------------------------------------------------------------

  function Html(cfg: Rendering, s: Stage): Result<string, RenderError> {
    if s.report.None? then Success("") else cfg.render(s.template, StageContext(s.report.value))
  }

  function FragmentOf(info: RunInfo, s: Stage, html: string): Fragment {
    Fragment(s.stageId, OrderOf(info.declared, s.stageId), html, s.body, s.position)
  }

  /** Every stage rendered, or the first error. */
  function RenderAll(cfg: Rendering, info: RunInfo, stages: seq<Stage>): Result<seq<Fragment>, RenderError> {
    if stages == [] then Success([])
    else
      var n := |stages| - 1;
      var before :- RenderAll(cfg, info, stages[..n]);
      var html :- Html(cfg, stages[n]);
      Success(before + [FragmentOf(info, stages[n], html)])
  }

  function Fragments(cfg: Rendering, info: RunInfo, rows: seq<Stage>): Result<seq<Fragment>, RenderError> {
    RenderAll(cfg, info, Presented(info, rows))
  }

  // ---- Attachments -----------------------------------------------------------------

  predicate IsSpace(c: char) {
    var n := c as int;
    || 9 <= n <= 13 || 28 <= n <= 32 || n == 0x85 || n == 0xA0 || n == 0x1680
    || 0x2000 <= n <= 0x200A || n == 0x2028 || n == 0x2029 || n == 0x202F || n == 0x205F || n == 0x3000
  }

  /** `not html.strip()`. */
  predicate Blank(html: string) {
    forall i :: 0 <= i < |html| ==> IsSpace(html[i])
  }

  predicate SafeChar(c: char) {
    'a' <= c <= 'z' || 'A' <= c <= 'Z' || '0' <= c <= '9' || c == '.' || c == '_' || c == '-'
  }

  function Sanitize(s: string): (r: string)
    ensures |r| == |s| && forall i :: 0 <= i < |r| ==> r[i] == if SafeChar(s[i]) then s[i] else '_'
  {
    seq(|s|, i requires 0 <= i < |s| => if SafeChar(s[i]) then s[i] else '_')
  }

  const MAX_FILENAME := 255

  /** The tail is cut, suffix apart, so that the name fits. Characters are bytes here, see
      NameFitsInBytes. */
  function Filename(pipeline: string, run: string, stage: Option<string>): (name: string)
    ensures |name| <= MAX_FILENAME && 5 <= |name| && name[|name| - 5..] == ".html"
  {
    var base := Sanitize(pipeline) + "_" + run + if stage.Some? then "_" + Sanitize(stage.value) else "";
    Take(base, MAX_FILENAME - 5) + ".html"
  }

  /** Pipeline, run and stage, joined by underscores, then as much as fits before the suffix. */
  lemma NameExact(pipeline: string, run: string, id: string)
    ensures var whole := Sanitize(pipeline) + "_" + run;
            Filename(pipeline, run, None) == whole[..if |whole| < 250 then |whole| else 250] + ".html"
    ensures var whole := Sanitize(pipeline) + "_" + run + "_" + Sanitize(id);
            Filename(pipeline, run, Some(id)) == whole[..if |whole| < 250 then |whole| else 250] + ".html"
  {
    var run' := Sanitize(pipeline) + "_" + run;
    assert run' + "" == run';
    assert run' + "_" + Sanitize(id) == run' + ("_" + Sanitize(id));
  }

  /** What comes before the stage in a per-stage name, and how much of the stage fits after it. */
  function NamePrefix(pipeline: string, run: string): string {
    Sanitize(pipeline) + "_" + run + "_"
  }

  function StageRoom(pipeline: string, run: string): nat {
    var used := |NamePrefix(pipeline, run)|;
    if used <= MAX_FILENAME - 5 then MAX_FILENAME - 5 - used else 0
  }

  lemma TakeAppend(a: string, b: string, n: nat)
    ensures Take(a + b, n) == if |a| <= n then a + Take(b, n - |a|) else Take(a, n)
  {
  }

  /** Two stages of one run get the same attachment name exactly when their sanitized ids agree
      on the part that fits. */
  lemma NamesCollide(pipeline: string, run: string, a: string, b: string)
    ensures var room := StageRoom(pipeline, run);
            Filename(pipeline, run, Some(a)) == Filename(pipeline, run, Some(b))
            <==> Take(Sanitize(a), room) == Take(Sanitize(b), room)
  {
    var prefix, room := NamePrefix(pipeline, run), StageRoom(pipeline, run);
    var base := MAX_FILENAME - 5;
    NameIs(pipeline, run, a);
    NameIs(pipeline, run, b);
    TakeAppend(prefix, Sanitize(a), base);
    TakeAppend(prefix, Sanitize(b), base);
    SuffixCancels(Take(prefix + Sanitize(a), base), Take(prefix + Sanitize(b), base), ".html");
    if |prefix| <= base {
      PrefixCancels(prefix, Take(Sanitize(a), room), Take(Sanitize(b), room));
    } else {
      assert Take(Sanitize(a), room) == Take(Sanitize(b), room) == [];
    }
  }

  lemma NameIs(pipeline: string, run: string, id: string)
    ensures Filename(pipeline, run, Some(id))
         == Take(NamePrefix(pipeline, run) + Sanitize(id), MAX_FILENAME - 5) + ".html"
  {
    assert Sanitize(pipeline) + "_" + run + ("_" + Sanitize(id)) == NamePrefix(pipeline, run) + Sanitize(id);
  }

  lemma SuffixCancels(a: string, b: string, s: string)
    ensures a + s == b + s <==> a == b
  {
    if a + s == b + s {
      assert |a + s| == |b + s|;
      assert a == (a + s)[..|a|] && b == (b + s)[..|b|];
    }
  }

  lemma PrefixCancels(p: string, a: string, b: string)
    ensures p + a == p + b <==> a == b
  {
    if p + a == p + b {
      assert a == (p + a)[|p|..] && b == (p + b)[|p|..];
    }
  }

  /** Ids that differ only in characters a filename cannot hold collide; so do ids that differ
      only past the cut. */
  lemma CollidingNames(pipeline: string, run: string, id: string, x: string, y: string)
    requires |id| >= MAX_FILENAME
    ensures Filename(pipeline, run, Some("a b")) == Filename(pipeline, run, Some("a_b"))
    ensures Filename(pipeline, run, Some(id + x)) == Filename(pipeline, run, Some(id + y))
  {
    BlankIsUnderscore();
    NamesCollide(pipeline, run, "a b", "a_b");
    NamesCollide(pipeline, run, id + x, id + y);
    OnlyTheHeadCounts(id, x, StageRoom(pipeline, run));
    OnlyTheHeadCounts(id, y, StageRoom(pipeline, run));
  }

  lemma BlankIsUnderscore()
    ensures Sanitize("a b") == Sanitize("a_b")
  {
  }

  lemma OnlyTheHeadCounts(id: string, x: string, room: nat)
    requires room <= |id|
    ensures Take(Sanitize(id + x), room) == Take(Sanitize(id), room)
  {
    assert Sanitize(id + x) == Sanitize(id) + Sanitize(x);
    TakeAppend(Sanitize(id), Sanitize(x), room);
  }

  /** The length of a string in UTF-8. */
  function Utf8Length(s: string): nat {
    if s == "" then 0
    else
      var c := s[|s| - 1] as int;
      Utf8Length(s[..|s| - 1]) + if c < 0x80 then 1 else if c < 0x800 then 2 else if c < 0x1_0000 then 3 else 4
  }

  lemma {:induction false} AsciiLength(s: string)
    requires forall i :: 0 <= i < |s| ==> s[i] as int < 0x80
    ensures Utf8Length(s) == |s|
  {
    if s != "" {
      AsciiLength(s[..|s| - 1]);
    }
  }

  /** Run ids are UUIDs, so a name holds only safe characters and the limit is one of bytes. */
  lemma NameFitsInBytes(pipeline: string, run: string, stage: Option<string>)
    requires forall i :: 0 <= i < |run| ==> SafeChar(run[i])
    ensures var name := Filename(pipeline, run, stage);
            && Utf8Length(name) == |name| <= MAX_FILENAME
            && forall i :: 0 <= i < |name| ==> SafeChar(name[i])
  {
    var tail := if stage.Some? then "_" + Sanitize(stage.value) else "";
    assert forall i :: 0 <= i < |tail| ==> SafeChar(tail[i]);
    var base := Sanitize(pipeline) + "_" + run + tail;
    assert forall i :: 0 <= i < |base| ==> SafeChar(base[i]);
    assert forall i :: 0 <= i < 5 ==> SafeChar(".html"[i]);
    AsciiLength(Filename(pipeline, run, stage));
  }

  function StageAttachment(info: RunInfo, run: string): Fragment -> Option<Attachment> {
    (f: Fragment) =>
      if Blank(f.html) then None else Some(Attachment(Filename(info.pipeline, run, Some(f.stageId)), f.html))
  }

  function Sections(fragments: seq<Fragment>): seq<Section> {
    seq(|fragments|, i requires 0 <= i < |fragments| =>
      Section(fragments[i].stageId, fragments[i].order, fragments[i].html))
  }

  function Attachments(cfg: Rendering, run: string, info: RunInfo, fragments: seq<Fragment>)
    : Result<seq<Attachment>, RenderError>
  {
    if info.mode.PerStage? then
      Success(Collect(fragments, StageAttachment(info, run)))
    else if info.aggregation.None? then
      Failure(Unexpected)
    else
      var html :- cfg.render(info.aggregation.value,
        AggregationContext(run, info.pipeline, info.tags, info.createdAt, Sections(fragments)));
      Success([Attachment(Filename(info.pipeline, run, None), html)])
  }

  // ---- Body ------------------------------------------------------------------------

  function ContributionAt(p: Position): Fragment -> Option<Contribution> {
    (f: Fragment) => if f.position == Some(p) then Some(Contribution(f.stageId, f.order, f.body)) else None
  }

  function Bucket(fragments: seq<Fragment>, p: Position): seq<Contribution> {
    Collect(fragments, ContributionAt(p))
  }

  function Summaries(fragments: seq<Fragment>): seq<StageSummary> {
    seq(|fragments|, i requires 0 <= i < |fragments| =>
      StageSummary(fragments[i].stageId, fragments[i].order, !Blank(fragments[i].html)))
  }

  function Body(cfg: Rendering, run: string, info: RunInfo, fragments: seq<Fragment>): Result<string, RenderError> {
    var template := if info.pipeline in cfg.bodyOverrides then cfg.bodyOverrides[info.pipeline] else cfg.bodyTemplate;
    cfg.render(template,
      BodyContext(run, info.pipeline, info.tags, info.createdAt, Summaries(fragments), info.mode,
                  Bucket(fragments, BeforeStagesSummary), Bucket(fragments, AfterStagesSummary)))
  }

  /** The whole email of a run, as delivery and resend both compose it. */
  function Compose(cfg: Rendering, run: string, info: RunInfo, rows: seq<Stage>): Result<Email, RenderError> {
    var fragments :- Fragments(cfg, info, rows);
    var attachments :- Attachments(cfg, run, info, fragments);
    var body :- Body(cfg, run, info, fragments);
    Success(Email(cfg.subject(info.pipeline, run), body, attachments))
  }

  // ---- The loops of the program ---------------------------------------------------------

  /** `_load_and_render_stages`, from the rows read: filter, sort, render one by one. */
  method RenderStages(cfg: Rendering, info: RunInfo, rows: seq<Stage>)
    returns (r: Result<seq<Fragment>, RenderError>)
    ensures r == Fragments(cfg, info, rows)
  {
    var submitted := [];
    for i := 0 to |rows|
      invariant submitted == Collect(rows[..i], Contributing())
    {
      assert rows[..i + 1] == rows[..i] + [rows[i]];
      CollectAppend(rows[..i], rows[i], Contributing());
      if StageStates.Contributes(rows[i].state) {
        submitted := submitted + [rows[i]];
      }
    }
    assert rows[..|rows|] == rows;
    var sorted := Sort(submitted, ByStageOrder(info));
    var fragments := [];
    for i := 0 to |sorted|
      invariant RenderAll(cfg, info, sorted[..i]) == Success(fragments)
    {
      var html := Html(cfg, sorted[i]);
      assert sorted[..i + 1][..i] == sorted[..i];
      if html.Failure? {
        ErrorIsFinal(cfg, info, sorted, i + 1);
        return Failure(html.error);
      }
      fragments := fragments + [FragmentOf(info, sorted[i], html.value)];
    }
    assert sorted[..|sorted|] == sorted;
    return Success(fragments);
  }

  lemma {:induction false} ErrorIsFinal(cfg: Rendering, info: RunInfo, stages: seq<Stage>, k: nat)
    requires k <= |stages| && RenderAll(cfg, info, stages[..k]).Failure?
    ensures RenderAll(cfg, info, stages) == RenderAll(cfg, info, stages[..k])
    decreases |stages|
  {
    if k == |stages| {
      assert stages[..k] == stages;
    } else {
      var n := |stages| - 1;
      assert stages[..n][..k] == stages[..k];
      ErrorIsFinal(cfg, info, stages[..n], k);
    }
  }

  /** The PER_STAGE branch of `_build_attachments`. */
  method BuildStageAttachments(run: string, info: RunInfo, fragments: seq<Fragment>)
    returns (attachments: seq<Attachment>)
    ensures attachments == Collect(fragments, StageAttachment(info, run))
  {
    attachments := [];
    for i := 0 to |fragments|
      invariant attachments == Collect(fragments[..i], StageAttachment(info, run))
    {
      var f := fragments[i];
      assert fragments[..i + 1] == fragments[..i] + [f];
      CollectAppend(fragments[..i], f, StageAttachment(info, run));
      if !Blank(f.html) {
        attachments := attachments + [Attachment(Filename(info.pipeline, run, Some(f.stageId)), f.html)];
      }
    }
    assert fragments[..|fragments|] == fragments;
  }

  // ---- Canonical -----------------------------------------------------------------------

  /** The rows of one run: the stage id is a key. */
  ghost predicate Keyed(rows: seq<Stage>) {
    Distinct(rows) && forall a, b :: a in rows && b in rows && a.stageId == b.stageId ==> a == b
  }

  lemma {:induction false} CollectMembers(rows: seq<Stage>)
    ensures forall s :: Count(Collect(rows, Contributing()), s)
                     == if StageStates.Contributes(s.state) then Count(rows, s) else 0
  {
    if rows != [] {
      var n := |rows| - 1;
      CollectMembers(rows[..n]);
      assert rows == rows[..n] + [rows[n]];
      CollectAppend(rows[..n], rows[n], Contributing());
    }
  }

  lemma SameContributors(rows: seq<Stage>, rows': seq<Stage>)
    requires multiset(rows) == multiset(rows')
    ensures multiset(Collect(rows, Contributing())) == multiset(Collect(rows', Contributing()))
  {
    CollectMembers(rows);
    CollectMembers(rows');
    forall s
      ensures multiset(Collect(rows, Contributing()))[s] == multiset(Collect(rows', Contributing()))[s]
    {
      assert Count(rows, s) == Count(rows', s);
      assert Count(Collect(rows, Contributing()), s) == Count(Collect(rows', Contributing()), s);
    }
  }

  lemma StageOrderLaws(info: RunInfo, x: Stage, y: Stage, z: Stage)
    ensures !PresentedBefore(info, x, x)
    ensures x.stageId != y.stageId ==> PresentedBefore(info, x, y) || PresentedBefore(info, y, x)
    ensures PresentedBefore(info, x, y) && PresentedBefore(info, y, z) ==> PresentedBefore(info, x, z)
  {
    StringLessTotal(x.stageId, x.stageId);
    StringLessTotal(x.stageId, y.stageId);
    if StringLess(x.stageId, y.stageId) && StringLess(y.stageId, z.stageId) {
      StringLessTransitive(x.stageId, y.stageId, z.stageId);
    }
  }

  lemma StageOrderTotal(info: RunInfo, stages: seq<Stage>)
    requires forall a, b :: a in stages && b in stages && a.stageId == b.stageId ==> a == b
    ensures TotalOn(stages, ByStageOrder(info))
  {
    var before := ByStageOrder(info);
    forall x, y, z | x in stages && y in stages && z in stages
      ensures !before(x, x)
      ensures x != y ==> before(x, y) || before(y, x)
      ensures before(x, y) && before(y, z) ==> before(x, z)
    {
      StageOrderLaws(info, x, y, z);
    }
  }

  lemma ContributorsOf(rows: seq<Stage>)
    requires Keyed(rows)
    ensures var c := Collect(rows, Contributing());
            && Distinct(c)
            && (forall s :: s in c <==> s in rows && StageStates.Contributes(s.state))
  {
    var c := Collect(rows, Contributing());
    CollectMembers(rows);
    forall s
      ensures s in c <==> s in rows && StageStates.Contributes(s.state)
    {
      assert Count(c, s) == if StageStates.Contributes(s.state) then Count(rows, s) else 0;
      assert s in c <==> Count(c, s) > 0;
      assert s in rows <==> Count(rows, s) > 0;
    }
    forall s | s in c
      ensures Count(c, s) == 1
    {
      DistinctCount(rows, s);
    }
    CountDistinct(c);
  }

  lemma SamePresented(info: RunInfo, rows: seq<Stage>, rows': seq<Stage>)
    requires Keyed(rows) && multiset(rows) == multiset(rows')
    ensures Presented(info, rows) == Presented(info, rows')
  {
    SameContributors(rows, rows');
    ContributorsOf(rows);
    StageOrderTotal(info, Collect(rows, Contributing()));
    SortCanonical(Collect(rows, Contributing()), Collect(rows', Contributing()), ByStageOrder(info));
  }

  /** The email does not depend on the order in which the database returned the rows. */
  lemma CanonicalAssembly(cfg: Rendering, run: string, info: RunInfo, rows: seq<Stage>, rows': seq<Stage>)
    requires Keyed(rows) && multiset(rows) == multiset(rows')
    ensures Presented(info, rows) == Presented(info, rows')
    ensures Compose(cfg, run, info, rows) == Compose(cfg, run, info, rows')
  {
    SamePresented(info, rows, rows');
  }

  // ---- Which stages, in which order ------------------------------------------------------

  predicate FragmentsAscend(fragments: seq<Fragment>) {
    forall i, j :: 0 <= i < j < |fragments| ==>
      KeyBefore(fragments[i].order, fragments[i].stageId, fragments[j].order, fragments[j].stageId)
  }

  predicate FragmentsKeyed(fragments: seq<Fragment>) {
    forall i, j :: 0 <= i < j < |fragments| ==> fragments[i].stageId != fragments[j].stageId
  }

  lemma {:induction false} RenderAllPointwise(cfg: Rendering, info: RunInfo, stages: seq<Stage>)
    requires RenderAll(cfg, info, stages).Success?
    ensures var fs := RenderAll(cfg, info, stages).value;
            && |fs| == |stages|
            && forall i :: 0 <= i < |fs| ==>
                 && Html(cfg, stages[i]).Success?
                 && fs[i] == FragmentOf(info, stages[i], Html(cfg, stages[i]).value)
  {
    if stages != [] {
      var n := |stages| - 1;
      RenderAllPointwise(cfg, info, stages[..n]);
    }
  }

  /** The contributing stages, each once, in strictly ascending presentation order. */
  lemma PresentedExact(info: RunInfo, rows: seq<Stage>)
    requires Keyed(rows)
    ensures var stages := Presented(info, rows);
            && (forall s :: s in stages <==> s in rows && StageStates.Contributes(s.state))
            && (forall i, j :: 0 <= i < j < |stages| ==> PresentedBefore(info, stages[i], stages[j]))
  {
    var contributors := Collect(rows, Contributing());
    var stages := Presented(info, rows);
    var before := ByStageOrder(info);
    ContributorsOf(rows);
    StageOrderTotal(info, contributors);
    SortMembers(contributors, before);
    SortOrdered(contributors, before);
    SameMembers(contributors, stages);
    RearrangeDistinct(contributors, stages);
    forall i, j | 0 <= i < j < |stages|
      ensures PresentedBefore(info, stages[i], stages[j])
    {
      assert !before(stages[j], stages[i]) && stages[i] in contributors && stages[j] in contributors;
      assert before(stages[i], stages[j]);
    }
  }

  /** `f` is what `s` renders to. */
  predicate Renders(cfg: Rendering, info: RunInfo, s: Stage, f: Fragment) {
    Html(cfg, s) == Success(f.html) && f == FragmentOf(info, s, f.html)
  }

  /** Fragments stand in strictly ascending (order, id), one for each stage that submitted,
      carrying that stage's rendering and body contribution; no other stage appears. */
  lemma FragmentsExact(cfg: Rendering, info: RunInfo, rows: seq<Stage>)
    requires Keyed(rows) && Fragments(cfg, info, rows).Success?
    ensures var fs := Fragments(cfg, info, rows).value;
            && FragmentsAscend(fs) && FragmentsKeyed(fs)
            && (forall f :: f in fs ==>
                  exists s :: s in rows && StageStates.Contributes(s.state) && Renders(cfg, info, s, f))
            && (forall s :: s in rows && StageStates.Contributes(s.state) ==>
                  exists f :: f in fs && Renders(cfg, info, s, f))
  {
    var stages := Presented(info, rows);
    var fs := Fragments(cfg, info, rows).value;
    PresentedExact(info, rows);
    RenderAllPointwise(cfg, info, stages);
    forall i | 0 <= i < |fs|
      ensures stages[i] in stages && Renders(cfg, info, stages[i], fs[i])
    {
    }
    forall i, j | 0 <= i < j < |fs|
      ensures KeyBefore(fs[i].order, fs[i].stageId, fs[j].order, fs[j].stageId)
      ensures fs[i].stageId != fs[j].stageId
    {
      assert PresentedBefore(info, stages[i], stages[j]);
      StringLessTotal(fs[i].stageId, fs[j].stageId);
    }
    forall s | s in rows && StageStates.Contributes(s.state)
      ensures exists f :: f in fs && Renders(cfg, info, s, f)
    {
      var i :| 0 <= i < |stages| && stages[i] == s;
      assert fs[i] in fs;
    }
  }

  // ---- Buckets -----------------------------------------------------------------------

  predicate ContributionsAscend(cs: seq<Contribution>) {
    forall i, j :: 0 <= i < j < |cs| ==> KeyBefore(cs[i].order, cs[i].stageId, cs[j].order, cs[j].stageId)
  }

  lemma {:induction false} BucketAscends(fragments: seq<Fragment>, p: Position)
    requires FragmentsAscend(fragments)
    ensures ContributionsAscend(Bucket(fragments, p))
  {
    if fragments != [] {
      var n := |fragments| - 1;
      BucketAscends(fragments[..n], p);
      var cs := Bucket(fragments[..n], p);
      forall i | 0 <= i < |cs|
        ensures KeyBefore(cs[i].order, cs[i].stageId, fragments[n].order, fragments[n].stageId)
      {
        CollectElement(fragments[..n], ContributionAt(p), cs[i]);
        var f :| f in fragments[..n] && ContributionAt(p)(f) == Some(cs[i]);
        var k :| 0 <= k < n && fragments[k] == f;
      }
    }
  }

  predicate Contributes(f: Fragment, c: Contribution) {
    f.position.Some? && c == Contribution(f.stageId, f.order, f.body)
  }

  lemma BucketMembers(fragments: seq<Fragment>, p: Position, c: Contribution)
    ensures c in Bucket(fragments, p) <==> exists f :: f in fragments && f.position == Some(p) && Contributes(f, c)
  {
    CollectElement(fragments, ContributionAt(p), c);
    if c in Bucket(fragments, p) {
      var f :| f in fragments && ContributionAt(p)(f) == Some(c);
      assert Contributes(f, c);
    }
    if f :| f in fragments && f.position == Some(p) && Contributes(f, c) {
      assert ContributionAt(p)(f) == Some(c);
    }
  }

  /** The two buckets are ordered, share no stage, and together hold exactly the body
      contributions of the fragments. */
  lemma BucketsPartition(fragments: seq<Fragment>)
    requires FragmentsAscend(fragments) && FragmentsKeyed(fragments)
    ensures var before, after := Bucket(fragments, BeforeStagesSummary), Bucket(fragments, AfterStagesSummary);
            && ContributionsAscend(before) && ContributionsAscend(after)
            && (forall c, d :: c in before && d in after ==> c.stageId != d.stageId)
            && (forall c :: c in before || c in after <==> exists f :: f in fragments && Contributes(f, c))
  {
    var before, after := Bucket(fragments, BeforeStagesSummary), Bucket(fragments, AfterStagesSummary);
    BucketAscends(fragments, BeforeStagesSummary);
    BucketAscends(fragments, AfterStagesSummary);
    forall c
      ensures c in before || c in after <==> exists f :: f in fragments && Contributes(f, c)
    {
      BucketMembers(fragments, BeforeStagesSummary, c);
      BucketMembers(fragments, AfterStagesSummary, c);
      if f :| f in fragments && Contributes(f, c) {
        match f.position.value
        case BeforeStagesSummary => assert f.position == Some(BeforeStagesSummary);
        case AfterStagesSummary => assert f.position == Some(AfterStagesSummary);
      }
    }
    forall c, d | c in before && d in after
      ensures c.stageId != d.stageId
    {
      BucketMembers(fragments, BeforeStagesSummary, c);
      BucketMembers(fragments, AfterStagesSummary, d);
      var f :| f in fragments && f.position == Some(BeforeStagesSummary) && Contributes(f, c);
      var g :| g in fragments && g.position == Some(AfterStagesSummary) && Contributes(g, d);
      var i :| 0 <= i < |fragments| && fragments[i] == f;
      var j :| 0 <= j < |fragments| && fragments[j] == g;
      assert i != j;
    }
  }
}
