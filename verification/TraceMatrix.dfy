/** The requirements trace matrix (scripts/build-trace-matrix.py): what a rolled-up status
    means, and that the checker accepts every matrix the builder emits. */
module TraceMatrix {
  import opened Wrappers
  import opened Sequences
  import opened Assembly

  /** `Verified` may be read from a committed matrix but is never computed. */
  datatype Status = Implemented | Partial | Draft | Verified

  // ---- The rollup rule -----------------------------------------------------------------------

  /** `compute_status`. */
  function ComputeStatus(direct: bool, children: seq<Status>): Status {
    if children == [] then (if direct then Implemented else Draft)
    else if Count(children, Implemented) == |children| then Implemented
    else if Count(children, Draft) == |children| && !direct then Draft
    else Partial
  }

  /** A requirement, whether tests are marked with it, and the requirements below it. */
  datatype Tree = Node(id: string, direct: bool, children: seq<Tree>)

  function StatusOf(t: Tree): Status {
    ComputeStatus(t.direct, StatusesOf(t.children))
  }

  function StatusesOf(ts: seq<Tree>): seq<Status> {
    seq(|ts|, i requires 0 <= i < |ts| => StatusOf(ts[i]))
  }

  /** Some node of the subtree has an artifact. */
  predicate AnyArtifact(t: Tree) {
    t.direct || exists i :: 0 <= i < |t.children| && AnyArtifact(t.children[i])
  }

  /** Every leaf of the subtree has an artifact. */
  predicate EveryLeafCovered(t: Tree) {
    if t.children == [] then t.direct else forall i :: 0 <= i < |t.children| ==> EveryLeafCovered(t.children[i])
  }

  lemma {:induction false} CountAll(s: seq<Status>, x: Status)
    ensures Count(s, x) == |s| <==> forall i :: 0 <= i < |s| ==> s[i] == x
    ensures Count(s, x) <= |s|
  {
    if s != [] {
      var n := |s| - 1;
      CountAll(s[..n], x);
      assert s == s[..n] + [s[n]];
      CountConcat(s[..n], [s[n]], x);
    }
  }

  /** On trees of any depth: Draft says no artifact anywhere below, Implemented says every leaf
      has one, and Partially Implemented is everything in between. */
  lemma {:induction false} StatusMeaning(t: Tree)
    ensures StatusOf(t) == Draft <==> !AnyArtifact(t)
    ensures StatusOf(t) == Implemented <==> EveryLeafCovered(t)
  {
    var statuses := StatusesOf(t.children);
    CountAll(statuses, Implemented);
    CountAll(statuses, Draft);
    forall i | 0 <= i < |t.children|
      ensures statuses[i] == Draft <==> !AnyArtifact(t.children[i])
      ensures statuses[i] == Implemented <==> EveryLeafCovered(t.children[i])
    {
      StatusMeaning(t.children[i]);
    }
    if t.children != [] {
      assert statuses[0] == Implemented ==> statuses[0] != Draft;
    }
  }

  function Rank(s: Status): nat {
    match s
    case Draft => 0
    case Partial => 1
    case Implemented => 2
    case Verified => 3
  }

  /** The same requirements with more artifacts. */
  predicate Grown(t: Tree, t': Tree) {
    && t.id == t'.id && (t.direct ==> t'.direct) && |t.children| == |t'.children|
    && forall i :: 0 <= i < |t.children| ==> Grown(t.children[i], t'.children[i])
  }

  lemma {:induction false} GrownCovers(t: Tree, t': Tree)
    requires Grown(t, t')
    ensures AnyArtifact(t) ==> AnyArtifact(t')
    ensures EveryLeafCovered(t) ==> EveryLeafCovered(t')
  {
    forall i | 0 <= i < |t.children|
      ensures AnyArtifact(t.children[i]) ==> AnyArtifact(t'.children[i])
      ensures EveryLeafCovered(t.children[i]) ==> EveryLeafCovered(t'.children[i])
    {
      GrownCovers(t.children[i], t'.children[i]);
    }
  }

  /** Adding artifacts anywhere never lowers a status. */
  lemma ArtifactsNeverLower(t: Tree, t': Tree)
    requires Grown(t, t')
    ensures Rank(StatusOf(t)) <= Rank(StatusOf(t'))
  {
    GrownCovers(t, t');
    StatusMeaning(t);
    StatusMeaning(t');
  }

  /** A status depends on the children's statuses, not on their order. */
  lemma OrderIrrelevant(direct: bool, a: seq<Status>, b: seq<Status>)
    requires multiset(a) == multiset(b)
    ensures ComputeStatus(direct, a) == ComputeStatus(direct, b)
  {
    SameMembers(a, b);
  }

  // ---- The children column ---------------------------------------------------------------------

  const NONE := "_(none)_"

  /** ", ".join(ids) */
  function Join(ids: seq<string>): string {
    if ids == [] then "" else if |ids| == 1 then ids[0] else ids[0] + ", " + Join(ids[1..])
  }

  function PrintChildren(ids: seq<string>): string {
    if ids == [] then NONE else Join(ids)
  }

  /** s.split(sep) */
  function Split(s: string, sep: char): (parts: seq<string>)
    ensures parts != []
  {
    if s == "" then [""]
    else
      var rest := Split(s[1..], sep);
      if s[0] == sep then [""] + rest else [[s[0]] + rest[0]] + rest[1..]
  }

  function StripLeft(s: string): string {
    if s != "" && IsSpace(s[0]) then StripLeft(s[1..]) else s
  }

  function StripRight(s: string): string {
    if s != "" && IsSpace(s[|s| - 1]) then StripRight(s[..|s| - 1]) else s
  }

  function Strip(s: string): string {
    StripRight(StripLeft(s))
  }

  function StripParts(parts: seq<string>): seq<string> {
    if parts == [] then []
    else (if Strip(parts[0]) != "" then [Strip(parts[0])] else []) + StripParts(parts[1..])
  }

  function ParseChildren(cell: string): seq<string> {
    if Strip(cell) == NONE then [] else StripParts(Split(cell, ','))
  }

  /** Requirement ids: they start with L and hold neither commas nor white space. */
  predicate RequirementId(id: string) {
    && id != "" && id[0] == 'L'
    && forall i :: 0 <= i < |id| ==> id[i] != ',' && id[i] != '|' && !IsSpace(id[i])
  }

  lemma {:induction false} SplitPrefix(id: string, rest: string, sep: char)
    requires sep !in id
    ensures Split(id + rest, sep) == [id + Split(rest, sep)[0]] + Split(rest, sep)[1..]
  {
    var parts := Split(rest, sep);
    if id == "" {
      assert id + rest == rest && id + parts[0] == parts[0];
      assert parts == [parts[0]] + parts[1..];
    } else {
      SplitPrefix(id[1..], rest, sep);
      assert (id + rest)[1..] == id[1..] + rest;
      assert [id[0]] + (id[1..] + parts[0]) == id + parts[0];
    }
  }

  lemma StripId(id: string)
    requires RequirementId(id)
    ensures Strip(id) == id && Strip(" " + id) == id
  {
    assert (" " + id)[1..] == id;
    assert StripLeft(" " + id) == StripLeft(id);
  }

  /** The joined column between its commas: each id but the first after a blank. */
  function Pieces(lead: string, ids: seq<string>): seq<string>
    decreases |ids|
  {
    if ids == [] then [] else [lead + ids[0]] + Pieces(" ", ids[1..])
  }

  predicate RequirementIds(ids: seq<string>) {
    forall i :: 0 <= i < |ids| ==> RequirementId(ids[i])
  }

  /** A piece without the separator, the separator, and the rest. */
  lemma SplitAt(piece: string, rest: string, sep: char)
    requires sep !in piece
    ensures Split(piece, sep) == [piece]
    ensures Split(piece + [sep] + rest, sep) == [piece] + Split(rest, sep)
  {
    SplitPrefix(piece, "", sep);
    assert piece + "" == piece;
    var tail := [sep] + rest;
    assert tail[1..] == rest;
    assert Split(tail, sep) == [""] + Split(rest, sep);
    SplitPrefix(piece, tail, sep);
    assert piece + [sep] + rest == piece + tail;
    assert Split(tail, sep)[1..] == Split(rest, sep);
  }

  lemma SplitPiece(piece: string, rest: string)
    requires ',' !in piece
    ensures Split(piece, ',') == [piece]
    ensures Split(piece + ", " + rest, ',') == [piece] + Split(" " + rest, ',')
  {
    SplitAt(piece, " " + rest, ',');
    assert piece + ", " + rest == piece + [','] + (" " + rest);
  }

  lemma {:induction false} SplitJoined(lead: string, ids: seq<string>)
    requires ids != [] && RequirementIds(ids) && (lead == "" || lead == " ")
    ensures Split(lead + Join(ids), ',') == Pieces(lead, ids)
    decreases |ids|
  {
    var piece := lead + ids[0];
    if |ids| == 1 {
      SplitPiece(piece, "");
      assert Pieces(" ", ids[1..]) == [];
    } else {
      SplitJoined(" ", ids[1..]);
      SplitPiece(piece, Join(ids[1..]));
      assert lead + Join(ids) == piece + ", " + Join(ids[1..]);
    }
  }

  lemma {:induction false} PiecesStrip(lead: string, ids: seq<string>)
    requires RequirementIds(ids) && (lead == "" || lead == " ")
    ensures StripParts(Pieces(lead, ids)) == ids
    decreases |ids|
  {
    if ids != [] {
      StripId(ids[0]);
      assert "" + ids[0] == ids[0];
      PiecesStrip(" ", ids[1..]);
      assert Pieces(lead, ids)[1..] == Pieces(" ", ids[1..]);
    }
  }

  lemma {:induction false} StripRightStart(s: string)
    requires s != "" && !IsSpace(s[0])
    ensures StripRight(s) != "" && StripRight(s)[0] == s[0]
  {
    if IsSpace(s[|s| - 1]) {
      StripRightStart(s[..|s| - 1]);
    }
  }

  /** Printing the children of a row and parsing them back is the identity. */
  lemma ChildrenRoundTrip(ids: seq<string>)
    requires RequirementIds(ids)
    ensures ParseChildren(PrintChildren(ids)) == ids
  {
    if ids != [] {
      SplitJoined("", ids);
      PiecesStrip("", ids);
      assert "" + Join(ids) == Join(ids);
      assert Join(ids)[0] == ids[0][0] == 'L';
      StripRightStart(Join(ids));
    } else {
      assert StripLeft(NONE) == NONE && StripRight(NONE) == NONE;
    }
  }

  // ---- The matrix ------------------------------------------------------------------------------

  /** The requirement documents: level-1 ids, the parent of each level-2 and level-3 id (dicts,
      in document order), the category prefixes, and which ids tests are marked with. */
  datatype Docs = Docs(
    l1: seq<string>, l2Parent: seq<(string, string)>, l3Parent: seq<(string, string)>,
    categories: seq<string>, marked: string -> bool)

  datatype L1Row = L1Row(id: string, children: string, status: Status)

  datatype L2Row = L2Row(id: string, status: Status)

  datatype Matrix = Matrix(l1: seq<L1Row>, l2: seq<L2Row>)

  function ChildOf(parent: string): ((string, string)) -> Option<string> {
    (entry: (string, string)) => if entry.1 == parent then Some(entry.0) else None
  }

  /** The children of an id in document order. */
  function Children(parents: seq<(string, string)>, id: string): seq<string> {
    Collect(parents, ChildOf(id))
  }

  /** They are the ids whose parent it is, as often as they are listed. */
  lemma {:induction false} ChildrenExact(parents: seq<(string, string)>, id: string, child: string)
    ensures Count(Children(parents, id), child) == Count(parents, (child, id))
  {
    if parents != [] {
      var n := |parents| - 1;
      ChildrenExact(parents[..n], id, child);
      assert parents == parents[..n] + [parents[n]];
      CountConcat(parents[..n], [parents[n]], (child, id));
      var (last, parent) := parents[n];
      CountConcat(Children(parents[..n], id), if parent == id then [last] else [], child);
    }
  }

  /** `_sort_key` orders ids by category and number; all that matters is that sorting permutes. */
  type KeyOrder = (string, string) -> bool

  function LeafStatuses(docs: Docs, ids: seq<string>): (r: seq<Status>)
    ensures |r| == |ids| && forall i :: 0 <= i < |r| ==> r[i] == ComputeStatus(docs.marked(ids[i]), [])
  {
    seq(|ids|, i requires 0 <= i < |ids| => ComputeStatus(docs.marked(ids[i]), []))
  }

  /** `_l2_status`, over the sorted children. */
  function L2Status(docs: Docs, before: KeyOrder, id: string): Status {
    ComputeStatus(docs.marked(id), LeafStatuses(docs, Sort(Children(docs.l3Parent, id), before)))
  }

  function L2Statuses(docs: Docs, before: KeyOrder, ids: seq<string>): (r: seq<Status>)
    ensures |r| == |ids| && forall i :: 0 <= i < |r| ==> r[i] == L2Status(docs, before, ids[i])
  {
    seq(|ids|, i requires 0 <= i < |ids| => L2Status(docs, before, ids[i]))
  }

  function L1Children(docs: Docs, before: KeyOrder, id: string): seq<string> {
    Sort(Children(docs.l2Parent, id), before)
  }

  function L1Status(docs: Docs, before: KeyOrder, id: string): Status {
    ComputeStatus(docs.marked(id), L2Statuses(docs, before, L1Children(docs, before, id)))
  }

  /** Every row is the row of a listed requirement. */
  ghost predicate Emitted(docs: Docs, before: KeyOrder, m: Matrix) {
    && (forall row :: row in m.l1 ==>
          && row.id in docs.l1
          && row.children == PrintChildren(L1Children(docs, before, row.id))
          && row.status == L1Status(docs, before, row.id))
    && (forall row :: row in m.l2 ==>
          && (exists parent :: (row.id, parent) in docs.l2Parent)
          && row.status == L2Status(docs, before, row.id))
  }

  predicate InCategory(level: string, category: string, id: string) {
    level + "-" + category + "-" <= id
  }

  ghost predicate HasL1Row(rows: seq<L1Row>, id: string) {
    exists row :: row in rows && row.id == id
  }

  ghost predicate HasL2Row(rows: seq<L2Row>, id: string) {
    exists row :: row in rows && row.id == id
  }

  /** Every level-1 id of the category has its row, and then so has every level-2 id. */
  ghost predicate CategoryCovered(docs: Docs, m: Matrix, category: string) {
    && (forall id :: id in docs.l1 && InCategory("L1", category, id) ==> HasL1Row(m.l1, id))
    && ((exists id :: id in docs.l1 && InCategory("L1", category, id)) ==>
          forall entry :: entry in docs.l2Parent && InCategory("L2", category, entry.0) ==> HasL2Row(m.l2, entry.0))
  }

  function L1RowFor(docs: Docs, before: KeyOrder, id: string): L1Row {
    L1Row(id, PrintChildren(L1Children(docs, before, id)), L1Status(docs, before, id))
  }

  /** The category's rows for these ids, in order. */
  function L1RowsFor(docs: Docs, before: KeyOrder, category: string, ids: seq<string>): seq<L1Row> {
    if ids == [] then []
    else
      var n := |ids| - 1;
      L1RowsFor(docs, before, category, ids[..n])
        + if InCategory("L1", category, ids[n]) then [L1RowFor(docs, before, ids[n])] else []
  }

  function L2RowsFor(docs: Docs, before: KeyOrder, category: string, entries: seq<(string, string)>): seq<L2Row> {
    if entries == [] then []
    else
      var n := |entries| - 1;
      L2RowsFor(docs, before, category, entries[..n])
        + if InCategory("L2", category, entries[n].0) then [L2Row(entries[n].0, L2Status(docs, before, entries[n].0))] else []
  }

  lemma {:induction false} L1RowsAre(docs: Docs, before: KeyOrder, category: string, ids: seq<string>)
    ensures var rows := L1RowsFor(docs, before, category, ids);
            && (forall row :: row in rows ==> row.id in ids && row == L1RowFor(docs, before, row.id))
            && (forall id :: id in ids && InCategory("L1", category, id) ==> HasL1Row(rows, id))
  {
    if ids != [] {
      var n := |ids| - 1;
      L1RowsAre(docs, before, category, ids[..n]);
      var shorter, rows := L1RowsFor(docs, before, category, ids[..n]), L1RowsFor(docs, before, category, ids);
      forall id | id in ids && InCategory("L1", category, id)
        ensures HasL1Row(rows, id)
      {
        if id == ids[n] {
          assert L1RowFor(docs, before, id) in rows;
        } else {
          assert id in ids[..n];
          var row :| row in shorter && row.id == id;
          assert row in rows;
        }
      }
    }
  }

  lemma {:induction false} L2RowsAre(docs: Docs, before: KeyOrder, category: string, entries: seq<(string, string)>)
    ensures var rows := L2RowsFor(docs, before, category, entries);
            && (forall row :: row in rows ==>
                  row.status == L2Status(docs, before, row.id) && exists parent :: (row.id, parent) in entries)
            && (forall entry :: entry in entries && InCategory("L2", category, entry.0) ==> HasL2Row(rows, entry.0))
  {
    if entries != [] {
      var n := |entries| - 1;
      L2RowsAre(docs, before, category, entries[..n]);
      var shorter, rows := L2RowsFor(docs, before, category, entries[..n]), L2RowsFor(docs, before, category, entries);
      forall row | row in rows
        ensures exists parent :: (row.id, parent) in entries
      {
        if row in shorter {
          var parent :| (row.id, parent) in entries[..n];
          assert (row.id, parent) in entries;
        } else {
          assert (entries[n].0, entries[n].1) in entries;
        }
      }
      forall entry | entry in entries && InCategory("L2", category, entry.0)
        ensures HasL2Row(rows, entry.0)
      {
        if entry == entries[n] {
          assert L2Row(entry.0, L2Status(docs, before, entry.0)) in rows;
        } else {
          assert entry in entries[..n];
          var row :| row in shorter && row.id == entry.0;
          assert row in rows;
        }
      }
    }
  }

  /** The first loop of a category. */
  method BuildL1Rows(docs: Docs, before: KeyOrder, category: string) returns (rows: seq<L1Row>)
    ensures Emitted(docs, before, Matrix(rows, []))
    ensures forall id :: id in docs.l1 && InCategory("L1", category, id) ==> HasL1Row(rows, id)
    ensures rows == [] ==> forall id :: id in docs.l1 ==> !InCategory("L1", category, id)
  {
    rows := [];
    for i := 0 to |docs.l1|
      invariant rows == L1RowsFor(docs, before, category, docs.l1[..i])
    {
      var id := docs.l1[i];
      assert docs.l1[..i + 1][..i] == docs.l1[..i];
      if InCategory("L1", category, id) {
        rows := rows + [L1Row(id, PrintChildren(L1Children(docs, before, id)), L1Status(docs, before, id))];
      }
    }
    assert docs.l1[..|docs.l1|] == docs.l1;
    L1RowsAre(docs, before, category, docs.l1);
  }

  /** The second. */
  method BuildL2Rows(docs: Docs, before: KeyOrder, category: string) returns (rows: seq<L2Row>)
    ensures Emitted(docs, before, Matrix([], rows))
    ensures forall entry :: entry in docs.l2Parent && InCategory("L2", category, entry.0) ==> HasL2Row(rows, entry.0)
  {
    rows := [];
    for i := 0 to |docs.l2Parent|
      invariant rows == L2RowsFor(docs, before, category, docs.l2Parent[..i])
    {
      var (id, parent) := docs.l2Parent[i];
      assert docs.l2Parent[..i + 1][..i] == docs.l2Parent[..i];
      if InCategory("L2", category, id) {
        rows := rows + [L2Row(id, L2Status(docs, before, id))];
      }
    }
    assert docs.l2Parent[..|docs.l2Parent|] == docs.l2Parent;
    L2RowsAre(docs, before, category, docs.l2Parent);
  }

  lemma StaysCovered(docs: Docs, m: Matrix, l1: seq<L1Row>, l2: seq<L2Row>, category: string)
    requires CategoryCovered(docs, m, category)
    ensures CategoryCovered(docs, Matrix(m.l1 + l1, m.l2 + l2), category)
  {
    forall id | HasL1Row(m.l1, id)
      ensures HasL1Row(m.l1 + l1, id)
    {
      var row :| row in m.l1 && row.id == id;
      assert row in m.l1 + l1;
    }
    forall id | HasL2Row(m.l2, id)
      ensures HasL2Row(m.l2 + l2, id)
    {
      var row :| row in m.l2 && row.id == id;
      assert row in m.l2 + l2;
    }
  }

  lemma NowCovered(docs: Docs, m: Matrix, l1: seq<L1Row>, l2: seq<L2Row>, category: string)
    requires CategoryCovered(docs, Matrix(l1, l2), category)
    ensures CategoryCovered(docs, Matrix(m.l1 + l1, m.l2 + l2), category)
  {
    forall id | HasL1Row(l1, id)
      ensures HasL1Row(m.l1 + l1, id)
    {
      var row :| row in l1 && row.id == id;
      assert row in m.l1 + l1;
    }
    forall id | HasL2Row(l2, id)
      ensures HasL2Row(m.l2 + l2, id)
    {
      var row :| row in l2 && row.id == id;
      assert row in m.l2 + l2;
    }
  }

  /** The row loops of `build_matrix`. */
  method BuildMatrix(docs: Docs, before: KeyOrder) returns (m: Matrix)
    ensures Emitted(docs, before, m)
    ensures forall category :: category in docs.categories ==> CategoryCovered(docs, m, category)
  {
    m := Matrix([], []);
    for c := 0 to |docs.categories|
      invariant Emitted(docs, before, m)
      invariant forall k :: 0 <= k < c ==> CategoryCovered(docs, m, docs.categories[k])
    {
      var category := docs.categories[c];
      var l1 := BuildL1Rows(docs, before, category);
      var l2: seq<L2Row> := [];
      if l1 != [] {
        l2 := BuildL2Rows(docs, before, category);
      }
      forall k | 0 <= k < c
        ensures CategoryCovered(docs, Matrix(m.l1 + l1, m.l2 + l2), docs.categories[k])
      {
        StaysCovered(docs, m, l1, l2, docs.categories[k]);
      }
      NowCovered(docs, m, l1, l2, category);
      m := Matrix(m.l1 + l1, m.l2 + l2);
    }
  }

  // ---- The checker ------------------------------------------------------------------------------

  /** `_parse_committed_l2_rows`: a dict, so a later row of the same id wins. */
  function ParseL2(rows: seq<L2Row>): (r: map<string, Status>)
    ensures forall id :: id in r <==> exists row :: row in rows && row.id == id
    ensures forall id :: id in r ==> exists row :: row in rows && row.id == id && row.status == r[id]
  {
    if rows == [] then map[]
    else
      var last := rows[|rows| - 1];
      assert rows == rows[..|rows| - 1] + [last];
      ParseL2(rows[..|rows| - 1])[last.id := last.status]
  }

  function ParseL1(rows: seq<L1Row>): (r: map<string, (seq<string>, Status)>)
    ensures forall id :: id in r ==>
              exists row :: row in rows && row.id == id && r[id] == (ParseChildren(row.children), row.status)
  {
    if rows == [] then map[]
    else
      var last := rows[|rows| - 1];
      assert rows == rows[..|rows| - 1] + [last];
      ParseL1(rows[..|rows| - 1])[last.id := (ParseChildren(last.children), last.status)]
  }

  /** The committed statuses of these children; none unless every one has a row. */
  function Resolve(l2: map<string, Status>, children: seq<string>): Option<seq<Status>> {
    if children == [] then Some([])
    else
      var n := |children| - 1;
      var before := Resolve(l2, children[..n]);
      if before.None? || children[n] !in l2 then None else Some(before.value + [l2[children[n]]])
  }

  /** The status an L2 row should have; the checker's own children map is not sorted. */
  function ExpectedL2(docs: Docs, id: string): Status {
    ComputeStatus(docs.marked(id), LeafStatuses(docs, Children(docs.l3Parent, id)))
  }

  predicate L2Consistent(docs: Docs, l2: map<string, Status>, id: string)
    requires id in l2
  {
    l2[id] == ExpectedL2(docs, id)
  }

  predicate L1Consistent(docs: Docs, l1: map<string, (seq<string>, Status)>, l2: map<string, Status>, id: string)
    requires id in l1
  {
    var statuses := Resolve(l2, l1[id].0);
    statuses.Some? ==> l1[id].1 == ComputeStatus(docs.marked(id), statuses.value)
  }

  ghost predicate L2AllConsistent(docs: Docs, l2: map<string, Status>) {
    forall id :: id in l2 ==> L2Consistent(docs, l2, id)
  }

  ghost predicate L1AllConsistent(docs: Docs, l1: map<string, (seq<string>, Status)>, l2: map<string, Status>) {
    forall id :: id in l1 ==> L1Consistent(docs, l1, l2, id)
  }

  method CheckL2(docs: Docs, l2: map<string, Status>) returns (violations: seq<string>)
    ensures forall id :: id in violations <==> id in l2 && !L2Consistent(docs, l2, id)
  {
    violations := [];
    var rest := l2.Keys;
    while rest != {}
      invariant rest <= l2.Keys
      invariant forall id :: id in violations <==> id in l2 && id !in rest && !L2Consistent(docs, l2, id)
      decreases |rest|
    {
      var id :| id in rest;
      rest := rest - {id};
      if !L2Consistent(docs, l2, id) {
        violations := violations + [id];
      }
    }
  }

  method CheckL1(docs: Docs, l1: map<string, (seq<string>, Status)>, l2: map<string, Status>) returns (violations: seq<string>)
    ensures forall id :: id in violations <==> id in l1 && !L1Consistent(docs, l1, l2, id)
  {
    violations := [];
    var rest := l1.Keys;
    while rest != {}
      invariant rest <= l1.Keys
      invariant forall id :: id in violations <==> id in l1 && id !in rest && !L1Consistent(docs, l1, l2, id)
      decreases |rest|
    {
      var id :| id in rest;
      rest := rest - {id};
      if !L1Consistent(docs, l1, l2, id) {
        violations := violations + [id];
      }
    }
  }

  /** `verify_rollup_consistency`: reports exactly the rows whose status is not the one the rule
      gives. The order in which rows are visited only orders the report. */
  method VerifyRollup(docs: Docs, m: Matrix) returns (violations: seq<string>)
    ensures forall id :: id in violations <==>
              || (id in ParseL2(m.l2) && !L2Consistent(docs, ParseL2(m.l2), id))
              || (id in ParseL1(m.l1) && !L1Consistent(docs, ParseL1(m.l1), ParseL2(m.l2), id))
    ensures violations == [] <==>
              L2AllConsistent(docs, ParseL2(m.l2)) && L1AllConsistent(docs, ParseL1(m.l1), ParseL2(m.l2))
  {
    var l1, l2 := ParseL1(m.l1), ParseL2(m.l2);
    var wrongL2 := CheckL2(docs, l2);
    var wrongL1 := CheckL1(docs, l1, l2);
    violations := wrongL2 + wrongL1;
    assert violations != [] ==> violations[0] in violations;
  }

  // ---- The builder's output passes ------------------------------------------------------------------

  lemma LeafStatusMoved(docs: Docs, u: seq<string>, x: string, v: seq<string>)
    ensures multiset(LeafStatuses(docs, u + [x] + v)) == multiset(LeafStatuses(docs, [x] + (u + v)))
  {
    var status := LeafStatuses(docs, [x]);
    assert LeafStatuses(docs, u + [x] + v) == LeafStatuses(docs, u) + status + LeafStatuses(docs, v);
    assert LeafStatuses(docs, [x] + (u + v)) == status + (LeafStatuses(docs, u) + LeafStatuses(docs, v));
  }

  lemma LeafStatusesCons(docs: Docs, x: string, ids: seq<string>)
    ensures LeafStatuses(docs, [x] + ids) == LeafStatuses(docs, [x]) + LeafStatuses(docs, ids)
  {
  }

  lemma {:induction false} LeafStatusesPermute(docs: Docs, a: seq<string>, b: seq<string>)
    requires multiset(a) == multiset(b)
    ensures multiset(LeafStatuses(docs, a)) == multiset(LeafStatuses(docs, b))
  {
    SameMembers(a, b);
    if a == [] {
      assert b == [];
    } else {
      var k := TakeOut(a, b);
      var x, rest := a[0], b[..k] + b[k + 1..];
      LeafStatusesPermute(docs, a[1..], rest);
      LeafStatusMoved(docs, b[..k], x, b[k + 1..]);
      assert a == [x] + a[1..];
      LeafStatusesCons(docs, x, a[1..]);
      LeafStatusesCons(docs, x, rest);
    }
  }

  /** Built from sorted children, checked from unsorted ones: the status is the same. */
  lemma ExpectedIsBuilt(docs: Docs, before: KeyOrder, id: string)
    ensures ExpectedL2(docs, id) == L2Status(docs, before, id)
  {
    var children := Children(docs.l3Parent, id);
    SortMembers(children, before);
    LeafStatusesPermute(docs, children, Sort(children, before));
    OrderIrrelevant(docs.marked(id), LeafStatuses(docs, children), LeafStatuses(docs, Sort(children, before)));
  }

  lemma {:induction false} ResolvedAreBuilt(docs: Docs, before: KeyOrder, l2: map<string, Status>, children: seq<string>)
    requires forall id :: id in l2 ==> l2[id] == L2Status(docs, before, id)
    ensures Resolve(l2, children).Some? ==> Resolve(l2, children).value == L2Statuses(docs, before, children)
  {
    if children != [] {
      var n := |children| - 1;
      ResolvedAreBuilt(docs, before, l2, children[..n]);
      assert L2Statuses(docs, before, children) == L2Statuses(docs, before, children[..n]) + [L2Status(docs, before, children[n])];
    }
  }

  lemma ChildrenAreIds(docs: Docs, before: KeyOrder, id: string)
    requires forall entry :: entry in docs.l2Parent ==> RequirementId(entry.0)
    ensures RequirementIds(L1Children(docs, before, id))
  {
    var children := Children(docs.l2Parent, id);
    var sorted := L1Children(docs, before, id);
    SortMembers(children, before);
    SameMembers(children, sorted);
    forall i | 0 <= i < |sorted|
      ensures RequirementId(sorted[i])
    {
      assert sorted[i] in children;
      CollectElement(docs.l2Parent, ChildOf(id), sorted[i]);
    }
  }

  lemma EmittedL1Consistent(docs: Docs, before: KeyOrder, m: Matrix, id: string)
    requires Emitted(docs, before, m) && id in ParseL1(m.l1)
    requires forall entry :: entry in docs.l2Parent ==> RequirementId(entry.0)
    ensures L1Consistent(docs, ParseL1(m.l1), ParseL2(m.l2), id)
  {
    var l1, l2 := ParseL1(m.l1), ParseL2(m.l2);
    var row :| row in m.l1 && row.id == id && l1[id] == (ParseChildren(row.children), row.status);
    ChildrenAreIds(docs, before, id);
    ChildrenRoundTrip(L1Children(docs, before, id));
    ResolvedAreBuilt(docs, before, l2, L1Children(docs, before, id));
  }

  /** The checker reports nothing on what the builder emits, through the printed and re-parsed
      children column, whatever the documents and markers. */
  lemma BuiltIsConsistent(docs: Docs, before: KeyOrder, m: Matrix)
    requires Emitted(docs, before, m)
    requires forall entry :: entry in docs.l2Parent ==> RequirementId(entry.0)
    ensures L2AllConsistent(docs, ParseL2(m.l2)) && L1AllConsistent(docs, ParseL1(m.l1), ParseL2(m.l2))
  {
    forall id | id in ParseL2(m.l2)
      ensures L2Consistent(docs, ParseL2(m.l2), id)
    {
      ExpectedIsBuilt(docs, before, id);
    }
    forall id | id in ParseL1(m.l1)
      ensures L1Consistent(docs, ParseL1(m.l1), ParseL2(m.l2), id)
    {
      EmittedL1Consistent(docs, before, m, id);
    }
  }

  /** Build, then check. */
  method BuildAndCheck(docs: Docs, before: KeyOrder) returns (m: Matrix, violations: seq<string>)
    requires forall entry :: entry in docs.l2Parent ==> RequirementId(entry.0)
    ensures Emitted(docs, before, m) && violations == []
  {
    m := BuildMatrix(docs, before);
    BuiltIsConsistent(docs, before, m);
    violations := VerifyRollup(docs, m);
  }

  // ---- The rows as trees -----------------------------------------------------------------------------

  function Leaves(docs: Docs, ids: seq<string>): (r: seq<Tree>)
    ensures |r| == |ids| && forall i :: 0 <= i < |r| ==> r[i] == Node(ids[i], docs.marked(ids[i]), [])
  {
    seq(|ids|, i requires 0 <= i < |ids| => Node(ids[i], docs.marked(ids[i]), []))
  }

  function L2Tree(docs: Docs, before: KeyOrder, id: string): Tree {
    Node(id, docs.marked(id), Leaves(docs, Sort(Children(docs.l3Parent, id), before)))
  }

  function L2Trees(docs: Docs, before: KeyOrder, ids: seq<string>): (r: seq<Tree>)
    ensures |r| == |ids| && forall i :: 0 <= i < |r| ==> r[i] == L2Tree(docs, before, ids[i])
  {
    seq(|ids|, i requires 0 <= i < |ids| => L2Tree(docs, before, ids[i]))
  }

  function L1Tree(docs: Docs, before: KeyOrder, id: string): Tree {
    Node(id, docs.marked(id), L2Trees(docs, before, L1Children(docs, before, id)))
  }

  lemma L2TreeStatus(docs: Docs, before: KeyOrder, id: string)
    ensures StatusOf(L2Tree(docs, before, id)) == L2Status(docs, before, id)
  {
    var leaves := Sort(Children(docs.l3Parent, id), before);
    forall i | 0 <= i < |leaves|
      ensures StatusOf(Leaves(docs, leaves)[i]) == ComputeStatus(docs.marked(leaves[i]), [])
    {
      assert StatusesOf([]) == [];
    }
    assert StatusesOf(Leaves(docs, leaves)) == LeafStatuses(docs, leaves);
  }

  lemma L1TreeStatus(docs: Docs, before: KeyOrder, id: string)
    ensures StatusOf(L1Tree(docs, before, id)) == L1Status(docs, before, id)
  {
    var ids := L1Children(docs, before, id);
    forall i | 0 <= i < |ids|
      ensures StatusOf(L2Tree(docs, before, ids[i])) == L2Status(docs, before, ids[i])
    {
      L2TreeStatus(docs, before, ids[i]);
    }
    assert StatusesOf(L2Trees(docs, before, ids)) == L2Statuses(docs, before, ids);
  }

  /** A printed level-1 status means what it says of the requirements below it. */
  lemma PrintedStatusMeaning(docs: Docs, before: KeyOrder, m: Matrix, row: L1Row)
    requires Emitted(docs, before, m) && row in m.l1
    ensures row.status == Draft <==> !AnyArtifact(L1Tree(docs, before, row.id))
    ensures row.status == Implemented <==> EveryLeafCovered(L1Tree(docs, before, row.id))
  {
    L1TreeStatus(docs, before, row.id);
    StatusMeaning(L1Tree(docs, before, row.id));
  }
}
