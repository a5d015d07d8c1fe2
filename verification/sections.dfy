/**
  The section store of compilator_8_bit/compiler/api/section.py.

  `SectionApi` works on one file (`file`) and the database's `Section` table,
  kept here as the sequence `rows` of every file's sections in insertion
  order; `nextId` is the id the next saved row receives.  The lookup tables
  `SectionType` and `SectionStatus` are the sets of their names.  A raised
  exception becomes a `SectionError` value.

  The store invariant is `Laminar`: two sections of the same file never
  share a start or an end, and are either disjoint or strictly nested.
*/
module Sections {
  import opened Wrappers
  import opened Text
  import opened Models

  const WRONG_RANGE_MESSAGE := "Start and end line values are wrong!"
  const CONFLICT_MESSAGE := "Section conflict detected"
  const INNER_CLASS := "code-section-inner"
  const OUTER_CLASS := "code-section-outer"

  /** Why a store operation raised. */
  datatype SectionError =
    | WrongRange            // ValueError with WRONG_RANGE_MESSAGE
    | Conflict              // ValueError with CONFLICT_MESSAGE
    | MissingSectionName    // KeyError on `data["section_name"]`
    | UnknownSectionType    // SectionType.DoesNotExist
    | UnknownSectionStatus  // SectionStatus.DoesNotExist

  /** The dictionary `create` receives; a missing key is `None`. */
  datatype SectionData = SectionData(
    sectionName: Option<string>, startLine: Option<int>, endLine: Option<int>,
    name: Option<string>, description: Option<string>)

  /** One line of the rendered listing, the dictionary `get_source_code_enriched` appends. */
  datatype Decoration = Decoration(
    line: string, startLine: int, endLine: int, endDiv: bool,
    sectionType: string, sectionStatus: string, className: string)

  /** The rows that satisfy `p`, in their order (a queryset `filter`). */
  function Keep(rows: seq<Section>, p: Section -> bool): (kept: seq<Section>)
    ensures |kept| <= |rows|
    ensures forall r :: r in kept <==> r in rows && p(r)
  {
    if rows == [] then [] else (if p(rows[0]) then [rows[0]] else []) + Keep(rows[1..], p)
  }

  /** The first row that satisfies `p` (`next(filter(p, rows), None)`). */
  function FirstWhere(rows: seq<Section>, p: Section -> bool): (r: Option<Section>)
    ensures r.Some? ==> r.value in rows && p(r.value)
    ensures r.Some? ==> exists i :: 0 <= i < |rows| && rows[i] == r.value && forall j :: 0 <= j < i ==> !p(rows[j])
    ensures r.None? <==> forall x :: x in rows ==> !p(x)
  {
    if rows == [] then None
    else if p(rows[0]) then Some(rows[0])
    else
      var rest := FirstWhere(rows[1..], p);
      if rest.Some? then
        var i :| 0 <= i < |rows[1..]| && rows[1..][i] == rest.value && forall j :: 0 <= j < i ==> !p(rows[1..][j]);
        assert rows[i + 1] == rest.value && forall j :: 0 <= j < i + 1 ==> !p(rows[j]);
        rest
      else rest
  }

  /** The sections of the file with id `fileId` (`SectionApi.get`). */
  function FileRows(rows: seq<Section>, fileId: nat): seq<Section> {
    Keep(rows, (r: Section) => r.fileId == fileId)
  }

  /** The table after `delete`: every row of other files, in order. */
  function WithoutFile(rows: seq<Section>, fileId: nat): seq<Section> {
    Keep(rows, (r: Section) => r.fileId != fileId)
  }

  /** Whether `delete_section(start, end)` selects the row. */
  predicate HasRange(r: Section, fileId: nat, start: int, end: int) {
    r.fileId == fileId && r.startLine == start && r.endLine == end
  }

  /** The table after `delete_section(start, end)`. */
  function WithoutRange(rows: seq<Section>, fileId: nat, start: int, end: int): seq<Section> {
    Keep(rows, (r: Section) => !HasRange(r, fileId, start, end))
  }

  /** Two closed ranges may coexist in one file: distinct starts, distinct ends, and disjoint or strictly nested. */
  predicate Compatible(s1: int, e1: int, s2: int, e2: int) {
    && s1 != s2 && e1 != e2
    && (e1 < s2 || e2 < s1 || (s1 < s2 && e2 < e1) || (s2 < s1 && e1 < e2))
  }

  /** Every two rows of the same file have compatible ranges. */
  predicate Laminar(rows: seq<Section>) {
    forall i, j :: 0 <= i < j < |rows| && rows[i].fileId == rows[j].fileId ==>
      Compatible(rows[i].startLine, rows[i].endLine, rows[j].startLine, rows[j].endLine)
  }

  /** The first check of `__validate_range`. */
  predicate RangeWrong(start: int, end: int, totalLines: int) {
    start <= 0 || end <= 0 || start > end || start > totalLines || end > totalLines
  }

  /** The four `Q` alternatives of the conflict query of `__validate_range`, for one stored row. */
  predicate Clashes(r: Section, start: int, end: int) {
    || (r.startLine > start && r.endLine > end && r.startLine <= end)
    || (r.startLine < start && r.endLine < end && r.endLine >= start)
    || r.startLine == start
    || r.endLine == end
  }

  /** `__validate_range`: the error it raises, if any. */
  function ValidateRange(sections: seq<Section>, totalLines: int, start: int, end: int): Option<SectionError> {
    if RangeWrong(start, end, totalLines) then Some(WrongRange)
    else if exists r :: r in sections && Clashes(r, start, end) then Some(Conflict)
    else None
  }

  /** The start and end `create` reads, `0` when the key is missing. */
  function StartOf(data: SectionData): int {
    if data.startLine.Some? then data.startLine.value else 0
  }

  function EndOf(data: SectionData): int {
    if data.endLine.Some? then data.endLine.value else 0
  }

  /** What `create` raises for `data`, checked in the source's order. */
  function CreateError(rows: seq<Section>, fileId: nat, totalLines: int, sectionTypes: set<string>, data: SectionData): Option<SectionError> {
    var v := ValidateRange(FileRows(rows, fileId), totalLines, StartOf(data), EndOf(data));
    if v.Some? then v
    else if data.sectionName.None? then Some(MissingSectionName)
    else if data.sectionName.value !in sectionTypes then Some(UnknownSectionType)
    else None
  }

  /** The row `create` saves: optional texts default to empty, the status is null, the snapshot is `source_code[start - 1:end]`. */
  function NewSection(id: nat, fileId: nat, lines: seq<string>, data: SectionData): Section
    requires data.sectionName.Some?
  {
    Section(id, if data.name.Some? then data.name.value else "",
            if data.description.Some? then data.description.value else "",
            fileId, StartOf(data), EndOf(data), data.sectionName.value, None, "",
            PySlice(lines, StartOf(data) - 1, EndOf(data)))
  }

  /** `clear_status_data` on one row. */
  function Cleared(r: Section, fileId: nat): Section {
    if r.fileId == fileId then r.(sectionStatus := None, statusData := "") else r
  }

  /** Whether `update_status_data` for line `lineId` selects the row. */
  predicate Covers(r: Section, fileId: nat, lineId: int) {
    r.fileId == fileId && r.startLine <= lineId <= r.endLine
  }

  /** `update_status_data` on one row. */
  function WithStatusData(r: Section, fileId: nat, status: string, lineId: int, content: string): Section {
    if Covers(r, fileId, lineId) then r.(sectionStatus := Some(status), statusData := r.statusData + content + ",") else r
  }

  /** `update_status` on one row. */
  function WithStatus(r: Section, fileId: nat, status: string): Section {
    if r.fileId == fileId && r.sectionStatus.None? then r.(sectionStatus := Some(status)) else r
  }

  function ClearedRows(rows: seq<Section>, fileId: nat): (rs: seq<Section>)
    ensures |rs| == |rows|
    ensures forall k :: 0 <= k < |rows| ==> rs[k] == Cleared(rows[k], fileId)
  {
    seq(|rows|, k requires 0 <= k < |rows| => Cleared(rows[k], fileId))
  }

  function StatusDataRows(rows: seq<Section>, fileId: nat, status: string, lineId: int, content: string): (rs: seq<Section>)
    ensures |rs| == |rows|
    ensures forall k :: 0 <= k < |rows| ==> rs[k] == WithStatusData(rows[k], fileId, status, lineId, content)
  {
    seq(|rows|, k requires 0 <= k < |rows| => WithStatusData(rows[k], fileId, status, lineId, content))
  }

  function StatusRows(rows: seq<Section>, fileId: nat, status: string): (rs: seq<Section>)
    ensures |rs| == |rows|
    ensures forall k :: 0 <= k < |rows| ==> rs[k] == WithStatus(rows[k], fileId, status)
  {
    seq(|rows|, k requires 0 <= k < |rows| => WithStatus(rows[k], fileId, status))
  }

  /** Row by row, the same file and the same range. */
  predicate SameRanges(a: seq<Section>, b: seq<Section>) {
    |a| == |b| &&
    forall k :: 0 <= k < |a| ==>
      a[k].fileId == b[k].fileId && a[k].startLine == b[k].startLine && a[k].endLine == b[k].endLine
  }

  /** The name a nullable status shows: its name, or `""`. */
  function StatusName(s: Option<string>): string {
    if s.Some? then s.value else ""
  }

  /** The first section that starts at line `n`. */
  function StartingAt(sections: seq<Section>, n: int): Option<Section> {
    FirstWhere(sections, (el: Section) => el.startLine == n)
  }

  /** The first section that ends at line `n`. */
  function EndingAt(sections: seq<Section>, n: int): Option<Section> {
    FirstWhere(sections, (el: Section) => el.endLine == n)
  }

  /** The first section that strictly contains `s`. */
  function EnclosingOf(sections: seq<Section>, s: Section): Option<Section> {
    FirstWhere(sections, (el: Section) => el.startLine < s.startLine && el.endLine > s.endLine)
  }

  /** The dictionary for line number `n` with text `line`, given the file's sections. */
  function Decorate(sections: seq<Section>, n: int, line: string): Decoration {
    var opening := StartingAt(sections, n);
    var endDiv := EndingAt(sections, n).Some?;
    if opening.None? then Decoration(line, 0, 0, endDiv, "", "", "")
    else
      var s := opening.value;
      Decoration(line, s.startLine, s.endLine, endDiv, s.sectionType, StatusName(s.sectionStatus),
                 if EnclosingOf(sections, s).Some? then INNER_CLASS else OUTER_CLASS)
  }

  // ---------------------------------------------------------------------
  // Filters

  /** Filtering a concatenation filters each part. */
  lemma {:induction false} KeepAppend(a: seq<Section>, b: seq<Section>, p: Section -> bool)
    ensures Keep(a + b, p) == Keep(a, p) + Keep(b, p)
    decreases |a|
  {
    if a == [] {
      assert a + b == b;
    } else {
      var head := if p(a[0]) then [a[0]] else [];
      assert (a + b)[0] == a[0] && (a + b)[1..] == a[1..] + b;
      KeepAppend(a[1..], b, p);
      assert Keep(a + b, p) == head + (Keep(a[1..], p) + Keep(b, p));
      ConcatAssociative(head, Keep(a[1..], p), Keep(b, p));
    }
  }

  /** A filter that keeps every row returns the rows unchanged. */
  lemma {:induction false} KeepAll(rows: seq<Section>, p: Section -> bool)
    requires forall r :: r in rows ==> p(r)
    ensures Keep(rows, p) == rows
    decreases |rows|
  {
    if rows != [] {
      assert forall r :: r in rows[1..] ==> r in rows;
      KeepAll(rows[1..], p);
    }
  }

  /** A filter that no row passes returns nothing. */
  lemma {:induction false} KeepNone(rows: seq<Section>, p: Section -> bool)
    requires forall r :: r in rows ==> !p(r)
    ensures Keep(rows, p) == []
    decreases |rows|
  {
    if rows != [] {
      assert forall r :: r in rows[1..] ==> r in rows;
      KeepNone(rows[1..], p);
    }
  }

  /** Filtering with `p` and then with a stricter `q` is filtering with `q`. */
  lemma {:induction false} KeepKeep(rows: seq<Section>, p: Section -> bool, q: Section -> bool)
    requires forall r :: r in rows && q(r) ==> p(r)
    ensures Keep(Keep(rows, p), q) == Keep(rows, q)
    decreases |rows|
  {
    if rows != [] {
      var head := if p(rows[0]) then [rows[0]] else [];
      assert forall r :: r in rows[1..] ==> r in rows;
      KeepKeep(rows[1..], p, q);
      KeepAppend(head, Keep(rows[1..], p), q);
    }
  }

  /** A filter that can drop only one of any two rows drops at most one row. */
  lemma {:induction false} KeepDropsAtMostOne(rows: seq<Section>, p: Section -> bool)
    requires forall i, j :: 0 <= i < j < |rows| ==> p(rows[i]) || p(rows[j])
    ensures |Keep(rows, p)| >= |rows| - 1
    decreases |rows|
  {
    if rows != [] {
      var tail := rows[1..];
      if p(rows[0]) {
        KeepDropsAtMostOne(tail, p);
      } else {
        forall r | r in tail ensures p(r) {
          var m :| 0 <= m < |tail| && tail[m] == r;
          assert p(rows[0]) || p(rows[m + 1]);
        }
        KeepAll(tail, p);
      }
    }
  }

  // ---------------------------------------------------------------------
  // The laminar invariant

  /** Dropping rows keeps the table laminar. */
  lemma {:induction false} KeepLaminar(rows: seq<Section>, p: Section -> bool)
    requires Laminar(rows)
    ensures Laminar(Keep(rows, p))
    decreases |rows|
  {
    if rows != [] {
      var tail := rows[1..];
      assert Laminar(tail) by {
        forall i, j | 0 <= i < j < |tail| && tail[i].fileId == tail[j].fileId
          ensures Compatible(tail[i].startLine, tail[i].endLine, tail[j].startLine, tail[j].endLine)
        {
          assert tail[i] == rows[i + 1] && tail[j] == rows[j + 1];
        }
      }
      KeepLaminar(tail, p);
      var rest := Keep(tail, p);
      if p(rows[0]) {
        var kept := [rows[0]] + rest;
        forall i, j | 0 <= i < j < |kept| && kept[i].fileId == kept[j].fileId
          ensures Compatible(kept[i].startLine, kept[i].endLine, kept[j].startLine, kept[j].endLine)
        {
          if i == 0 {
            assert kept[j] == rest[j - 1] && rest[j - 1] in rest;
            var m :| 0 <= m < |tail| && tail[m] == kept[j];
            assert rows[m + 1] == kept[j];
          } else {
            assert kept[i] == rest[i - 1] && kept[j] == rest[j - 1];
          }
        }
      }
    }
  }

  lemma WithoutFileLaminar(rows: seq<Section>, fileId: nat)
    requires Laminar(rows)
    ensures Laminar(WithoutFile(rows, fileId))
  {
    KeepLaminar(rows, (r: Section) => r.fileId != fileId);
  }

  lemma WithoutRangeLaminar(rows: seq<Section>, fileId: nat, start: int, end: int)
    requires Laminar(rows)
    ensures Laminar(WithoutRange(rows, fileId, start, end))
  {
    KeepLaminar(rows, (r: Section) => !HasRange(r, fileId, start, end));
  }

  /** Rewriting rows without moving them keeps the table laminar. */
  lemma SameRangesLaminar(a: seq<Section>, b: seq<Section>)
    requires SameRanges(a, b) && Laminar(a)
    ensures Laminar(b)
  {
    forall i, j | 0 <= i < j < |b| && b[i].fileId == b[j].fileId
      ensures Compatible(b[i].startLine, b[i].endLine, b[j].startLine, b[j].endLine)
    {
      assert a[i].fileId == a[j].fileId;
    }
  }

  /** A new row compatible with every row of its file keeps the table laminar. */
  lemma AppendLaminar(rows: seq<Section>, x: Section)
    requires Laminar(rows)
    requires forall r :: r in FileRows(rows, x.fileId) ==> Compatible(r.startLine, r.endLine, x.startLine, x.endLine)
    ensures Laminar(rows + [x])
  {
    var all := rows + [x];
    forall i, j | 0 <= i < j < |all| && all[i].fileId == all[j].fileId
      ensures Compatible(all[i].startLine, all[i].endLine, all[j].startLine, all[j].endLine)
    {
      if j == |rows| {
        assert all[i] == rows[i] && rows[i] in FileRows(rows, x.fileId);
      } else {
        assert all[i] == rows[i] && all[j] == rows[j];
      }
    }
  }

  /**
    For a well-formed new range, the conflict query of `__validate_range`
    finds a stored row exactly when the two ranges cannot coexist.
  */
  lemma ClashIffIncompatible(r: Section, start: int, end: int)
    requires start <= end
    ensures Clashes(r, start, end) <==> !Compatible(r.startLine, r.endLine, start, end)
  {
  }

  // ---------------------------------------------------------------------
  // create

  /**
    `create` raises `WrongRange` for a range outside `1..totalLines` or
    reversed, then `Conflict` when a row of the file clashes; otherwise it
    succeeds exactly when the range is compatible with every row of the file
    and the type name is given and known.
  */
  lemma CreateOutcome(rows: seq<Section>, fileId: nat, totalLines: int, sectionTypes: set<string>, data: SectionData)
    ensures var s, e := StartOf(data), EndOf(data);
      RangeWrong(s, e, totalLines) ==> CreateError(rows, fileId, totalLines, sectionTypes, data) == Some(WrongRange)
    ensures var s, e := StartOf(data), EndOf(data);
      !RangeWrong(s, e, totalLines) && (exists r :: r in FileRows(rows, fileId) && !Compatible(r.startLine, r.endLine, s, e)) ==>
        CreateError(rows, fileId, totalLines, sectionTypes, data) == Some(Conflict)
    ensures var s, e := StartOf(data), EndOf(data);
      CreateError(rows, fileId, totalLines, sectionTypes, data).None? <==>
        && 1 <= s <= e <= totalLines
        && (forall r :: r in FileRows(rows, fileId) ==> Compatible(r.startLine, r.endLine, s, e))
        && data.sectionName.Some? && data.sectionName.value in sectionTypes
  {
    var s, e := StartOf(data), EndOf(data);
    if !RangeWrong(s, e, totalLines) {
      forall r | r in FileRows(rows, fileId) ensures Clashes(r, s, e) <==> !Compatible(r.startLine, r.endLine, s, e) {
        ClashIffIncompatible(r, s, e);
      }
    }
  }

  /**
    A successful `create` keeps the table laminar, and the row it adds has the
    requested range and type, no status, and the lines `start..end` of the
    file as its snapshot.
  */
  lemma CreateKeepsLaminar(rows: seq<Section>, fileId: nat, lines: seq<string>, sectionTypes: set<string>, data: SectionData, id: nat)
    requires CreateError(rows, fileId, |lines|, sectionTypes, data).None?
    ensures data.sectionName.Some?
    ensures var x := NewSection(id, fileId, lines, data);
      && x.fileId == fileId && x.startLine == StartOf(data) && x.endLine == EndOf(data)
      && x.sectionType == data.sectionName.value && x.sectionStatus.None? && x.statusData == ""
      && x.sourceCode == lines[StartOf(data) - 1..EndOf(data)]
    ensures Laminar(rows) ==> Laminar(rows + [NewSection(id, fileId, lines, data)])
  {
    CreateOutcome(rows, fileId, |lines|, sectionTypes, data);
    if Laminar(rows) {
      AppendLaminar(rows, NewSection(id, fileId, lines, data));
    }
  }

  /** Adding a row adds it to the rows of its file. */
  lemma FileRowsAppend(rows: seq<Section>, x: Section)
    ensures FileRows(rows + [x], x.fileId) == FileRows(rows, x.fileId) + [x]
  {
    KeepAppend(rows, [x], (r: Section) => r.fileId == x.fileId);
  }

  /**
    Two compatible ranges (disjoint, or one strictly inside the other) are
    both accepted into a file without sections, whichever is created first.
  */
  lemma CompatiblePairAccepted(rows: seq<Section>, fileId: nat, lines: seq<string>, sectionTypes: set<string>,
                               a: SectionData, b: SectionData, id: nat)
    requires FileRows(rows, fileId) == []
    requires 1 <= StartOf(a) <= EndOf(a) <= |lines| && 1 <= StartOf(b) <= EndOf(b) <= |lines|
    requires a.sectionName.Some? && a.sectionName.value in sectionTypes
    requires b.sectionName.Some? && b.sectionName.value in sectionTypes
    requires Compatible(StartOf(a), EndOf(a), StartOf(b), EndOf(b))
    ensures CreateError(rows, fileId, |lines|, sectionTypes, a).None?
    ensures CreateError(rows + [NewSection(id, fileId, lines, a)], fileId, |lines|, sectionTypes, b).None?
    ensures CreateError(rows, fileId, |lines|, sectionTypes, b).None?
    ensures CreateError(rows + [NewSection(id, fileId, lines, b)], fileId, |lines|, sectionTypes, a).None?
  {
    CreateOutcome(rows, fileId, |lines|, sectionTypes, a);
    CreateOutcome(rows, fileId, |lines|, sectionTypes, b);
    FileRowsAppend(rows, NewSection(id, fileId, lines, a));
    CreateOutcome(rows + [NewSection(id, fileId, lines, a)], fileId, |lines|, sectionTypes, b);
    FileRowsAppend(rows, NewSection(id, fileId, lines, b));
    CreateOutcome(rows + [NewSection(id, fileId, lines, b)], fileId, |lines|, sectionTypes, a);
  }

  // ---------------------------------------------------------------------
  // delete and delete_section

  /** `delete` leaves no row of the file and every row of every other file, in order. */
  lemma DeleteEffect(rows: seq<Section>, fileId: nat, other: nat)
    ensures FileRows(WithoutFile(rows, fileId), fileId) == []
    ensures other != fileId ==> FileRows(WithoutFile(rows, fileId), other) == FileRows(rows, other)
  {
    var left := FileRows(WithoutFile(rows, fileId), fileId);
    KeepNone(WithoutFile(rows, fileId), (r: Section) => r.fileId == fileId);
    if other != fileId {
      KeepKeep(rows, (r: Section) => r.fileId != fileId, (r: Section) => r.fileId == other);
    }
  }

  /**
    `delete_section` removes exactly the rows of the file with that range;
    it changes nothing when there is none, and removes at most one row from a
    laminar table.
  */
  lemma DeleteSectionEffect(rows: seq<Section>, fileId: nat, start: int, end: int)
    ensures forall r :: r in WithoutRange(rows, fileId, start, end) <==> r in rows && !HasRange(r, fileId, start, end)
    ensures (forall r :: r in rows ==> !HasRange(r, fileId, start, end)) ==> WithoutRange(rows, fileId, start, end) == rows
    ensures Laminar(rows) ==> |WithoutRange(rows, fileId, start, end)| >= |rows| - 1
  {
    var p := (r: Section) => !HasRange(r, fileId, start, end);
    if forall r :: r in rows ==> !HasRange(r, fileId, start, end) {
      KeepAll(rows, p);
    }
    if Laminar(rows) {
      assert forall i, j :: 0 <= i < j < |rows| ==> p(rows[i]) || p(rows[j]);
      KeepDropsAtMostOne(rows, p);
    }
  }

  // ---------------------------------------------------------------------
  // Status updates

  /** After `clear_status_data` no row of the file has a status or status text; other rows are unchanged; ranges stay. */
  lemma ClearEffect(rows: seq<Section>, fileId: nat)
    ensures forall r :: r in FileRows(ClearedRows(rows, fileId), fileId) ==> r.sectionStatus.None? && r.statusData == ""
    ensures forall k :: 0 <= k < |rows| && rows[k].fileId != fileId ==> ClearedRows(rows, fileId)[k] == rows[k]
    ensures SameRanges(rows, ClearedRows(rows, fileId))
  {
    var after := ClearedRows(rows, fileId);
    forall r | r in FileRows(after, fileId) ensures r.sectionStatus.None? && r.statusData == "" {
      var k :| 0 <= k < |after| && after[k] == r;
      assert r == Cleared(rows[k], fileId);
    }
  }

  /**
    `update_status_data` changes exactly the rows of the file whose range
    contains the line: each gets the status and the text with a comma
    appended; two calls append the text twice.
  */
  lemma StatusDataEffect(rows: seq<Section>, fileId: nat, status: string, lineId: int, content: string)
    ensures forall k :: 0 <= k < |rows| ==>
      var r, r' := rows[k], StatusDataRows(rows, fileId, status, lineId, content)[k];
      && (Covers(r, fileId, lineId) ==> r'.sectionStatus == Some(status) && r'.statusData == r.statusData + content + ",")
      && (!Covers(r, fileId, lineId) ==> r' == r)
    ensures forall k :: 0 <= k < |rows| && Covers(rows[k], fileId, lineId) ==>
      StatusDataRows(StatusDataRows(rows, fileId, status, lineId, content), fileId, status, lineId, content)[k].statusData
        == rows[k].statusData + content + "," + content + ","
    ensures SameRanges(rows, StatusDataRows(rows, fileId, status, lineId, content))
  {
    var once := StatusDataRows(rows, fileId, status, lineId, content);
    forall k | 0 <= k < |rows| && Covers(rows[k], fileId, lineId)
      ensures StatusDataRows(once, fileId, status, lineId, content)[k].statusData
        == rows[k].statusData + content + "," + content + ","
    {
      assert Covers(once[k], fileId, lineId);
    }
  }

  /** `update_status` never overwrites a status, and afterwards every row of the file has one; ranges stay. */
  lemma StatusFillEffect(rows: seq<Section>, fileId: nat, status: string)
    ensures forall k :: 0 <= k < |rows| && (rows[k].fileId != fileId || rows[k].sectionStatus.Some?) ==>
      StatusRows(rows, fileId, status)[k] == rows[k]
    ensures forall r :: r in FileRows(StatusRows(rows, fileId, status), fileId) ==> r.sectionStatus.Some?
    ensures SameRanges(rows, StatusRows(rows, fileId, status))
  {
    var after := StatusRows(rows, fileId, status);
    forall r | r in FileRows(after, fileId) ensures r.sectionStatus.Some? {
      var k :| 0 <= k < |after| && after[k] == r;
      assert r == WithStatus(rows[k], fileId, status);
    }
  }

  // ---------------------------------------------------------------------
  // get_source_code_enriched

  /** Every section belongs to the file with id `fileId`. */
  predicate OneFile(sections: seq<Section>, fileId: nat) {
    forall r :: r in sections ==> r.fileId == fileId
  }

  /** The sections `get` returns belong to the file and form a laminar family when the table does. */
  lemma FileRowsLaminar(rows: seq<Section>, fileId: nat)
    ensures OneFile(FileRows(rows, fileId), fileId)
    ensures Laminar(rows) ==> Laminar(FileRows(rows, fileId))
  {
    if Laminar(rows) {
      KeepLaminar(rows, (r: Section) => r.fileId == fileId);
    }
  }

  /** In a laminar family of one file, a start line identifies the section. */
  lemma StartIdentifies(sections: seq<Section>, fileId: nat, x: Section, y: Section)
    requires Laminar(sections) && OneFile(sections, fileId)
    requires x in sections && y in sections && x.startLine == y.startLine
    ensures x == y
  {
    var i :| 0 <= i < |sections| && sections[i] == x;
    var j :| 0 <= j < |sections| && sections[j] == y;
    assert i == j;
  }

  /**
    The dictionary of line `n` keeps the line's text; `end_div` tells whether
    some section ends there; without a section starting there, the range is
    `0, 0` and the texts are empty.
  */
  lemma DecorateShape(sections: seq<Section>, n: int, line: string)
    ensures Decorate(sections, n, line).line == line
    ensures Decorate(sections, n, line).endDiv <==> exists r :: r in sections && r.endLine == n
    ensures (forall r :: r in sections ==> r.startLine != n) ==>
      var d := Decorate(sections, n, line);
      d.startLine == 0 && d.endLine == 0 && d.sectionType == "" && d.sectionStatus == "" && d.className == ""
  {
    if exists r :: r in sections && r.endLine == n {
      var r :| r in sections && r.endLine == n;
      assert (r.endLine == n) == ((el: Section) => el.endLine == n)(r);
    }
  }

  /**
    In a laminar family of one file, the dictionary of the line where section
    `x` starts shows `x`: its range, type and status name (or `""`), and the
    class `code-section-inner` exactly when another section strictly contains
    it, `code-section-outer` otherwise.
  */
  lemma DecorateOpening(sections: seq<Section>, fileId: nat, x: Section, line: string)
    requires Laminar(sections) && OneFile(sections, fileId) && x in sections
    ensures var d := Decorate(sections, x.startLine, line);
      && d.startLine == x.startLine && d.endLine == x.endLine
      && d.sectionType == x.sectionType && d.sectionStatus == StatusName(x.sectionStatus)
      && (d.className == INNER_CLASS <==> exists y :: y in sections && y.startLine < x.startLine && y.endLine > x.endLine)
      && (d.className != INNER_CLASS <==> d.className == OUTER_CLASS)
  {
    var opening := StartingAt(sections, x.startLine);
    assert ((el: Section) => el.startLine == x.startLine)(x);
    StartIdentifies(sections, fileId, opening.value, x);
    if exists y :: y in sections && y.startLine < x.startLine && y.endLine > x.endLine {
      var y :| y in sections && y.startLine < x.startLine && y.endLine > x.endLine;
      assert ((el: Section) => el.startLine < x.startLine && el.endLine > x.endLine)(y);
    }
  }

  class SectionApi {
    const file: File
    /** `self.source_code`: the file's text split on newlines. */
    const sourceCode: seq<string>
    const sectionTypes: set<string>
    const sectionStatuses: set<string>
    var rows: seq<Section>
    var nextId: nat

    /** `SectionApi(file_id)` for a file that exists, over the current table. */
    constructor (file: File, rows: seq<Section>, nextId: nat, sectionTypes: set<string>, sectionStatuses: set<string>)
      ensures this.file == file && this.rows == rows && this.nextId == nextId
      ensures this.sectionTypes == sectionTypes && this.sectionStatuses == sectionStatuses
      ensures sourceCode == Split(file.sourceCode, "\n")
    {
      this.file := file;
      sourceCode := Split(file.sourceCode, "\n");
      this.rows := rows;
      this.nextId := nextId;
      this.sectionTypes := sectionTypes;
      this.sectionStatuses := sectionStatuses;
    }

    /** `self.total_lines`: the number of lines of the file. */
    function TotalLines(): nat {
      |sourceCode|
    }

    /** `get`: the sections of this file. */
    function Get(): seq<Section>
      reads this
    {
      FileRows(rows, file.id)
    }

    /** `delete`: removes every section of this file. */
    method Delete()
      modifies this
      ensures rows == WithoutFile(old(rows), file.id)
      ensures nextId == old(nextId)
      ensures Laminar(old(rows)) ==> Laminar(rows)
    {
      if Laminar(rows) {
        WithoutFileLaminar(rows, file.id);
      }
      rows := WithoutFile(rows, file.id);
    }

    /** `delete_section`: removes the sections of this file with exactly this range. */
    method DeleteSection(start: int, end: int)
      modifies this
      ensures rows == WithoutRange(old(rows), file.id, start, end)
      ensures nextId == old(nextId)
      ensures Laminar(old(rows)) ==> Laminar(rows)
    {
      if Laminar(rows) {
        WithoutRangeLaminar(rows, file.id, start, end);
      }
      rows := WithoutRange(rows, file.id, start, end);
    }

    /** `create`: validates, looks the type up, then saves one new row. */
    method Create(data: SectionData) returns (error: Option<SectionError>)
      modifies this
      ensures error == CreateError(old(rows), file.id, TotalLines(), sectionTypes, data)
      ensures error.None? ==> data.sectionName.Some? && rows == old(rows) + [NewSection(old(nextId), file.id, sourceCode, data)]
      ensures error.None? ==> nextId == old(nextId) + 1
      ensures error.Some? ==> rows == old(rows) && nextId == old(nextId)
      ensures Laminar(old(rows)) ==> Laminar(rows)
    {
      var start := StartOf(data);
      var end := EndOf(data);
      error := ValidateRange(Get(), TotalLines(), start, end);
      if error.Some? {
        return;
      }
      if data.sectionName.None? {
        return Some(MissingSectionName);
      }
      if data.sectionName.value !in sectionTypes {
        return Some(UnknownSectionType);
      }
      if Laminar(rows) {
        CreateKeepsLaminar(rows, file.id, sourceCode, sectionTypes, data, nextId);
      }
      rows := rows + [NewSection(nextId, file.id, sourceCode, data)];
      nextId := nextId + 1;
    }

    /** `clear_status_data`: every section of this file loses its status and its status text. */
    method ClearStatusData()
      modifies this
      ensures rows == ClearedRows(old(rows), file.id)
      ensures nextId == old(nextId)
      ensures Laminar(old(rows)) ==> Laminar(rows)
    {
      ClearEffect(rows, file.id);
      if Laminar(rows) {
        SameRangesLaminar(rows, ClearedRows(rows, file.id));
      }
      var i := 0;
      while i < |rows|
        invariant 0 <= i <= |rows| == |old(rows)|
        invariant forall k :: 0 <= k < i ==> rows[k] == Cleared(old(rows)[k], file.id)
        invariant forall k :: i <= k < |rows| ==> rows[k] == old(rows)[k]
        invariant nextId == old(nextId)
      {
        if rows[i].fileId == file.id {
          rows := rows[i := rows[i].(sectionStatus := None, statusData := "")];
        }
        i := i + 1;
      }
    }

    /**
      `update_status_data(status, {line_id, line_content})`: every section of
      this file that contains line `lineId` gets `status` and the text
      `content` followed by a comma.  An unknown status raises first.
    */
    method UpdateStatusData(status: string, lineId: int, content: string) returns (error: Option<SectionError>)
      modifies this
      ensures error.None? <==> status in sectionStatuses
      ensures error.None? ==> rows == StatusDataRows(old(rows), file.id, status, lineId, content)
      ensures error.Some? ==> error == Some(UnknownSectionStatus) && rows == old(rows)
      ensures nextId == old(nextId)
      ensures Laminar(old(rows)) ==> Laminar(rows)
    {
      StatusDataEffect(rows, file.id, status, lineId, content);
      if Laminar(rows) {
        SameRangesLaminar(rows, StatusDataRows(rows, file.id, status, lineId, content));
      }
      if status !in sectionStatuses {
        return Some(UnknownSectionStatus);
      }
      error := None;
      var i := 0;
      while i < |rows|
        invariant 0 <= i <= |rows| == |old(rows)|
        invariant forall k :: 0 <= k < i ==> rows[k] == WithStatusData(old(rows)[k], file.id, status, lineId, content)
        invariant forall k :: i <= k < |rows| ==> rows[k] == old(rows)[k]
        invariant nextId == old(nextId)
      {
        if rows[i].fileId == file.id && rows[i].startLine <= lineId <= rows[i].endLine {
          rows := rows[i := rows[i].(sectionStatus := Some(status), statusData := rows[i].statusData + content + ",")];
        }
        i := i + 1;
      }
    }

    /** `update_status(status)`: the sections of this file without a status get `status`. */
    method UpdateStatus(status: string) returns (error: Option<SectionError>)
      modifies this
      ensures error.None? <==> status in sectionStatuses
      ensures error.None? ==> rows == StatusRows(old(rows), file.id, status)
      ensures error.Some? ==> error == Some(UnknownSectionStatus) && rows == old(rows)
      ensures nextId == old(nextId)
      ensures Laminar(old(rows)) ==> Laminar(rows)
    {
      StatusFillEffect(rows, file.id, status);
      if Laminar(rows) {
        SameRangesLaminar(rows, StatusRows(rows, file.id, status));
      }
      if status !in sectionStatuses {
        return Some(UnknownSectionStatus);
      }
      error := None;
      var i := 0;
      while i < |rows|
        invariant 0 <= i <= |rows| == |old(rows)|
        invariant forall k :: 0 <= k < i ==> rows[k] == WithStatus(old(rows)[k], file.id, status)
        invariant forall k :: i <= k < |rows| ==> rows[k] == old(rows)[k]
        invariant nextId == old(nextId)
      {
        if rows[i].fileId == file.id && rows[i].sectionStatus.None? {
          rows := rows[i := rows[i].(sectionStatus := Some(status))];
        }
        i := i + 1;
      }
    }

    /** `get_source_code_enriched(source_code)`: one dictionary per line, numbered from 1. */
    method GetSourceCodeEnriched(source: seq<string>) returns (data: seq<Decoration>)
      ensures |data| == |source|
      ensures forall n :: 0 <= n < |source| ==> data[n] == Decorate(Get(), n + 1, source[n])
    {
      var sections := Get();
      data := [];
      var counter := 1;
      while counter <= |source|
        invariant 1 <= counter <= |source| + 1 && |data| == counter - 1
        invariant forall n :: 0 <= n < |data| ==> data[n] == Decorate(sections, n + 1, source[n])
      {
        var d := EnrichLine(sections, counter, source[counter - 1]);
        data := data + [d];
        counter := counter + 1;
      }
    }

    /** The body of the loop of `get_source_code_enriched` for line number `counter`. */
    static method EnrichLine(sections: seq<Section>, counter: int, line: string) returns (d: Decoration)
      ensures d == Decorate(sections, counter, line)
    {
      var startLine, endLine, endDiv := 0, 0, false;
      var sectionType, sectionStatus, className := "", "", "";
      var section := StartingAt(sections, counter);
      if section.Some? {
        startLine := section.value.startLine;
        endLine := section.value.endLine;
        sectionType := section.value.sectionType;
        if section.value.sectionStatus.Some? {
          sectionStatus := section.value.sectionStatus.value;
        }
        section := EnclosingOf(sections, section.value);
        if section.Some? {
          className := INNER_CLASS;
        } else {
          className := OUTER_CLASS;
        }
      }
      section := EndingAt(sections, counter);
      if section.Some? {
        endDiv := true;
      }
      d := Decoration(line, startLine, endLine, endDiv, sectionType, sectionStatus, className);
    }
  }
}
