/**
  The request handlers of compilator_8_bit/compiler/views.py that carry
  logic of their own: the processor-dependent option lists, `parse_file`
  (the nested re-parse of procedure bodies, then clear and insert),
  `Compile.post` (the two passes that assign compile statuses) and
  `DeleteSection.post`.  Rendering, redirects and the session are reduced
  to the `Response` value a handler answers.
*/
module Views {
  import opened Wrappers
  import opened Text
  import opened Models
  import opened Sectionizer
  import opened Parsing
  import opened Sections
  import opened CompilerApi
  import opened Files

  // ---------------------------------------------------------------------
  // get_dependent_options

  /** The processors offered in the compile form; `""` is the empty choice. */
  const PROCESSORS: seq<string> :=
    ["", "mcs51", "ds390", "ds400", "z80", "z180", "r2k", "r3ka", "sm83", "tlcs90", "ez80_z80", "stm8"]

  const MCS51_OPTIONS: seq<string> := ["model-small", "model-medium", "model-large", "model-huge"]
  const DS390_OPTIONS: seq<string> := ["model-flat24", "protect-sp-update", "stack-10bit", "stack-probe", "use-accelerator"]
  const Z80_OPTIONS: seq<string> := ["no-std-crt0", "callee-saves-bc", "reserve-regs-iy", "fno-omit-frame-pointer"]
  const SM83_OPTIONS: seq<string> := ["no-std-crt0", "callee-saves-bc"]
  const STM8_OPTIONS: seq<string> := ["model-medium", "model-large"]

  /** `get_dependent_options(processor)`: the option list of the processor's family, or `None`. */
  function GetDependentOptions(processor: string): Option<seq<string>> {
    if processor == "mcs51" then Some(MCS51_OPTIONS)
    else if processor in ["ds390", "ds400"] then Some(DS390_OPTIONS)
    else if processor in ["z80", "z180", "r2k", "r3ka", "tlcs90", "ez80_z80"] then Some(Z80_OPTIONS)
    else if processor == "sm83" then Some(SM83_OPTIONS)
    else if processor == "stm8" then Some(STM8_OPTIONS)
    else None
  }

  /**
    Every processor of the form except the empty choice has a list of
    dependent options, and nothing else has one; processors of one family
    share the family's list.
  */
  lemma DependentOptionsCoverForm(processor: string)
    ensures GetDependentOptions(processor).Some? <==> processor in PROCESSORS && processor != ""
    ensures processor == "ds400" ==> GetDependentOptions(processor) == GetDependentOptions("ds390")
    ensures processor in ["z180", "r2k", "r3ka", "tlcs90", "ez80_z80"] ==>
      GetDependentOptions(processor) == GetDependentOptions("z80")
  {
  }

  // ---------------------------------------------------------------------
  // parse_file: the nested pass

  /** A record whose body `parse_file` parses again: a procedure spanning more than one line. */
  predicate Rescannable(r: Record) {
    r.sectionName == "procedure" && r.startLine != r.endLine
  }

  /** The records of parsing `source_code[start_line:end_line]` with offset `start_line`. */
  function Rescan(source: seq<string>, r: Record): Option<seq<Record>> {
    Sectionize(PySlice(source, r.startLine, r.endLine), r.startLine)
  }

  /** `Parser(lines, offset).parse_source_code()` on a fresh parser. */
  method Parse(lines: seq<string>, offset: int) returns (r: Option<seq<Record>>)
    ensures r == Sectionize(lines, offset)
  {
    var parser := new Parser(lines, offset);
    r := parser.ParseSourceCode();
    if r.Some? {
      assert [] + Sectionize(lines, offset).value == Sectionize(lines, offset).value;
    }
  }

  /** The records sit in the file: `1 <= start <= end <= n`. */
  predicate InFile(rs: seq<Record>, n: int) {
    forall k :: 0 <= k < |rs| ==> 1 <= rs[k].startLine <= rs[k].endLine <= n
  }

  /** `sub` occurs in `rs` at position `j`. */
  predicate Contains(rs: seq<Record>, j: int, sub: seq<Record>) {
    0 <= j && j + |sub| <= |rs| && rs[j..j + |sub|] == sub
  }

  /** The number of lines a record spans. */
  function Span(r: Record): nat {
    if r.startLine <= r.endLine then r.endLine - r.startLine + 1 else 0
  }

  /** The lines the records span, counted with repetition: the work left to the nested pass. */
  function Potential(rs: seq<Record>): nat {
    if rs == [] then 0 else Span(rs[0]) + Potential(rs[1..])
  }

  lemma {:induction false} PotentialAppend(a: seq<Record>, b: seq<Record>)
    ensures Potential(a + b) == Potential(a) + Potential(b)
    decreases |a|
  {
    if a != [] {
      assert (a + b)[1..] == a[1..] + b;
      PotentialAppend(a[1..], b);
    } else {
      assert a + b == b;
    }
  }

  /** Separated records within `lo..hi` span at most the lines of `lo..hi`. */
  lemma {:induction false} SeparatedPotential(rs: seq<Record>, lo: int, hi: int)
    requires Separated(rs) && Within(rs, lo, hi) && lo <= hi + 1
    ensures Potential(rs) <= hi - lo + 1
    decreases |rs|
  {
    if rs != [] {
      var rest := rs[1..];
      assert Separated(rest) by {
        forall a, b | 0 <= a < b < |rest| ensures rest[a].endLine < rest[b].startLine {
          assert rest[a] == rs[a + 1] && rest[b] == rs[b + 1];
        }
      }
      assert Within(rest, rs[0].endLine + 1, hi) by {
        forall k | 0 <= k < |rest| ensures rs[0].endLine + 1 <= rest[k].startLine && rest[k].endLine <= hi {
          assert rest[k] == rs[k + 1];
        }
      }
      SeparatedPotential(rest, rs[0].endLine + 1, hi);
    }
  }

  /**
    The re-parse of a procedure body covers lines `start + 1 .. end` of the
    file (the signature line is left out, the closing line kept), with line
    numbers of the whole file, and spans fewer lines than the procedure.
  */
  lemma RescanInside(source: seq<string>, r: Record)
    requires Rescannable(r) && 1 <= r.startLine <= r.endLine <= |source|
    requires Rescan(source, r).Some?
    ensures PySlice(source, r.startLine, r.endLine) == source[r.startLine..r.endLine]
    ensures InFile(Rescan(source, r).value, |source|)
    ensures forall k :: 0 <= k < |Rescan(source, r).value| ==>
      r.startLine < Rescan(source, r).value[k].startLine && Rescan(source, r).value[k].endLine <= r.endLine
    ensures Potential(Rescan(source, r).value) < Span(r)
  {
    var sub := Rescan(source, r).value;
    assert Separated(sub);
    SeparatedPotential(sub, r.startLine + 1, r.endLine);
  }

  /** `child` is one of the records the re-parse of the procedure `parent` yields. */
  predicate Produced(source: seq<string>, parent: Record, child: Record) {
    Rescannable(parent) && Rescan(source, parent).Some? && child in Rescan(source, parent).value
  }

  /** The record at `j` comes from the re-parse of a procedure earlier in the list. */
  ghost predicate HasParent(source: seq<string>, rs: seq<Record>, j: int)
    requires 0 <= j < |rs|
  {
    exists k :: 0 <= k < j && Produced(source, rs[k], rs[j])
  }

  /** Every record is a top-level record or comes from the re-parse of an earlier procedure in the list. */
  ghost predicate Grounded(source: seq<string>, top: seq<Record>, rs: seq<Record>) {
    forall j :: |top| <= j < |rs| ==> HasParent(source, rs, j)
  }

  /** The re-parse of the procedure at `k` succeeds and appears in the list after it. */
  ghost predicate Expanded(source: seq<string>, rs: seq<Record>, k: int)
    requires 0 <= k < |rs|
  {
    Rescan(source, rs[k]).Some? && exists j :: k < j && Contains(rs, j, Rescan(source, rs[k]).value)
  }

  /** The records before `i` that are procedures have their re-parse in the list after them. */
  ghost predicate ClosedBefore(source: seq<string>, rs: seq<Record>, i: int) {
    forall k :: 0 <= k < i && k < |rs| && Rescannable(rs[k]) ==> Expanded(source, rs, k)
  }

  lemma ContainsGrows(rs: seq<Record>, more: seq<Record>, j: int, sub: seq<Record>)
    requires Contains(rs, j, sub)
    ensures Contains(rs + more, j, sub)
  {
    assert (rs + more)[j..j + |sub|] == rs[j..j + |sub|];
  }

  /** Appending records keeps an expansion in place. */
  lemma ExpandedGrows(source: seq<string>, rs: seq<Record>, more: seq<Record>, k: int)
    requires 0 <= k < |rs| && Expanded(source, rs, k)
    ensures Expanded(source, rs + more, k)
  {
    var sub := Rescan(source, rs[k]).value;
    var j :| k < j && Contains(rs, j, sub);
    ContainsGrows(rs, more, j, sub);
    assert (rs + more)[k] == rs[k];
  }

  /** The re-parse appended after the list is the expansion of the record at `i`. */
  lemma ExpandedNew(source: seq<string>, parsed: seq<Record>, i: int, sub: seq<Record>)
    requires 0 <= i < |parsed| && Rescan(source, parsed[i]) == Some(sub)
    ensures Expanded(source, parsed + sub, i)
  {
    var np := parsed + sub;
    assert np[i] == parsed[i];
    assert np[|parsed|..|parsed| + |sub|] == sub;
    assert Contains(np, |parsed|, sub);
  }

  lemma ClosedStep(source: seq<string>, parsed: seq<Record>, i: int, sub: seq<Record>)
    requires 0 <= i < |parsed| && ClosedBefore(source, parsed, i)
    requires Rescannable(parsed[i]) && Rescan(source, parsed[i]) == Some(sub)
    ensures ClosedBefore(source, parsed + sub, i + 1)
  {
    var np := parsed + sub;
    forall k | 0 <= k < i + 1 && k < |np| && Rescannable(np[k])
      ensures Expanded(source, np, k)
    {
      if k < i {
        assert np[k] == parsed[k];
        ExpandedGrows(source, parsed, sub, k);
      } else {
        ExpandedNew(source, parsed, i, sub);
      }
    }
  }

  lemma GroundedStep(source: seq<string>, top: seq<Record>, parsed: seq<Record>, i: int, sub: seq<Record>)
    requires 0 <= i < |parsed| && |top| <= |parsed| && Grounded(source, top, parsed)
    requires Rescannable(parsed[i]) && Rescan(source, parsed[i]) == Some(sub)
    ensures Grounded(source, top, parsed + sub)
  {
    var np := parsed + sub;
    forall j | |top| <= j < |np|
      ensures HasParent(source, np, j)
    {
      if j < |parsed| {
        assert HasParent(source, parsed, j);
        var k :| 0 <= k < j && Produced(source, parsed[k], parsed[j]);
        assert np[k] == parsed[k] && np[j] == parsed[j];
        assert Produced(source, np[k], np[j]);
      } else {
        assert np[j] == sub[j - |parsed|] && np[i] == parsed[i];
        assert Produced(source, np[i], np[j]);
      }
    }
  }

  lemma PotentialStep(parsed: seq<Record>, i: int, sub: seq<Record>)
    requires 0 <= i < |parsed| && Potential(sub) < Span(parsed[i])
    ensures Potential((parsed + sub)[i + 1..]) < Potential(parsed[i..])
  {
    assert parsed[i..] == [parsed[i]] + parsed[i + 1..];
    assert (parsed + sub)[i + 1..] == parsed[i + 1..] + sub;
    PotentialAppend([parsed[i]], parsed[i + 1..]);
    PotentialAppend(parsed[i + 1..], sub);
  }

  /** What the nested pass keeps while it walks the list: `top` comes first, all records lie in the file, the records before `i` are expanded and every record has its origin. */
  ghost predicate Progress(source: seq<string>, top: seq<Record>, parsed: seq<Record>, i: int) {
    && 0 <= i <= |parsed|
    && |top| <= |parsed| && parsed[..|top|] == top
    && InFile(parsed, |source|)
    && ClosedBefore(source, parsed, i)
    && Grounded(source, top, parsed)
  }

  /** One turn of the nested loop on the record at `i`: the list after it, or `None` if the re-parse raises. */
  function VisitStep(source: seq<string>, parsed: seq<Record>, i: int): Option<seq<Record>>
    requires 0 <= i < |parsed|
  {
    if !Rescannable(parsed[i]) then Some(parsed)
    else match Rescan(source, parsed[i])
      case None => None
      case Some(sub) => Some(if |sub| > 0 then parsed + sub else parsed)
  }

  /** A turn keeps the records in the file, only appends, and leaves less work. */
  lemma VisitStepShrinks(source: seq<string>, parsed: seq<Record>, i: int)
    requires 0 <= i < |parsed| && InFile(parsed, |source|)
    ensures VisitStep(source, parsed, i).Some? ==>
      var next := VisitStep(source, parsed, i).value;
      && |parsed| <= |next| && next[..|parsed|] == parsed
      && InFile(next, |source|)
      && Potential(next[i + 1..]) < Potential(parsed[i..])
  {
    var section := parsed[i];
    if Rescannable(section) && Rescan(source, section).Some? {
      var sub := Rescan(source, section).value;
      RescanInside(source, section);
      PotentialStep(parsed, i, sub);
      assert (parsed + sub)[..|parsed|] == parsed;
      if |sub| == 0 {
        assert parsed + sub == parsed;
      }
    } else if !Rescannable(section) {
      PotentialAppend([section], parsed[i + 1..]);
      assert parsed[i..] == [section] + parsed[i + 1..];
    }
  }

  /** The nested loop from index `i` on. */
  function Nest(source: seq<string>, parsed: seq<Record>, i: int): Option<seq<Record>>
    requires 0 <= i <= |parsed| && InFile(parsed, |source|)
    decreases Potential(parsed[i..])
  {
    if i == |parsed| then Some(parsed)
    else
      VisitStepShrinks(source, parsed, i);
      match VisitStep(source, parsed, i)
      case None => None
      case Some(next) => Nest(source, next, i + 1)
  }

  /** What the nested pass of `parse_file` yields for a file: `None` where a parse raises. */
  function NestedParse(source: seq<string>): Option<seq<Record>> {
    match Sectionize(source, 0)
    case None => None
    case Some(top) => Nest(source, top, 0)
  }

  /** One turn of the nested loop: re-parse the record at `i` if it is a multi-line procedure. */
  method Visit(source: seq<string>, ghost top: seq<Record>, parsed: seq<Record>, i: int) returns (next: Option<seq<Record>>)
    requires Progress(source, top, parsed, i) && i < |parsed|
    ensures next == VisitStep(source, parsed, i)
    ensures next.Some? ==> Progress(source, top, next.value, i + 1)
    ensures next.Some? ==> Potential(next.value[i + 1..]) < Potential(parsed[i..])
  {
    var section := parsed[i];
    VisitStepShrinks(source, parsed, i);
    if Rescannable(section) {
      var sub := Parse(PySlice(source, section.startLine, section.endLine), section.startLine);
      if sub.None? {
        return None;
      }
      ClosedStep(source, parsed, i, sub.value);
      GroundedStep(source, top, parsed, i, sub.value);
      assert (parsed + sub.value)[..|top|] == parsed[..|top|];
      if |sub.value| > 0 {
        next := Some(parsed + sub.value);
      } else {
        assert parsed + sub.value == parsed;
        next := Some(parsed);
      }
    } else {
      assert ClosedBefore(source, parsed, i + 1);
      next := Some(parsed);
    }
  }

  /**
    The walk has reached the record at `i` of `rs`, a multi-line procedure
    of the file, and the parse of its body raises.
  */
  ghost predicate FailsAt(source: seq<string>, top: seq<Record>, rs: seq<Record>, i: int) {
    Progress(source, top, rs, i) && i < |rs| && Rescannable(rs[i]) && Rescan(source, rs[i]).None?
  }

  /** The body whose parse fails is lines `start + 1 .. end` of the file, which are not empty. */
  lemma FailingBody(source: seq<string>, top: seq<Record>, rs: seq<Record>, i: int)
    requires FailsAt(source, top, rs, i)
    ensures 1 <= rs[i].startLine < rs[i].endLine <= |source|
    ensures PySlice(source, rs[i].startLine, rs[i].endLine) == source[rs[i].startLine..rs[i].endLine] != []
    ensures Sectionize(source[rs[i].startLine..rs[i].endLine], rs[i].startLine).None?
  {
    assert 1 <= rs[i].startLine <= rs[i].endLine <= |source|;
  }

  /**
    The nested pass of `parse_file`: parse the file, then walk the record
    list while extending it, re-parsing the body of every multi-line
    procedure, including those found by an earlier re-parse.  `None` where
    a parse raises.  The top-level records come first; every multi-line
    procedure in the result has its re-parse after it, and every other
    record comes from the re-parse of a procedure before it.
  */
  method ParseFile(source: seq<string>) returns (result: Option<seq<Record>>)
    ensures result == NestedParse(source)
    ensures result.Some? ==> var top := Sectionize(source, 0).value;
      && |top| <= |result.value| && result.value[..|top|] == top
      && InFile(result.value, |source|)
      && ClosedBefore(source, result.value, |result.value|)
      && Grounded(source, top, result.value)
    ensures result.None? ==> Sectionize(source, 0).None? || exists rs, i :: FailsAt(source, Sectionize(source, 0).value, rs, i)
  {
    var top := Parse(source, 0);
    if top.None? {
      return None;
    }
    var parsed := top.value;
    var i := 0;
    while i < |parsed|
      invariant Progress(source, top.value, parsed, i)
      invariant Nest(source, parsed, i) == NestedParse(source)
      decreases Potential(parsed[i..])
    {
      var next := Visit(source, top.value, parsed, i);
      if next.None? {
        assert FailsAt(source, top.value, parsed, i);
        return None;
      }
      parsed := next.value;
      i := i + 1;
    }
    return Some(parsed);
  }

  // ---------------------------------------------------------------------
  // parse_file: storing the records

  /** What a handler answers: the error page with status 400, a redirect, or the rendered listing. */
  datatype Response =
    | BadRequest
    | Redirect(location: string)
    | Listing(lines: seq<Decoration>)

  /** The dictionary a parser record is handed to `create` as: no name, no description. */
  function DataOf(r: Record): SectionData {
    SectionData(Some(r.sectionName), Some(r.startLine), Some(r.endLine), None, None)
  }

  /** The rows `create` adds for the records `rs`, one after another, from id `firstId` on. */
  function Inserted(firstId: nat, fileId: nat, lines: seq<string>, rs: seq<Record>): seq<Section> {
    seq(|rs|, k requires 0 <= k < |rs| => NewSection(firstId + k, fileId, lines, DataOf(rs[k])))
  }

  /**
    `section_api.delete()` and then `section_api.create(section)` for each
    record in order; the first `create` that raises ends the loop, with the
    rows created so far kept.  `saved` is the number of records stored.
  */
  method SaveSections(api: SectionApi, parsed: seq<Record>) returns (error: Option<SectionError>, saved: nat)
    modifies api
    ensures saved <= |parsed| && (error.None? <==> saved == |parsed|)
    ensures api.rows == WithoutFile(old(api.rows), api.file.id) + Inserted(old(api.nextId), api.file.id, api.sourceCode, parsed)[..saved]
    ensures api.nextId == old(api.nextId) + saved
    ensures error.Some? ==> error == CreateError(api.rows, api.file.id, api.TotalLines(), api.sectionTypes, DataOf(parsed[saved]))
    ensures forall j :: 0 <= j < saved ==>
      CreateError(WithoutFile(old(api.rows), api.file.id) + Inserted(old(api.nextId), api.file.id, api.sourceCode, parsed)[..j],
        api.file.id, api.TotalLines(), api.sectionTypes, DataOf(parsed[j])).None?
    ensures Laminar(old(api.rows)) ==> Laminar(api.rows)
  {
    api.Delete();
    ghost var base := api.rows;
    ghost var all := Inserted(api.nextId, api.file.id, api.sourceCode, parsed);
    saved := 0;
    while saved < |parsed|
      invariant saved <= |parsed|
      invariant api.rows == base + all[..saved]
      invariant api.nextId == old(api.nextId) + saved
      invariant forall j :: 0 <= j < saved ==>
        CreateError(base + all[..j], api.file.id, api.TotalLines(), api.sectionTypes, DataOf(parsed[j])).None?
      invariant Laminar(old(api.rows)) ==> Laminar(api.rows)
    {
      error := api.Create(DataOf(parsed[saved]));
      if error.Some? {
        return;
      }
      assert all[..saved + 1] == all[..saved] + [all[saved]];
      saved := saved + 1;
    }
    error := None;
  }

  /** After the delete and the inserts, the file's sections are the inserted rows; other files keep theirs. */
  lemma StoredRows(rows: seq<Section>, fileId: nat, ins: seq<Section>, other: nat)
    requires forall r :: r in ins ==> r.fileId == fileId
    ensures FileRows(WithoutFile(rows, fileId) + ins, fileId) == ins
    ensures other != fileId ==> FileRows(WithoutFile(rows, fileId) + ins, other) == FileRows(rows, other)
  {
    var kept := WithoutFile(rows, fileId);
    KeepAppend(kept, ins, (r: Section) => r.fileId == fileId);
    DeleteEffect(rows, fileId, other);
    KeepAll(ins, (r: Section) => r.fileId == fileId);
    if other != fileId {
      KeepAppend(kept, ins, (r: Section) => r.fileId == other);
      KeepNone(ins, (r: Section) => r.fileId == other);
    }
  }

  /**
    When every record is stored, the sections of the file are exactly the
    records, in order, each with its record's type and range, no status,
    and the snapshot of its lines; other files keep their sections.
  */
  lemma StoredSections(rows: seq<Section>, firstId: nat, fileId: nat, lines: seq<string>, rs: seq<Record>, other: nat)
    ensures var after := WithoutFile(rows, fileId) + Inserted(firstId, fileId, lines, rs);
      && |FileRows(after, fileId)| == |rs|
      && (forall k :: 0 <= k < |rs| ==>
            var x := FileRows(after, fileId)[k];
            && x.id == firstId + k && x.sectionType == rs[k].sectionName
            && x.startLine == rs[k].startLine && x.endLine == rs[k].endLine
            && x.sectionStatus.None? && x.statusData == ""
            && x.sourceCode == PySlice(lines, rs[k].startLine - 1, rs[k].endLine))
      && (other != fileId ==> FileRows(after, other) == FileRows(rows, other))
  {
    var ins := Inserted(firstId, fileId, lines, rs);
    assert forall r :: r in ins ==> r.fileId == fileId;
    StoredRows(rows, fileId, ins, other);
  }

  /**
    `parse_file(id)` for an existing file: the nested parse, then the
    sections stored, then the enriched listing of the file; any raise
    answers 400.  `saved` is the number of records stored before the
    answer.
  */
  method ParseFileView(api: SectionApi) returns (response: Response, ghost saved: nat)
    modifies api
    ensures response.BadRequest? || response.Listing?
    ensures NestedParse(api.sourceCode).None? ==> response.BadRequest? && api.rows == old(api.rows)
    ensures NestedParse(api.sourceCode).Some? ==>
      var rs := NestedParse(api.sourceCode).value;
      && saved <= |rs|
      && api.rows == WithoutFile(old(api.rows), api.file.id) + Inserted(old(api.nextId), api.file.id, api.sourceCode, rs)[..saved]
      && api.nextId == old(api.nextId) + saved
      && (response.Listing? <==> saved == |rs|)
      && (forall j :: 0 <= j < saved ==>
            CreateError(WithoutFile(old(api.rows), api.file.id) + Inserted(old(api.nextId), api.file.id, api.sourceCode, rs)[..j],
              api.file.id, api.TotalLines(), api.sectionTypes, DataOf(rs[j])).None?)
      && (response.BadRequest? ==>
            CreateError(api.rows, api.file.id, api.TotalLines(), api.sectionTypes, DataOf(rs[saved])).Some?)
    ensures response.Listing? ==>
      && NestedParse(api.sourceCode).Some?
      && |response.lines| == |api.sourceCode|
      && (forall n :: 0 <= n < |api.sourceCode| ==> response.lines[n] == Decorate(api.Get(), n + 1, api.sourceCode[n]))
    ensures Laminar(old(api.rows)) ==> Laminar(api.rows)
  {
    saved := 0;
    var parsed := ParseFile(api.sourceCode);
    if parsed.None? {
      return BadRequest, saved;
    }
    var error;
    error, saved := SaveSections(api, parsed.value);
    if error.Some? {
      return BadRequest, saved;
    }
    var listing := api.GetSourceCodeEnriched(api.sourceCode);
    return Listing(listing), saved;
  }

  // ---------------------------------------------------------------------
  // Compile.post

  /** The compile form's fields; a missing single-valued field is `None`, a missing list is empty. */
  datatype CompileForm = CompileForm(
    fileId: Option<string>, standard: Option<string>, processor: Option<string>,
    optimizations: seq<string>, dependent: seq<string>)

  /** The line a diagnostic names, as the range filter reads its digit string. */
  function LineOf(d: Diagnostic): int {
    LeadingNumber(d.lineId)
  }

  /** The table after `update_status_data(status, line)` for each diagnostic in order. */
  function Marked(rows: seq<Section>, fileId: nat, status: string, diags: seq<Diagnostic>): seq<Section> {
    if diags == [] then rows
    else
      var last := diags[|diags| - 1];
      StatusDataRows(Marked(rows, fileId, status, diags[..|diags| - 1]), fileId, status, LineOf(last), last.lineContent)
  }

  /** Whether some diagnostic names a line of the row's range. */
  predicate AnyCovers(r: Section, fileId: nat, diags: seq<Diagnostic>) {
    exists d :: d in diags && Covers(r, fileId, LineOf(d))
  }

  /** The text the diagnostics inside the row's range leave in `status_data`: each one's content and a comma, in order. */
  function CoveringText(r: Section, fileId: nat, diags: seq<Diagnostic>): string {
    if diags == [] then ""
    else
      var last := diags[|diags| - 1];
      CoveringText(r, fileId, diags[..|diags| - 1]) + (if Covers(r, fileId, LineOf(last)) then last.lineContent + "," else "")
  }

  /** The row once the diagnostics have been applied: their text appended and, if one lies inside, the status. */
  function Collected(r: Section, fileId: nat, status: string, diags: seq<Diagnostic>): Section {
    r.(sectionStatus := if AnyCovers(r, fileId, diags) then Some(status) else r.sectionStatus,
       statusData := r.statusData + CoveringText(r, fileId, diags))
  }

  /** One more diagnostic on a row: `update_status_data` on what the earlier ones left. */
  lemma CollectedStep(r: Section, fileId: nat, status: string, diags: seq<Diagnostic>)
    requires diags != []
    ensures var last := diags[|diags| - 1];
      Collected(r, fileId, status, diags)
        == WithStatusData(Collected(r, fileId, status, diags[..|diags| - 1]), fileId, status, LineOf(last), last.lineContent)
  {
    var init := diags[..|diags| - 1];
    var last := diags[|diags| - 1];
    AnyCoversSnoc(r, fileId, diags);
    var extra := if Covers(r, fileId, LineOf(last)) then last.lineContent + "," else "";
    assert CoveringText(r, fileId, diags) == CoveringText(r, fileId, init) + extra;
    assert r.statusData + CoveringText(r, fileId, init) + extra == r.statusData + (CoveringText(r, fileId, init) + extra);
  }

  /**
    Row by row, the diagnostics append their text to the rows whose range
    holds their line and give those rows the status; nothing else changes.
  */
  lemma {:induction false} MarkedRow(rows: seq<Section>, fileId: nat, status: string, diags: seq<Diagnostic>, k: int)
    requires 0 <= k < |rows|
    ensures |Marked(rows, fileId, status, diags)| == |rows|
    ensures Marked(rows, fileId, status, diags)[k] == Collected(rows[k], fileId, status, diags)
    decreases |diags|
  {
    if diags == [] {
      assert rows[k].statusData + "" == rows[k].statusData;
    } else {
      MarkedRow(rows, fileId, status, diags[..|diags| - 1], k);
      CollectedStep(rows[k], fileId, status, diags);
    }
  }

  lemma AnyCoversSnoc(r: Section, fileId: nat, diags: seq<Diagnostic>)
    requires diags != []
    ensures AnyCovers(r, fileId, diags) <==>
      AnyCovers(r, fileId, diags[..|diags| - 1]) || Covers(r, fileId, LineOf(diags[|diags| - 1]))
  {
    var init := diags[..|diags| - 1];
    assert diags == init + [diags[|diags| - 1]];
  }

  /** Rows of the same file with the same range collect the same diagnostics. */
  lemma {:induction false} CoveringSameRange(r1: Section, r2: Section, fileId: nat, diags: seq<Diagnostic>)
    requires r1.fileId == r2.fileId && r1.startLine == r2.startLine && r1.endLine == r2.endLine
    ensures AnyCovers(r1, fileId, diags) <==> AnyCovers(r2, fileId, diags)
    ensures CoveringText(r1, fileId, diags) == CoveringText(r2, fileId, diags)
    decreases |diags|
  {
    if diags != [] {
      CoveringSameRange(r1, r2, fileId, diags[..|diags| - 1]);
    }
  }

  /** A row of another file collects nothing. */
  lemma {:induction false} OtherFileCollectsNothing(r: Section, fileId: nat, diags: seq<Diagnostic>)
    requires r.fileId != fileId
    ensures !AnyCovers(r, fileId, diags) && CoveringText(r, fileId, diags) == ""
    decreases |diags|
  {
    if diags != [] {
      OtherFileCollectsNothing(r, fileId, diags[..|diags| - 1]);
    }
  }

  /** The status `Compile.post` fills the remaining sections with: a warning run counts as a clean one. */
  function FinalStatus(status: string): string {
    if status == WITH_WARNINGS then WITHOUT_WARNINGS else status
  }

  /** The table after the two passes of `Compile.post`: clear, mark each diagnostic's sections, then fill the rest. */
  function Compiled(rows: seq<Section>, fileId: nat, report: CompilationReport): seq<Section> {
    StatusRows(Marked(ClearedRows(rows, fileId), fileId, report.status, report.data), fileId, FinalStatus(report.status))
  }

  /**
    After a compile, every section of the file has a status: the
    compile's status if a diagnostic names one of its lines, the final
    status otherwise; its `status_data` holds exactly the diagnostics
    inside it, in order.  Ranges and the sections of other files do not
    change, and a warning status never reaches a section without a
    diagnostic.
  */
  lemma CompiledSections(rows: seq<Section>, fileId: nat, report: CompilationReport, k: int)
    requires 0 <= k < |rows|
    ensures |Compiled(rows, fileId, report)| == |rows|
    ensures rows[k].fileId == fileId ==>
      var x := Compiled(rows, fileId, report)[k];
      && x.sectionStatus == Some(if AnyCovers(rows[k], fileId, report.data) then report.status else FinalStatus(report.status))
      && x.statusData == CoveringText(rows[k], fileId, report.data)
      && x.startLine == rows[k].startLine && x.endLine == rows[k].endLine
    ensures rows[k].fileId == fileId && Compiled(rows, fileId, report)[k].sectionStatus == Some(WITH_WARNINGS) ==>
      AnyCovers(rows[k], fileId, report.data)
    ensures rows[k].fileId != fileId ==> Compiled(rows, fileId, report)[k] == rows[k]
  {
    var cleared := ClearedRows(rows, fileId);
    MarkedRow(cleared, fileId, report.status, report.data, k);
    assert cleared[k] == Cleared(rows[k], fileId);
    if rows[k].fileId != fileId {
      OtherFileCollectsNothing(cleared[k], fileId, report.data);
      assert cleared[k].statusData + "" == cleared[k].statusData;
    } else {
      CoveringSameRange(rows[k], cleared[k], fileId, report.data);
      assert "" + CoveringText(cleared[k], fileId, report.data) == CoveringText(cleared[k], fileId, report.data);
    }
  }

  /** Whether both `update_status_data` and `update_status` find their status in the table. */
  predicate StatusesKnown(report: CompilationReport, statuses: set<string>) {
    (report.data == [] || report.status in statuses) && FinalStatus(report.status) in statuses
  }

  /** The address `Compile.post` redirects to: the compile page for the file and the run. */
  function CompiledLocation(fileId: string, uid: string): string {
    "/compile?id=" + fileId + "&uid=" + uid
  }

  /**
    The loop of `Compile.post` over the diagnostics: `update_status_data`
    for each in order.  All calls use one status, so either the first
    raises and nothing changes, or all succeed.
  */
  method MarkDiagnostics(api: SectionApi, status: string, diags: seq<Diagnostic>) returns (ok: bool)
    modifies api
    ensures ok <==> diags == [] || status in api.sectionStatuses
    ensures ok ==> api.rows == Marked(old(api.rows), api.file.id, status, diags)
    ensures !ok ==> api.rows == old(api.rows)
    ensures api.nextId == old(api.nextId)
    ensures Laminar(old(api.rows)) ==> Laminar(api.rows)
  {
    var k := 0;
    while k < |diags|
      invariant k <= |diags|
      invariant api.rows == Marked(old(api.rows), api.file.id, status, diags[..k])
      invariant k > 0 ==> status in api.sectionStatuses
      invariant api.nextId == old(api.nextId)
      invariant Laminar(old(api.rows)) ==> Laminar(api.rows)
    {
      var line := diags[k];
      var error := api.UpdateStatusData(status, LineOf(line), line.lineContent);
      if error.Some? {
        assert k == 0;
        return false;
      }
      assert diags[..k + 1][..k] == diags[..k];
      k := k + 1;
    }
    assert diags[..k] == diags;
    return true;
  }

  /**
    `Compile.post`: a form without a file id, a standard or a processor
    answers 400.  Otherwise the compiler runs (its stderr and whether it
    left an assembly listing are `stderr` and `asmExists`), the sections'
    statuses are cleared, each diagnostic marks the sections holding its
    line, and the rest get the final status.  A status missing from the
    table answers 400, leaving the passes done so far.
  */
  method CompilePost(form: CompileForm, api: SectionApi, freshUid: string, stderr: string, asmExists: bool)
    returns (response: Response)
    requires form.fileId.Some? ==> form.fileId.value == NatToString(api.file.id)
    modifies api
    ensures form.fileId.None? || form.standard.None? || form.processor.None? ==>
      response == BadRequest && api.rows == old(api.rows)
    ensures var report := CompilationStatuses(stderr, asmExists);
      form.fileId.Some? && form.standard.Some? && form.processor.Some? && StatusesKnown(report, api.sectionStatuses) ==>
        && response == Redirect(CompiledLocation(form.fileId.value, freshUid))
        && api.rows == Compiled(old(api.rows), api.file.id, report)
    ensures var report := CompilationStatuses(stderr, asmExists);
      form.fileId.Some? && form.standard.Some? && form.processor.Some? && !StatusesKnown(report, api.sectionStatuses) ==>
        api.rows == (if report.data == [] || report.status in api.sectionStatuses
                     then Marked(ClearedRows(old(api.rows), api.file.id), api.file.id, report.status, report.data)
                     else ClearedRows(old(api.rows), api.file.id))
    ensures var report := CompilationStatuses(stderr, asmExists);
      response.BadRequest? <==>
        form.fileId.None? || form.standard.None? || form.processor.None? || !StatusesKnown(report, api.sectionStatuses)
    ensures api.nextId == old(api.nextId)
    ensures Laminar(old(api.rows)) ==> Laminar(api.rows)
  {
    if form.fileId.None? || form.standard.None? || form.processor.None? {
      return BadRequest;
    }
    var settings := Settings(api.file.id, form.standard.value, form.processor.value, form.optimizations, form.dependent);
    var compiler := new Compiler.Configured(settings, freshUid);
    var run := compiler.Compile();
    var report := CompilationStatuses(stderr, asmExists);
    api.ClearStatusData();
    var marked := MarkDiagnostics(api, report.status, report.data);
    if !marked {
      return BadRequest;
    }
    var error := api.UpdateStatus(FinalStatus(report.status));
    if error.Some? {
      return BadRequest;
    }
    return Redirect(CompiledLocation(form.fileId.value, run.value));
  }

  // ---------------------------------------------------------------------
  // DeleteSection.post

  /** The address of `parse_file` for the file. */
  function ParseLocation(id: nat): string {
    "/file/" + NatToString(id) + "/parse"
  }

  /**
    `DeleteSection.post`: removes the file's sections with exactly this
    range, deletes the lines `start..end` from the file's text and sends
    the browser to parse the file again.  The remaining sections keep
    their old line numbers until that parse.
  */
  method DeleteSectionPost(api: SectionApi, files: FileApi, id: nat, start: int, end: int) returns (response: Response)
    requires api.file.id == id && files.Valid()
    modifies api, files
    ensures api.rows == WithoutRange(old(api.rows), id, start, end) && api.nextId == old(api.nextId)
    ensures Laminar(old(api.rows)) ==> Laminar(api.rows)
    ensures files.Valid() && files.nextId == old(files.nextId)
    ensures var k := FileIndex(old(files.files), id);
      && (k < 0 ==> response == BadRequest && files.files == old(files.files))
      && (k >= 0 ==> response == Redirect(ParseLocation(id)) && files.files == old(files.files)[k := old(files.files)[k].(
            sourceCode := DeleteLines(old(files.files)[k].sourceCode, start, end))])
  {
    api.DeleteSection(start, end);
    var error := files.DeleteSection(id, start, end);
    if error.Some? {
      return BadRequest;
    }
    return Redirect(ParseLocation(id));
  }
}
