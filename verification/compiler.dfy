/**
  The text handling of compilator_8_bit/compiler/api/compiler.py: the
  guard that only a fully configured `Compiler` compiles, the option string
  handed to `sdcc`, the warnings read from its standard error, and the
  listings built from the assembly output or from the error text.

  The files themselves are not read here: the text of `source.stderr`,
  the text of `source.asm` when it can be read, and whether it exists are
  parameters.
*/
module CompilerApi {
  import opened Wrappers
  import opened Text

  /** The file stem and extension `sdcc` is run on. */
  const FILE_NAME: string := "source"
  const FILE_EXT: string := ".c"
  /** The text that introduces a diagnostic in `source.stderr`. */
  const SOURCE_TAG: string := "source.c:"
  const NOT_INITIALIZED_MESSAGE: string := "Initialize compiler properly!"

  const DOES_NOT_COMPILE: string := "Does not compile"
  const WITH_WARNINGS: string := "Compiled with warnings"
  const WITHOUT_WARNINGS: string := "Compiled without warnings"

  /** The comment line `sdcc` puts above and below each function header. */
  const MARKER: string := ";-----------------"
  const HEADER_CLASS: string := "asm-header"
  const BODY_CLASS: string := "asm-body"

  // ---------------------------------------------------------------------
  // The compiler object

  /** The five positional arguments of a compiler that can compile. */
  datatype Settings = Settings(
    fileId: nat, standard: string, processor: string,
    optimizations: seq<string>, dependent: seq<string>)

  class Compiler {
    const uid: string
    const canCompile: bool
    /** The five arguments, present only on a compiler built from them. */
    const settings: Option<Settings>

    /** `Compiler(file_id, standard, processor, optimizations, dependent)`; `freshUid` stands for `uuid1()`. */
    constructor Configured(s: Settings, freshUid: string)
      ensures canCompile && settings == Some(s) && uid == freshUid
    {
      settings := Some(s);
      uid := freshUid;
      canCompile := true;
    }

    /** `Compiler(uid)`: a handle on the output of an earlier compilation. */
    constructor FromUid(uid: string)
      ensures !canCompile && settings.None? && this.uid == uid
    {
      this.uid := uid;
      settings := None;
      canCompile := false;
    }

    /**
      `compile`: refuses with a `TypeError` on a compiler that cannot
      compile; otherwise answers the uid naming the output directory.
    */
    method Compile() returns (r: Result<string, string>)
      ensures r.Success? <==> canCompile
      ensures r.Success? ==> r.value == uid
      ensures r.Failure? ==> r.error == NOT_INITIALIZED_MESSAGE
    {
      if !canCompile {
        return Failure(NOT_INITIALIZED_MESSAGE);
      }
      return Success(uid);
    }
  }

  // ---------------------------------------------------------------------
  // __get_options

  /** The flags `" --" + o` for each `o`, in order. */
  function Flags(items: seq<string>): string {
    if items == [] then "" else " --" + items[0] + Flags(items[1..])
  }

  /** `__get_options`: standard, processor, then the optimizations and the dependent options. */
  function GetOptions(s: Settings): string {
    "--std-" + s.standard + " -m" + s.processor + Flags(s.optimizations) + Flags(s.dependent)
  }

  /** Each item with `--` in front. */
  function Dashed(items: seq<string>): (r: seq<string>)
    ensures |r| == |items|
    ensures forall k :: 0 <= k < |items| ==> r[k] == "--" + items[k]
  {
    seq(|items|, k requires 0 <= k < |items| => "--" + items[k])
  }

  /** The arguments the shell passes to `sdcc` for the option string. */
  function OptionWords(s: Settings): seq<string> {
    ["--std-" + s.standard, "-m" + s.processor] + Dashed(s.optimizations) + Dashed(s.dependent)
  }

  lemma {:induction false} FlagsJoin(head: string, items: seq<string>)
    ensures head + Flags(items) == Join([head] + Dashed(items), " ")
    decreases |items|
  {
    if items != [] {
      var rest := items[1..];
      FlagsJoin(head + " --" + items[0], rest);
      FlagsJoin("--" + items[0], rest);
      assert Dashed(items) == ["--" + items[0]] + Dashed(rest);
      assert [head] + Dashed(items) == [head] + ([("--" + items[0])] + Dashed(rest));
      calc {
        Join([head] + Dashed(items), " ");
        head + " " + Join([("--" + items[0])] + Dashed(rest), " ");
        head + " " + ("--" + items[0] + Flags(rest));
        head + Flags(items);
      }
    } else {
      assert [head] + Dashed(items) == [head];
    }
  }

  lemma SpaceFree(prefix: string, item: string)
    requires ' ' !in prefix && ' ' !in item
    ensures ' ' !in prefix + item
  {
    assert forall k :: 0 <= k < |prefix + item| ==> (prefix + item)[k] in prefix || (prefix + item)[k] in item;
  }

  lemma {:induction false} FlagsAppend(a: seq<string>, b: seq<string>)
    ensures Flags(a) + Flags(b) == Flags(a + b)
    decreases |a|
  {
    if a != [] {
      assert (a + b)[0] == a[0] && (a + b)[1..] == a[1..] + b;
      FlagsAppend(a[1..], b);
    } else {
      assert a + b == b;
    }
  }

  /** The option string is its words joined by spaces. */
  lemma OptionsJoin(s: Settings)
    ensures Join(OptionWords(s), " ") == GetOptions(s)
  {
    var a, b := "--std-" + s.standard, "-m" + s.processor;
    var all := s.optimizations + s.dependent;
    assert Dashed(all) == Dashed(s.optimizations) + Dashed(s.dependent);
    assert OptionWords(s) == [a] + ([b] + Dashed(all));
    FlagsAppend(s.optimizations, s.dependent);
    FlagsJoin(b, all);
  }

  lemma OptionWordsSpaceFree(s: Settings)
    requires ' ' !in s.standard && ' ' !in s.processor
    requires forall o :: o in s.optimizations + s.dependent ==> ' ' !in o
    ensures forall w :: w in OptionWords(s) ==> ' ' !in w
  {
    var all := s.optimizations + s.dependent;
    assert Dashed(all) == Dashed(s.optimizations) + Dashed(s.dependent);
    SpaceFree("--std-", s.standard);
    SpaceFree("-m", s.processor);
    forall w | w in Dashed(all) ensures ' ' !in w {
      var k :| 0 <= k < |Dashed(all)| && Dashed(all)[k] == w;
      assert all[k] in all;
      SpaceFree("--", all[k]);
    }
  }

  /**
    When no option contains a space, the shell splits the option string into
    exactly one word per option: the standard, the processor, every
    optimization and every dependent option, in this order.
  */
  lemma OptionsRoundTrip(s: Settings)
    requires ' ' !in s.standard && ' ' !in s.processor
    requires forall o :: o in s.optimizations + s.dependent ==> ' ' !in o
    ensures Split(GetOptions(s), " ") == OptionWords(s)
  {
    OptionsJoin(s);
    OptionWordsSpaceFree(s);
    SplitJoin(OptionWords(s), ' ');
  }

  // ---------------------------------------------------------------------
  // get_compilation_statuses

  /** A warning or error of `source.stderr`: the line number as text, and the text after the tag. */
  datatype Diagnostic = Diagnostic(lineId: string, lineContent: string)

  datatype CompilationReport = CompilationReport(status: string, data: seq<Diagnostic>)

  /** The fragments that start with a line number, each with that number (`re.search("^\d+", ...)`). */
  function Diagnostics(fragments: seq<string>): (r: seq<Diagnostic>)
    ensures |r| <= |fragments|
    ensures forall d :: d in r ==> d.lineContent in fragments && d.lineId != [] && d.lineId == LeadingDigits(d.lineContent)
    ensures forall f :: f in fragments && LeadingDigits(f) != [] ==> Diagnostic(LeadingDigits(f), f) in r
  {
    if fragments == [] then []
    else
      var rest := Diagnostics(fragments[1..]);
      var f := fragments[0];
      assert forall g :: g in fragments <==> g == f || g in fragments[1..];
      if LeadingDigits(f) != [] then [Diagnostic(LeadingDigits(f), f)] + rest else rest
  }

  /**
    Diagnostics keep the order of the fragments and their repetitions: the
    list for two stretches of stderr is the two lists joined, and a single
    fragment gives one diagnostic exactly when it starts with digits.
  */
  lemma {:induction false} DiagnosticsInOrder(a: seq<string>, b: seq<string>)
    ensures Diagnostics(a + b) == Diagnostics(a) + Diagnostics(b)
    ensures |a| == 1 ==> Diagnostics(a) == (if LeadingDigits(a[0]) != [] then [Diagnostic(LeadingDigits(a[0]), a[0])] else [])
    decreases |a|
  {
    if a == [] {
      assert a + b == b;
    } else {
      var head := if LeadingDigits(a[0]) != [] then [Diagnostic(LeadingDigits(a[0]), a[0])] else [];
      assert (a + b)[0] == a[0] && (a + b)[1..] == a[1..] + b;
      assert Diagnostics(a + b) == head + Diagnostics(a[1..] + b);
      assert Diagnostics(a) == head + Diagnostics(a[1..]);
      DiagnosticsInOrder(a[1..], b);
      ConcatAssociative(head, Diagnostics(a[1..]), Diagnostics(b));
      if |a| == 1 {
        assert a[1..] == [];
      }
    }
  }

  /** The text after each occurrence of `source.c:` up to the next one; the text before the first is dropped. */
  function TaggedFragments(stderr: string): seq<string> {
    Split(stderr, SOURCE_TAG)[1..]
  }

  /** `get_compilation_statuses`, for the text of `source.stderr` and whether `source.asm` exists. */
  function CompilationStatuses(stderr: string, asmExists: bool): CompilationReport {
    var data := Diagnostics(TaggedFragments(stderr));
    var status :=
      if !asmExists then DOES_NOT_COMPILE
      else if |data| > 0 then WITH_WARNINGS
      else WITHOUT_WARNINGS;
    CompilationReport(status, data)
  }

  /**
    The status is "Does not compile" exactly when there is no assembly, and
    "Compiled with warnings" exactly when there is assembly and some text
    after a `source.c:` tag starts with a line number.
  */
  lemma StatusMeaning(stderr: string, asmExists: bool)
    ensures CompilationStatuses(stderr, asmExists).status == DOES_NOT_COMPILE <==> !asmExists
    ensures CompilationStatuses(stderr, asmExists).status == WITH_WARNINGS <==>
      asmExists && exists f :: f in TaggedFragments(stderr) && LeadingDigits(f) != []
    ensures CompilationStatuses(stderr, asmExists).status in {DOES_NOT_COMPILE, WITH_WARNINGS, WITHOUT_WARNINGS}
  {
    var data := Diagnostics(TaggedFragments(stderr));
    if |data| > 0 {
      assert data[0] in data;
    }
  }

  /** Without any `source.c:` tag there is no diagnostic. */
  lemma UntaggedHasNoDiagnostics(stderr: string, asmExists: bool)
    requires IndexOf(stderr, SOURCE_TAG) < 0
    ensures CompilationStatuses(stderr, asmExists).data == []
  {
  }

  // ---------------------------------------------------------------------
  // __enrich_error

  /** One line of the error listing. */
  datatype ErrorRecord = ErrorRecord(lineContent: string, sourceCodeLine: nat)

  /**
    The line number of a line matching `^source.c:\d+`, else 0.  The `.`
    of the pattern matches any character but a newline.
  */
  function ErrorLineNumber(line: string): nat {
    if |line| > 9 && line[..6] == "source" && line[6] != '\n' && line[7..9] == "c:" && IsDigit(line[9])
    then DigitsValue(LeadingDigits(line[9..]))
    else 0
  }

  /** `__enrich_error`: one record per line, with the line number each refers to. */
  function EnrichError(lines: seq<string>): (r: seq<ErrorRecord>)
    ensures |r| == |lines|
  {
    seq(|lines|, n requires 0 <= n < |lines| => ErrorRecord(lines[n], ErrorLineNumber(lines[n])))
  }

  lemma AllDigitsPrefix(d: string, rest: string)
    requires AllDigits(d) && (rest == [] || !IsDigit(rest[0]))
    ensures LeadingDigits(d + rest) == d
  {
    var t := d + rest;
    assert forall k :: 0 <= k < |d| ==> IsDigit(t[k]);
    assert |d| < |t| ==> !IsDigit(t[|d|]);
  }

  /**
    `source.c:<n>` followed by text that does not continue the number refers
    to line `n`; a line that does not start with `source` refers to none.
  */
  lemma EnrichErrorLines(lines: seq<string>, n: nat, k: nat, rest: string)
    requires n < |lines|
    requires rest == [] || !IsDigit(rest[0])
    ensures EnrichError(lines)[n].lineContent == lines[n]
    ensures lines[n] == SOURCE_TAG + NatToString(k) + rest ==> EnrichError(lines)[n].sourceCodeLine == k
    ensures !StartsWith(lines[n], "source") ==> EnrichError(lines)[n].sourceCodeLine == 0
    ensures EnrichError(lines)[n].sourceCodeLine != 0 ==>
      |lines[n]| > 9 && lines[n][..6] == "source" && lines[n][6] != '\n' && lines[n][7..9] == "c:" && IsDigit(lines[n][9])
  {
    if lines[n] == SOURCE_TAG + NatToString(k) + rest {
      ErrorLineRoundTrip(k, rest);
    }
  }

  /**
    Any digit run after `source`, one character other than a newline, and
    `c:` is read as `int` reads it, leading zeros included, when the text
    after it does not continue the number.
  */
  lemma ErrorLineDigits(c: char, d: string, rest: string)
    requires c != '\n' && d != [] && AllDigits(d)
    requires rest == [] || !IsDigit(rest[0])
    ensures ErrorLineNumber("source" + [c] + "c:" + d + rest) == DigitsValue(d)
  {
    var line := "source" + [c] + "c:" + d + rest;
    assert line == ("source" + [c] + "c:") + (d + rest);
    assert line[..6] == "source" && line[6] == c && line[7..9] == "c:";
    assert line[9..] == d + rest && line[9] == d[0];
    AllDigitsPrefix(d, rest);
  }

  lemma ErrorLineRoundTrip(k: nat, rest: string)
    requires rest == [] || !IsDigit(rest[0])
    ensures ErrorLineNumber(SOURCE_TAG + NatToString(k) + rest) == k
  {
    var d := NatToString(k);
    var line := SOURCE_TAG + d + rest;
    assert line == SOURCE_TAG + (d + rest);
    assert line[..9] == SOURCE_TAG && line[9..] == d + rest;
    assert line[..6] == "source" && line[6] == '.' && line[7..9] == "c:";
    assert line[9] == d[0] && IsDigit(d[0]);
    AllDigitsPrefix(d, rest);
    NatToStringRoundTrip(k);
  }

  // ---------------------------------------------------------------------
  // __enrich_asm

  /** One line of the assembly listing; `startClass` and `position` are present only on marker lines. */
  datatype AsmRecord = AsmRecord(
    code: string, start: bool, startClass: Option<string>, position: Option<string>, sourceCodeLine: nat)

  predicate IsMarker(line: string) {
    StartsWith(line, MARKER)
  }

  /** The number of marker lines in `lines`. */
  function MarkersIn(lines: seq<string>): nat {
    if lines == [] then 0
    else MarkersIn(lines[..|lines| - 1]) + (if IsMarker(lines[|lines| - 1]) then 1 else 0)
  }

  /**
    The source line of a comment matching `^;\t*\s*source.c:\s*\d+`: after
    the `;` and any whitespace, `source`, any character but a newline, `c:`,
    any whitespace, then the number.
  */
  function AsmSourceLine(line: string): Option<nat> {
    if line == [] || line[0] != ';' then None
    else TaggedSourceLine(line[1 + LeadingSpaces(line[1..])..])
  }

  /** The number after `source.c:` and any whitespace, at the start of `rest`. */
  function TaggedSourceLine(rest: string): Option<nat> {
    if |rest| >= 9 && rest[..6] == "source" && rest[6] != '\n' && rest[7..9] == "c:" then
      var digits := LeadingDigits(rest[9 + LeadingSpaces(rest[9..])..]);
      if digits == [] then None else Some(DigitsValue(digits))
    else None
  }

  /** The record of one line, given whether the listing is in a body (`is_body`). */
  function AsmRow(line: string, isBody: bool): AsmRecord {
    if isBody && IsMarker(line) then AsmRecord(line, true, Some(HEADER_CLASS), Some("before"), 0)
    else if !isBody && IsMarker(line) then AsmRecord(line, true, Some(BODY_CLASS), Some("after"), 0)
    else if !isBody && StartsWith(line, ";") then AsmRecord(line, false, None, None, 0)
    else if isBody && StartsWith(line, ";") then
      AsmRecord(line, false, None, None, if AsmSourceLine(line).Some? then AsmSourceLine(line).value else 0)
    else AsmRecord(line, false, None, None, 0)
  }

  /** Whether line `n` is read in a body: an even number of markers precede it. */
  predicate InBody(lines: seq<string>, n: nat)
    requires n <= |lines|
  {
    MarkersIn(lines[..n]) % 2 == 0
  }

  /** The listing: line `n` is in a body exactly when an even number of markers precede it. */
  function AsmListing(lines: seq<string>): (r: seq<AsmRecord>)
    ensures |r| == |lines|
  {
    seq(|lines|, n requires 0 <= n < |lines| => AsmRow(lines[n], InBody(lines, n)))
  }

  lemma MarkersStep(lines: seq<string>, i: nat)
    requires i < |lines|
    ensures MarkersIn(lines[..i + 1]) == MarkersIn(lines[..i]) + (if IsMarker(lines[i]) then 1 else 0)
  {
    assert lines[..i + 1][..i] == lines[..i];
  }

  /** `__enrich_asm`: walks the lines once, flipping `is_body` at every marker. */
  method EnrichAsm(lines: seq<string>) returns (data: seq<AsmRecord>)
    ensures data == AsmListing(lines)
  {
    var isBody := true;
    data := [];
    var i := 0;
    while i < |lines|
      invariant 0 <= i <= |lines| && |data| == i
      invariant isBody == InBody(lines, i)
      invariant data == AsmListing(lines)[..i]
    {
      var row;
      MarkersStep(lines, i);
      row, isBody := EnrichAsmLine(lines[i], isBody);
      assert AsmListing(lines)[..i + 1] == AsmListing(lines)[..i] + [row];
      data := data + [row];
      i := i + 1;
    }
    assert AsmListing(lines)[..i] == AsmListing(lines);
  }

  /** The body of the loop of `__enrich_asm` for one line. */
  method EnrichAsmLine(line: string, isBody: bool) returns (row: AsmRecord, nextIsBody: bool)
    ensures row == AsmRow(line, isBody)
    ensures nextIsBody == (isBody != IsMarker(line))
  {
    var sourceCodeLine := 0;
    nextIsBody := isBody;
    if isBody && StartsWith(line, MARKER) {
      row := AsmRecord(line, true, Some(HEADER_CLASS), Some("before"), sourceCodeLine);
      nextIsBody := false;
    } else if !isBody && StartsWith(line, MARKER) {
      row := AsmRecord(line, true, Some(BODY_CLASS), Some("after"), sourceCodeLine);
      nextIsBody := true;
    } else if !isBody && StartsWith(line, ";") {
      row := AsmRecord(line, false, None, None, sourceCodeLine);
    } else if isBody && StartsWith(line, ";") {
      var found := AsmSourceLine(line);
      if found.Some? {
        sourceCodeLine := found.value;
      }
      row := AsmRecord(line, false, None, None, sourceCodeLine);
    } else {
      row := AsmRecord(line, false, None, None, sourceCodeLine);
    }
  }

  /**
    Every line keeps its text; exactly the marker lines open a block; a
    line refers to a source line only when it is a `;` comment in a body
    that names one.
  */
  lemma AsmRowMeaning(lines: seq<string>, n: nat)
    requires n < |lines|
    ensures AsmListing(lines)[n].code == lines[n]
    ensures AsmListing(lines)[n].start <==> IsMarker(lines[n])
    ensures AsmListing(lines)[n].sourceCodeLine != 0 ==>
      && MarkersIn(lines[..n]) % 2 == 0 && !IsMarker(lines[n])
      && AsmSourceLine(lines[n]) == Some(AsmListing(lines)[n].sourceCodeLine)
  {
  }

  lemma {:induction false} NoMarkersBetween(lines: seq<string>, i: nat, j: nat)
    requires i <= j <= |lines|
    requires forall m :: i <= m < j ==> !IsMarker(lines[m])
    ensures MarkersIn(lines[..j]) == MarkersIn(lines[..i])
    decreases j - i
  {
    if i < j {
      MarkersStep(lines, j - 1);
      NoMarkersBetween(lines, i, j - 1);
    }
  }

  /**
    The first marker line opens a header (`asm-header`, `before`), and two
    consecutive marker lines get opposite positions, so headers and bodies
    alternate.
  */
  lemma MarkersAlternate(lines: seq<string>, i: nat, j: nat)
    requires i < j < |lines| && IsMarker(lines[i]) && IsMarker(lines[j])
    requires forall m :: i < m < j ==> !IsMarker(lines[m])
    ensures AsmListing(lines)[i].position.Some? && AsmListing(lines)[j].position.Some?
    ensures AsmListing(lines)[i].position != AsmListing(lines)[j].position
    ensures AsmListing(lines)[i].startClass != AsmListing(lines)[j].startClass
  {
    MarkersStep(lines, i);
    NoMarkersBetween(lines, i + 1, j);
    assert MarkersIn(lines[..j]) == MarkersIn(lines[..i]) + 1;
    var bodyI := InBody(lines, i);
    assert InBody(lines, j) == !bodyI;
    assert AsmListing(lines)[i] == AsmRow(lines[i], bodyI);
    assert AsmListing(lines)[j] == AsmRow(lines[j], !bodyI);
  }

  lemma FirstMarkerOpensHeader(lines: seq<string>, i: nat)
    requires i < |lines| && IsMarker(lines[i])
    requires forall m :: 0 <= m < i ==> !IsMarker(lines[m])
    ensures AsmListing(lines)[i].startClass == Some(HEADER_CLASS)
    ensures AsmListing(lines)[i].position == Some("before")
  {
    NoMarkersBetween(lines, 0, i);
    assert lines[..0] == [];
  }

  lemma {:induction false} SpacesPrefix(ws: string, t: string)
    requires forall k :: 0 <= k < |ws| ==> IsSpace(ws[k])
    requires t == [] || !IsSpace(t[0])
    ensures LeadingSpaces(ws + t) == |ws|
    decreases |ws|
  {
    if ws != [] {
      assert (ws + t)[1..] == ws[1..] + t;
      SpacesPrefix(ws[1..], t);
    } else {
      assert ws + t == t;
    }
  }

  /** The fields of the tag, read off any text that starts with it. */
  lemma TagFields(tail: string)
    ensures var r := SOURCE_TAG + tail;
      && |r| >= 9 && r[..6] == "source" && r[6] == '.' && r[7..9] == "c:" && r[9..] == tail
  {
    var r := SOURCE_TAG + tail;
    assert r[..9] == SOURCE_TAG;
  }

  /** Spaces and then a digit run that nothing continues: the run is what is read. */
  lemma SpacedDigits(ws2: string, num: string, rest: string)
    requires forall m :: 0 <= m < |ws2| ==> IsSpace(ws2[m])
    requires num != [] && AllDigits(num)
    requires rest == [] || !IsDigit(rest[0])
    ensures var tail := ws2 + (num + rest);
      && LeadingSpaces(tail) <= |tail| && LeadingDigits(tail[LeadingSpaces(tail)..]) == num
  {
    var tail := ws2 + (num + rest);
    assert !IsSpace(num[0]);
    SpacesPrefix(ws2, num + rest);
    assert tail[|ws2|..] == num + rest;
    AllDigitsPrefix(num, rest);
  }

  /** After the tag, the spaces are skipped and the number is read back. */
  lemma TaggedNumber(ws2: string, k: nat, rest: string)
    requires forall m :: 0 <= m < |ws2| ==> IsSpace(ws2[m])
    requires rest == [] || !IsDigit(rest[0])
    ensures var r := SOURCE_TAG + ws2 + NatToString(k) + rest;
      && |r| >= 9 && r[..6] == "source" && r[6] != '\n' && r[7..9] == "c:"
      && 9 + LeadingSpaces(r[9..]) <= |r|
      && LeadingDigits(r[9 + LeadingSpaces(r[9..])..]) == NatToString(k)
  {
    var num := NatToString(k);
    var tail := ws2 + (num + rest);
    ConcatAssociative(SOURCE_TAG, ws2, num);
    ConcatAssociative(SOURCE_TAG + ws2, num, rest);
    ConcatAssociative(SOURCE_TAG, ws2, num + rest);
    var r := SOURCE_TAG + ws2 + num + rest;
    assert r == SOURCE_TAG + tail;
    TagFields(tail);
    SpacedDigits(ws2, num, rest);
  }

  /** Past the semicolon and the spaces after it, a comment line reads on from `after`. */
  lemma CommentBody(ws: string, after: string)
    requires forall m :: 0 <= m < |ws| ==> IsSpace(ws[m])
    requires after == [] || !IsSpace(after[0])
    ensures var line := ";" + ws + after;
      && line != [] && line[0] == ';' && 1 + LeadingSpaces(line[1..]) <= |line|
      && line[1 + LeadingSpaces(line[1..])..] == after
  {
    var line := ";" + ws + after;
    assert line[1..] == ws + after;
    SpacesPrefix(ws, after);
    assert line[1 + |ws|..] == after;
  }

  /** A comment whose text past the spaces is a tag and the digits of `k` refers to line `k`. */
  lemma TaggedComment(line: string, after: string, k: nat)
    requires line != [] && line[0] == ';' && 1 + LeadingSpaces(line[1..]) <= |line|
    requires line[1 + LeadingSpaces(line[1..])..] == after
    requires |after| >= 9 && after[..6] == "source" && after[6] != '\n' && after[7..9] == "c:"
    requires 9 + LeadingSpaces(after[9..]) <= |after|
    requires LeadingDigits(after[9 + LeadingSpaces(after[9..])..]) == NatToString(k)
    ensures AsmSourceLine(line) == Some(k)
  {
    NatToStringRoundTrip(k);
    assert TaggedSourceLine(after) == Some(k);
  }

  lemma CommentSourceLine(ws: string, ws2: string, k: nat, rest: string)
    requires forall m :: 0 <= m < |ws| ==> IsSpace(ws[m])
    requires forall m :: 0 <= m < |ws2| ==> IsSpace(ws2[m])
    requires rest == [] || !IsDigit(rest[0])
    ensures AsmSourceLine(";" + ws + (SOURCE_TAG + ws2 + NatToString(k) + rest)) == Some(k)
  {
    var after := SOURCE_TAG + ws2 + NatToString(k) + rest;
    TaggedNumber(ws2, k, rest);
    assert after[0] == 's';
    CommentBody(ws, after);
    TaggedComment(";" + ws + after, after, k);
  }

  /**
    A comment `;<spaces>source.c:<spaces><n>` followed by text that does not
    continue the number refers to line `n` when read in a body, and to no
    line when read in a header.
  */
  lemma AsmCommentLine(ws: string, ws2: string, k: nat, rest: string)
    requires forall m :: 0 <= m < |ws| ==> IsSpace(ws[m])
    requires forall m :: 0 <= m < |ws2| ==> IsSpace(ws2[m])
    requires rest == [] || !IsDigit(rest[0])
    ensures var line := ";" + ws + (SOURCE_TAG + ws2 + NatToString(k) + rest);
      && AsmSourceLine(line) == Some(k)
      && AsmRow(line, true).sourceCodeLine == k
      && AsmRow(line, false).sourceCodeLine == 0
  {
    var line := ";" + ws + (SOURCE_TAG + ws2 + NatToString(k) + rest);
    CommentSourceLine(ws, ws2, k, rest);
    assert line[0] == ';' && line[1] != '-';
    CommentRow(line, true);
    CommentRow(line, false);
  }

  /** The record of a comment line that is not a marker. */
  lemma CommentRow(line: string, isBody: bool)
    requires line != [] && line[0] == ';' && !(|line| > 1 && line[1] == '-')
    ensures AsmRow(line, isBody).sourceCodeLine ==
      if isBody && AsmSourceLine(line).Some? then AsmSourceLine(line).value else 0
  {
    assert !IsMarker(line) && StartsWith(line, ";");
  }

  // ---------------------------------------------------------------------
  // get_and_delete_asm

  /** What `get_and_delete_asm` returns next to its flag. */
  datatype Output = Assembly(asmRows: seq<AsmRecord>) | Errors(errorRows: seq<ErrorRecord>)

  /**
    `get_and_delete_asm`: the assembly listing when `source.asm` can be
    read (`asm` is its text), otherwise the error listing of `source.stderr`.
  */
  method GetAndDeleteAsm(asm: Option<string>, stderr: string) returns (ok: bool, output: Output)
    ensures ok <==> asm.Some?
    ensures asm.Some? ==> output == Assembly(AsmListing(Split(asm.value, "\n")))
    ensures asm.None? ==> output == Errors(EnrichError(Split(stderr, "\n")))
  {
    if asm.Some? {
      var rows := EnrichAsm(Split(asm.value, "\n"));
      return true, Assembly(rows);
    }
    return false, Errors(EnrichError(Split(stderr, "\n")));
  }

  /** The code column of an assembly listing. */
  function AsmCodes(rows: seq<AsmRecord>): (r: seq<string>)
    ensures |r| == |rows|
    ensures forall n :: 0 <= n < |rows| ==> r[n] == rows[n].code
  {
    seq(|rows|, n requires 0 <= n < |rows| => rows[n].code)
  }

  /** The text column of an error listing. */
  function ErrorTexts(rows: seq<ErrorRecord>): (r: seq<string>)
    ensures |r| == |rows|
    ensures forall n :: 0 <= n < |rows| ==> r[n] == rows[n].lineContent
  {
    seq(|rows|, n requires 0 <= n < |rows| => rows[n].lineContent)
  }

  /** Either listing has one row per line, and joining its text column gives back the file. */
  lemma ListingsKeepText(text: string)
    ensures Join(AsmCodes(AsmListing(Split(text, "\n"))), "\n") == text
    ensures Join(ErrorTexts(EnrichError(Split(text, "\n"))), "\n") == text
  {
    var lines := Split(text, "\n");
    assert AsmCodes(AsmListing(lines)) == lines by {
      forall n | 0 <= n < |lines| ensures AsmCodes(AsmListing(lines))[n] == lines[n] {
        AsmRowMeaning(lines, n);
      }
    }
    assert ErrorTexts(EnrichError(lines)) == lines;
    JoinSplit(text, "\n");
  }
}
