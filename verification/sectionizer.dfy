/**
  The sectionizer as a function of its input: what `Parser.parse_source_code`
  (compilator_8_bit/compiler/api/parser.py) returns for a sequence of lines
  and a line offset, or `None` where it raises.

  Positions are 0-based indices into `lines`; the line at index `i` is
  numbered `offset + i + 1` in the records.  `Step` describes one turn of the
  outer loop at the line with index `i`: the record it appends (if any) and
  the index of the line the next turn classifies (`|lines|` when the scan
  ends normally).
*/
module Sectionizer {
  import opened Wrappers
  import opened Text
  import opened Classifier

  const DIRECTIVE := "directive"
  const VARIABLE := "variable"
  const PROCEDURE := "procedure"
  const COMMENT := "comment"
  const ASSEMBLY := "assembly"

  /** One appended dictionary: `section_name`, `start_line`, `end_line`. */
  datatype Record = Record(sectionName: string, startLine: int, endLine: int)

  /** Python's `key in names` for a classification (never true of `None`). */
  predicate KeyIn(key: Option<Key>, names: seq<string>) {
    key.Some? && key.value.Name() in names
  }

  /** The classification of every line, in order (`__parse_line` applied to each). */
  function ClassifyAll(lines: seq<string>): (keys: seq<Option<Key>>)
    ensures |keys| == |lines|
    ensures forall m {:trigger Classify(lines[m])} :: 0 <= m < |lines| ==> keys[m] == Classify(lines[m])
  {
    seq(|lines|, m requires 0 <= m < |lines| => Classify(lines[m]))
  }

  /** The first index at or after `j` whose line is classified `k`, or `|keys|`. */
  function FindKey(keys: seq<Option<Key>>, j: nat, k: Key): (r: nat)
    requires j <= |keys|
    ensures j <= r <= |keys|
    ensures r < |keys| ==> keys[r] == Some(k)
    ensures forall m :: j <= m < r ==> keys[m] != Some(k)
    decreases |keys| - j
  {
    if j == |keys| || keys[j] == Some(k) then j else FindKey(keys, j + 1, k)
  }

  /** The first index at or after `j` whose line is not classified `key`, or `|keys|`. */
  function RunEnd(keys: seq<Option<Key>>, j: nat, key: Option<Key>): (r: nat)
    requires j <= |keys|
    ensures j <= r <= |keys|
    ensures r < |keys| ==> keys[r] != key
    ensures forall m :: j <= m < r ==> keys[m] == key
    decreases |keys| - j
  {
    if j == |keys| || keys[j] != key then j else RunEnd(keys, j + 1, key)
  }

  /** `re.findall("[<open><close>]", line)`: the bracket characters of the line, in order. */
  function FindAll(line: string, open: char, close: char): (r: seq<char>)
    ensures forall k :: 0 <= k < |r| ==> r[k] == open || r[k] == close
    ensures open != close ==> |r| == Occurrences(line, open) + Occurrences(line, close)
  {
    if line == [] then []
    else (if line[0] == open || line[0] == close then [line[0]] else []) + FindAll(line[1..], open, close)
  }

  /** What `__count_brackets(match, bracket_type)` returns: +1 per `bracket_type`, -1 per other element. */
  function BracketBalance(brackets: seq<char>, bracketType: char): int {
    if brackets == [] then 0
    else (if brackets[0] == bracketType then 1 else -1) + BracketBalance(brackets[1..], bracketType)
  }

  /** The change in nesting depth one line contributes. */
  function Delta(line: string, open: char, close: char): int {
    BracketBalance(FindAll(line, open, close), open)
  }

  /** The cumulative change over the lines with indices `a .. b-1`. */
  function SumDelta(lines: seq<string>, a: nat, b: nat, open: char, close: char): int
    requires a <= b <= |lines|
    decreases b - a
  {
    if a == b then 0 else Delta(lines[a], open, close) + SumDelta(lines, a + 1, b, open, close)
  }

  /** The first index at or after `j` whose line holds a bracket, or `|lines|`. */
  function FirstBracketLine(lines: seq<string>, j: nat, open: char, close: char): (r: nat)
    requires j <= |lines|
    ensures j <= r <= |lines|
    ensures r < |lines| ==> |FindAll(lines[r], open, close)| > 0
    ensures forall m :: j <= m < r ==> FindAll(lines[m], open, close) == []
    decreases |lines| - j
  {
    if j == |lines| || |FindAll(lines[j], open, close)| > 0 then j
    else FirstBracketLine(lines, j + 1, open, close)
  }

  /**
    With `depth > 0` open brackets before index `j`, the first index at or
    after `j` where the depth drops to zero or below, or `|lines|`.
  */
  function ClosingLine(lines: seq<string>, j: nat, depth: int, open: char, close: char): (r: nat)
    requires j <= |lines| && depth > 0
    ensures j <= r <= |lines|
    ensures r < |lines| ==> depth + SumDelta(lines, j, r + 1, open, close) <= 0
    ensures forall m :: j < m <= r ==> depth + SumDelta(lines, j, m, open, close) > 0
    decreases |lines| - j
  {
    if j == |lines| then j
    else
      var d := depth + Delta(lines[j], open, close);
      if d <= 0 then j
      else
        var r := ClosingLine(lines, j + 1, d, open, close);
        assert forall m :: j + 1 < m <= r ==>
          depth + SumDelta(lines, j, m, open, close) == d + SumDelta(lines, j + 1, m, open, close);
        r
  }

  /**
    The index of the line that ends a bracket-balanced construct opened at
    index `i`: counting starts at the first line at or after `i` holding a
    bracket, and stops at the first line where the running count is at most 0.
  */
  function BalancedEnd(lines: seq<string>, i: nat, open: char, close: char): (r: Option<nat>)
    requires i < |lines|
    ensures r.Some? ==> i <= r.value < |lines|
  {
    var f := FirstBracketLine(lines, i, open, close);
    if f == |lines| then None
    else
      var depth := Delta(lines[f], open, close);
      if depth <= 0 then Some(f)
      else
        var e := ClosingLine(lines, f + 1, depth, open, close);
        if e == |lines| then None else Some(e)
  }

  /** The kind of section a line with classification `key` opens, if any. */
  function SectionNameFor(key: Option<Key>): Option<string> {
    match key
    case Some(IfDefine) => Some(DIRECTIVE)
    case Some(Directive) => Some(DIRECTIVE)
    case Some(Variable) => Some(VARIABLE)
    case Some(LineComment) => Some(COMMENT)
    case Some(BlockLineComment) => Some(COMMENT)
    case Some(BlockComment) => Some(COMMENT)
    case Some(Procedure) => Some(PROCEDURE)
    case Some(AsmRound) => Some(ASSEMBLY)
    case Some(AsmFloorStart) => Some(ASSEMBLY)
    case _ => None
  }

  /** The branches of the outer loop that open a section are exactly the keys `SectionNameFor` names. */
  lemma SectionBranches(key: Option<Key>)
    ensures (key == Some(IfDefine) || KeyIn(key, [DIRECTIVE, VARIABLE]) || key == Some(LineComment)
             || key == Some(BlockLineComment) || key == Some(BlockComment) || KeyIn(key, [PROCEDURE, ASSEMBLY])
             || key == Some(AsmRound) || key == Some(AsmFloorStart)) <==> SectionNameFor(key).Some?
    ensures KeyIn(key, [DIRECTIVE, VARIABLE]) ==> SectionNameFor(key) == Some(key.value.Name())
    ensures KeyIn(key, [DIRECTIVE, VARIABLE]) <==> key == Some(Directive) || key == Some(Variable)
    ensures KeyIn(key, [PROCEDURE, ASSEMBLY]) <==> key == Some(Procedure)
  {
  }

  /** After a construct that ends at the first line classified `k`: the index past that line. */
  function AfterKey(keys: seq<Option<Key>>, i: nat, k: Key): (r: Option<nat>)
    requires i < |keys|
  {
    var j := FindKey(keys, i + 1, k);
    if j == |keys| then None else Some(j + 1)
  }

  /** After a run of lines classified like line `i`: the first line of another kind. */
  function AfterRun(keys: seq<Option<Key>>, i: nat): (r: Option<nat>)
    requires i < |keys|
  {
    var j := RunEnd(keys, i + 1, keys[i]);
    if j == |keys| then None else Some(j)
  }

  /** After a bracket-balanced construct: the index past its last line. */
  function AfterBalanced(lines: seq<string>, i: nat, open: char, close: char): (r: Option<nat>)
    requires i < |lines|
  {
    match BalancedEnd(lines, i, open, close)
    case None => None
    case Some(e) => Some(e + 1)
  }

  /**
    Where the outer loop resumes after the line at index `i`: the index of the
    line it classifies next (`|lines|` when it stops normally), or `None` when
    an inner loop calls `next` past the last line.
  */
  function NextAfter(lines: seq<string>, keys: seq<Option<Key>>, i: nat): (r: Option<nat>)
    requires |keys| == |lines| && i < |lines|
    ensures r.Some? ==> i < r.value <= |lines|
  {
    match keys[i]
    case Some(IfDefine) => AfterKey(keys, i, EndDefine)
    case Some(Directive) => AfterRun(keys, i)
    case Some(Variable) => AfterRun(keys, i)
    case Some(LineComment) => AfterRun(keys, i)
    case Some(BlockLineComment) => Some(i + 1)
    case Some(BlockComment) => AfterKey(keys, i, EndBlockComment)
    case Some(Procedure) => AfterBalanced(lines, i, '{', '}')
    case Some(AsmRound) => AfterBalanced(lines, i, '(', ')')
    case Some(AsmFloorStart) => AfterKey(keys, i, AsmFloorEnd)
    case _ => Some(i + 1)
  }

  /** The effect of one turn of the outer loop of `parse_source_code`. */
  datatype Outcome = Outcome(emitted: Option<Record>, next: nat)

  function Emitted(o: Outcome): seq<Record> {
    if o.emitted.Some? then [o.emitted.value] else []
  }

  /**
    One turn of the outer loop at index `i`: a section-opening line emits the
    record from itself to the line before the resume point; `None` when an
    inner loop calls `next` past the last line.
  */
  function Step(lines: seq<string>, keys: seq<Option<Key>>, offset: int, i: nat): (r: Option<Outcome>)
    requires |keys| == |lines| && i < |lines|
    ensures r.Some? ==> i < r.value.next <= |lines|
    ensures r.Some? && r.value.emitted.Some? ==>
      r.value.emitted.value.startLine == offset + i + 1 && r.value.emitted.value.endLine == offset + r.value.next
  {
    match NextAfter(lines, keys, i)
    case None => None
    case Some(n) =>
      match SectionNameFor(keys[i])
      case None => Some(Outcome(None, n))
      case Some(name) => Some(Outcome(Some(Record(name, offset + i + 1, offset + n)), n))
  }

  /** A turn at a section-opening line appends exactly the record from that line to the line before the resume point. */
  lemma StepOfOpener(lines: seq<string>, keys: seq<Option<Key>>, offset: int, i: nat, name: string, resume: Option<nat>)
    requires |keys| == |lines| && i < |lines| && SectionNameFor(keys[i]) == Some(name)
    requires NextAfter(lines, keys, i) == resume
    ensures resume.None? ==> Step(lines, keys, offset, i).None?
    ensures resume.Some? ==>
      && Step(lines, keys, offset, i).Some?
      && Step(lines, keys, offset, i).value.next == resume.value
      && Emitted(Step(lines, keys, offset, i).value) == [Record(name, offset + i + 1, offset + resume.value)]
  {
  }

  /** A turn at a line that opens no section appends nothing and moves to the next line. */
  lemma StepOfNonOpener(lines: seq<string>, keys: seq<Option<Key>>, offset: int, i: nat)
    requires |keys| == |lines| && i < |lines| && SectionNameFor(keys[i]).None?
    ensures NextAfter(lines, keys, i) == Some(i + 1)
    ensures Step(lines, keys, offset, i) == Some(Outcome(None, i + 1))
  {
  }

  /** Records are in increasing line order and none overlaps the next. */
  predicate Separated(rs: seq<Record>) {
    && (forall k :: 0 <= k < |rs| ==> rs[k].startLine <= rs[k].endLine)
    && (forall a, b :: 0 <= a < b < |rs| ==> rs[a].endLine < rs[b].startLine)
  }

  /** Every record lies within the line numbers `lo .. hi`. */
  predicate Within(rs: seq<Record>, lo: int, hi: int) {
    forall k :: 0 <= k < |rs| ==> lo <= rs[k].startLine && rs[k].endLine <= hi
  }

  /** The records the outer loop appends from index `i` on, or `None` if it raises. */
  function Scan(lines: seq<string>, keys: seq<Option<Key>>, offset: int, i: nat): (r: Option<seq<Record>>)
    requires |keys| == |lines| && i <= |lines|
    ensures r.Some? ==> Separated(r.value) && Within(r.value, offset + i + 1, offset + |lines|)
    decreases |lines| - i
  {
    if i == |lines| then Some([])
    else
      match Step(lines, keys, offset, i)
      case None => None
      case Some(out) =>
        match Scan(lines, keys, offset, out.next)
        case None => None
        case Some(rest) => Some(Emitted(out) + rest)
  }

  /** `Parser(lines, offset).parse_source_code()`; `None` for empty input or a run past the last line. */
  function Sectionize(lines: seq<string>, offset: int): (r: Option<seq<Record>>)
    ensures |lines| == 0 ==> r.None?
    ensures r.Some? ==> Separated(r.value) && Within(r.value, offset + 1, offset + |lines|)
  {
    if |lines| == 0 then None else Scan(lines, ClassifyAll(lines), offset, 0)
  }

  /** `keys` classifies every line of `lines`, as `ClassifyAll` does. */
  ghost predicate Classified(lines: seq<string>, keys: seq<Option<Key>>) {
    && |keys| == |lines|
    && forall m {:trigger Classify(lines[m])} :: 0 <= m < |lines| ==> keys[m] == Classify(lines[m])
  }

  /** `ClassifyAll` is the only classification of the lines. */
  lemma ClassifiedIsClassifyAll(lines: seq<string>, keys: seq<Option<Key>>)
    requires Classified(lines, keys)
    ensures keys == ClassifyAll(lines)
  {
    forall m | 0 <= m < |lines| ensures keys[m] == ClassifyAll(lines)[m] {
      assert keys[m] == Classify(lines[m]);
    }
  }

  /** The index of the first line at or after `m` that is classified `k` is `e`. */
  predicate FirstKeyAt(keys: seq<Option<Key>>, m: nat, e: nat, k: Key)
    requires m <= e < |keys|
  {
    keys[e] == Some(k) && forall t :: m <= t < e ==> keys[t] != Some(k)
  }

  /** The lines `m .. e` are classified alike and the line after `e` exists and is classified otherwise. */
  predicate RunLastAt(keys: seq<Option<Key>>, m: nat, e: nat)
    requires m <= e < |keys|
  {
    && e + 1 < |keys| && keys[e + 1] != keys[m]
    && forall t :: m <= t <= e ==> keys[t] == keys[m]
  }

  /**
    Counting brackets from the first line at or after `m` that holds one,
    index `e` is the first where the running count is at most zero.
  */
  predicate BalancedAt(lines: seq<string>, m: nat, e: nat, open: char, close: char)
    requires m <= e < |lines|
  {
    var f := FirstBracketLine(lines, m, open, close);
    && f <= e
    && SumDelta(lines, f, e + 1, open, close) <= 0
    && forall t :: f < t <= e ==> SumDelta(lines, f, t, open, close) > 0
  }

  /**
    Reference description of the construct opened at index `m`: index `e` is
    its last line.
  */
  predicate EndsConstruct(lines: seq<string>, keys: seq<Option<Key>>, m: nat, e: nat)
    requires |keys| == |lines| && m <= e < |lines|
  {
    match keys[m]
    case Some(IfDefine) => m < e && FirstKeyAt(keys, m + 1, e, EndDefine)
    case Some(Directive) => RunLastAt(keys, m, e)
    case Some(Variable) => RunLastAt(keys, m, e)
    case Some(LineComment) => RunLastAt(keys, m, e)
    case Some(BlockLineComment) => e == m
    case Some(BlockComment) => m < e && FirstKeyAt(keys, m + 1, e, EndBlockComment)
    case Some(Procedure) => BalancedAt(lines, m, e, '{', '}')
    case Some(AsmRound) => BalancedAt(lines, m, e, '(', ')')
    case Some(AsmFloorStart) => m < e && FirstKeyAt(keys, m + 1, e, AsmFloorEnd)
    case _ => false
  }

  /**
    `BalancedEnd` stops at the first line where the bracket count, taken from
    the first line holding a bracket, reaches zero or less; it fails when the
    count stays positive to the end of the input.
  */
  lemma BalancedEndIsFirstBalancePoint(lines: seq<string>, i: nat, open: char, close: char)
    requires i < |lines|
    ensures forall e :: i <= e < |lines| ==> (BalancedEnd(lines, i, open, close) == Some(e) <==> BalancedAt(lines, i, e, open, close))
    ensures BalancedEnd(lines, i, open, close).None? <==> forall e :: i <= e < |lines| ==> !BalancedAt(lines, i, e, open, close)
  {
    var f := FirstBracketLine(lines, i, open, close);
    var r := BalancedEnd(lines, i, open, close);
    if f < |lines| {
      var depth := Delta(lines[f], open, close);
      assert SumDelta(lines, f, f + 1, open, close) == depth;
      if depth > 0 {
        var c := ClosingLine(lines, f + 1, depth, open, close);
        forall t | f < t <= c ensures SumDelta(lines, f, t, open, close) > 0 {
          if t > f + 1 {
            assert SumDelta(lines, f, t, open, close) == depth + SumDelta(lines, f + 1, t, open, close);
          }
        }
        if c < |lines| {
          assert SumDelta(lines, f, c + 1, open, close) == depth + SumDelta(lines, f + 1, c + 1, open, close);
        }
      }
      // the balance point, when it exists, is unique
      forall e1, e2 | i <= e1 < e2 < |lines| && BalancedAt(lines, i, e1, open, close)
        ensures !BalancedAt(lines, i, e2, open, close)
      {
        assert SumDelta(lines, f, e1 + 1, open, close) <= 0;
      }
    }
  }

  /** A construct whose running count stays positive to the last line has no end. */
  lemma BalancedEndFails(lines: seq<string>, i: nat, open: char, close: char)
    requires i < |lines|
    requires FirstBracketLine(lines, i, open, close) < |lines|
    requires forall t :: FirstBracketLine(lines, i, open, close) < t <= |lines| ==>
      SumDelta(lines, FirstBracketLine(lines, i, open, close), t, open, close) > 0
    ensures AfterBalanced(lines, i, open, close).None?
  {
    BalancedEndIsFirstBalancePoint(lines, i, open, close);
    var f := FirstBracketLine(lines, i, open, close);
    forall e | i <= e < |lines| ensures !BalancedAt(lines, i, e, open, close) {
      if f <= e {
        assert SumDelta(lines, f, e + 1, open, close) > 0;
      }
    }
  }

  /** A construct reaches its end at its balance point. */
  lemma BalancedEndStops(lines: seq<string>, i: nat, e: nat, open: char, close: char)
    requires i <= e < |lines| && BalancedAt(lines, i, e, open, close)
    ensures AfterBalanced(lines, i, open, close) == Some(e + 1)
  {
    BalancedEndIsFirstBalancePoint(lines, i, open, close);
  }

  /** `AfterKey` resumes just past the first terminator; it fails exactly when there is none. */
  lemma AfterKeyMeetsConstruct(keys: seq<Option<Key>>, i: nat, k: Key)
    requires i < |keys|
    ensures AfterKey(keys, i, k).Some? ==> var n := AfterKey(keys, i, k).value; i < n - 1 < |keys| && FirstKeyAt(keys, i + 1, n - 1, k)
    ensures AfterKey(keys, i, k).None? ==> forall e :: i < e < |keys| ==> keys[e] != Some(k)
  {
  }

  /** `AfterRun` resumes at the first line of another kind; it fails exactly when the run reaches the end. */
  lemma AfterRunMeetsConstruct(keys: seq<Option<Key>>, i: nat)
    requires i < |keys|
    ensures AfterRun(keys, i).Some? ==> var n := AfterRun(keys, i).value; i < n < |keys| && RunLastAt(keys, i, n - 1)
    ensures AfterRun(keys, i).None? ==> forall e :: i <= e < |keys| ==> !RunLastAt(keys, i, e)
  {
    var j := RunEnd(keys, i + 1, keys[i]);
    if j == |keys| {
      forall e | i <= e < |keys| ensures !RunLastAt(keys, i, e) {
        if e + 1 < |keys| { assert keys[e + 1] == keys[i]; }
      }
    }
  }

  /** The resume point of a section-opening line is just past the end of its construct; there is none when the construct never ends. */
  lemma NextAfterMeetsConstruct(lines: seq<string>, keys: seq<Option<Key>>, i: nat)
    requires |keys| == |lines| && i < |lines| && SectionNameFor(keys[i]).Some?
    ensures NextAfter(lines, keys, i).Some? ==> EndsConstruct(lines, keys, i, NextAfter(lines, keys, i).value - 1)
    ensures NextAfter(lines, keys, i).None? ==> forall e :: i <= e < |lines| ==> !EndsConstruct(lines, keys, i, e)
  {
    match keys[i]
    case Some(IfDefine) => AfterKeyMeetsConstruct(keys, i, EndDefine);
    case Some(BlockComment) => AfterKeyMeetsConstruct(keys, i, EndBlockComment);
    case Some(AsmFloorStart) => AfterKeyMeetsConstruct(keys, i, AsmFloorEnd);
    case Some(Directive) => AfterRunMeetsConstruct(keys, i);
    case Some(Variable) => AfterRunMeetsConstruct(keys, i);
    case Some(LineComment) => AfterRunMeetsConstruct(keys, i);
    case Some(Procedure) => BalancedEndIsFirstBalancePoint(lines, i, '{', '}');
    case Some(AsmRound) => BalancedEndIsFirstBalancePoint(lines, i, '(', ')');
    case Some(BlockLineComment) =>
  }

  /**
    One step either opens no section and moves to the next line, or emits the
    section its opening line starts, of that line's kind, ending where the
    construct ends, or fails because the construct never ends.
  */
  lemma StepMeetsConstruct(lines: seq<string>, keys: seq<Option<Key>>, offset: int, i: nat)
    requires |keys| == |lines| && i < |lines|
    ensures SectionNameFor(keys[i]).None? ==> Step(lines, keys, offset, i) == Some(Outcome(None, i + 1))
    ensures SectionNameFor(keys[i]).Some? && Step(lines, keys, offset, i).Some? ==>
      var out := Step(lines, keys, offset, i).value;
      && out.emitted == Some(Record(SectionNameFor(keys[i]).value, offset + i + 1, offset + out.next))
      && EndsConstruct(lines, keys, i, out.next - 1)
    ensures SectionNameFor(keys[i]).Some? && Step(lines, keys, offset, i).None? ==>
      forall e :: i <= e < |lines| ==> !EndsConstruct(lines, keys, i, e)
  {
    if SectionNameFor(keys[i]).None? {
      StepOfNonOpener(lines, keys, offset, i);
    } else {
      NextAfterMeetsConstruct(lines, keys, i);
      StepOfOpener(lines, keys, offset, i, SectionNameFor(keys[i]).value, NextAfter(lines, keys, i));
    }
  }

  /** Whether line number `n` lies inside one of the records. */
  predicate Covered(rs: seq<Record>, n: int) {
    exists k :: 0 <= k < |rs| && rs[k].startLine <= n <= rs[k].endLine
  }

  /**
    `rec` is the section opened by the line at index `m`: it starts there, has
    that line's kind, and ends where the construct that line opens ends.
  */
  predicate OpenedAt(lines: seq<string>, keys: seq<Option<Key>>, offset: int, rec: Record, m: nat)
    requires |keys| == |lines| && m < |lines|
  {
    && rec.startLine == offset + m + 1
    && SectionNameFor(keys[m]) == Some(rec.sectionName)
    && m <= rec.endLine - offset - 1 < |lines|
    && EndsConstruct(lines, keys, m, rec.endLine - offset - 1)
  }

  /** Every record is the section opened by some line at index `lo` or later. */
  predicate AllOpened(lines: seq<string>, keys: seq<Option<Key>>, offset: int, rs: seq<Record>, lo: nat)
    requires |keys| == |lines|
  {
    forall rec :: rec in rs ==> exists m :: lo <= m < |lines| && OpenedAt(lines, keys, offset, rec, m)
  }

  /** The record one turn at index `i` emits, if any, is the section opened at `i`. */
  lemma StepRecordOpened(lines: seq<string>, keys: seq<Option<Key>>, offset: int, i: nat)
    requires |keys| == |lines| && i < |lines| && Step(lines, keys, offset, i).Some?
    ensures forall rec :: rec in Emitted(Step(lines, keys, offset, i).value) ==> OpenedAt(lines, keys, offset, rec, i)
  {
    var out := Step(lines, keys, offset, i).value;
    StepMeetsConstruct(lines, keys, offset, i);
    if out.emitted.Some? {
      assert SectionNameFor(keys[i]).Some?;
      assert Emitted(out) == [out.emitted.value];
      assert OpenedAt(lines, keys, offset, out.emitted.value, i);
    }
  }

  /** Every record the scan from index `i` returns is the section opened by some line at or after `i`. */
  lemma {:induction false} ScanRecordsAreConstructs(lines: seq<string>, keys: seq<Option<Key>>, offset: int, i: nat)
    requires |keys| == |lines| && i <= |lines|
    ensures Scan(lines, keys, offset, i).Some? ==> AllOpened(lines, keys, offset, Scan(lines, keys, offset, i).value, i)
    decreases |lines| - i
  {
    if i == |lines| {
      assert Scan(lines, keys, offset, i) == Some([]);
    } else if Scan(lines, keys, offset, i).Some? {
      var out := Step(lines, keys, offset, i).value;
      var rest := Scan(lines, keys, offset, out.next).value;
      var rs := Scan(lines, keys, offset, i).value;
      var head := Emitted(out);
      assert rs == head + rest;
      StepRecordOpened(lines, keys, offset, i);
      ScanRecordsAreConstructs(lines, keys, offset, out.next);
      forall rec | rec in rs
        ensures exists m :: i <= m < |lines| && OpenedAt(lines, keys, offset, rec, m)
      {
        if rec in head {
          assert OpenedAt(lines, keys, offset, rec, i);
        } else {
          assert rec in rest;
          var m :| out.next <= m < |lines| && OpenedAt(lines, keys, offset, rec, m);
        }
      }
    }
  }

  /** Every line from index `i` on that opens a section lies inside one of the records. */
  lemma {:induction false} ScanCoversEveryOpener(lines: seq<string>, keys: seq<Option<Key>>, offset: int, i: nat)
    requires |keys| == |lines| && i <= |lines|
    ensures Scan(lines, keys, offset, i).Some? ==>
      forall m :: i <= m < |lines| && SectionNameFor(keys[m]).Some? ==> Covered(Scan(lines, keys, offset, i).value, offset + m + 1)
    decreases |lines| - i
  {
    if i < |lines| && Scan(lines, keys, offset, i).Some? {
      var out := Step(lines, keys, offset, i).value;
      var rest := Scan(lines, keys, offset, out.next).value;
      var rs := Scan(lines, keys, offset, i).value;
      var head := Emitted(out);
      assert rs == head + rest;
      StepMeetsConstruct(lines, keys, offset, i);
      ScanCoversEveryOpener(lines, keys, offset, out.next);
      forall m | i <= m < |lines| && SectionNameFor(keys[m]).Some? ensures Covered(rs, offset + m + 1) {
        if m < out.next {
          // a step that emits nothing moves on by one line only, so this step emitted a record covering `m`
          assert out.emitted.Some?;
          assert rs[0] == out.emitted.value;
          assert rs[0].startLine <= offset + m + 1 <= rs[0].endLine;
        } else {
          var k :| 0 <= k < |rest| && rest[k].startLine <= offset + m + 1 <= rest[k].endLine;
          assert rs[k + |head|] == rest[k];
        }
      }
    }
  }

  /** A line that opens no section is the first line of no record. */
  lemma NonOpenerStartsNoRecord(lines: seq<string>, keys: seq<Option<Key>>, offset: int, m: nat)
    requires |keys| == |lines| && m < |lines| && SectionNameFor(keys[m]).None?
    ensures Scan(lines, keys, offset, 0).Some? ==>
      forall rec :: rec in Scan(lines, keys, offset, 0).value ==> rec.startLine != offset + m + 1
  {
    if Scan(lines, keys, offset, 0).Some? {
      ScanRecordsAreConstructs(lines, keys, offset, 0);
      forall rec | rec in Scan(lines, keys, offset, 0).value ensures rec.startLine != offset + m + 1 {
        var m' :| 0 <= m' < |lines| && OpenedAt(lines, keys, offset, rec, m');
      }
    }
  }

  /** A brace-form `asm` line never starts a section: its key is not `ASSEMBLY`. */
  lemma BraceAsmOpensNoSection(lines: seq<string>, offset: int)
    ensures Sectionize(lines, offset).Some? ==>
      forall rec, m :: rec in Sectionize(lines, offset).value && 0 <= m < |lines| && Classify(lines[m]) == Some(Asm) ==>
        rec.startLine != offset + m + 1
  {
    if |lines| > 0 {
      var keys := ClassifyAll(lines);
      forall m | 0 <= m < |lines| && Classify(lines[m]) == Some(Asm)
        ensures Scan(lines, keys, offset, 0).Some? ==>
          forall rec :: rec in Scan(lines, keys, offset, 0).value ==> rec.startLine != offset + m + 1
      {
        NonOpenerStartsNoRecord(lines, keys, offset, m);
      }
    }
  }

  /** Shifting the offset shifts every line number of the result and changes nothing else. */
  function Shifted(rs: seq<Record>, d: int): (r: seq<Record>)
    ensures |r| == |rs|
    ensures forall k :: 0 <= k < |rs| ==>
      r[k] == Record(rs[k].sectionName, rs[k].startLine + d, rs[k].endLine + d)
  {
    if rs == [] then [] else [Record(rs[0].sectionName, rs[0].startLine + d, rs[0].endLine + d)] + Shifted(rs[1..], d)
  }

  lemma {:induction false} ShiftedAppend(a: seq<Record>, b: seq<Record>, d: int)
    ensures Shifted(a + b, d) == Shifted(a, d) + Shifted(b, d)
  {
    if a != [] {
      assert (a + b)[1..] == a[1..] + b;
      ShiftedAppend(a[1..], b, d);
    }
  }

  lemma {:induction false} ScanOffset(lines: seq<string>, keys: seq<Option<Key>>, offset: int, i: nat)
    requires |keys| == |lines| && i <= |lines|
    ensures Scan(lines, keys, offset, i).Some? <==> Scan(lines, keys, 0, i).Some?
    ensures Scan(lines, keys, offset, i).Some? ==>
      Scan(lines, keys, offset, i).value == Shifted(Scan(lines, keys, 0, i).value, offset)
    decreases |lines| - i
  {
    if i < |lines| {
      match NextAfter(lines, keys, i)
      case None =>
        assert Step(lines, keys, offset, i).None? && Step(lines, keys, 0, i).None?;
      case Some(n) =>
        ScanOffset(lines, keys, offset, n);
        var o1, o0 := Step(lines, keys, offset, i).value, Step(lines, keys, 0, i).value;
        assert o1.next == n && o0.next == n;
        assert Emitted(o1) == Shifted(Emitted(o0), offset);
        if Scan(lines, keys, 0, n).Some? {
          var rest := Scan(lines, keys, 0, n).value;
          assert Scan(lines, keys, 0, i).value == Emitted(o0) + rest;
          assert Scan(lines, keys, offset, i).value == Emitted(o1) + Shifted(rest, offset);
          ShiftedAppend(Emitted(o0), rest, offset);
        }
    }
  }

  /**
    Parsing with an offset gives the records of parsing without one, every
    line number moved by the offset: this is how a nested parse of a slice
    reports positions of the whole file.
  */
  lemma SectionizeOffset(lines: seq<string>, offset: int)
    ensures Sectionize(lines, offset).Some? <==> Sectionize(lines, 0).Some?
    ensures Sectionize(lines, offset).Some? ==>
      Sectionize(lines, offset).value == Shifted(Sectionize(lines, 0).value, offset)
  {
    if |lines| > 0 {
      ScanOffset(lines, ClassifyAll(lines), offset, 0);
    }
  }

  /** The number of occurrences of `ch` in `s`. */
  function Occurrences(s: string, ch: char): nat {
    if s == [] then 0 else (if s[0] == ch then 1 else 0) + Occurrences(s[1..], ch)
  }

  /** A line's depth change is its number of opening brackets minus its number of closing ones. */
  lemma {:induction false} DeltaIsOpenMinusClose(line: string, open: char, close: char)
    requires open != close
    ensures Delta(line, open, close) == Occurrences(line, open) - Occurrences(line, close)
  {
    if line != [] {
      DeltaIsOpenMinusClose(line[1..], open, close);
      var found := FindAll(line, open, close);
      var tail := FindAll(line[1..], open, close);
      if line[0] == open || line[0] == close {
        assert found == [line[0]] + tail && found[1..] == tail;
      } else {
        assert found == tail;
      }
    }
  }

  /** A run of directives, variables or line comments that reaches the last line makes the step fail. */
  lemma TrailingRunFails(lines: seq<string>, keys: seq<Option<Key>>, offset: int, i: nat)
    requires |keys| == |lines| && i < |lines|
    requires keys[i] == Some(Directive) || keys[i] == Some(Variable) || keys[i] == Some(LineComment)
    requires forall m :: i <= m < |lines| ==> keys[m] == keys[i]
    ensures Step(lines, keys, offset, i).None?
  {
    var j := RunEnd(keys, i + 1, keys[i]);
    assert j == |lines|;
  }

  /** A whole input of one run kind has no result. */
  lemma SingleRunInputFails(lines: seq<string>, offset: int)
    requires |lines| > 0
    requires Classify(lines[0]) == Some(Directive) || Classify(lines[0]) == Some(Variable) || Classify(lines[0]) == Some(LineComment)
    requires forall m :: 0 <= m < |lines| ==> Classify(lines[m]) == Classify(lines[0])
    ensures Sectionize(lines, offset).None?
  {
    var keys := ClassifyAll(lines);
    forall m | 0 <= m < |lines| ensures keys[m] == keys[0] {
      assert keys[m] == Classify(lines[m]);
    }
    TrailingRunFails(lines, keys, offset, 0);
  }

  /** The records the outer loop appends from index `i` on before it stops or raises. */
  function Emits(lines: seq<string>, keys: seq<Option<Key>>, offset: int, i: nat): seq<Record>
    requires |keys| == |lines| && i <= |lines|
    decreases |lines| - i
  {
    if i == |lines| then []
    else
      match Step(lines, keys, offset, i)
      case None => []
      case Some(out) => Emitted(out) + Emits(lines, keys, offset, out.next)
  }

  /** One turn of the outer loop either appends its record and moves on, or ends the scan with a failure. */
  lemma EmitsStep(lines: seq<string>, keys: seq<Option<Key>>, offset: int, i: nat)
    requires |keys| == |lines| && i < |lines|
    ensures Step(lines, keys, offset, i).Some? ==>
      var out := Step(lines, keys, offset, i).value;
      && Emits(lines, keys, offset, i) == Emitted(out) + Emits(lines, keys, offset, out.next)
      && (Scan(lines, keys, offset, i).Some? <==> Scan(lines, keys, offset, out.next).Some?)
    ensures Step(lines, keys, offset, i).None? ==>
      Emits(lines, keys, offset, i) == [] && Scan(lines, keys, offset, i).None?
  {
  }

  /** Regrouping a concatenation of records. */
  lemma Regroup(total: seq<Record>, a: seq<Record>, b: seq<Record>, c: seq<Record>)
    requires total == a + (b + c)
    ensures total == (a + b) + c
  {
  }

  /** When the scan completes, its result is exactly what it appended. */
  lemma {:induction false} ScanIsEmits(lines: seq<string>, keys: seq<Option<Key>>, offset: int, i: nat)
    requires |keys| == |lines| && i <= |lines|
    ensures Scan(lines, keys, offset, i).Some? ==> Scan(lines, keys, offset, i).value == Emits(lines, keys, offset, i)
    decreases |lines| - i
  {
    if i < |lines| {
      match Step(lines, keys, offset, i)
      case None =>
      case Some(out) => ScanIsEmits(lines, keys, offset, out.next);
    }
  }

  /** Extending the range of a cumulative bracket count by one line adds that line's change. */
  lemma {:induction false} SumDeltaExtend(lines: seq<string>, a: nat, b: nat, open: char, close: char)
    requires a <= b < |lines|
    ensures SumDelta(lines, a, b + 1, open, close) == SumDelta(lines, a, b, open, close) + Delta(lines[b], open, close)
    decreases b - a
  {
    if a < b {
      SumDeltaExtend(lines, a + 1, b, open, close);
    }
  }

  /** `__count_brackets` is the number of `bracket_type` elements minus the number of the others. */
  lemma {:induction false} BracketBalanceCounts(brackets: seq<char>, bracketType: char)
    ensures BracketBalance(brackets, bracketType) == 2 * Occurrences(brackets, bracketType) - |brackets|
  {
    if brackets != [] {
      BracketBalanceCounts(brackets[1..], bracketType);
    }
  }
}
