/**
  The `Parser` class of compilator_8_bit/compiler/api/parser.py: a single
  forward pass over the lines that appends one record per section to `data`.

  The Python iterator is modelled by the index `pos` of the line the next
  `next(iterator)` returns; a `next` past the last line (`StopIteration`)
  makes `ParseSourceCode` return `None`.  Each method is proved against the
  functions of module `Sectionizer`, whose properties are proved there.
*/
module Parsing {
  import opened Wrappers
  import opened Text
  import opened Classifier
  import opened Sectionizer

  class Parser {
    const lines: seq<string>
    const counterStart: int
    var counter: int
    var lineExists: bool
    var data: seq<Record>
    var sectionName: Option<string>
    var startLine: Option<int>
    var endLine: Option<int>
    /** The classification of every line, as `__parse_line` computes it. */
    ghost const keys: seq<Option<Key>>

    /** `keys` is the classification of `lines`. */
    ghost predicate Valid() {
      Classified(lines, keys)
    }

    constructor (lines: seq<string>, counterStart: int)
      ensures this.lines == lines && this.counterStart == counterStart
      ensures counter == counterStart && lineExists && data == []
      ensures sectionName.None? && startLine.None? && endLine.None?
      ensures Valid()
    {
      this.lines := lines;
      this.counterStart := counterStart;
      keys := ClassifyAll(lines);
      counter := counterStart;
      lineExists := true;
      data := [];
      sectionName := None;
      startLine := None;
      endLine := None;
    }

    /** `__parse_line`: the first table row whose pattern matches the stripped line. */
    method ParseLine(line: string) returns (key: Option<Key>)
      ensures key == Classify(line)
    {
      var s := Strip(line);
      var t := 0;
      while t < |PatternTable|
        invariant 0 <= t <= |PatternTable|
        invariant FirstMatch(PatternTable[t..], s) == FirstMatch(PatternTable, s)
      {
        if Matches(PatternTable[t], s) {
          return Some(PatternTable[t]);
        }
        assert PatternTable[t..][1..] == PatternTable[t + 1..];
        t := t + 1;
      }
      return None;
    }

    /** `__parse_line(next(iterator))` when the iterator stands at index `pos`. */
    method NextKey(pos: nat) returns (key: Option<Key>)
      requires Valid()
      requires pos < |lines|
      ensures key == keys[pos]
    {
      key := ParseLine(lines[pos]);
    }

    /** `__count_brackets`: +1 for each `bracketType` element, -1 for each other one. */
    method CountBrackets(found: seq<char>, bracketType: char) returns (brackets: int)
      ensures brackets == BracketBalance(found, bracketType)
      ensures brackets == 2 * Occurrences(found, bracketType) - |found|
    {
      brackets := 0;
      var k := 0;
      while k < |found|
        invariant 0 <= k <= |found|
        invariant brackets + BracketBalance(found[k..], bracketType) == BracketBalance(found, bracketType)
      {
        assert found[k..][1..] == found[k + 1..];
        if found[k] == bracketType {
          brackets := brackets + 1;
        } else {
          brackets := brackets - 1;
        }
        k := k + 1;
      }
      BracketBalanceCounts(found, bracketType);
    }

    /**
      The loop that reads lines after index `c` until one is classified `k`:
      the index past that line, or `None` when the lines run out.
    */
    method SkipToKey(c: nat, opener: Option<Key>, k: Key) returns (r: Option<nat>)
      requires Valid()
      requires c < |lines| && opener == keys[c] && opener != Some(k)
      ensures r == AfterKey(keys, c, k)
    {
      var key := opener;
      var pos := c + 1;
      while key != Some(k)
        invariant c + 1 <= pos <= |lines|
        invariant key == keys[pos - 1]
        invariant forall m :: c + 1 <= m < pos - 1 ==> keys[m] != Some(k)
        decreases |lines| - pos, if key == Some(k) then 0 else 1
      {
        if pos == |lines| {
          assert FindKey(keys, c + 1, k) == |lines|;
          return None;
        }
        key := NextKey(pos);
        pos := pos + 1;
      }
      assert FindKey(keys, c + 1, k) == pos - 1;
      return Some(pos);
    }

    /**
      The loop that reads lines after index `c` while they are classified like
      it: the index of the first line of another kind, or `None`.
    */
    method SkipRun(c: nat, prevKey: Option<Key>) returns (r: Option<nat>)
      requires Valid()
      requires c < |lines| && prevKey == keys[c]
      ensures r == AfterRun(keys, c)
    {
      var key := prevKey;
      var pos := c + 1;
      while key == prevKey
        invariant c + 1 <= pos <= |lines|
        invariant key == keys[pos - 1]
        invariant forall m :: c + 1 <= m < pos - 1 ==> keys[m] == prevKey
        invariant pos - 1 == c ==> key == prevKey
        decreases |lines| - pos, if key == prevKey then 1 else 0
      {
        if pos == |lines| {
          assert RunEnd(keys, c + 1, prevKey) == |lines|;
          return None;
        }
        key := NextKey(pos);
        pos := pos + 1;
      }
      assert RunEnd(keys, c + 1, prevKey) == pos - 1;
      return Some(pos - 1);
    }

    /**
      The first bracket loop of the procedure and `asm_round` branches: the
      index of the first line at or after `c` holding a bracket, or `None`
      when the lines run out first.
    */
    method SkipToBracket(c: nat, open: char, close: char) returns (r: Option<nat>)
      requires c < |lines|
      ensures var f := FirstBracketLine(lines, c, open, close); r == if f == |lines| then None else Some(f)
    {
      var pos := c + 1;
      var found := FindAll(lines[c], open, close);
      while |found| == 0
        invariant c + 1 <= pos <= |lines|
        invariant found == FindAll(lines[pos - 1], open, close)
        invariant forall m :: c <= m < pos - 1 ==> FindAll(lines[m], open, close) == []
        decreases |lines| - pos, if |found| == 0 then 1 else 0
      {
        if pos == |lines| {
          assert FirstBracketLine(lines, c, open, close) == |lines|;
          return None;
        }
        found := FindAll(lines[pos], open, close);
        pos := pos + 1;
      }
      assert FirstBracketLine(lines, c, open, close) == pos - 1;
      return Some(pos - 1);
    }

    /**
      The two bracket loops of the procedure and `asm_round` branches: find the
      first line at or after `c` holding a bracket, then read lines while the
      running count stays positive.  The index past the last line read, or
      `None` when the lines run out.
    */
    method SkipBalanced(c: nat, open: char, close: char) returns (r: Option<nat>)
      requires c < |lines|
      ensures r == AfterBalanced(lines, c, open, close)
    {
      var first := SkipToBracket(c, open, close);
      if first.None? {
        return None;
      }
      var f := first.value;
      var brackets := CountBrackets(FindAll(lines[f], open, close), open);
      var pos := f + 1;
      while brackets > 0
        invariant f < pos <= |lines|
        invariant brackets == SumDelta(lines, f, pos, open, close)
        invariant forall t :: f < t < pos ==> SumDelta(lines, f, t, open, close) > 0
        decreases |lines| - pos
      {
        if pos == |lines| {
          BalancedEndFails(lines, c, open, close);
          return None;
        }
        var found := FindAll(lines[pos], open, close);
        SumDeltaExtend(lines, f, pos, open, close);
        pos := pos + 1;
        var n := CountBrackets(found, open);
        brackets := brackets + n;
      }
      assert BalancedAt(lines, c, pos - 1, open, close);
      BalancedEndStops(lines, c, pos - 1, open, close);
      return Some(pos);
    }

    /** The scratch fields hold the values of the last record of `rs`. */
    ghost predicate ShowsLast(rs: seq<Record>)
      reads this
    {
      rs != [] &&
      sectionName == Some(rs[|rs| - 1].sectionName) && startLine == Some(rs[|rs| - 1].startLine)
      && endLine == Some(rs[|rs| - 1].endLine)
    }

    /**
      What one turn of the outer loop at index `cur` did, from the state
      before it (`data0`, `lineExists0`) to the current state: the iterator
      stands at `resume` (the resume point of the construct the line opens),
      the appended records are the turn's share of `Emits`, and the counter
      numbers the last line read.
    */
    ghost predicate Turned(cur: nat, resume: Option<nat>, cont: bool, data0: seq<Record>, lineExists0: bool)
      requires Valid()
      requires cur < |lines|
      reads this
    {
      && resume == NextAfter(lines, keys, cur)
      && lineExists == lineExists0
      && (resume.None? ==> data == data0 && counter == counterStart + |lines|)
      && (resume.Some? ==>
            && data == data0 + Emitted(Step(lines, keys, counterStart, cur).value)
            && (cont ==> resume.value < |lines| && counter == counterStart + resume.value + 1)
            && (!cont ==> counter == counterStart + resume.value))
    }

    /**
      One turn of the `while self.line_exists` loop at the line with index
      `cur`, up to but not including the guarded `next` at its end: the
      branch chosen by the line's key, the record it appends, and where the
      iterator stands afterwards.  `cont` tells that the branch ended with
      `continue` (the runs), so the line at `resume` is already read.  The
      sequential `if`s of the source act as one choice by key here: every
      branch leaves a key that no later test accepts.
    */
    method Turn(cur: nat) returns (resume: Option<nat>, cont: bool)
      requires Valid()
      requires cur < |lines| && counter == counterStart + cur + 1
      modifies this
      ensures Turned(cur, resume, cont, old(data), old(lineExists))
    {
      cont := false;
      var key := NextKey(cur);
      // the tests `key in [DIRECTIVE, VARIABLE]` and `key in [PROCEDURE, ASSEMBLY]`
      // accept exactly the keys of their cases below (lemma `SectionBranches`)
      match key
      case Some(IfDefine) =>
        resume := ToTerminator(cur, key, EndDefine, DIRECTIVE);
      case Some(Directive) =>
        resume := ThroughRun(cur, key, key.value.Name());
        cont := true;
      case Some(Variable) =>
        resume := ThroughRun(cur, key, key.value.Name());
        cont := true;
      case Some(LineComment) =>
        resume := ThroughRun(cur, key, COMMENT);
        cont := true;
      case Some(BlockLineComment) =>
        resume := OneLine(cur, COMMENT);
      case Some(BlockComment) =>
        resume := ToTerminator(cur, key, EndBlockComment, COMMENT);
      case Some(Procedure) =>
        resume := ThroughBalanced(cur, key.value.Name(), '{', '}');
      case Some(AsmRound) =>
        resume := ThroughBalanced(cur, ASSEMBLY, '(', ')');
      case Some(AsmFloorStart) =>
        resume := ToTerminator(cur, key, AsmFloorEnd, ASSEMBLY);
      case _ =>
        StepOfNonOpener(lines, keys, counterStart, cur);
        resume := Some(cur + 1);
    }

    /** The `block_line_comment` branch: a section of the one line. */
    method OneLine(cur: nat, name: string) returns (resume: Option<nat>)
      requires Valid()
      requires cur < |lines| && counter == counterStart + cur + 1
      requires NextAfter(lines, keys, cur) == Some(cur + 1) && SectionNameFor(keys[cur]) == Some(name)
      modifies this
      ensures Turned(cur, resume, false, old(data), old(lineExists))
    {
      resume := Some(cur + 1);
      StepOfOpener(lines, keys, counterStart, cur, name, resume);
      Close(name, cur, resume, false);
    }

    /** The `ifdefine`, `block_comment` and `asm_floor_start` branches: a section up to the first line classified `k`. */
    method ToTerminator(cur: nat, key: Option<Key>, k: Key, name: string) returns (resume: Option<nat>)
      requires Valid()
      requires cur < |lines| && counter == counterStart + cur + 1
      requires key == keys[cur] && key != Some(k)
      requires NextAfter(lines, keys, cur) == AfterKey(keys, cur, k) && SectionNameFor(keys[cur]) == Some(name)
      modifies this
      ensures Turned(cur, resume, false, old(data), old(lineExists))
    {
      resume := SkipToKey(cur, key, k);
      StepOfOpener(lines, keys, counterStart, cur, name, resume);
      Close(name, cur, resume, false);
    }

    /** The `directive`/`variable` and `line_comment` branches: a section over the run of lines classified alike. */
    method ThroughRun(cur: nat, key: Option<Key>, name: string) returns (resume: Option<nat>)
      requires Valid()
      requires cur < |lines| && counter == counterStart + cur + 1
      requires key == keys[cur]
      requires NextAfter(lines, keys, cur) == AfterRun(keys, cur) && SectionNameFor(keys[cur]) == Some(name)
      modifies this
      ensures Turned(cur, resume, true, old(data), old(lineExists))
    {
      resume := SkipRun(cur, key);
      StepOfOpener(lines, keys, counterStart, cur, name, resume);
      Close(name, cur, resume, true);
    }

    /** The `procedure` and `asm_round` branches: a section up to the line that balances the brackets. */
    method ThroughBalanced(cur: nat, name: string, open: char, close: char) returns (resume: Option<nat>)
      requires Valid()
      requires cur < |lines| && counter == counterStart + cur + 1
      requires NextAfter(lines, keys, cur) == AfterBalanced(lines, cur, open, close) && SectionNameFor(keys[cur]) == Some(name)
      modifies this
      ensures Turned(cur, resume, false, old(data), old(lineExists))
    {
      resume := SkipBalanced(cur, open, close);
      StepOfOpener(lines, keys, counterStart, cur, name, resume);
      Close(name, cur, resume, false);
    }

    /**
      The end of a section-opening branch whose inner loop left the iterator
      at `resume`: the fields `start_line` and `section_name` set on entry,
      `end_line` set and `__append_data` called after the loop, or the
      counter at the last line when the loop ran past it.  A run (`run`) ends
      on the line before the one it read last.
    */
    method Close(name: string, cur: nat, resume: Option<nat>, run: bool)
      requires counter == counterStart + cur + 1
      requires resume.Some? ==> cur < resume.value
      modifies this
      ensures resume.None? ==> data == old(data) && counter == counterStart + |lines|
      ensures resume.Some? ==>
        && data == old(data) + [Record(name, counterStart + cur + 1, counterStart + resume.value)]
        && ShowsLast(data)
        && counter == counterStart + resume.value + (if run then 1 else 0)
      ensures sectionName == Some(name) && startLine == Some(counterStart + cur + 1)
      ensures resume.None? ==> endLine == old(endLine)
      ensures lineExists == old(lineExists)
    {
      startLine, sectionName := Some(counter), Some(name);
      if resume.None? {
        counter := counterStart + |lines|;
        return;
      }
      if run {
        counter := counterStart + resume.value + 1;
        endLine := Some(counter - 1);
      } else {
        counter := counterStart + resume.value;
        endLine := Some(counter);
      }
      // __append_data
      data := data + [Record(sectionName.value, startLine.value, endLine.value)];
    }

    /**
      `parse_source_code`: `None` where the source raises (no first line, or a
      construct still open at the last line); otherwise the record list.  On
      a parser whose `line_exists` is already false the loop is skipped and
      the records of the earlier call come back unchanged.
    */
    method ParseSourceCode() returns (result: Option<seq<Record>>)
      requires Valid()
      modifies this
      ensures |lines| == 0 ==> result.None? && data == old(data) && counter == counterStart
      ensures |lines| > 0 && !old(lineExists) ==> result == Some(old(data)) && data == old(data) && counter == counterStart + 1
      ensures |lines| > 0 && old(lineExists) ==>
        && data == old(data) + Emits(lines, keys, counterStart, 0)
        && counter == counterStart + |lines|
        && (result.Some? <==> Sectionize(lines, counterStart).Some?)
        && (result.Some? ==> result == Some(data) && data == old(data) + Sectionize(lines, counterStart).value && !lineExists)
      ensures result.None? ==> lineExists == old(lineExists)
    {
      counter := counterStart;
      if |lines| == 0 {
        return None;
      }
      var cur := 0;
      counter := counter + 1;
      if !lineExists {
        return Some(data);
      }
      ghost var at: nat := 0;
      while lineExists
        invariant at <= |lines|
        invariant lineExists ==> at == cur < |lines| && counter == counterStart + cur + 1
        invariant !lineExists ==> at == |lines| && counter == counterStart + |lines|
        invariant old(data) + Emits(lines, keys, counterStart, 0) == data + Emits(lines, keys, counterStart, at)
        invariant Scan(lines, keys, counterStart, 0).Some? <==> Scan(lines, keys, counterStart, at).Some?
        invariant |data| >= |old(data)|
        decreases |lines| - at + (if lineExists then 1 else 0)
      {
        ghost var before := data;
        var resume, cont := Turn(cur);
        EmitsStep(lines, keys, counterStart, cur);
        if resume.None? {
          ClassifiedIsClassifyAll(lines, keys);
          return None;
        }
        at := resume.value;
        Regroup(old(data) + Emits(lines, keys, counterStart, 0), before,
                Emitted(Step(lines, keys, counterStart, cur).value), Emits(lines, keys, counterStart, at));
        if cont {
          cur := resume.value;
          continue;
        }
        // the guarded `next` that ends the turn
        if resume.value < |lines| {
          cur := resume.value;
          counter := counter + 1;
        } else {
          lineExists := false;
        }
      }
      ScanIsEmits(lines, keys, counterStart, 0);
      ClassifiedIsClassifyAll(lines, keys);
      return Some(data);
    }
  }
}
