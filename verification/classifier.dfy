/**
  The ordered pattern table that classifies one source line
  (compilator_8_bit/compiler/api/parser.py, `regex_patterns` and `__parse_line`).

  Each row's regular expression is modelled by a predicate on the stripped
  line; the predicates are exact for ASCII text under Python's backtracking
  semantics (see the `*Tail` predicates).  Classification is the first row,
  in table order, whose predicate holds.
*/
module Classifier {
  import opened Wrappers
  import opened Text

  /** The rows of the pattern table. */
  datatype Key =
    | IfDefine | EndDefine | Directive | LineComment | BlockLineComment | BlockComment
    | EndBlockComment | Procedure | Variable | Asm | AsmRound | AsmFloorStart | AsmFloorEnd
  {
    /** The dictionary key of the row, which the parser compares against section names. */
    function Name(): string {
      match this
      case IfDefine => "ifdefine"
      case EndDefine => "enddefine"
      case Directive => "directive"
      case LineComment => "line_comment"
      case BlockLineComment => "block_line_comment"
      case BlockComment => "block_comment"
      case EndBlockComment => "end_block_comment"
      case Procedure => "procedure"
      case Variable => "variable"
      case Asm => "asm"
      case AsmRound => "asm_round"
      case AsmFloorStart => "asm_floor_start"
      case AsmFloorEnd => "asm_floor_end"
    }
  }

  /** The table rows in the order the dictionary lists them. */
  const PatternTable: seq<Key> :=
    [IfDefine, EndDefine, Directive, LineComment, BlockLineComment, BlockComment,
     EndBlockComment, Procedure, Variable, Asm, AsmRound, AsmFloorStart, AsmFloorEnd]

  /** The alternatives after `#` in the `directive` row. */
  const DirectiveWords: seq<string> := ["define", "include", "pragma", "error", "warning", "undef", "line"]

  /** The primitive-type alternatives that open the `procedure` and `variable` rows. */
  const TypeKeywords: seq<string> :=
    ["char", "unsigned char", "signed char", "int", "unsigned int", "short", "unsigned short",
     "long", "unsigned long", "unsigned long long", "float", "double", "long double",
     "uint8_t", "uint16_t", "uint32_t", "uint64_t", "void"]

  /** `\s*` followed by the character `c`. */
  predicate SpacesThen(r: string, c: char) {
    var a := LeadingSpaces(r);
    a < |r| && r[a] == c
  }

  /** What follows the type keyword in the `procedure` row: `\s+\w+\s*\(`. */
  predicate ProcedureTail(r: string) {
    var a := LeadingSpaces(r);
    var b := LeadingWordChars(r[a..]);
    a >= 1 && b >= 1 && SpacesThen(r[a + b..], '(')
  }

  /**
    What follows the type keyword in the `variable` row: `\s+\w+\s*(=|[^\(])`.
    Backtracking lets `\w+` give back its last character to `[^\(]`, so a
    name of two or more characters always matches; a one-character name
    matches when some character other than `(` follows it.
  */
  predicate VariableTail(r: string) {
    var a := LeadingSpaces(r);
    var b := LeadingWordChars(r[a..]);
    a >= 1 && b >= 1 && (b >= 2 || (a + b < |r| && r[a + b] != '('))
  }

  /** What follows `asm` or `__asm__`: `\s*(volatile|__volatile__)?\s*` then `open`. */
  predicate AsmTail(r: string, open: char) {
    var t := r[LeadingSpaces(r)..];
    || (t != [] && t[0] == open)
    || (StartsWith(t, "volatile") && SpacesThen(t[8..], open))
    || (StartsWith(t, "__volatile__") && SpacesThen(t[12..], open))
  }

  /** `^(asm|__asm__)\s*(volatile|__volatile__)?\s*` then `open`. */
  predicate AsmOpener(s: string, open: char) {
    || (StartsWith(s, "asm") && AsmTail(s[3..], open))
    || (StartsWith(s, "__asm__") && AsmTail(s[7..], open))
  }

  /** Whether the row `k` matches the stripped line `s`. */
  predicate Matches(k: Key, s: string) {
    match k
    case IfDefine => StartsWith(s, "#if")
    case EndDefine => StartsWith(s, "#endif")
    case Directive => exists i :: 0 <= i < |DirectiveWords| && StartsWith(s, "#" + DirectiveWords[i])
    case LineComment => StartsWith(s, "//")
    case BlockLineComment =>
      |s| >= 4 && StartsWith(s, "/*") && EndsWith(s, "*/") && forall j :: 2 <= j < |s| - 2 ==> s[j] != '\n'
    case BlockComment => StartsWith(s, "/*")
    case EndBlockComment => EndsWith(s, "*/")
    case Procedure =>
      exists i :: 0 <= i < |TypeKeywords| && StartsWith(s, TypeKeywords[i]) && ProcedureTail(s[|TypeKeywords[i]|..])
    case Variable =>
      exists i :: 0 <= i < |TypeKeywords| && StartsWith(s, TypeKeywords[i]) && VariableTail(s[|TypeKeywords[i]|..])
    case Asm => AsmOpener(s, '{')
    case AsmRound => AsmOpener(s, '(')
    case AsmFloorStart => StartsWith(s, "__asm")
    case AsmFloorEnd => StartsWith(s, "__endasm") && SpacesThen(s[8..], ';')
  }

  /** The first row of `table` that matches `s`, or `None`. */
  function FirstMatch(table: seq<Key>, s: string): (r: Option<Key>)
    ensures r.Some? ==> Matches(r.value, s)
    ensures r.Some? ==> exists i :: 0 <= i < |table| && table[i] == r.value && forall j :: 0 <= j < i ==> !Matches(table[j], s)
    ensures r.None? <==> forall j :: 0 <= j < |table| ==> !Matches(table[j], s)
  {
    if table == [] then None
    else if Matches(table[0], s) then Some(table[0])
    else
      var rest := FirstMatch(table[1..], s);
      if rest.Some? then
        var i :| 0 <= i < |table[1..]| && table[1..][i] == rest.value && forall j :: 0 <= j < i ==> !Matches(table[1..][j], s);
        assert table[i + 1] == rest.value && forall j :: 0 <= j < i + 1 ==> !Matches(table[j], s);
        rest
      else rest
  }

  /** The category of a line: the first matching row for the stripped line. */
  function Classify(line: string): Option<Key> {
    FirstMatch(PatternTable, Strip(line))
  }

  /** In a table without repeated rows, row `i` is chosen exactly when it matches and no earlier row does. */
  lemma {:induction false} FirstMatchWins(table: seq<Key>, s: string, i: nat)
    requires i < |table|
    requires forall a, b :: 0 <= a < b < |table| ==> table[a] != table[b]
    ensures FirstMatch(table, s) == Some(table[i])
            <==> Matches(table[i], s) && forall j :: 0 <= j < i ==> !Matches(table[j], s)
  {
    if i == 0 {
    } else if Matches(table[0], s) {
      assert table[0] != table[i];
    } else {
      var rest := table[1..];
      assert forall a, b :: 0 <= a < b < |rest| ==> rest[a] == table[a + 1] && rest[b] == table[b + 1];
      FirstMatchWins(rest, s, i - 1);
      assert FirstMatch(table, s) == FirstMatch(rest, s) && rest[i - 1] == table[i];
      assert forall j :: 1 <= j < i ==> rest[j - 1] == table[j];
    }
  }

  /** Classification is first-match-wins over `PatternTable` in its listed order. */
  lemma ClassifyFirstMatchWins(line: string, i: nat)
    requires i < |PatternTable|
    ensures Classify(line) == Some(PatternTable[i])
            <==> Matches(PatternTable[i], Strip(line)) && forall j :: 0 <= j < i ==> !Matches(PatternTable[j], Strip(line))
  {
    FirstMatchWins(PatternTable, Strip(line), i);
  }

  /** The rows before `end_block_comment` all need a leading `#` or `/`; that row needs only the closing star-slash. */
  lemma EndCommentRowFirst(s: string)
    requires EndsWith(s, "*/") && s[0] != '#' && s[0] != '/'
    ensures Matches(PatternTable[6], s)
    ensures forall j :: 0 <= j < 6 ==> !Matches(PatternTable[j], s)
  {
    forall j | 0 <= j < 6 ensures !Matches(PatternTable[j], s) {
      if j == 2 {
        forall i | 0 <= i < |DirectiveWords| ensures !StartsWith(s, "#" + DirectiveWords[i]) {
          assert ("#" + DirectiveWords[i])[0] == '#';
        }
      }
    }
  }

  /**
    A line that ends a block comment and starts with neither `#` nor `/` is
    tagged `end_block_comment`, before the declaration rows are tried.
  */
  lemma EndCommentBeforeDeclarations(line: string)
    requires EndsWith(Strip(line), "*/")
    requires Strip(line)[0] != '#' && Strip(line)[0] != '/'
    ensures Classify(line) == Some(EndBlockComment)
  {
    EndCommentRowFirst(Strip(line));
    ClassifyFirstMatchWins(line, 6);
  }
}
