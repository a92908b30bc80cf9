/**
 * The code-extraction utilities of the outline tool (outln/src/core/utils.ts)
 * over its VSCode-style symbol tree (outln/src/core/types.ts).
 *
 * Line and character positions are 0-based. Lines are natural numbers, as
 * the symbol providers produce them; characters may be any integer and are
 * clamped the way JavaScript's `substring` clamps them.
 */
module OutlineUtils {
  import opened Types
  import opened TextLines

  datatype Position = Position(line: nat, character: int)

  datatype Range = Range(start: Position, end: Position)

  /** A symbol and its nested symbols; an absent `children` is the empty list. */
  datatype DocumentSymbol = DocumentSymbol(
    name: string,
    detail: string,
    kind: int,
    range: Range,
    selectionRange: Range,
    children: seq<DocumentSymbol>)

  // ---------------------------------------------------------------------
  // findSymbolByName
  // ---------------------------------------------------------------------

  /**
   * findSymbolByName: each symbol is checked before its children, and a
   * symbol's whole subtree before the symbols after it.
   */
  function FindSymbolByName(symbols: seq<DocumentSymbol>, name: string): (r: Option<DocumentSymbol>)
    ensures r.Some? ==> r.value.name == name
    decreases symbols
  {
    if |symbols| == 0 then None
    else if symbols[0].name == name then Some(symbols[0])
    else
      var found := if |symbols[0].children| > 0 then FindSymbolByName(symbols[0].children, name) else None;
      if found.Some? then found else FindSymbolByName(symbols[1..], name)
  }

  /** Every symbol of the forest in pre-order. */
  function Preorder(symbols: seq<DocumentSymbol>): seq<DocumentSymbol>
    decreases symbols
  {
    if |symbols| == 0 then [] else [symbols[0]] + Preorder(symbols[0].children) + Preorder(symbols[1..])
  }

  /** The first symbol of a list carrying the name. */
  function FirstNamed(list: seq<DocumentSymbol>, name: string): (r: Option<DocumentSymbol>)
    ensures r.None? <==> forall k :: 0 <= k < |list| ==> list[k].name != name
    ensures r.Some? ==> exists k :: 0 <= k < |list| && list[k] == r.value && r.value.name == name &&
                                    forall j :: 0 <= j < k ==> list[j].name != name
  {
    if |list| == 0 then None
    else if list[0].name == name then Some(list[0])
    else
      var rest := FirstNamed(list[1..], name);
      assert forall k :: 1 <= k < |list| ==> list[k] == list[1..][k - 1];
      rest
  }

  lemma {:induction false} FirstNamedAppend(a: seq<DocumentSymbol>, b: seq<DocumentSymbol>, name: string)
    ensures FirstNamed(a + b, name) == if FirstNamed(a, name).Some? then FirstNamed(a, name) else FirstNamed(b, name)
  {
    if |a| > 0 {
      FirstNamedAppend(a[1..], b, name);
      assert (a + b)[1..] == a[1..] + b;
    } else {
      assert a + b == b;
    }
  }

  /** findSymbolByName returns the first symbol with the name in pre-order. */
  lemma {:induction false} FindIsFirstInPreorder(symbols: seq<DocumentSymbol>, name: string)
    ensures FindSymbolByName(symbols, name) == FirstNamed(Preorder(symbols), name)
    decreases symbols
  {
    if |symbols| > 0 {
      var s := symbols[0];
      FindIsFirstInPreorder(s.children, name);
      FindIsFirstInPreorder(symbols[1..], name);
      FirstNamedAppend([s], Preorder(s.children) + Preorder(symbols[1..]), name);
      FirstNamedAppend(Preorder(s.children), Preorder(symbols[1..]), name);
      assert [s] + Preorder(s.children) + Preorder(symbols[1..]) == [s] + (Preorder(s.children) + Preorder(symbols[1..]));
      if |s.children| == 0 {
        assert Preorder(s.children) == [];
      }
    }
  }

  /** The search finds nothing iff no symbol of the tree has the name. */
  lemma FindNothingIff(symbols: seq<DocumentSymbol>, name: string)
    ensures var all := Preorder(symbols);
            FindSymbolByName(symbols, name).None? <==> forall k :: 0 <= k < |all| ==> all[k].name != name
  {
    FindIsFirstInPreorder(symbols, name);
  }

  // ---------------------------------------------------------------------
  // extractCodeByRange
  // ---------------------------------------------------------------------

  function Clamp(x: int, len: nat): (c: nat)
    ensures c <= len
  {
    if x < 0 then 0 else if x > len then len else x
  }

  /** JavaScript's `s.substring(a, b)`: both ends clamped to the string, then swapped if reversed. */
  function Substring(s: string, a: int, b: int): string {
    var x, y := Clamp(a, |s|), Clamp(b, |s|);
    if x > y then s[y..x] else s[x..y]
  }

  /** The swap: the order of the two ends does not matter, and the result is a slice. */
  lemma SubstringSymmetric(s: string, a: int, b: int)
    ensures Substring(s, a, b) == Substring(s, b, a)
    ensures |Substring(s, a, b)| <= |s|
    ensures a <= b ==> Substring(s, a, b) == s[Clamp(a, |s|)..Clamp(b, |s|)]
  {
  }

  lemma SliceNoNewline(s: string, x: nat, y: nat)
    requires NoNewline(s) && x <= y <= |s|
    ensures NoNewline(s[x..y])
  {
    assert forall i :: 0 <= i < y - x ==> s[x..y][i] == s[x + i];
  }

  /** The line pieces a multi-line extraction joins. */
  function MultiLinePieces(lines: seq<string>, range: Range): seq<string>
    requires range.start.line < |lines| && range.end.line < |lines|
  {
    var sl, el := range.start.line, range.end.line;
    var first := Substring(lines[sl], range.start.character, |lines[sl]|);
    var last := Substring(lines[el], 0, range.end.character);
    [first] + (if sl < el then lines[sl + 1..el] else []) + [last]
  }

  /**
   * extractCodeByRange. Out-of-range lines give ''; a one-line range gives
   * the substring of that line; otherwise the lines of the result are the
   * tail of the first line, the whole lines between, and the head of the
   * last line (with no middle when the range is reversed).
   */
  method ExtractCodeByRange(source: string, range: Range) returns (code: string)
    ensures var lines := Split(source);
            range.start.line >= |lines| || range.end.line >= |lines| ==> code == ""
    ensures var lines := Split(source);
            range.start.line < |lines| && range.end.line == range.start.line ==>
              code == Substring(lines[range.start.line], range.start.character, range.end.character)
    ensures var lines := Split(source);
            range.start.line < |lines| && range.end.line < |lines| && range.start.line != range.end.line ==>
              Split(code) == MultiLinePieces(lines, range) && Join(MultiLinePieces(lines, range)) == code
  {
    var lines := Split(source);
    if range.start.line >= |lines| || range.end.line >= |lines| {
      return "";
    }
    var startLine, endLine := range.start.line, range.end.line;
    if startLine == endLine {
      var line := lines[startLine];
      return Substring(line, range.start.character, range.end.character);
    }
    var result: seq<string> := [];
    var first := Substring(lines[startLine], range.start.character, |lines[startLine]|);
    result := result + [first];
    var i := startLine + 1;
    while i < endLine
      invariant startLine + 1 <= i <= if startLine < endLine then endLine else startLine + 1
      invariant result == [first] + lines[startLine + 1..i]
    {
      result := result + [lines[i]];
      i := i + 1;
    }
    result := result + [Substring(lines[endLine], 0, range.end.character)];
    assert result == MultiLinePieces(lines, range);
    code := Join(result);
    PiecesNoNewline(source, range);
    SplitJoin(result);
  }

  /** No piece of a multi-line extraction holds a line break. */
  lemma PiecesNoNewline(source: string, range: Range)
    requires range.start.line < |Split(source)| && range.end.line < |Split(source)|
    ensures var ps := MultiLinePieces(Split(source), range);
            |ps| >= 2 && forall k :: 0 <= k < |ps| ==> NoNewline(ps[k])
  {
    var lines := Split(source);
    SplitShape(source);
    var sl, el := range.start.line, range.end.line;
    var x, y := Clamp(range.start.character, |lines[sl]|), |lines[sl]|;
    SliceNoNewline(lines[sl], x, y);
    var x', y' := 0, Clamp(range.end.character, |lines[el]|);
    SliceNoNewline(lines[el], x', y');
  }

  // ---------------------------------------------------------------------
  // formatSymbolType and formatLocation
  // ---------------------------------------------------------------------

  /** The symbol kinds with a display name (LSP SymbolKind, 0-based). */
  const KNOWN_KINDS: set<int> := {0, 1, 2, 3, 4, 5, 6, 7, 8, 9, 10, 11, 12, 13, 23}

  /** formatSymbolType */
  function FormatSymbolType(kind: int): (name: string)
    ensures name == "Unknown" <==> kind !in KNOWN_KINDS
  {
    if kind == 0 then "File"
    else if kind == 1 then "Module"
    else if kind == 2 then "Namespace"
    else if kind == 3 then "Package"
    else if kind == 4 then "Class"
    else if kind == 5 then "Method"
    else if kind == 6 then "Property"
    else if kind == 7 then "Field"
    else if kind == 8 then "Constructor"
    else if kind == 9 then "Enum"
    else if kind == 10 then "Interface"
    else if kind == 11 then "Function"
    else if kind == 12 then "Variable"
    else if kind == 13 then "Constant"
    else if kind == 23 then "Struct"
    else "Unknown"
  }

  /** The kind a display name stands for: the inverse of formatSymbolType on the known kinds. */
  function SymbolKindNamed(name: string): Option<int> {
    if name == "File" then Some(0)
    else if name == "Module" then Some(1)
    else if name == "Namespace" then Some(2)
    else if name == "Package" then Some(3)
    else if name == "Class" then Some(4)
    else if name == "Method" then Some(5)
    else if name == "Property" then Some(6)
    else if name == "Field" then Some(7)
    else if name == "Constructor" then Some(8)
    else if name == "Enum" then Some(9)
    else if name == "Interface" then Some(10)
    else if name == "Function" then Some(11)
    else if name == "Variable" then Some(12)
    else if name == "Constant" then Some(13)
    else if name == "Struct" then Some(23)
    else None
  }

  /** Each known kind has its own name, and 'Unknown' names no kind. */
  lemma SymbolTypeNamesDistinct(kind: int)
    ensures SymbolKindNamed(FormatSymbolType(kind)) == if kind in KNOWN_KINDS then Some(kind) else None
  {
  }

  /** formatLocation: the file path, ':', and the 1-based line. */
  function FormatLocation(filePath: string, range: Range): string {
    filePath + ":" + DecimalString(range.start.line + 1)
  }

  /** The location text splits back into the path and the 1-based line. */
  lemma LocationReadsBack(filePath: string, range: Range)
    ensures var s := FormatLocation(filePath, range);
            && s[..|filePath|] == filePath && s[|filePath|] == ':'
            && ParseDecimal(s[|filePath| + 1..]) == range.start.line + 1
  {
    var s := FormatLocation(filePath, range);
    assert s[|filePath| + 1..] == DecimalString(range.start.line + 1);
    DecimalRoundTrip(range.start.line + 1);
  }
}
