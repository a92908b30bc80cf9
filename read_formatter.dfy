/**
 * The text layouts of the outline tool's `read` command
 * (outln/src/formatters/read.ts): a detailed view built line by line and a
 * compact view that shortens long code to its first 20 lines.
 */
module ReadFormatter {
  import opened TextLines
  import opened OutlineUtils

  datatype ReadResult = ReadResult(symbol: DocumentSymbol, code: string, filePath: string)

  /** The rule drawn between sections: 80 box-drawing characters. */
  const RULE: string := Repeat('\U{2501}', 80)

  const MAX_LINES: nat := 20

  // ---------------------------------------------------------------------
  // formatReadCompact
  // ---------------------------------------------------------------------

  /** The first line of the compact view: type, name and location. */
  function CompactHeader(r: ReadResult): string {
    FormatSymbolType(r.symbol.kind) + " " + r.symbol.name + " (" + FormatLocation(r.filePath, r.symbol.range) + ")"
  }

  /** The note that replaces the lines beyond the first 20. */
  function MoreLinesNote(k: nat): string {
    "... (" + DecimalString(k) + " more lines)"
  }

  /** The code as the compact view shows it. */
  function DisplayCode(code: string): string {
    var lines := Split(code);
    if |lines| > MAX_LINES then Join(lines[..MAX_LINES]) + [NEWLINE] + MoreLinesNote(|lines| - MAX_LINES)
    else code
  }

  /** formatReadCompact */
  function FormatReadCompact(r: ReadResult): string {
    CompactHeader(r) + [NEWLINE] + DisplayCode(r.code)
  }

  /**
   * Code of at most 20 lines is shown as it is; longer code shows its first
   * 20 lines and then one note line counting the rest.
   */
  lemma {:induction false} DisplayCodeLines(code: string)
    ensures var lines := Split(code);
            && (|lines| <= MAX_LINES ==> DisplayCode(code) == code)
            && (|lines| > MAX_LINES ==>
                  Split(DisplayCode(code)) == lines[..MAX_LINES] + [MoreLinesNote(|lines| - MAX_LINES)])
  {
    var lines := Split(code);
    if |lines| > MAX_LINES {
      var kept := lines[..MAX_LINES];
      var note := MoreLinesNote(|lines| - MAX_LINES);
      JoinAppend(kept, [note]);
      SplitShape(code);
      NoteHasNoNewline(|lines| - MAX_LINES);
      var parts := kept + [note];
      assert forall k :: 0 <= k < |parts| ==> NoNewline(parts[k]) by {
        forall k | 0 <= k < |parts|
          ensures NoNewline(parts[k])
        {
          if k < MAX_LINES {
            assert parts[k] == lines[k];
          }
        }
      }
      SplitJoin(parts);
    }
  }

  lemma NoteHasNoNewline(k: nat)
    ensures NoNewline(MoreLinesNote(k))
  {
    var d := DecimalString(k);
    var s := MoreLinesNote(k);
    assert forall i :: 5 <= i < 5 + |d| ==> s[i] == d[i - 5];
  }

  /**
   * The compact view is the header line followed by the displayed code, so
   * for code of more than 20 lines it has exactly 22 lines.
   */
  lemma CompactLayout(r: ReadResult)
    requires NoNewline(CompactHeader(r))
    ensures Split(FormatReadCompact(r)) == [CompactHeader(r)] + Split(DisplayCode(r.code))
    ensures |Split(r.code)| > MAX_LINES ==> |Split(FormatReadCompact(r))| == MAX_LINES + 2
  {
    SplitAfterLine(CompactHeader(r), DisplayCode(r.code));
    DisplayCodeLines(r.code);
  }

  // ---------------------------------------------------------------------
  // formatReadDetail
  // ---------------------------------------------------------------------

  function ChildLine(c: DocumentSymbol): string {
    "  " + FormatSymbolType(c.kind) + ": " + c.name + " (line " + DecimalString(c.range.start.line + 1) + ")"
  }

  function ChildLines(children: seq<DocumentSymbol>): (ls: seq<string>)
    ensures |ls| == |children| && forall i :: 0 <= i < |children| ==> ls[i] == ChildLine(children[i])
  {
    seq(|children|, i requires 0 <= i < |children| => ChildLine(children[i]))
  }

  function SignatureLines(s: DocumentSymbol): seq<string> {
    if s.detail != "" then ["Signature: " + s.detail] else []
  }

  function ChildrenSection(children: seq<DocumentSymbol>): seq<string> {
    if |children| > 0 then ["", "Children (" + DecimalString(|children|) + "):", RULE] + ChildLines(children) + [RULE]
    else []
  }

  function HeaderLines(r: ReadResult): seq<string> {
    var s := r.symbol;
    [RULE, "Symbol: " + s.name, "Type: " + FormatSymbolType(s.kind), "Location: " + FormatLocation(r.filePath, s.range)]
  }

  function CodeSection(code: string): seq<string> {
    [RULE, "", "Code:", RULE, code, RULE]
  }

  /** The lines formatReadDetail joins, section by section. */
  function DetailLines(r: ReadResult): seq<string> {
    HeaderLines(r) + SignatureLines(r.symbol) + CodeSection(r.code) + ChildrenSection(r.symbol.children)
  }

  /** formatReadDetail: pushes the lines section by section, then joins them. */
  method FormatReadDetail(r: ReadResult) returns (text: string)
    ensures text == Join(DetailLines(r))
  {
    var output := PushHeader(r);
    output := PushCodeSection(output, r.code);
    output := PushChildrenSection(output, r.symbol.children);
    text := Join(output);
  }

  /** The rule, name, type and location lines, then the signature when the symbol has a detail. */
  method PushHeader(r: ReadResult) returns (out: seq<string>)
    ensures out == HeaderLines(r) + SignatureLines(r.symbol)
  {
    var s := r.symbol;
    out := [];
    out := out + [RULE];
    out := out + ["Symbol: " + s.name];
    out := out + ["Type: " + FormatSymbolType(s.kind)];
    out := out + ["Location: " + FormatLocation(r.filePath, s.range)];
    if s.detail != "" {
      out := out + ["Signature: " + s.detail];
    }
  }

  /** The code between rules, under its heading. */
  method PushCodeSection(output: seq<string>, code: string) returns (out: seq<string>)
    ensures out == output + CodeSection(code)
  {
    out := output;
    out := out + [RULE];
    out := out + [""];
    out := out + ["Code:"];
    out := out + [RULE];
    out := out + [code];
    out := out + [RULE];
  }

  /** The children heading, one line per child and a closing rule; nothing when there are none. */
  method PushChildrenSection(output: seq<string>, children: seq<DocumentSymbol>) returns (out: seq<string>)
    ensures out == output + ChildrenSection(children)
  {
    out := output;
    if |children| > 0 {
      out := out + [""];
      out := out + ["Children (" + DecimalString(|children|) + "):"];
      out := out + [RULE];
      out := PushChildLines(out, children);
      out := out + [RULE];
    }
  }

  /** The loop over the children: one line per child, in order. */
  method PushChildLines(output: seq<string>, children: seq<DocumentSymbol>) returns (out: seq<string>)
    ensures out == output + ChildLines(children)
  {
    out := output;
    var i := 0;
    while i < |children|
      invariant 0 <= i <= |children|
      invariant |out| == |output| + i && out[..|output|] == output
      invariant forall k :: 0 <= k < i ==> out[|output| + k] == ChildLine(children[k])
    {
      var child := children[i];
      out := out + [ChildLine(child)];
      i := i + 1;
    }
  }

  /**
   * The detail view has a Signature line, right after the location, iff the
   * symbol has a detail; the code follows its own rule.
   */
  lemma DetailSignatureIff(r: ReadResult)
    ensures var ls := DetailLines(r);
            var sig := if r.symbol.detail != "" then 1 else 0;
            && |ls| == 10 + sig + |ChildrenSection(r.symbol.children)|
            && ls[0] == RULE
            && (ls[4] == "Signature: " + r.symbol.detail <==> r.symbol.detail != "")
            && ls[4 + sig] == RULE && ls[7 + sig] == RULE && ls[8 + sig] == r.code && ls[9 + sig] == RULE
  {
    var ls := DetailLines(r);
    if r.symbol.detail == "" {
      assert ls[4] == RULE;
      assert RULE[0] != ("Signature: " + r.symbol.detail)[0];
    }
  }

  /**
   * The detail view ends with a children section iff the symbol has
   * children: a blank line, the count, a rule, one line per child in order,
   * and a closing rule.
   */
  lemma DetailChildrenSection(r: ReadResult)
    ensures var ls := DetailLines(r);
            var cs := r.symbol.children;
            var n := |ls|;
            && (|cs| == 0 ==> ls[n - 1] == RULE && ls[n - 2] == r.code)
            && (|cs| > 0 ==>
                  && ls[n - |cs| - 4] == "" && ls[n - |cs| - 3] == "Children (" + DecimalString(|cs|) + "):"
                  && ls[n - |cs| - 2] == RULE && ls[n - 1] == RULE
                  && forall i :: 0 <= i < |cs| ==> ls[n - |cs| - 1 + i] == ChildLine(cs[i]))
  {
  }

  /** The detail text starts with the rule. */
  lemma {:induction false} DetailStartsWithRule(r: ReadResult)
    ensures |Join(DetailLines(r))| >= 80 && Join(DetailLines(r))[..80] == RULE
  {
    var ls := DetailLines(r);
    assert ls == [RULE] + ls[1..];
    JoinAppend([RULE], ls[1..]);
  }
}
