/**
 * The minimal text model of the outline tool (outln/src/core/text-model.ts).
 *
 * Its uri, content and language are fixed at construction and its version is
 * always 1, so the model is a value: nothing can change it after it is made.
 */
module TextModels {
  import opened TextLines

  datatype TextModel = TextModel(uri: string, content: string, languageId: string) {

    /** getVersionId: the version never moves from 1. */
    function GetVersionId(): (v: int)
      ensures v == 1
    {
      1
    }

    /** getLineCount: one more than the number of line breaks, so never 0. */
    function GetLineCount(): (n: int)
      ensures n == CountNewlines(content) + 1
      ensures n >= 1
    {
      SplitShape(content);
      |Split(content)|
    }

    /** getLine: the piece between line breaks at that position, '' outside the text. */
    function GetLine(lineNumber: int): (line: string)
      ensures NoNewline(line)
      ensures !(0 <= lineNumber < GetLineCount()) ==> line == ""
    {
      SplitShape(content);
      var lines := Split(content);
      if 0 <= lineNumber < |lines| then lines[lineNumber] else ""
    }
  }

  /** The lines the model hands out, joined with line breaks, are its content. */
  lemma LinesRebuildContent(m: TextModel)
    ensures Join(seq(m.GetLineCount(), i requires 0 <= i < m.GetLineCount() => m.GetLine(i))) == m.content
  {
    var lines := Split(m.content);
    assert seq(m.GetLineCount(), i requires 0 <= i < m.GetLineCount() => m.GetLine(i)) == lines;
    JoinSplit(m.content);
  }
}
