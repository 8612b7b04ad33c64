/** How the prophecy text is cut into the displayed paragraphs. */
module Paragraphs {
  import opened Strings

  /** Two line breaks: the paragraph boundary. */
  const BlankLine := "\n\n"

  /** Removes one blank line at the very start of the text, if there is one; `^` anchors at position 0 only. */
  function StripLeadingBlank(text: string): (r: string)
    ensures |text| >= 2 && text[..2] == BlankLine ==> text == BlankLine + r
    ensures !(|text| >= 2 && text[..2] == BlankLine) ==> r == text
  {
    if |text| >= 2 && text[..2] == BlankLine then text[2..] else text
  }

  /** Only the first of several leading blank lines is removed. */
  lemma StripsAtMostOne(rest: string)
    ensures StripLeadingBlank(BlankLine + BlankLine + rest) == BlankLine + rest
  {
    assert (BlankLine + BlankLine + rest)[..2] == BlankLine;
    assert (BlankLine + BlankLine + rest)[2..] == BlankLine + rest;
  }

  /**
   * The displayed paragraphs of a non-empty prophecy: the text without its
   * leading blank line, cut at every blank line.
   */
  function SplitParagraphs(text: string): (pieces: seq<string>)
    ensures |pieces| >= 1
    ensures Join(pieces, BlankLine) == StripLeadingBlank(text)
    ensures forall k :: 0 <= k < |pieces| ==> !Contains(pieces[k], BlankLine)
    ensures |pieces| == 1 <==> !Contains(StripLeadingBlank(text), BlankLine)
    ensures !Contains(StripLeadingBlank(text), BlankLine) ==> pieces == [StripLeadingBlank(text)]
    ensures var body := StripLeadingBlank(text);
      |pieces| > 1 ==>
        && (forall i :: 0 <= i < |pieces[0]| ==> !OccursAt(body, BlankLine, i))
        && OccursAt(body, BlankLine, |pieces[0]|)
        && pieces[1..] == Split(body[|pieces[0]| + |BlankLine|..], BlankLine)
  {
    var body := StripLeadingBlank(text);
    JoinSplit(body, BlankLine);
    SplitPiecesAreClean(body, BlankLine);
    SplitIsSingleIff(body, BlankLine);
    SplitCutsLeftmost(body, BlankLine);
    Split(body, BlankLine)
  }

  /** What the prophecy box lists: nothing for an empty completion, otherwise its paragraphs. */
  function RenderedParagraphs(completion: string): (items: seq<string>)
    ensures |items| == 0 <==> |completion| == 0
    ensures |completion| > 0 ==> Join(items, BlankLine) == StripLeadingBlank(completion)
    ensures forall k :: 0 <= k < |items| ==> !Contains(items[k], BlankLine)
    ensures |completion| > 0 ==> items == SplitParagraphs(completion)
  {
    if |completion| > 0 then SplitParagraphs(completion) else []
  }

  /** A text with no blank line anywhere is shown as one paragraph, unchanged. */
  lemma SingleBlock(text: string)
    requires !Contains(text, BlankLine)
    ensures SplitParagraphs(text) == [text]
  {
    if |text| >= 2 && text[..2] == BlankLine {
      assert OccursAt(text, BlankLine, 0);
    }
  }

  lemma ThreeParagraphs()
    ensures SplitParagraphs("\n\nA\n\nB\n\nC") == ["A", "B", "C"]
  {
    var text := "\n\nA\n\nB\n\nC";
    var c := "C";
    var b := "B" + (BlankLine + c);
    var a := "A" + (BlankLine + b);
    assert text[..2] == BlankLine && text[2..] == a;
    assert a[0] == 'A' && a[0..2][0] == 'A';
    SplitGluesPrefix("A", BlankLine + b, BlankLine);
    SplitAfterSeparator(b, BlankLine);
    assert b[0] == 'B' && b[0..2][0] == 'B';
    SplitGluesPrefix("B", BlankLine + c, BlankLine);
    SplitAfterSeparator(c, BlankLine);
    assert Split(c, BlankLine) == [c];
    assert "B" + "" == "B" && "A" + "" == "A";
    assert Split(BlankLine + c, BlankLine) == ["", "C"];
    assert Split(b, BlankLine) == Prepend("B", ["", "C"]) == ["B", "C"];
    assert Split(BlankLine + b, BlankLine) == ["", "B", "C"];
    assert Split(a, BlankLine) == Prepend("A", ["", "B", "C"]) == ["A", "B", "C"];
  }

  lemma OneBlock()
    ensures SplitParagraphs("just one block") == ["just one block"]
  {
    var text := "just one block";
    forall i | 0 <= i <= |text| - |BlankLine| ensures !OccursAt(text, BlankLine, i) {
      assert text[i] != '\n';
      assert text[i..i + |BlankLine|][0] == text[i];
    }
    SingleBlock(text);
  }
}
