/** The two line editors: the repository tool's `applyLineEdit` and the sandbox
    tool's `sandboxEdit`. Lines are 1-based; an end line below the start line asks
    for an insertion before the start line. */
module LineEdit {
  import opened Text
  import opened Wrappers

  const NL := '\n'

  datatype EditError = StartBelowOne | StartOutOfRange | EndOutOfRange

  /** `Panics` stands for a slice expression out of range. */
  datatype EditResult =
    | Edited(text: string)
    | Refused(why: EditError)
    | Panics

  /** The lines of a text without its final newline; an empty body has no line. */
  function BodyLines(text: string): seq<string> {
    var body := TrimSuffixChar(text, NL);
    if body == "" then [] else Split(body, NL)
  }

  function ContentLines(content: string): seq<string> {
    if content == "" then [] else Split(content, NL)
  }

  function Finish(lines: seq<string>, endsNewline: bool): string {
    Join(lines, NL) + (if endsNewline then [NL] else "")
  }

  /** `lines[:cut]`, then the added lines, then `lines[resume:]`; nothing where one of the
      two slices is out of range. */
  function Splice(lines: seq<string>, cut: int, added: seq<string>, resume: int): Option<seq<string>> {
    if 0 <= cut <= |lines| && 0 <= resume <= |lines| then Some(lines[..cut] + added + lines[resume..]) else None
  }

  function Written(spliced: Option<seq<string>>, endsNewline: bool): EditResult {
    if spliced.Some? then Edited(Finish(spliced.value, endsNewline)) else Panics
  }

  function ApplyLineEdit(current: string, startLine: int, endLine: int, content: string): EditResult {
    var endsNewline := HasSuffixChar(current, NL);
    var lines := BodyLines(current);
    var total := |lines|;
    if startLine <= 0 then Refused(StartBelowOne)
    else if startLine > total + 1 then Refused(StartOutOfRange)
    else if endLine < startLine then
      var insertAt := AtMost(startLine - 1, total);
      Written(Splice(lines, insertAt, ContentLines(content), insertAt), endsNewline)
    else if endLine > total + 1 then Refused(EndOutOfRange)
    else Written(Splice(lines, startLine - 1, ContentLines(content), endLine), endsNewline)
  }

  function AtMost(i: int, bound: int): int {
    if i > bound then bound else i
  }

  /** What the sandbox editor writes back, for the text it read. */
  function SandboxEdit(current: string, startLine: int, endLine: int, content: string): EditResult {
    var lines := Split(current, NL);
    var sIdx := AtMost(startLine - 1, |lines|);
    var eIdx := if endLine < startLine then sIdx else AtMost(endLine, |lines|);
    Written(Splice(lines, sIdx, ContentLines(content), eIdx), false)
  }

  /** `applyLineEdit` lets an end line one past the last line through its range
      check and then slices past the end: it panics exactly there. */
  lemma ApplyPanicsExactlyPastTheEnd(current: string, startLine: int, endLine: int, content: string)
    ensures ApplyLineEdit(current, startLine, endLine, content).Panics?
       <==> 1 <= startLine <= endLine == |BodyLines(current)| + 1
  {
    hide Split;
  }

  /** The sandbox editor checks nothing: it panics exactly below the first line, where a
      request without a start line is. */
  lemma SandboxPanicsExactlyBelowOne(current: string, startLine: int, endLine: int, content: string)
    ensures SandboxEdit(current, startLine, endLine, content).Panics? <==> startLine <= 0
  {
    hide Split;
  }

  /** Which requests are refused and why, and which are carried out: those that start at a
      line or right after the last one, and end at a line at most. */
  lemma ApplyAnswersExactly(current: string, startLine: int, endLine: int, content: string)
    ensures var r, n := ApplyLineEdit(current, startLine, endLine, content), |BodyLines(current)|;
      && (r == Refused(StartBelowOne) <==> startLine < 1)
      && (r == Refused(StartOutOfRange) <==> startLine > n + 1)
      && (r == Refused(EndOutOfRange) <==> 1 <= startLine <= n + 1 < endLine)
      && (r.Edited? <==> 1 <= startLine <= n + 1 && endLine <= n)
  {
    hide Split;
  }

  /** No content is no line; any other content is the lines that join to it. */
  lemma ContentIsItsLines(content: string)
    ensures content == "" ==> ContentLines(content) == []
    ensures content != "" ==> ContentLines(content) != []
    ensures Join(ContentLines(content), NL) == content && AllFree(ContentLines(content), NL)
  {
    hide Split, Join;
    SplitParts(content, NL);
    JoinEmpty([], NL);
    if content != "" { JoinSplit(content, NL); }
  }

  /** The sandbox editor past the last line of its split: a start there appends the
      content on lines of its own, whatever the end; an end there replaces everything
      from the start line on. */
  lemma SandboxClampsToTheEnd(current: string, startLine: int, endLine: int, content: string)
    requires startLine >= 1
    ensures var r, lines := SandboxEdit(current, startLine, endLine, content), Split(current, NL);
      && (startLine > |lines| ==> r == Edited(if content == "" then current else current + [NL] + content))
      && (startLine <= |lines| <= endLine ==>
            r == Edited(Join(lines[..startLine - 1] + ContentLines(content), NL)))
      && (startLine <= endLine < |lines| ==>
            r == Edited(Join(lines[..startLine - 1] + ContentLines(content) + lines[endLine..], NL)))
      && (endLine < startLine <= |lines| ==>
            r == Edited(Join(lines[..startLine - 1] + ContentLines(content) + lines[startLine - 1..], NL)))
  {
    hide Split, Join, ContentLines;
    var lines, added := Split(current, NL), ContentLines(content);
    ContentIsItsLines(content);
    JoinSplit(current, NL);
    if startLine > |lines| {
      assert lines[..|lines|] + added + lines[|lines|..] == lines + added;
      if content == "" {
        assert added == [] && lines + added == lines;
      } else {
        JoinConcat(lines, added, NL);
      }
    } else if endLine >= |lines| {
      assert lines[..startLine - 1] + added + lines[|lines|..] == lines[..startLine - 1] + added;
    }
  }

  /** The raw split of a text against its body lines. */
  lemma RawLines(text: string)
    ensures BodyLines(text) != [] ==>
      Split(text, NL) == BodyLines(text) + (if HasSuffixChar(text, NL) then [""] else [])
    ensures BodyLines(text) == [] ==> text == "" || text == [NL]
    ensures AllFree(BodyLines(text), NL)
  {
    hide Split, Join;
    var body := TrimSuffixChar(text, NL);
    SplitParts(body, NL);
    if HasSuffixChar(text, NL) && body != "" {
      var parts := Split(body, NL);
      JoinSplit(body, NL);
      JoinTerminated(parts, NL);
      assert text == body + [NL];
      SplitJoin(parts + [""], NL);
    }
  }

  /** The lines an in-range edit leaves, before joining. */
  function EditedLines(lines: seq<string>, startLine: int, endLine: int, content: string): seq<string>
    requires 1 <= startLine <= |lines| + 1 && endLine <= |lines|
  {
    var from := startLine - 1;
    var to := if endLine < startLine then from else endLine;
    lines[..from] + ContentLines(content) + lines[to..]
  }

  /** Lines that a text can hold: a terminated text cannot hold one empty line alone, and
      one that is not terminated cannot end in an empty line. */
  predicate ReadsBack(endsNewline: bool, lines: seq<string>) {
    if endsNewline then lines != [""] else lines == [] || lines[|lines| - 1] != ""
  }

  /** A joined text ends in the separator when its last part is empty and not its only one. */
  lemma JoinEndsIn(lines: seq<string>)
    requires AllFree(lines, NL)
    ensures HasSuffixChar(Join(lines, NL), NL) <==> |lines| >= 2 && lines[|lines| - 1] == ""
  {
    if |lines| >= 2 {
      JoinLast(lines);
    }
  }

  lemma JoinLast(lines: seq<string>)
    requires |lines| >= 2
    ensures var n := |lines| - 1; Join(lines, NL) == Join(lines[..n], NL) + [NL] + lines[n]
  {
    hide Join;
    var n := |lines| - 1;
    JoinConcat(lines[..n], [lines[n]], NL);
    JoinCons(lines[n], [], NL);
    assert lines == lines[..n] + [lines[n]];
  }

  lemma TerminatedReadsBack(lines: seq<string>)
    requires AllFree(lines, NL)
    ensures BodyLines(Join(lines, NL) + [NL]) == if lines == [""] then [] else lines
  {
    hide Join, Split;
    JoinEmpty(lines, NL);
    assert TrimSuffixChar(Join(lines, NL) + [NL], NL) == Join(lines, NL);
    if lines != [] { SplitJoin(lines, NL); }
  }

  lemma UnterminatedReadsBack(lines: seq<string>)
    requires AllFree(lines, NL)
    ensures BodyLines(Join(lines, NL)) == lines <==> lines == [] || lines[|lines| - 1] != ""
  {
    hide Join, BodyLines;
    JoinEmpty(lines, NL);
    JoinEndsIn(lines);
    EmptyTextReadsBack();
    if |lines| >= 2 && lines[|lines| - 1] == "" {
      var init := lines[..|lines| - 1];
      JoinLast(lines);
      assert Join(lines, NL) == Join(init, NL) + [NL];
      TerminatedReadsBack(init);
    } else if lines != [] && lines != [""] {
      assert |lines| == 1 ==> lines == [lines[0]];
      SplitJoin(lines, NL);
      UnendedText(Join(lines, NL));
    }
  }

  lemma EmptyTextReadsBack()
    ensures BodyLines("") == []
  {
  }

  lemma UnendedText(text: string)
    requires text != "" && !HasSuffixChar(text, NL)
    ensures BodyLines(text) == Split(text, NL)
  {
    hide Split;
  }

  /** Exactly those lines are what reading a finished text gives back. */
  lemma FinishedReadsBack(lines: seq<string>, endsNewline: bool)
    requires AllFree(lines, NL)
    ensures BodyLines(Finish(lines, endsNewline)) == lines <==> ReadsBack(endsNewline, lines)
    ensures HasSuffixChar(Finish(lines, endsNewline), NL) <==>
      endsNewline || (|lines| >= 2 && lines[|lines| - 1] == "")
  {
    hide Join, BodyLines;
    JoinEndsIn(lines);
    TerminatedReadsBack(lines);
    UnterminatedReadsBack(lines);
    assert Join(lines, NL) + "" == Join(lines, NL);
  }

  lemma EditedLinesAreFree(current: string, startLine: int, endLine: int, content: string)
    requires 1 <= startLine <= |BodyLines(current)| + 1 && endLine <= |BodyLines(current)|
    ensures AllFree(EditedLines(BodyLines(current), startLine, endLine, content), NL)
  {
    hide Join, Split, BodyLines;
    RawLines(current);
    SplitParts(content, NL);
  }

  /** Reading the result of an in-range edit back gives the old lines with exactly the
      range replaced by the content, and the same final newline, exactly when a text of
      that kind can hold those lines. */
  lemma EditReplacesExactlyTheRange(current: string, startLine: int, endLine: int, content: string)
    requires 1 <= startLine <= |BodyLines(current)| + 1 && endLine <= |BodyLines(current)|
    ensures ApplyLineEdit(current, startLine, endLine, content).Edited?
    ensures var text := ApplyLineEdit(current, startLine, endLine, content).text;
      var edited := EditedLines(BodyLines(current), startLine, endLine, content);
      var ends := HasSuffixChar(current, NL);
      && (BodyLines(text) == edited <==> ReadsBack(ends, edited))
      && (BodyLines(text) == edited ==> HasSuffixChar(text, NL) == ends)
  {
    hide Join, Split, BodyLines;
    EditedLinesAreFree(current, startLine, endLine, content);
    FinishedReadsBack(EditedLines(BodyLines(current), startLine, endLine, content), HasSuffixChar(current, NL));
  }

  /** The two editors write the same text for every in-range request, except when
      content is put into a text without lines and when a newline-terminated text
      loses its every line. */
  lemma EditorsAgree(current: string, startLine: int, endLine: int, content: string)
    requires 1 <= startLine <= |BodyLines(current)| + 1 && endLine <= |BodyLines(current)|
    ensures ApplyLineEdit(current, startLine, endLine, content)
         == SandboxEdit(current, startLine, endLine, content)
      <==> if BodyLines(current) == [] then content == ""
           else !(HasSuffixChar(current, NL) && content == "" && startLine == 1 && endLine == |BodyLines(current)|)
  {
    hide Split, Join, BodyLines;
    var lines := BodyLines(current);
    var edited := EditedLines(lines, startLine, endLine, content);
    RawLines(current);
    JoinEmpty([""], NL);
    JoinEmpty([], NL);
    if lines == [] {
      EditorsOnNoLines(current, startLine, endLine, content);
    } else if HasSuffixChar(current, NL) {
      var raw := Split(current, NL);
      var from := startLine - 1;
      var to := if endLine < startLine then from else endLine;
      assert raw[..from] + ContentLines(content) + raw[to..] == edited + [""];
      if edited == [] {
        assert edited + [""] == [""];
      } else {
        JoinTerminated(edited, NL);
      }
    } else {
      assert Split(current, NL) == lines;
      assert Finish(edited, false) == Join(edited, NL);
      assert ApplyLineEdit(current, startLine, endLine, content) == Edited(Join(edited, NL));
      assert SandboxEdit(current, startLine, endLine, content) == Edited(Join(edited, NL));
    }
  }

  lemma EditorsOnNoLines(current: string, startLine: int, endLine: int, content: string)
    requires BodyLines(current) == [] && startLine == 1 && endLine <= 0
    ensures ApplyLineEdit(current, startLine, endLine, content)
         == SandboxEdit(current, startLine, endLine, content)
       <==> content == ""
  {
    hide Split, Join;
    RawLines(current);
    var raw := Split(current, NL);
    var added := ContentLines(content);
    assert [] + added + [] == added;
    assert [] + added + raw == added + raw;
    JoinSplit(current, NL);
    JoinEmpty([], NL);
    if content == "" {
      assert added + raw == raw;
    } else {
      JoinSplit(content, NL);
      JoinConcat(added, raw, NL);
      assert ApplyLineEdit(current, startLine, endLine, content)
        == Edited(content + (if HasSuffixChar(current, NL) then [NL] else ""));
      assert SandboxEdit(current, startLine, endLine, content) == Edited(content + [NL] + current);
    }
  }

  /** Two different line lists do not join to the same text, the lists `[]` and
      `[""]` excepted. */
  lemma JoinInjective(a: seq<string>, b: seq<string>)
    requires AllFree(a, NL) && AllFree(b, NL)
    requires b !in {[], [""]}
    requires Join(a, NL) == Join(b, NL)
    ensures a == b
  {
    JoinEmpty(a, NL);
    JoinEmpty(b, NL);
    SplitJoin(a, NL);
    SplitJoin(b, NL);
  }

  /** Replace lines `startLine..endLine` by `content`, then replace what was put
      there by the old block. */
  function EditAndUndo(current: string, startLine: int, endLine: int, content: string): EditResult
    requires 1 <= startLine <= endLine <= |BodyLines(current)|
  {
    var block := Join(BodyLines(current)[startLine - 1..endLine], NL);
    var once := ApplyLineEdit(current, startLine, endLine, content);
    if once.Edited? then
      ApplyLineEdit(once.text, startLine, startLine - 1 + |ContentLines(content)|, block)
    else once
  }

  /** Undoing an edit gives the text back byte for byte, unless the replaced block is one
      blank line (its text is empty, so putting it back inserts nothing) or the edited
      lines do not read back. */
  lemma EditCanBeUndone(current: string, startLine: int, endLine: int, content: string)
    requires 1 <= startLine <= endLine <= |BodyLines(current)|
    ensures EditAndUndo(current, startLine, endLine, content) == Edited(current)
      <==> (BodyLines(current)[startLine - 1..endLine] != [""]
            && ReadsBack(HasSuffixChar(current, NL), EditedLines(BodyLines(current), startLine, endLine, content)))
  {
    hide EditAndUndo, BodyLines;
    if ReadsBack(HasSuffixChar(current, NL), EditedLines(BodyLines(current), startLine, endLine, content)) {
      UndoOfReadable(current, startLine, endLine, content);
    } else {
      UndoOfUnreadable(current, startLine, endLine, content);
    }
  }

  /** A text is its lines, joined and finished as it was. */
  lemma TextOfLines(text: string)
    requires BodyLines(text) != []
    ensures text == Finish(BodyLines(text), HasSuffixChar(text, NL))
    ensures BodyLines(text) != [""] && ReadsBack(HasSuffixChar(text, NL), BodyLines(text))
  {
    hide Join, Split;
    RawLines(text);
    JoinSplit(TrimSuffixChar(text, NL), NL);
    FinishedReadsBack(BodyLines(text), HasSuffixChar(text, NL));
  }

  /** The block's text splits back into the block, a single blank line excepted. */
  lemma BlockReadsBack(lines: seq<string>, startLine: int, endLine: int)
    requires AllFree(lines, NL) && 1 <= startLine <= endLine <= |lines|
    ensures var block := lines[startLine - 1..endLine];
      ContentLines(Join(block, NL)) == if block == [""] then [] else block
  {
    var block := lines[startLine - 1..endLine];
    JoinEmpty(block, NL);
    SplitJoin(block, NL);
  }

  /** The second edit puts the old block's text where the first one put the content. */
  lemma SecondEdit(current: string, startLine: int, endLine: int, content: string)
    requires 1 <= startLine <= endLine <= |BodyLines(current)|
    requires ReadsBack(HasSuffixChar(current, NL), EditedLines(BodyLines(current), startLine, endLine, content))
    ensures var lines := BodyLines(current);
      var putBack := ContentLines(Join(lines[startLine - 1..endLine], NL));
      EditAndUndo(current, startLine, endLine, content)
        == Edited(Finish(lines[..startLine - 1] + putBack + lines[endLine..], HasSuffixChar(current, NL)))
  {
    hide Join, Split, BodyLines;
    var lines := BodyLines(current);
    var edited := EditedLines(lines, startLine, endLine, content);
    EditReplacesExactlyTheRange(current, startLine, endLine, content);
    var last := startLine - 1 + |ContentLines(content)|;
    assert edited[..startLine - 1] == lines[..startLine - 1];
    assert edited[last..] == lines[endLine..];
  }

  lemma UndoOfReadable(current: string, startLine: int, endLine: int, content: string)
    requires 1 <= startLine <= endLine <= |BodyLines(current)|
    requires ReadsBack(HasSuffixChar(current, NL), EditedLines(BodyLines(current), startLine, endLine, content))
    ensures EditAndUndo(current, startLine, endLine, content) == Edited(current)
      <==> BodyLines(current)[startLine - 1..endLine] != [""]
  {
    hide EditAndUndo, BodyLines, Join, Split, ReadsBack, EditedLines, Finish, ContentLines;
    var lines := BodyLines(current);
    var block := lines[startLine - 1..endLine];
    var putBack := ContentLines(Join(block, NL));
    RawLines(current);
    TextOfLines(current);
    BlockReadsBack(lines, startLine, endLine);
    SecondEdit(current, startLine, endLine, content);
    assert lines[..startLine - 1] + block + lines[endLine..] == lines;
    var restored := lines[..startLine - 1] + putBack + lines[endLine..];
    if block == [""] {
      assert |restored| < |lines|;
      ShorterTextDiffers(restored, lines);
    }
  }

  lemma ShorterTextDiffers(a: seq<string>, b: seq<string>)
    requires AllFree(a, NL) && AllFree(b, NL)
    requires b !in {[], [""]} && |a| < |b|
    ensures Finish(a, true) != Finish(b, true) && Finish(a, false) != Finish(b, false)
  {
    hide Join;
    if Join(a, NL) == Join(b, NL) {
      JoinInjective(a, b);
    }
    assert (Join(a, NL) + [NL])[..|Join(a, NL)|] == Join(a, NL);
    assert (Join(b, NL) + [NL])[..|Join(b, NL)|] == Join(b, NL);
    assert Join(a, NL) + "" == Join(a, NL) && Join(b, NL) + "" == Join(b, NL);
  }

  /** What does not read back has lost a line, or has gained a final newline. */
  lemma UndoOfUnreadable(current: string, startLine: int, endLine: int, content: string)
    requires 1 <= startLine <= endLine <= |BodyLines(current)|
    requires !ReadsBack(HasSuffixChar(current, NL), EditedLines(BodyLines(current), startLine, endLine, content))
    ensures EditAndUndo(current, startLine, endLine, content) != Edited(current)
  {
    hide BodyLines, Join, Split;
    var edited := EditedLines(BodyLines(current), startLine, endLine, content);
    EditedLinesAreFree(current, startLine, endLine, content);
    if edited == [""] {
      UndoOfOneBlankLine(current, startLine, endLine, content);
    } else {
      FinishedReadsBack(edited, false);
      EditKeepsFinalNewline(Finish(edited, false), startLine, startLine - 1 + |ContentLines(content)|,
        Join(BodyLines(current)[startLine - 1..endLine], NL));
    }
  }

  lemma EditKeepsFinalNewline(text: string, startLine: int, endLine: int, content: string)
    requires HasSuffixChar(text, NL)
    ensures var r := ApplyLineEdit(text, startLine, endLine, content); r.Edited? ==> HasSuffixChar(r.text, NL)
  {
  }

  /** One blank line alone reads back as no line at all: putting the block back either
      finds no place or leaves the blank line out. */
  lemma UndoOfOneBlankLine(current: string, startLine: int, endLine: int, content: string)
    requires 1 <= startLine <= endLine <= |BodyLines(current)|
    requires EditedLines(BodyLines(current), startLine, endLine, content) == [""]
    ensures EditAndUndo(current, startLine, endLine, content) != Edited(current)
  {
    hide *;
    var lines, ends := BodyLines(current), HasSuffixChar(current, NL);
    var block := Join(lines[startLine - 1..endLine], NL);
    var putBack := ContentLines(block);
    RawLines(current);
    TextOfLines(current);
    BlockReadsBack(lines, startLine, endLine);
    OneBlankLineLeft(lines, startLine, endLine, content);
    PutBackIsFree(block);
    NoLinesIn(ends);
    EditResultOf(current, startLine, endLine, content);
    UndoOf(current, startLine, endLine, content);
    EditOfNoLines(Finish([""], ends), startLine, block);
    ShorterTextDiffers(putBack, lines);
  }

  lemma PutBackIsFree(block: string)
    ensures AllFree(ContentLines(block), NL)
  {
    hide Split;
    SplitParts(block, NL);
  }

  lemma OneBlankLineLeft(lines: seq<string>, startLine: int, endLine: int, content: string)
    requires 1 <= startLine <= endLine <= |lines| && EditedLines(lines, startLine, endLine, content) == [""]
    ensures |lines| == endLine - startLine + 2 && ContentLines(content) == []
  {
    hide ContentLines;
    BlankContentIsEmpty(content);
  }

  lemma UndoOf(current: string, startLine: int, endLine: int, content: string)
    requires 1 <= startLine <= endLine <= |BodyLines(current)|
    requires ApplyLineEdit(current, startLine, endLine, content).Edited?
    ensures EditAndUndo(current, startLine, endLine, content)
      == ApplyLineEdit(ApplyLineEdit(current, startLine, endLine, content).text, startLine,
           startLine - 1 + |ContentLines(content)|, Join(BodyLines(current)[startLine - 1..endLine], NL))
  {
    hide BodyLines, ApplyLineEdit, Join, ContentLines;
  }

  lemma EditResultOf(current: string, startLine: int, endLine: int, content: string)
    requires 1 <= startLine <= endLine <= |BodyLines(current)|
    ensures ApplyLineEdit(current, startLine, endLine, content)
      == Edited(Finish(EditedLines(BodyLines(current), startLine, endLine, content), HasSuffixChar(current, NL)))
  {
    hide BodyLines, Split, Join, ContentLines;
  }

  /** Inserting into a text without lines. */
  lemma EditOfNoLines(text: string, startLine: int, content: string)
    requires BodyLines(text) == [] && startLine >= 1
    ensures ApplyLineEdit(text, startLine, startLine - 1, content)
      == if startLine == 1 then Edited(Finish(ContentLines(content), HasSuffixChar(text, NL)))
         else Refused(StartOutOfRange)
  {
    hide BodyLines, Split, Join, ContentLines;
    var added := ContentLines(content);
    var none: seq<string> := [];
    assert none[..0] + added + none[0..] == added;
  }

  lemma BlankContentIsEmpty(content: string)
    ensures ContentLines(content) != [""] && (ContentLines(content) == [] ==> content == "")
  {
    hide Split;
    if content != "" { JoinSplit(content, NL); }
  }

  lemma NoLinesIn(ends: bool)
    ensures BodyLines(Finish([""], ends)) == [] && HasSuffixChar(Finish([""], ends), NL) == ends
  {
  }
}
