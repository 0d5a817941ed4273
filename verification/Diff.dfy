/** The patch the repository tools show after an edit: one hunk, found by trimming
    the common first and last lines, and an independent reader of that format. */
module Diff {
  import opened Text
  import opened Wrappers
  import Decimal
  import LineEdit

  const NL := '\n'
  const OLD_FILE := "--- a/file"
  const NEW_FILE := "+++ b/file"

  /** One hunk: `removed` stood after `start` untouched lines, `added` replaces it. */
  datatype Hunk = Hunk(start: nat, removed: seq<string>, added: seq<string>)

  // ----- the format and its reader -----

  function Range(start: nat, count: nat): string {
    Decimal.Digits(start) + "," + Decimal.Digits(count)
  }

  function Header(h: Hunk): string {
    "@@ -" + Range(h.start, |h.removed|) + " +" + Range(h.start, |h.added|) + " @@"
  }

  function Prefixed(mark: char, lines: seq<string>): (r: seq<string>)
    ensures |r| == |lines|
  {
    seq(|lines|, i requires 0 <= i < |lines| => [mark] + lines[i])
  }

  function RenderLines(h: Hunk): seq<string> {
    [OLD_FILE, NEW_FILE, Header(h)] + Prefixed('-', h.removed) + Prefixed('+', h.added)
  }

  function Render(h: Hunk): string {
    Join(RenderLines(h) + [""], NL)
  }

  function ReadRange(field: string, mark: char): Option<(nat, nat)> {
    if |field| == 0 || field[0] != mark then None
    else
      var numbers := Split(field[1..], ',');
      if |numbers| == 2 && Decimal.AllDigits(numbers[0]) && Decimal.AllDigits(numbers[1])
      then Some((Decimal.Value(numbers[0]), Decimal.Value(numbers[1])))
      else None
  }

  predicate Marked(lines: seq<string>, mark: char) {
    forall i :: 0 <= i < |lines| ==> |lines[i]| > 0 && lines[i][0] == mark
  }

  function Unmarked(lines: seq<string>): seq<string>
    requires forall i :: 0 <= i < |lines| ==> |lines[i]| > 0
  {
    seq(|lines|, i requires 0 <= i < |lines| => lines[i][1..])
  }

  /** The hunk a patch text describes; the header's counts say where the removed
      lines end and the added ones begin. */
  function ReadPatch(text: string): Option<Hunk> {
    var lines := Split(text, NL);
    if |lines| < 4 || lines[0] != OLD_FILE || lines[1] != NEW_FILE || lines[|lines| - 1] != "" then None
    else
      var fields := Split(lines[2], ' ');
      if |fields| != 4 || fields[0] != "@@" || fields[3] != "@@" then None
      else
        var before, after := ReadRange(fields[1], '-'), ReadRange(fields[2], '+');
        if before.None? || after.None? || before.value.0 != after.value.0 then None
        else ReadBody(before.value.0, before.value.1, after.value.1, lines[3..|lines| - 1])
  }

  function ReadBody(start: nat, removals: nat, additions: nat, body: seq<string>): Option<Hunk> {
    if |body| != removals + additions then None
    else if !Marked(body[..removals], '-') || !Marked(body[removals..], '+') then None
    else Some(Hunk(start, Unmarked(body[..removals]), Unmarked(body[removals..])))
  }

  function ApplyHunk(h: Hunk, lines: seq<string>): Option<seq<string>> {
    if h.start + |h.removed| <= |lines| && lines[h.start..h.start + |h.removed|] == h.removed
    then Some(lines[..h.start] + h.added + lines[h.start + |h.removed|..])
    else None
  }

  /** Nothing can be trimmed off the hunk any more. */
  predicate Tight(h: Hunk) {
    h.removed != [] && h.added != [] ==>
      h.removed[0] != h.added[0] && h.removed[|h.removed| - 1] != h.added[|h.added| - 1]
  }

  // ----- reading what was rendered -----

  lemma DigitsFree(n: nat, c: char)
    requires !Decimal.IsDigit(c)
    ensures Free(Decimal.Digits(n), c)
  {
  }

  lemma ReadRangeOfRange(start: nat, count: nat, mark: char)
    ensures ReadRange([mark] + Range(start, count), mark) == Some((start, count))
  {
    hide Join, Split, Decimal.Digits, Decimal.Value;
    var numbers := [Decimal.Digits(start), Decimal.Digits(count)];
    DigitsFree(start, ',');
    DigitsFree(count, ',');
    JoinCons(Decimal.Digits(count), [], ',');
    JoinCons(Decimal.Digits(start), [Decimal.Digits(count)], ',');
    assert numbers == [Decimal.Digits(start)] + [Decimal.Digits(count)];
    assert Join(numbers, ',') == Range(start, count);
    SplitJoin(numbers, ',');
    Decimal.ValueOfDigits(start);
    Decimal.ValueOfDigits(count);
    assert ([mark] + Range(start, count))[1..] == Range(start, count);
  }

  lemma RangeFree(start: nat, count: nat, c: char)
    requires !Decimal.IsDigit(c) && c != ','
    ensures Free(Range(start, count), c)
  {
    DigitsFree(start, c);
    DigitsFree(count, c);
  }

  lemma HeaderFields(h: Hunk)
    ensures Split(Header(h), ' ')
         == ["@@", "-" + Range(h.start, |h.removed|), "+" + Range(h.start, |h.added|), "@@"]
    ensures Free(Header(h), NL)
  {
    hide Join, Split, Range;
    var before, after := Range(h.start, |h.removed|), Range(h.start, |h.added|);
    var fields := ["@@", "-" + before, "+" + after, "@@"];
    RangeFree(h.start, |h.removed|, ' ');
    RangeFree(h.start, |h.added|, ' ');
    RangeFree(h.start, |h.removed|, NL);
    RangeFree(h.start, |h.added|, NL);
    JoinCons("@@", [], ' ');
    JoinCons("+" + after, ["@@"], ' ');
    JoinCons("-" + before, ["+" + after] + ["@@"], ' ');
    JoinCons("@@", ["-" + before] + (["+" + after] + ["@@"]), ' ');
    assert fields == ["@@"] + (["-" + before] + (["+" + after] + ["@@"]));
    assert Header(h) == "@@" + " " + ("-" + before + " " + ("+" + after + " " + "@@"));
    SplitJoin(fields, ' ');
  }

  lemma ReadOfRendered(h: Hunk)
    requires AllFree(h.removed, NL) && AllFree(h.added, NL)
    ensures ReadPatch(Render(h)) == Some(h)
  {
    hide Join, Split, Header, Range, ReadRange;
    var lines := RenderLines(h) + [""];
    HeaderFields(h);
    SplitJoin(lines, NL);
    ReadRangeOfRange(h.start, |h.removed|, '-');
    ReadRangeOfRange(h.start, |h.added|, '+');
    var minus, plus := Prefixed('-', h.removed), Prefixed('+', h.added);
    var body := lines[3..|lines| - 1];
    assert body == minus + plus;
    assert body[..|h.removed|] == minus && body[|h.removed|..] == plus;
    assert Unmarked(minus) == h.removed;
    assert Unmarked(plus) == h.added;
    assert ReadBody(h.start, |h.removed|, |h.added|, body) == Some(h);
  }

  // ----- the printer -----

  /** Writing one more line after a terminated text. */
  lemma AppendLine(lines: seq<string>, line: string)
    requires |lines| > 0
    ensures Join(lines + [""], NL) + line + [NL] == Join(lines + [line] + [""], NL)
  {
    JoinTerminated(lines, NL);
    JoinConcat(lines, [line], NL);
    JoinTerminated(lines + [line], NL);
  }

  method WriteMarked(sb: string, ghost written: seq<string>, mark: char, lines: seq<string>) returns (out: string)
    requires |written| > 0 && sb == Join(written + [""], NL)
    ensures out == Join(written + Prefixed(mark, lines) + [""], NL)
  {
    out := sb;
    assert written + Prefixed(mark, lines[..0]) == written;
    for m := 0 to |lines|
      invariant out == Join(written + Prefixed(mark, lines[..m]) + [""], NL)
    {
      AppendLine(written + Prefixed(mark, lines[..m]), [mark] + lines[m]);
      assert written + Prefixed(mark, lines[..m]) + [[mark] + lines[m]] == written + Prefixed(mark, lines[..m + 1]);
      out := out + ([mark] + lines[m] + [NL]);
    }
    assert lines[..|lines|] == lines;
  }

  /** How far two line lists agree from the front. */
  method CommonPrefix(a: seq<string>, b: seq<string>) returns (i: nat)
    ensures i <= |a| && i <= |b| && a[..i] == b[..i]
    ensures i < |a| && i < |b| ==> a[i] != b[i]
  {
    i := 0;
    while i < |a| && i < |b| && a[i] == b[i]
      invariant i <= |a| && i <= |b| && a[..i] == b[..i]
    {
      i := i + 1;
    }
  }

  /** How far they agree from the back, not reaching into the first `i` lines. */
  method CommonSuffix(a: seq<string>, b: seq<string>, i: nat) returns (j: nat)
    requires i <= |a| && i <= |b|
    ensures j <= |a| - i && j <= |b| - i && a[|a| - j..] == b[|b| - j..]
    ensures j < |a| - i && j < |b| - i ==> a[|a| - 1 - j] != b[|b| - 1 - j]
  {
    j := 0;
    while j < |a| - i && j < |b| - i && a[|a| - 1 - j] == b[|b| - 1 - j]
      invariant j <= |a| - i && j <= |b| - i && a[|a| - j..] == b[|b| - j..]
    {
      j := j + 1;
    }
  }

  method PrintHunk(i: nat, del: seq<string>, add: seq<string>) returns (sb: string)
    ensures sb == Render(Hunk(i, del, add))
  {
    ghost var h := Hunk(i, del, add);
    sb := OLD_FILE + [NL] + NEW_FILE + [NL];
    sb := sb + ("@@ -" + Decimal.Digits(i) + "," + Decimal.Digits(|del|) + " +"
                + Decimal.Digits(i) + "," + Decimal.Digits(|add|) + " @@" + [NL]);
    ghost var top := [OLD_FILE, NEW_FILE, Header(h)];
    assert sb == Join(top + [""], NL) by {
      TopOfPatch(h);
      assert Header(h) + [NL] == "@@ -" + Decimal.Digits(i) + "," + Decimal.Digits(|del|) + " +"
                + Decimal.Digits(i) + "," + Decimal.Digits(|add|) + " @@" + [NL];
    }
    sb := WriteMarked(sb, top, '-', del);
    sb := WriteMarked(sb, top + Prefixed('-', del), '+', add);
  }

  /** The lines the printer compares: a single empty line counts as none. */
  method LinesToCompare(text: string) returns (lines: seq<string>)
    ensures lines == LineEdit.BodyLines(text)
  {
    lines := Split(TrimSuffixChar(text, NL), NL);
    JoinSplit(TrimSuffixChar(text, NL), NL);
    if |lines| == 1 && lines[0] == "" {
      lines := [];
    }
  }

  /** What makes a printed hunk right for two line lists. */
  ghost predicate Describes(patch: string, oldLines: seq<string>, newLines: seq<string>) {
    var read := ReadPatch(patch);
    read.Some? && ApplyHunk(read.value, oldLines) == Some(newLines) && Tight(read.value)
  }

  /** The printed patch is empty exactly for equal texts; otherwise reading it back
      and applying it to the old lines gives the new lines, and its hunk is tight. */
  method DiffLines(oldText: string, newText: string) returns (patch: string)
    ensures patch == "" <==> oldText == newText
    ensures oldText != newText ==> Describes(patch, LineEdit.BodyLines(oldText), LineEdit.BodyLines(newText))
  {
    if oldText == newText {
      return "";
    }
    var oldLines := LinesToCompare(oldText);
    var newLines := LinesToCompare(newText);
    var i := CommonPrefix(oldLines, newLines);
    var j := CommonSuffix(oldLines, newLines, i);
    patch := PrintHunk(i, oldLines[i..|oldLines| - j], newLines[i..|newLines| - j]);
    LineEdit.RawLines(oldText);
    LineEdit.RawLines(newText);
    TrimmedHunkDescribes(oldLines, newLines, i, j);
  }

  lemma TopOfPatch(h: Hunk)
    ensures Join([OLD_FILE, NEW_FILE, Header(h)] + [""], NL)
         == OLD_FILE + [NL] + NEW_FILE + [NL] + (Header(h) + [NL])
  {
    AppendLine([OLD_FILE], NEW_FILE);
    JoinTerminated([OLD_FILE], NL);
    assert [OLD_FILE] + [NEW_FILE] == [OLD_FILE, NEW_FILE];
    AppendLine([OLD_FILE, NEW_FILE], Header(h));
    assert [OLD_FILE, NEW_FILE] + [Header(h)] == [OLD_FILE, NEW_FILE, Header(h)];
  }

  /** Lines as the format has them, each marked and ended. */
  ghost function Block(mark: string, lines: seq<string>): string {
    if lines == [] then "" else mark + lines[0] + "\n" + Block(mark, lines[1..])
  }

  lemma {:induction false} RenderedBlock(top: seq<string>, mark: char, lines: seq<string>)
    requires top != []
    ensures Join(top + Prefixed(mark, lines) + [""], NL) == Join(top + [""], NL) + Block([mark], lines)
    decreases lines
  {
    hide Join;
    if lines == [] {
      assert top + Prefixed(mark, lines) == top;
    } else {
      var first := [mark] + lines[0];
      RenderedBlock(top + [first], mark, lines[1..]);
      assert top + [first] + Prefixed(mark, lines[1..]) == top + Prefixed(mark, lines);
      AppendLine(top, first);
      assert Join(top + [""], NL) + first + [NL] + Block([mark], lines[1..])
        == Join(top + [""], NL) + (first + [NL] + Block([mark], lines[1..]));
    }
  }

  /** The patch, character by character: the two file lines, the header with the number of
      untouched lines on both sides, the removed lines, the added ones. */
  lemma PatchText(h: Hunk)
    ensures var start := Decimal.Digits(h.start);
      Render(h) == "--- a/file\n+++ b/file\n"
        + "@@ -" + start + "," + Decimal.Digits(|h.removed|) + " +" + start + "," + Decimal.Digits(|h.added|) + " @@\n"
        + Block("-", h.removed) + Block("+", h.added)
  {
    hide Join, Decimal.Digits, Block;
    var top := [OLD_FILE, NEW_FILE, Header(h)];
    TopOfPatch(h);
    RenderedBlock(top, '-', h.removed);
    RenderedBlock(top + Prefixed('-', h.removed), '+', h.added);
  }

  lemma HunkIsExact(a: seq<string>, b: seq<string>, i: nat, j: nat)
    requires i <= |a| && i <= |b| && j <= |a| - i && j <= |b| - i
    requires a[..i] == b[..i] && a[|a| - j..] == b[|b| - j..]
    ensures ApplyHunk(Hunk(i, a[i..|a| - j], b[i..|b| - j]), a) == Some(b)
  {
    assert b == b[..i] + b[i..|b| - j] + b[|b| - j..];
  }

  lemma TrimmedHunkIsTight(a: seq<string>, b: seq<string>, i: nat, j: nat)
    requires i <= |a| && i <= |b| && j <= |a| - i && j <= |b| - i
    requires i < |a| && i < |b| ==> a[i] != b[i]
    requires j < |a| - i && j < |b| - i ==> a[|a| - 1 - j] != b[|b| - 1 - j]
    ensures Tight(Hunk(i, a[i..|a| - j], b[i..|b| - j]))
  {
  }

  lemma RenderNonempty(h: Hunk)
    ensures Render(h) != ""
  {
    JoinEmpty(RenderLines(h) + [""], NL);
  }

  lemma RenderedDescribes(h: Hunk, a: seq<string>, b: seq<string>)
    requires AllFree(h.removed, NL) && AllFree(h.added, NL)
    requires ApplyHunk(h, a) == Some(b) && Tight(h)
    ensures Describes(Render(h), a, b)
  {
    ReadOfRendered(h);
    assert ReadPatch(Render(h)).value == h;
  }

  lemma TrimmedHunkDescribes(a: seq<string>, b: seq<string>, i: nat, j: nat)
    requires AllFree(a, NL) && AllFree(b, NL)
    requires i <= |a| && i <= |b| && j <= |a| - i && j <= |b| - i
    requires a[..i] == b[..i] && a[|a| - j..] == b[|b| - j..]
    requires i < |a| && i < |b| ==> a[i] != b[i]
    requires j < |a| - i && j < |b| - i ==> a[|a| - 1 - j] != b[|b| - 1 - j]
    ensures Render(Hunk(i, a[i..|a| - j], b[i..|b| - j])) != ""
    ensures Describes(Render(Hunk(i, a[i..|a| - j], b[i..|b| - j])), a, b)
  {
    var h := Hunk(i, a[i..|a| - j], b[i..|b| - j]);
    HunkIsExact(a, b, i, j);
    TrimmedHunkIsTight(a, b, i, j);
    RenderedDescribes(h, a, b);
    RenderNonempty(h);
  }
}
