/**
 * Wrapping and fitting text by measured widths, over any font measure in which a longer prefix is
 * never narrower.
 */
module TextFit {
  import opened Characters
  import opened Wrappers

  /** The width of a text at a font size. */
  type Measure = (nat, string) -> real

  ghost predicate PrefixMonotone(width: Measure) {
    forall size, a, b {:trigger width(size, a), width(size, b)} :: a <= b ==> width(size, a) <= width(size, b)
  }

  const ELLIPSIS := "\U{2026}"

  function LStripChar(c: char): string {
    if IsSpace(c) then "" else [c]
  }

  /** The text without its whitespace. */
  function Ink(s: string): string {
    if s == "" then ""
    else Ink(s[..|s| - 1]) + if IsSpace(s[|s| - 1]) then "" else [s[|s| - 1]]
  }

  function InkOf(lines: seq<string>): string {
    if lines == [] then "" else InkOf(lines[..|lines| - 1]) + Ink(lines[|lines| - 1])
  }

  function Paragraphs(text: string): (r: seq<string>)
    ensures |r| >= 1
  {
    if text == "" then [""]
    else
      var before := Paragraphs(text[..|text| - 1]);
      var c := text[|text| - 1];
      if c == '\n' then before + [""] else before[..|before| - 1] + [before[|before| - 1] + [c]]
  }

  // ------------------------------------------------------------------ wrapping

  /** The lines completed and the line under way after the characters of a paragraph. */
  datatype Progress = Progress(lines: seq<string>, current: string)

  function Consume(width: Measure, size: nat, maxWidth: real, paragraph: string): Progress {
    if paragraph == "" then Progress([], "")
    else
      var before := Consume(width, size, maxWidth, paragraph[..|paragraph| - 1]);
      var c := paragraph[|paragraph| - 1];
      if before.current != "" && width(size, before.current + [c]) > maxWidth
      then Progress(before.lines + [RStrip(before.current)], LStripChar(c))
      else Progress(before.lines, before.current + [c])
  }

  function WrapParagraph(width: Measure, size: nat, maxWidth: real, lines: seq<string>, paragraph: string)
    : seq<string>
  {
    if paragraph == "" then lines + [""]
    else
      var end := Consume(width, size, maxWidth, paragraph);
      lines + end.lines
      + if end.current != "" || lines + end.lines == [] then [RStrip(end.current)] else []
  }

  function WrapAll(width: Measure, size: nat, maxWidth: real, paragraphs: seq<string>): seq<string> {
    if paragraphs == [] then []
    else WrapParagraph(width, size, maxWidth, WrapAll(width, size, maxWidth, paragraphs[..|paragraphs| - 1]),
                       paragraphs[|paragraphs| - 1])
  }

  function Wrap(width: Measure, size: nat, maxWidth: real, text: string): seq<string> {
    WrapAll(width, size, maxWidth, Paragraphs(text))
  }

  /** The inner loop: the characters of one paragraph, each completed line going after those before. */
  method ConsumeParagraph(width: Measure, size: nat, maxWidth: real, start: seq<string>, paragraph: string)
    returns (lines: seq<string>, current: string)
    ensures lines == start + Consume(width, size, maxWidth, paragraph).lines
    ensures current == Consume(width, size, maxWidth, paragraph).current
  {
    lines, current := start, "";
    for k := 0 to |paragraph|
      invariant current == Consume(width, size, maxWidth, paragraph[..k]).current
      invariant lines == start + Consume(width, size, maxWidth, paragraph[..k]).lines
    {
      var character := paragraph[k];
      assert paragraph[..k + 1][..k] == paragraph[..k];
      var candidate := current + [character];
      if current != "" && width(size, candidate) > maxWidth {
        lines := lines + [RStrip(current)];
        current := LStripChar(character);
      } else {
        current := candidate;
      }
    }
    assert paragraph[..|paragraph|] == paragraph;
  }

  method WrapMeasured(width: Measure, text: string, size: nat, maxWidth: real) returns (lines: seq<string>)
    ensures lines == Wrap(width, size, maxWidth, text)
  {
    lines := [];
    var paragraphs := Paragraphs(text);
    for p := 0 to |paragraphs|
      invariant lines == WrapAll(width, size, maxWidth, paragraphs[..p])
    {
      assert paragraphs[..p + 1][..p] == paragraphs[..p];
      if paragraphs[p] == "" {
        lines := lines + [""];
      } else {
        var current;
        lines, current := ConsumeParagraph(width, size, maxWidth, lines, paragraphs[p]);
        if current != "" || lines == [] {
          lines := lines + [RStrip(current)];
        }
      }
    }
    assert paragraphs[..|paragraphs|] == paragraphs;
  }

  predicate LineFits(width: Measure, size: nat, maxWidth: real, line: string) {
    |line| <= 1 || width(size, line) <= maxWidth
  }

  ghost predicate AllFit(width: Measure, size: nat, maxWidth: real, lines: seq<string>) {
    forall i :: 0 <= i < |lines| ==> LineFits(width, size, maxWidth, lines[i])
  }

  lemma StrippedFits(width: Measure, size: nat, maxWidth: real, line: string)
    requires PrefixMonotone(width) && LineFits(width, size, maxWidth, line)
    ensures LineFits(width, size, maxWidth, RStrip(line))
  {
    assert RStrip(line) <= line;
    assert width(size, RStrip(line)) <= width(size, line);
  }

  lemma {:induction false} ConsumedFits(width: Measure, size: nat, maxWidth: real, paragraph: string)
    requires PrefixMonotone(width)
    ensures AllFit(width, size, maxWidth, Consume(width, size, maxWidth, paragraph).lines)
    ensures LineFits(width, size, maxWidth, Consume(width, size, maxWidth, paragraph).current)
  {
    if paragraph != "" {
      ConsumedFits(width, size, maxWidth, paragraph[..|paragraph| - 1]);
      StrippedFits(width, size, maxWidth, Consume(width, size, maxWidth, paragraph[..|paragraph| - 1]).current);
    }
  }

  lemma WrappedParagraphFits(width: Measure, size: nat, maxWidth: real, lines: seq<string>, paragraph: string)
    requires PrefixMonotone(width) && AllFit(width, size, maxWidth, lines)
    ensures AllFit(width, size, maxWidth, WrapParagraph(width, size, maxWidth, lines, paragraph))
    ensures WrapParagraph(width, size, maxWidth, lines, paragraph) != []
  {
    if paragraph == "" {
      FitAppended(width, size, maxWidth, lines, [""]);
    } else {
      var end := Consume(width, size, maxWidth, paragraph);
      ConsumedFits(width, size, maxWidth, paragraph);
      StrippedFits(width, size, maxWidth, end.current);
      FitAppended(width, size, maxWidth, lines, end.lines);
      FitAppended(width, size, maxWidth, lines + end.lines, [RStrip(end.current)]);
    }
  }

  lemma FitAppended(width: Measure, size: nat, maxWidth: real, a: seq<string>, b: seq<string>)
    requires AllFit(width, size, maxWidth, a) && AllFit(width, size, maxWidth, b)
    ensures AllFit(width, size, maxWidth, a + b)
  {
  }

  lemma {:induction false} WrappedFits(width: Measure, size: nat, maxWidth: real, paragraphs: seq<string>)
    requires PrefixMonotone(width)
    ensures AllFit(width, size, maxWidth, WrapAll(width, size, maxWidth, paragraphs))
    ensures paragraphs != [] ==> WrapAll(width, size, maxWidth, paragraphs) != []
  {
    if paragraphs != [] {
      var front := paragraphs[..|paragraphs| - 1];
      WrappedFits(width, size, maxWidth, front);
      WrappedParagraphFits(width, size, maxWidth, WrapAll(width, size, maxWidth, front), paragraphs[|paragraphs| - 1]);
    }
  }

  // ---- where a paragraph is cut

  /** A completed line: the stretch of the paragraph from `start`, cut before the character at `end`. */
  datatype Cut = Cut(start: nat, end: nat)

  /** The line from `start` is too wide with the character at `k`. */
  predicate TooWide(width: Measure, size: nat, maxWidth: real, paragraph: string, start: nat, k: nat)
    requires start <= k < |paragraph|
  {
    width(size, paragraph[start..k + 1]) > maxWidth
  }

  /** No character after the first, from `start` to before `n`, made the line too wide. */
  ghost predicate FitsUpTo(width: Measure, size: nat, maxWidth: real, paragraph: string, start: nat, n: nat)
    requires n <= |paragraph|
  {
    forall j :: start < j < n ==> !TooWide(width, size, maxWidth, paragraph, start, j)
  }

  /** The cut is before the first character that makes its line too wide. */
  ghost predicate Forced(width: Measure, size: nat, maxWidth: real, paragraph: string, cut: Cut) {
    && cut.start < cut.end < |paragraph| && FitsUpTo(width, size, maxWidth, paragraph, cut.start, cut.end)
    && TooWide(width, size, maxWidth, paragraph, cut.start, cut.end)
  }

  /** The line after a cut starts with the character there, unless that is a space, which is dropped. */
  function NextStart(paragraph: string, cuts: seq<Cut>): nat {
    if cuts == [] then 0
    else
      var end := cuts[|cuts| - 1].end;
      if end < |paragraph| && IsSpace(paragraph[end]) then end + 1 else end
  }

  /** The cuts of the first `n` characters, one line starting where the cut before it says. */
  ghost predicate GreedyCuts(width: Measure, size: nat, maxWidth: real, paragraph: string, n: nat, cuts: seq<Cut>)
    requires n <= |paragraph|
  {
    && (forall i :: 0 <= i < |cuts| ==>
          cuts[i].end < n && Forced(width, size, maxWidth, paragraph, cuts[i])
          && cuts[i].start == NextStart(paragraph, cuts[..i]))
    && NextStart(paragraph, cuts) <= n
    && FitsUpTo(width, size, maxWidth, paragraph, NextStart(paragraph, cuts), n)
  }

  predicate WithinText(paragraph: string, cuts: seq<Cut>) {
    forall i :: 0 <= i < |cuts| ==> cuts[i].start < cuts[i].end < |paragraph|
  }

  function CutLines(paragraph: string, cuts: seq<Cut>): (r: seq<string>)
    requires WithinText(paragraph, cuts)
    ensures |r| == |cuts|
  {
    seq(|cuts|, i requires 0 <= i < |cuts| => RStrip(paragraph[cuts[i].start..cuts[i].end]))
  }

  /** The loop over the first `n` characters has made just those lines, and holds the text after them. */
  ghost predicate CutsInto(paragraph: string, n: nat, cuts: seq<Cut>, end: Progress)
    requires n <= |paragraph| && WithinText(paragraph, cuts)
  {
    && NextStart(paragraph, cuts) <= n
    && end == Progress(CutLines(paragraph, cuts), paragraph[NextStart(paragraph, cuts)..n])
  }

  /** The loop over the first `n` characters has made these forced cuts and no others. */
  ghost predicate CutAsForced(width: Measure, size: nat, maxWidth: real, paragraph: string, n: nat, cuts: seq<Cut>)
    requires n <= |paragraph|
  {
    && WithinText(paragraph, cuts) && GreedyCuts(width, size, maxWidth, paragraph, n, cuts)
    && CutsInto(paragraph, n, cuts, Consume(width, size, maxWidth, paragraph[..n]))
  }

  lemma OneMoreCut(width: Measure, size: nat, maxWidth: real, paragraph: string, n: nat, cuts: seq<Cut>)
    requires n < |paragraph| && GreedyCuts(width, size, maxWidth, paragraph, n, cuts)
    requires NextStart(paragraph, cuts) < n
    requires TooWide(width, size, maxWidth, paragraph, NextStart(paragraph, cuts), n)
    ensures GreedyCuts(width, size, maxWidth, paragraph, n + 1, cuts + [Cut(NextStart(paragraph, cuts), n)])
  {
    var more := cuts + [Cut(NextStart(paragraph, cuts), n)];
    forall i | 0 <= i < |more|
      ensures more[i].end < n + 1 && Forced(width, size, maxWidth, paragraph, more[i])
      ensures more[i].start == NextStart(paragraph, more[..i])
    {
      if i < |cuts| {
        assert more[..i] == cuts[..i];
      } else {
        assert more[..i] == cuts;
      }
    }
  }

  lemma NoCut(width: Measure, size: nat, maxWidth: real, paragraph: string, n: nat, cuts: seq<Cut>)
    requires n < |paragraph| && GreedyCuts(width, size, maxWidth, paragraph, n, cuts)
    requires NextStart(paragraph, cuts) < n ==>
               !TooWide(width, size, maxWidth, paragraph, NextStart(paragraph, cuts), n)
    ensures GreedyCuts(width, size, maxWidth, paragraph, n + 1, cuts)
  {
  }

  lemma ConsumeOne(width: Measure, size: nat, maxWidth: real, paragraph: string, n: nat)
    requires n < |paragraph|
    ensures var before, c := Consume(width, size, maxWidth, paragraph[..n]), paragraph[n];
      Consume(width, size, maxWidth, paragraph[..n + 1]) ==
      if before.current != "" && width(size, before.current + [c]) > maxWidth
      then Progress(before.lines + [RStrip(before.current)], LStripChar(c))
      else Progress(before.lines, before.current + [c])
  {
    assert paragraph[..n + 1][..n] == paragraph[..n];
  }

  lemma CutLinesGrow(paragraph: string, cuts: seq<Cut>, cut: Cut)
    requires WithinText(paragraph, cuts) && cut.start < cut.end < |paragraph|
    ensures WithinText(paragraph, cuts + [cut])
    ensures CutLines(paragraph, cuts + [cut]) == CutLines(paragraph, cuts) + [RStrip(paragraph[cut.start..cut.end])]
  {
  }

  /** What the line under way is just after a cut. */
  lemma CutStart(paragraph: string, cuts: seq<Cut>, start: nat, n: nat)
    requires n < |paragraph|
    ensures var next := NextStart(paragraph, cuts + [Cut(start, n)]);
      next <= n + 1 && paragraph[next..n + 1] == LStripChar(paragraph[n])
  {
  }

  lemma CutStep(width: Measure, size: nat, maxWidth: real, paragraph: string, n: nat, cuts: seq<Cut>)
    requires n < |paragraph| && WithinText(paragraph, cuts) && NextStart(paragraph, cuts) < n
    requires CutsInto(paragraph, n, cuts, Consume(width, size, maxWidth, paragraph[..n]))
    requires TooWide(width, size, maxWidth, paragraph, NextStart(paragraph, cuts), n)
    ensures var more := cuts + [Cut(NextStart(paragraph, cuts), n)];
      && WithinText(paragraph, more)
      && CutsInto(paragraph, n + 1, more, Consume(width, size, maxWidth, paragraph[..n + 1]))
  {
    var start := NextStart(paragraph, cuts);
    ConsumeOne(width, size, maxWidth, paragraph, n);
    OneLonger(paragraph, start, n);
    CutLinesGrow(paragraph, cuts, Cut(start, n));
    CutStart(paragraph, cuts, start, n);
  }

  lemma NoCutStep(width: Measure, size: nat, maxWidth: real, paragraph: string, n: nat, cuts: seq<Cut>)
    requires n < |paragraph| && WithinText(paragraph, cuts)
    requires CutsInto(paragraph, n, cuts, Consume(width, size, maxWidth, paragraph[..n]))
    requires NextStart(paragraph, cuts) < n ==>
               !TooWide(width, size, maxWidth, paragraph, NextStart(paragraph, cuts), n)
    ensures CutsInto(paragraph, n + 1, cuts, Consume(width, size, maxWidth, paragraph[..n + 1]))
  {
    var start := NextStart(paragraph, cuts);
    ConsumeOne(width, size, maxWidth, paragraph, n);
    OneLonger(paragraph, start, n);
  }

  /** One character of the loop is one step of the cuts. */
  lemma BreakStep(width: Measure, size: nat, maxWidth: real, paragraph: string, n: nat, cuts: seq<Cut>)
    returns (more: seq<Cut>)
    requires n < |paragraph| && CutAsForced(width, size, maxWidth, paragraph, n, cuts)
    ensures CutAsForced(width, size, maxWidth, paragraph, n + 1, more)
  {
    var start := NextStart(paragraph, cuts);
    if start < n && TooWide(width, size, maxWidth, paragraph, start, n) {
      OneMoreCut(width, size, maxWidth, paragraph, n, cuts);
      CutStep(width, size, maxWidth, paragraph, n, cuts);
      more := cuts + [Cut(start, n)];
    } else {
      NoCut(width, size, maxWidth, paragraph, n, cuts);
      NoCutStep(width, size, maxWidth, paragraph, n, cuts);
      more := cuts;
    }
  }

  lemma NothingToCut(width: Measure, size: nat, maxWidth: real, paragraph: string)
    ensures CutAsForced(width, size, maxWidth, paragraph, 0, [])
  {
    assert paragraph[..0] == paragraph[0..0] == "";
  }

  /**
   * Breaks are forced: the loop cuts a paragraph at increasing places, each before the first character that
   * would have made the line from the previous cut too wide, and nowhere else.
   */
  lemma BreaksAreForced(width: Measure, size: nat, maxWidth: real, paragraph: string, n: nat)
    returns (cuts: seq<Cut>)
    requires n <= |paragraph|
    ensures CutAsForced(width, size, maxWidth, paragraph, n, cuts)
  {
    NothingToCut(width, size, maxWidth, paragraph);
    cuts := [];
    for k := 0 to n
      invariant CutAsForced(width, size, maxWidth, paragraph, k, cuts)
    {
      cuts := BreakStep(width, size, maxWidth, paragraph, k, cuts);
    }
  }

  lemma OneForced(width: Measure, size: nat, maxWidth: real, paragraph: string, a: Cut, b: Cut)
    requires Forced(width, size, maxWidth, paragraph, a) && Forced(width, size, maxWidth, paragraph, b)
    requires a.start == b.start
    ensures a == b
  {
  }

  lemma NotForced(width: Measure, size: nat, maxWidth: real, paragraph: string, cut: Cut)
    requires FitsUpTo(width, size, maxWidth, paragraph, cut.start, |paragraph|)
    ensures !Forced(width, size, maxWidth, paragraph, cut)
  {
  }

  lemma {:induction false} SameCuts(
    width: Measure, size: nat, maxWidth: real, paragraph: string, a: seq<Cut>, b: seq<Cut>, i: nat)
    requires GreedyCuts(width, size, maxWidth, paragraph, |paragraph|, a)
    requires GreedyCuts(width, size, maxWidth, paragraph, |paragraph|, b)
    requires i <= |a| && i <= |b|
    ensures a[..i] == b[..i]
  {
    if i > 0 {
      SameCuts(width, size, maxWidth, paragraph, a, b, i - 1);
      var before := a[..i - 1];
      assert a[i - 1].start == NextStart(paragraph, before) && b[i - 1].start == NextStart(paragraph, before);
      OneForced(width, size, maxWidth, paragraph, a[i - 1], b[i - 1]);
      OneLonger(a, 0, i - 1);
      OneLonger(b, 0, i - 1);
    }
  }

  lemma NotLonger(width: Measure, size: nat, maxWidth: real, paragraph: string, a: seq<Cut>, b: seq<Cut>)
    requires GreedyCuts(width, size, maxWidth, paragraph, |paragraph|, a)
    requires GreedyCuts(width, size, maxWidth, paragraph, |paragraph|, b)
    ensures |b| <= |a|
  {
    var shared := if |a| < |b| then |a| else |b|;
    SameCuts(width, size, maxWidth, paragraph, a, b, shared);
    assert a[..|a|] == a;
    if |a| < |b| {
      NotForced(width, size, maxWidth, paragraph, b[shared]);
    }
  }

  /** The widths leave no choice: any forced cuts of a paragraph are the ones the loop makes. */
  lemma CutsAreUnique(width: Measure, size: nat, maxWidth: real, paragraph: string, cuts: seq<Cut>)
    requires GreedyCuts(width, size, maxWidth, paragraph, |paragraph|, cuts)
    ensures CutAsForced(width, size, maxWidth, paragraph, |paragraph|, cuts)
  {
    var made := BreaksAreForced(width, size, maxWidth, paragraph, |paragraph|);
    NotLonger(width, size, maxWidth, paragraph, made, cuts);
    NotLonger(width, size, maxWidth, paragraph, cuts, made);
    SameCuts(width, size, maxWidth, paragraph, made, cuts, |cuts|);
    assert made[..|cuts|] == made && cuts[..|cuts|] == cuts;
  }

  // ---- how a text is made of paragraphs, and a wrapping of theirs

  /** The lines with a newline between each two. */
  function Join(lines: seq<string>): string {
    if |lines| == 0 then ""
    else if |lines| == 1 then lines[0]
    else Join(lines[..|lines| - 1]) + "\n" + lines[|lines| - 1]
  }

  /** A text is its paragraphs with a newline between each two, and none of them has one. */
  lemma {:induction false} ParagraphsJoin(text: string)
    ensures Join(Paragraphs(text)) == text
    ensures forall i :: 0 <= i < |Paragraphs(text)| ==> '\n' !in Paragraphs(text)[i]
  {
    if text != "" {
      var before, c := Paragraphs(text[..|text| - 1]), text[|text| - 1];
      ParagraphsJoin(text[..|text| - 1]);
      assert text == text[..|text| - 1] + [c];
      if c == '\n' {
        JoinLast(before, "");
        assert Join(before) + "\n" + "" == Join(before) + "\n";
      } else {
        var front, last := before[..|before| - 1], before[|before| - 1];
        assert before == front + [last];
        JoinGrows(front, last, c);
      }
    }
  }

  lemma JoinLast(front: seq<string>, last: string)
    ensures Join(front + [last]) == if front == [] then last else Join(front) + "\n" + last
  {
    assert (front + [last])[..|front|] == front;
  }

  lemma JoinGrows(front: seq<string>, last: string, c: char)
    ensures Join(front + [last + [c]]) == Join(front + [last]) + [c]
  {
    JoinLast(front, last);
    JoinLast(front, last + [c]);
    if front != [] { Associative(Join(front) + "\n", last, [c]); }
  }

  lemma ConsumedBetweenCuts(width: Measure, size: nat, maxWidth: real, paragraph: string, cuts: seq<Cut>)
    requires GreedyCuts(width, size, maxWidth, paragraph, |paragraph|, cuts)
    ensures WithinText(paragraph, cuts) && NextStart(paragraph, cuts) <= |paragraph|
    ensures Consume(width, size, maxWidth, paragraph).lines == CutLines(paragraph, cuts)
    ensures Consume(width, size, maxWidth, paragraph).current == paragraph[NextStart(paragraph, cuts)..]
    ensures paragraph == "" ==> cuts == []
  {
    CutsAreUnique(width, size, maxWidth, paragraph, cuts);
    assert paragraph[..|paragraph|] == paragraph;
    if paragraph == "" { assert cuts == []; }
  }

  /**
   * A paragraph adds the lines between its forced cuts and the text after the last, each stripped on the right;
   * an empty paragraph adds an empty line.
   */
  lemma ParagraphLines(width: Measure, size: nat, maxWidth: real, lines: seq<string>, paragraph: string, cuts: seq<Cut>)
    requires GreedyCuts(width, size, maxWidth, paragraph, |paragraph|, cuts)
    ensures WithinText(paragraph, cuts)
    ensures var rest := paragraph[NextStart(paragraph, cuts)..];
      WrapParagraph(width, size, maxWidth, lines, paragraph)
      == lines + CutLines(paragraph, cuts)
         + if paragraph == "" then [""] else if rest != "" || (lines == [] && cuts == []) then [RStrip(rest)] else []
  {
    ConsumedBetweenCuts(width, size, maxWidth, paragraph, cuts);
  }

  // ---- no character is lost

  lemma InkAppend(s: string, c: char)
    ensures Ink(s + [c]) == Ink(s) + if IsSpace(c) then "" else [c]
  {
    assert (s + [c])[..|s|] == s;
  }

  lemma {:induction false} InkOfStripped(s: string)
    ensures Ink(RStrip(s)) == Ink(s)
  {
    if s != "" && IsSpace(s[|s| - 1]) {
      InkOfStripped(s[..|s| - 1]);
    }
  }

  lemma InkOfAppend(lines: seq<string>, line: string)
    ensures InkOf(lines + [line]) == InkOf(lines) + Ink(line)
  {
    assert (lines + [line])[..|lines|] == lines;
  }

  lemma {:induction false} InkOfConcat(a: seq<string>, b: seq<string>)
    ensures InkOf(a + b) == InkOf(a) + InkOf(b)
  {
    if b == [] {
      assert a + b == a;
    } else {
      var front, last := b[..|b| - 1], b[|b| - 1];
      assert (a + b)[..|a + b| - 1] == a + front;
      InkOfConcat(a, front);
      Associative(InkOf(a), InkOf(front), Ink(last));
    }
  }

  function InkChar(c: char): string {
    if IsSpace(c) then "" else [c]
  }

  lemma InkOfChar(c: char)
    ensures Ink([c]) == InkChar(c) && Ink(LStripChar(c)) == InkChar(c)
  {
    assert [c][..0] == "";
  }

  /** A character that ends a line adds its ink. */
  lemma BreakKeepsInk(lines: seq<string>, current: string, c: char)
    ensures InkOf(lines + [RStrip(current)]) + Ink(LStripChar(c)) == InkOf(lines) + Ink(current) + InkChar(c)
  {
    InkOfAppend(lines, RStrip(current));
    InkOfStripped(current);
    InkOfChar(c);
  }

  /** A character that stays on its line adds its ink. */
  lemma GrowthKeepsInk(lines: seq<string>, current: string, c: char)
    ensures InkOf(lines) + Ink(current + [c]) == InkOf(lines) + Ink(current) + InkChar(c)
  {
    InkAppend(current, c);
    Associative(InkOf(lines), Ink(current), InkChar(c));
  }

  function InkOfProgress(p: Progress): string {
    InkOf(p.lines) + Ink(p.current)
  }

  lemma StepKeepsInk(before: Progress, after: Progress, c: char)
    requires || after == Progress(before.lines + [RStrip(before.current)], LStripChar(c))
             || after == Progress(before.lines, before.current + [c])
    ensures InkOfProgress(after) == InkOfProgress(before) + InkChar(c)
  {
    BreakKeepsInk(before.lines, before.current, c);
    GrowthKeepsInk(before.lines, before.current, c);
  }

  lemma {:induction false} ConsumeKeepsInk(width: Measure, size: nat, maxWidth: real, paragraph: string)
    ensures InkOfProgress(Consume(width, size, maxWidth, paragraph)) == Ink(paragraph)
  {
    if paragraph != "" {
      var front, c := paragraph[..|paragraph| - 1], paragraph[|paragraph| - 1];
      ConsumeKeepsInk(width, size, maxWidth, front);
      StepKeepsInk(Consume(width, size, maxWidth, front), Consume(width, size, maxWidth, paragraph), c);
    }
  }

  lemma WrapParagraphKeepsInk(width: Measure, size: nat, maxWidth: real, lines: seq<string>, paragraph: string)
    ensures InkOf(WrapParagraph(width, size, maxWidth, lines, paragraph)) == InkOf(lines) + Ink(paragraph)
  {
    if paragraph == "" {
      InkOfAppend(lines, "");
    } else {
      var end := Consume(width, size, maxWidth, paragraph);
      ConsumeKeepsInk(width, size, maxWidth, paragraph);
      LastLineKeepsInk(lines, end);
    }
  }

  lemma LastLineKeepsInk(lines: seq<string>, end: Progress)
    ensures var last := if end.current != "" || lines + end.lines == [] then [RStrip(end.current)] else [];
            InkOf(lines + end.lines + last)
            == InkOf(lines) + (InkOf(end.lines) + Ink(end.current))
  {
    var all := lines + end.lines;
    var last := if end.current != "" || all == [] then [RStrip(end.current)] else [];
    assert InkOf(all) == InkOf(lines) + InkOf(end.lines) by { InkOfConcat(lines, end.lines); }
    assert InkOf(all + last) == InkOf(all) + Ink(end.current) by { InkOfLast(all, end.current, last); }
    Associative(InkOf(lines), InkOf(end.lines), Ink(end.current));
  }

  lemma InkOfLast(all: seq<string>, current: string, last: seq<string>)
    requires last == [RStrip(current)] || (last == [] && current == "")
    ensures InkOf(all + last) == InkOf(all) + Ink(current)
  {
    if last == [] {
      assert all + last == all;
    } else {
      InkOfStripped(current);
      InkOfAppend(all, RStrip(current));
    }
  }

  lemma {:induction false} WrapKeepsInk(width: Measure, size: nat, maxWidth: real, paragraphs: seq<string>)
    ensures InkOf(WrapAll(width, size, maxWidth, paragraphs)) == InkOf(paragraphs)
  {
    if paragraphs != [] {
      var front := paragraphs[..|paragraphs| - 1];
      WrapKeepsInk(width, size, maxWidth, front);
      WrapParagraphKeepsInk(width, size, maxWidth, WrapAll(width, size, maxWidth, front), paragraphs[|paragraphs| - 1]);
    }
  }

  /** A character added to the last paragraph adds its ink. */
  lemma LastParagraphGrows(before: seq<string>, c: char)
    requires before != []
    ensures InkOf(before[..|before| - 1] + [before[|before| - 1] + [c]]) == InkOf(before) + InkChar(c)
  {
    var front, last := before[..|before| - 1], before[|before| - 1];
    assert InkOf(front + [last + [c]]) == InkOf(front) + Ink(last + [c]) by { InkOfAppend(front, last + [c]); }
    InkAppend(last, c);
    Associative(InkOf(front), Ink(last), InkChar(c));
  }

  lemma {:induction false} ParagraphsKeepInk(text: string)
    ensures InkOf(Paragraphs(text)) == Ink(text)
  {
    if text == "" {
      assert [""][..0] == [];
    } else {
      var before, c := Paragraphs(text[..|text| - 1]), text[|text| - 1];
      ParagraphsKeepInk(text[..|text| - 1]);
      if c == '\n' {
        InkOfAppend(before, "");
      } else {
        LastParagraphGrows(before, c);
      }
    }
  }

  /**
   * Wrapping, for every text and measure: every line is at most one character or within the width,
   * there is at least one line, and the characters that are not whitespace keep their order.
   */
  lemma WrapIsSound(width: Measure, size: nat, maxWidth: real, text: string)
    requires PrefixMonotone(width)
    ensures AllFit(width, size, maxWidth, Wrap(width, size, maxWidth, text))
    ensures Wrap(width, size, maxWidth, text) != []
    ensures InkOf(Wrap(width, size, maxWidth, text)) == Ink(text)
  {
    WrappedFits(width, size, maxWidth, Paragraphs(text));
    WrapKeepsInk(width, size, maxWidth, Paragraphs(text));
    ParagraphsKeepInk(text);
  }

  // ------------------------------------------------------------------ the ellipsis

  /** The longest stripped prefix that still fits with the ellipsis, or none, and then the ellipsis. */
  ghost predicate IsEllipsized(width: Measure, size: nat, maxWidth: real, line: string, result: string) {
    exists kept: nat ::
      && kept <= |line| && result == line[..kept] + ELLIPSIS
      && RStrip(line[..kept]) == line[..kept]
      && (kept == 0 || width(size, result) <= maxWidth)
      && (forall k :: kept < k <= |line| && RStrip(line[..k]) == line[..k] ==>
            width(size, line[..k] + ELLIPSIS) > maxWidth)
  }

  lemma {:induction false} StripSkips(s: string, k: nat)
    requires |RStrip(s)| < k <= |s|
    ensures RStrip(s[..k]) != s[..k]
  {
    if s != "" && IsSpace(s[|s| - 1]) && k < |s| {
      assert s[..|s| - 1][..k] == s[..k];
      StripSkips(s[..|s| - 1], k);
    } else if k == |s| {
      assert s[..k] == s;
    }
  }

  method Ellipsize(width: Measure, line: string, size: nat, maxWidth: real) returns (result: string)
    ensures IsEllipsized(width, size, maxWidth, line, result)
  {
    var candidate := RStrip(line);
    forall k | |candidate| < k <= |line|
      ensures RStrip(line[..k]) != line[..k]
    {
      StripSkips(line, k);
    }
    while candidate != "" && width(size, candidate + ELLIPSIS) > maxWidth
      invariant candidate <= line && RStrip(candidate) == candidate
      invariant forall k :: |candidate| < k <= |line| && RStrip(line[..k]) == line[..k] ==>
                  width(size, line[..k] + ELLIPSIS) > maxWidth
      decreases |candidate|
    {
      var shorter := candidate[..|candidate| - 1];
      var next := RStrip(shorter);
      forall k | |next| < k <= |line|
        ensures RStrip(line[..k]) == line[..k] ==> width(size, line[..k] + ELLIPSIS) > maxWidth
      {
        if k == |candidate| {
          assert line[..k] == candidate;
        } else if k < |candidate| {
          assert shorter[..k] == line[..k];
          StripSkips(shorter, k);
        }
      }
      candidate := next;
    }
    result := candidate + ELLIPSIS;
    assert candidate == line[..|candidate|];
  }

  // ------------------------------------------------------------------ fitting

  datatype TextLayout = TextLayout(size: nat, lines: seq<string>, lineHeight: nat, height: int, truncated: bool)

  datatype FitError = InvalidSizeRange | InvalidBounds | DivisionByZero

  function LineHeight(boxHeight: nat -> int, size: nat): (r: nat)
    ensures r >= 1
  {
    if boxHeight(size) > 1 then boxHeight(size) else 1
  }

  function BlockHeight(count: nat, lineHeight: nat, spacing: int): int {
    count * lineHeight + (if count > 1 then count - 1 else 0) * spacing
  }

  predicate FitsAt(width: Measure, boxHeight: nat -> int, text: string, size: nat, maxWidth: int, maxHeight: int,
                   spacing: int) {
    BlockHeight(|Wrap(width, size, maxWidth as real, text)|, LineHeight(boxHeight, size), spacing) <= maxHeight
  }

  /** The layout at a size where the whole text fits. */
  ghost predicate WholeLayout(width: Measure, boxHeight: nat -> int, text: string, maxWidth: int, maxHeight: int,
                              spacing: int, layout: TextLayout) {
    && layout.lines == Wrap(width, layout.size, maxWidth as real, text)
    && layout.lineHeight == LineHeight(boxHeight, layout.size)
    && layout.height == BlockHeight(|layout.lines|, layout.lineHeight, spacing) <= maxHeight
    && !layout.truncated
  }

  /** The layout when no size fits: at the smallest size, the leading lines and an ellipsis, or one too tall line. */
  ghost predicate CutLayout(width: Measure, boxHeight: nat -> int, text: string, minSize: nat, maxWidth: int,
                            maxHeight: int, spacing: int, layout: TextLayout) {
    var all := Wrap(width, minSize, maxWidth as real, text);
    var kept := |layout.lines|;
    && layout.size == minSize && layout.lineHeight == LineHeight(boxHeight, minSize)
    && layout.height == BlockHeight(kept, layout.lineHeight, spacing)
    && 1 <= kept <= |all|
    && layout.lines[..kept - 1] == all[..kept - 1]
    && (layout.truncated <==> kept < |all|)
    && (if layout.truncated
        then IsEllipsized(width, minSize, maxWidth as real, all[kept - 1], layout.lines[kept - 1])
        else kept == 1 && layout.lines == all && layout.lineHeight > maxHeight)
    && (layout.lineHeight <= maxHeight ==> layout.height <= maxHeight)
    && (kept > 1 ==> layout.height <= maxHeight)
    && BlockHeight(kept + 1, layout.lineHeight, spacing) > maxHeight
  }

  /** The layout when no size fits and lines overlap entirely: the whole text at the smallest size, too tall. */
  ghost predicate OverfullLayout(width: Measure, boxHeight: nat -> int, text: string, minSize: nat, maxWidth: int,
                                 maxHeight: int, spacing: int, layout: TextLayout) {
    && layout.size == minSize && layout.lines == Wrap(width, minSize, maxWidth as real, text)
    && layout.lineHeight == LineHeight(boxHeight, minSize)
    && layout.height == BlockHeight(|layout.lines|, layout.lineHeight, spacing) > maxHeight
    && !layout.truncated
  }

  /** Python's floor division. */
  function FloorDiv(a: int, b: int): int
    requires b != 0
  {
    if b > 0 then a / b else -a / -b
  }

  lemma BlockHeightIs(count: nat, lineHeight: nat, spacing: int)
    requires count >= 1
    ensures BlockHeight(count, lineHeight, spacing) == count * (lineHeight + spacing) - spacing
  {
    if count > 1 {
      assert (count - 1) * spacing == count * spacing - spacing;
    }
    assert count * (lineHeight + spacing) == count * lineHeight + count * spacing;
  }

  lemma SmallerFactor(a: int, b: int, m: nat)
    requires a * m < b * m
    ensures a < b
  {
    assert (b - a) * m > 0;
  }

  lemma LargerFactor(a: int, b: int, m: nat)
    requires a <= b
    ensures a * m <= b * m
  {
    assert (b - a) * m >= 0;
  }

  /** How many lines the box holds, and that the text needs more unless it is a single too tall line. */
  lemma LinesThatFit(count: nat, lineHeight: nat, spacing: int, maxHeight: int)
    requires count >= 1 && lineHeight >= 1 && maxHeight > 0 && lineHeight + spacing > 0
    requires BlockHeight(count, lineHeight, spacing) > maxHeight
    ensures var room := FloorDiv(maxHeight + spacing, lineHeight + spacing);
            && room < count && (room <= 0 <==> lineHeight > maxHeight)
            && (room >= 1 ==> BlockHeight(room, lineHeight, spacing) <= maxHeight)
            && BlockHeight((if room >= 1 then room else 1) + 1, lineHeight, spacing) > maxHeight
  {
    var step := lineHeight + spacing;
    var room := (maxHeight + spacing) / step;
    assert room * step <= maxHeight + spacing < (room + 1) * step;
    BlockHeightIs(count, lineHeight, spacing);
    SmallerFactor(room, count, step);
    if room >= 1 {
      BlockHeightIs(room, lineHeight, spacing);
      BlockHeightIs(room + 1, lineHeight, spacing);
      LargerFactor(1, room, step);
    } else {
      LargerFactor(room + 1, 1, step);
    }
  }

  /** When each further line shortens the block, the division leaves room for every line of a too tall text. */
  lemma OverlapKeepsAll(count: nat, lineHeight: nat, spacing: int, maxHeight: int)
    requires count >= 1 && lineHeight + spacing < 0
    requires BlockHeight(count, lineHeight, spacing) > maxHeight
    ensures FloorDiv(maxHeight + spacing, lineHeight + spacing) >= count
  {
    var step := -(lineHeight + spacing);
    var room := -(maxHeight + spacing) / step;
    assert -(maxHeight + spacing) < (room + 1) * step;
    BlockHeightIs(count, lineHeight, spacing);
    assert count * step == -(count * (lineHeight + spacing));
    SmallerFactor(count, room + 1, step);
  }

  ghost predicate SomeSizeFits(width: Measure, boxHeight: nat -> int, text: string, maxSize: int, minSize: int,
                               maxWidth: int, maxHeight: int, spacing: int) {
    exists size: nat :: minSize <= size <= maxSize && FitsAt(width, boxHeight, text, size, maxWidth, maxHeight, spacing)
  }

  /**
   * `fit_text`: the largest size at which the whole text fits; when there is none, the smallest size
   * with as many leading lines as fit and an ellipsis, or a single line taller than the box. A spacing that
   * makes lines overlap entirely raises, when it cancels the line height, or leaves the text uncut.
   */
  method FitText(width: Measure, boxHeight: nat -> int, text: string, maxSize: int, minSize: int,
                 maxWidth: int, maxHeight: int, spacing: int)
    returns (result: Result<TextLayout, FitError>)
    requires PrefixMonotone(width)
    ensures result == Err(InvalidSizeRange) <==> minSize <= 0 || maxSize < minSize
    ensures result == Err(InvalidBounds) <==> 0 < minSize <= maxSize && (maxWidth <= 0 || maxHeight <= 0)
    ensures result == Err(DivisionByZero) <==>
      && 0 < minSize <= maxSize && maxWidth > 0 && maxHeight > 0
      && !SomeSizeFits(width, boxHeight, text, maxSize, minSize, maxWidth, maxHeight, spacing)
      && LineHeight(boxHeight, minSize) + spacing == 0
    ensures result.Ok? ==>
      var layout := result.value;
      if SomeSizeFits(width, boxHeight, text, maxSize, minSize, maxWidth, maxHeight, spacing) then
        && minSize <= layout.size <= maxSize
        && WholeLayout(width, boxHeight, text, maxWidth, maxHeight, spacing, layout)
        && forall size :: layout.size < size <= maxSize ==>
             !FitsAt(width, boxHeight, text, size, maxWidth, maxHeight, spacing)
      else if LineHeight(boxHeight, minSize) + spacing > 0 then
        CutLayout(width, boxHeight, text, minSize, maxWidth, maxHeight, spacing, layout)
      else
        OverfullLayout(width, boxHeight, text, minSize, maxWidth, maxHeight, spacing, layout)
  {
    if minSize <= 0 || maxSize < minSize { return Err(InvalidSizeRange); }
    if maxWidth <= 0 || maxHeight <= 0 { return Err(InvalidBounds); }
    var size := maxSize;
    while size >= minSize
      invariant minSize - 1 <= size <= maxSize
      invariant forall s :: size < s <= maxSize ==> !FitsAt(width, boxHeight, text, s, maxWidth, maxHeight, spacing)
    {
      var lineHeight := LineHeight(boxHeight, size);
      var lines := WrapMeasured(width, text, size, maxWidth as real);
      var height := BlockHeight(|lines|, lineHeight, spacing);
      if height <= maxHeight {
        assert FitsAt(width, boxHeight, text, size, maxWidth, maxHeight, spacing);
        return Ok(TextLayout(size, lines, lineHeight, height, false));
      }
      size := size - 1;
    }
    assert !FitsAt(width, boxHeight, text, minSize, maxWidth, maxHeight, spacing);
    result := CutText(width, boxHeight, text, minSize, maxWidth, maxHeight, spacing);
  }

  /** The leading lines, the last of them ellipsized when others follow it. */
  method Visible(width: Measure, lines: seq<string>, size: nat, maxWidth: int, maxLines: nat)
    returns (visible: seq<string>)
    requires PrefixMonotone(width) && lines != [] && maxLines >= 1
    ensures |lines| <= maxLines ==> visible == lines
    ensures |lines| > maxLines ==>
      && |visible| == maxLines && visible[..maxLines - 1] == lines[..maxLines - 1]
      && IsEllipsized(width, size, maxWidth as real, lines[maxLines - 1], visible[maxLines - 1])
  {
    visible := lines[..if maxLines < |lines| then maxLines else |lines|];
    if |lines| > maxLines {
      var last := Ellipsize(width, visible[|visible| - 1], size, maxWidth as real);
      visible := visible[|visible| - 1 := last];
    }
  }

  method CutText(width: Measure, boxHeight: nat -> int, text: string, minSize: nat,
                 maxWidth: int, maxHeight: int, spacing: int)
    returns (result: Result<TextLayout, FitError>)
    requires PrefixMonotone(width) && maxHeight > 0
    requires !FitsAt(width, boxHeight, text, minSize, maxWidth, maxHeight, spacing)
    ensures var pitch := LineHeight(boxHeight, minSize) + spacing;
      if pitch == 0 then result == Err(DivisionByZero)
      else
        && result.Ok?
        && if pitch > 0
           then CutLayout(width, boxHeight, text, minSize, maxWidth, maxHeight, spacing, result.value)
           else OverfullLayout(width, boxHeight, text, minSize, maxWidth, maxHeight, spacing, result.value)
  {
    var lineHeight := LineHeight(boxHeight, minSize);
    var lines := WrapMeasured(width, text, minSize, maxWidth as real);
    WrapIsSound(width, minSize, maxWidth as real, text);
    if lineHeight + spacing == 0 { return Err(DivisionByZero); }
    if lineHeight + spacing > 0 {
      LinesThatFit(|lines|, lineHeight, spacing, maxHeight);
    } else {
      OverlapKeepsAll(|lines|, lineHeight, spacing, maxHeight);
    }
    var room := FloorDiv(maxHeight + spacing, lineHeight + spacing);
    var maxLines := if room > 1 then room else 1;
    var visible := Visible(width, lines, minSize, maxWidth, maxLines);
    var height := BlockHeight(|visible|, lineHeight, spacing);
    return Ok(TextLayout(minSize, visible, lineHeight, height, |lines| > maxLines));
  }

  // ---- spacings that overlap lines entirely

  function Height5(size: nat): int {
    5
  }

  /** With lines five high, a spacing of minus five and a box three high nothing fits: `fit_text` divides by zero. */
  lemma SpacingCancels(width: Measure, text: string, maxSize: int, minSize: nat, maxWidth: int)
    requires PrefixMonotone(width)
    ensures !SomeSizeFits(width, Height5, text, maxSize, minSize, maxWidth, 3, -5)
    ensures LineHeight(Height5, minSize) + -5 == 0
  {
    forall size: nat | minSize <= size <= maxSize
      ensures !FitsAt(width, Height5, text, size, maxWidth, 3, -5)
    {
      WrapIsSound(width, size, maxWidth as real, text);
      BlockHeightIs(|Wrap(width, size, maxWidth as real, text)|, 5, -5);
    }
  }

  lemma OneMoreCharacter(text: string, c: char)
    ensures var before := Paragraphs(text);
      Paragraphs(text + [c]) ==
      if c == '\n' then before + [""] else before[..|before| - 1] + [before[|before| - 1] + [c]]
  {
    assert (text + [c])[..|text|] == text;
  }

  lemma TwoParagraphs()
    ensures Paragraphs("a\nb") == ["a", "b"]
  {
    OneMoreCharacter("", 'a');
    OneMoreCharacter("a", '\n');
    OneMoreCharacter("a\n", 'b');
    assert "" + ['a'] == "a" && "a" + ['\n'] == "a\n" && "a\n" + ['b'] == "a\nb" && "" + ['b'] == "b";
    assert Paragraphs("a") == ["a"];
    assert Paragraphs("a\n") == ["a", ""];
  }

  lemma OneCharacterLine(width: Measure, size: nat, maxWidth: real, lines: seq<string>, c: char)
    requires !IsSpace(c)
    ensures WrapParagraph(width, size, maxWidth, lines, [c]) == lines + [[c]]
  {
    assert [c][..0] == "" && "" + [c] == [c];
    assert Consume(width, size, maxWidth, [c]) == Progress([], [c]);
    assert RStrip([c]) == [c];
    assert lines + [] == lines;
  }

  lemma TwoShortLines(width: Measure, size: nat, maxWidth: real)
    ensures Wrap(width, size, maxWidth, "a\nb") == ["a", "b"]
  {
    TwoParagraphs();
    var none: seq<string> := [];
    assert ["a", "b"][..1] == ["a"] && ["a"][..0] == none;
    OneCharacterLine(width, size, maxWidth, none, 'a');
    OneCharacterLine(width, size, maxWidth, ["a"], 'b');
    assert WrapAll(width, size, maxWidth, ["a"]) == ["a"];
  }

  /** With a spacing of minus six two lines do not fit either, and they are laid out uncut, four high. */
  lemma SpacingOverlaps(width: Measure, maxSize: int, minSize: nat, maxWidth: int)
    ensures !SomeSizeFits(width, Height5, "a\nb", maxSize, minSize, maxWidth, 3, -6)
    ensures OverfullLayout(width, Height5, "a\nb", minSize, maxWidth, 3, -6,
                           TextLayout(minSize, ["a", "b"], 5, 4, false))
  {
    forall size: nat | minSize <= size <= maxSize
      ensures !FitsAt(width, Height5, "a\nb", size, maxWidth, 3, -6)
    {
      TwoShortLines(width, size, maxWidth as real);
    }
    TwoShortLines(width, minSize, maxWidth as real);
  }
}
