/**
 Cutting a document into sections at headings (serving/app/services/chunking.py,
 `_segment_into_sections`).

 Which lines are headings is a parameter. A heading is dropped when lines were collected since
 the last dropped one, and otherwise kept as text; a section starts at its dropped heading.
 */
module Sections {
  import opened Wrappers
  import opened Sorting
  import opened Text

  type Detector = string -> Option<string>

  datatype Section = Section(heading: string, text: string, start: nat, end: nat)

  // ---- lines ----

  function LineLength(text: string): (n: nat)
    ensures n <= |text| && (n < |text| ==> text[n] == '\n')
  {
    if text == "" || text[0] == '\n' then 0 else 1 + LineLength(text[1..])
  }

  /** Python's `text.split("\n")`. */
  function Lines(text: string): (lines: seq<string>)
    ensures lines != []
    decreases |text|
  {
    var n := LineLength(text);
    if n == |text| then [text] else [text[..n]] + Lines(text[n + 1..])
  }

  /** The characters of lines with a line feed after each. */
  function Extent(lines: seq<string>): nat {
    if lines == [] then 0 else |lines[0]| + 1 + Extent(lines[1..])
  }

  lemma {:induction false} LinesJoinBack(text: string)
    ensures Join("\n", Lines(text)) == text && Extent(Lines(text)) == |text| + 1
    decreases |text|
  {
    var n := LineLength(text);
    if n < |text| {
      var line, rest := text[..n], text[n + 1..];
      LinesJoinBack(rest);
      CutAtLineEnd(text, n);
      JoinedAhead(line, Lines(rest));
    }
  }

  lemma CutAtLineEnd(text: string, n: nat)
    requires n < |text| && text[n] == '\n'
    ensures text[..n] + "\n" + text[n + 1..] == text
  {
  }

  lemma JoinedAhead(line: string, lines: seq<string>)
    requires lines != []
    ensures Join("\n", [line] + lines) == line + "\n" + Join("\n", lines)
    ensures Extent([line] + lines) == |line| + 1 + Extent(lines)
  {
    assert ([line] + lines)[1..] == lines;
  }

  lemma {:induction false} JoinedExtent(lines: seq<string>)
    ensures |Join("\n", lines)| + 1 == if lines == [] then 1 else Extent(lines)
  {
    if |lines| > 1 {
      JoinedExtent(lines[1..]);
    }
  }

  lemma {:induction false} ExtentAppend(lines: seq<string>, line: string)
    ensures Extent(lines + [line]) == Extent(lines) + |line| + 1
  {
    if lines != [] {
      assert (lines + [line])[0] == lines[0] && (lines + [line])[1..] == lines[1..] + [line];
      ExtentAppend(lines[1..], line);
    } else {
      assert lines + [line] == [line];
    }
  }

  // ---- the segmenting loop ----

  datatype State = State(heading: string, lines: seq<string>, start: nat, pos: nat, sections: seq<Section>)

  /** The sections with the collected lines written out, unless they are blank. */
  function Flushed(s: State): seq<Section> {
    var text := Strip(Join("\n", s.lines));
    if text == "" then s.sections else s.sections + [Section(s.heading, text, s.start, s.start + |text|)]
  }

  predicate Drops(s: State, line: string, detect: Detector) {
    detect(line).Some? && s.lines != []
  }

  function Step(s: State, line: string, detect: Detector): State {
    var next := s.pos + |line| + 1;
    if Drops(s, line, detect) then State(detect(line).value, [], s.pos, next, Flushed(s))
    else s.(lines := s.lines + [line], pos := next)
  }

  function Fold(s: State, lines: seq<string>, detect: Detector): State
    decreases |lines|
  {
    if lines == [] then s else Fold(Step(s, lines[0], detect), lines[1..], detect)
  }

  const START := State("summary", [], 0, 0, [])

  function Segment(text: string, detect: Detector): seq<Section> {
    var sections := Flushed(Fold(START, Lines(text), detect));
    if sections == [] then [Section("other", Strip(text), 0, |Strip(text)|)] else sections
  }

  method SegmentIntoSections(text: string, detect: Detector) returns (sections: seq<Section>)
    ensures sections == Segment(text, detect)
  {
    var lines := Lines(text);
    sections := [];
    var heading := "summary";
    var current: seq<string> := [];
    var start: nat, pos: nat := 0, 0;
    assert lines[0..] == lines;
    for i := 0 to |lines|
      invariant Fold(START, lines, detect) == Fold(State(heading, current, start, pos, sections), lines[i..], detect)
    {
      var line := lines[i];
      assert lines[i..][1..] == lines[i + 1..];
      var detected := detect(line);
      if detected.Some? && current != [] {
        var content := Strip(Join("\n", current));
        if content != "" {
          sections := sections + [Section(heading, content, start, start + |content|)];
        }
        heading, current, start := detected.value, [], pos;
      } else {
        current := current + [line];
      }
      pos := pos + |line| + 1;
    }
    var content := Strip(Join("\n", current));
    if content != "" {
      sections := sections + [Section(heading, content, start, start + |content|)];
    }
    if sections == [] {
      sections := [Section("other", Strip(text), 0, |Strip(text)|)];
    }
  }

  // ---- which words survive ----

  function Texts(sections: seq<Section>): seq<string> {
    Map((s: Section) => s.text, sections)
  }

  /** The lines that are not dropped; `open` when lines were collected since the last dropped one. */
  function Kept(lines: seq<string>, open: bool, detect: Detector): seq<string> {
    if lines == [] then []
    else if detect(lines[0]).Some? && open then Kept(lines[1..], false, detect)
    else [lines[0]] + Kept(lines[1..], true, detect)
  }

  /** The words collected so far. */
  function Held(s: State): seq<string> {
    FlatWords(Texts(s.sections)) + FlatWords(s.lines)
  }

  lemma FlushKeepsWords(s: State)
    ensures FlatWords(Texts(Flushed(s))) == Held(s)
  {
    var joined := Join("\n", s.lines);
    StripKeepsWords(joined);
    JoinKeepsWords("\n", s.lines);
    if Strip(joined) != "" {
      var added := Section(s.heading, Strip(joined), s.start, s.start + |Strip(joined)|);
      assert Texts(s.sections + [added]) == Texts(s.sections) + [Strip(joined)];
      FlatWordsAppend(Texts(s.sections), Strip(joined));
    }
  }

  lemma StepKeepsWords(s: State, line: string, detect: Detector)
    ensures Held(Step(s, line, detect)) == if Drops(s, line, detect) then Held(s) else Held(s) + Words(line)
  {
    FlushKeepsWords(s);
    if !Drops(s, line, detect) {
      FlatWordsAppend(s.lines, line);
    }
  }

  lemma {:induction false} FoldKeepsWords(s: State, lines: seq<string>, detect: Detector)
    ensures Held(Fold(s, lines, detect)) == Held(s) + FlatWords(Kept(lines, s.lines != [], detect))
    decreases |lines|
  {
    if lines != [] {
      var line, rest := lines[0], lines[1..];
      FoldKeepsWords(Step(s, line, detect), rest, detect);
      StepKeepsWords(s, line, detect);
      ThreeParts(Held(s), Words(line), FlatWords(Kept(rest, true, detect)));
    }
  }

  predicate Blank(parts: seq<string>) {
    FlatWords(parts) == []
  }

  /**
   The words a document is taken to have: those of its kept lines or, when these are all blank,
   those of the whole text.
   */
  function DocumentWords(text: string, detect: Detector): seq<string> {
    var kept := Kept(Lines(text), false, detect);
    if Blank(kept) then Words(text) else FlatWords(kept)
  }

  /** The sections hold exactly the words of the document, in order. */
  lemma SectionsKeepWords(text: string, detect: Detector)
    ensures FlatWords(Texts(Segment(text, detect))) == DocumentWords(text, detect)
  {
    var end := Fold(START, Lines(text), detect);
    FoldKeepsWords(START, Lines(text), detect);
    FlushKeepsWords(end);
    assert Held(START) == [];
    NoBlankSection(START, Lines(text), detect);
    if Flushed(end) == [] {
      StripKeepsWords(text);
      assert Texts(Segment(text, detect)) == [Strip(text)];
      assert FlatWords([Strip(text)]) == Words(text) + [];
    } else {
      assert Words(Texts(Flushed(end))[0]) != [];
    }
  }

  lemma {:induction false} KeptOfBlankLines(lines: seq<string>, open: bool, detect: Detector)
    requires FlatWords(lines) == []
    ensures FlatWords(Kept(lines, open, detect)) == []
  {
    if lines != [] {
      KeptOfBlankLines(lines[1..], false, detect);
      KeptOfBlankLines(lines[1..], true, detect);
    }
  }

  lemma BlankDocument(text: string, detect: Detector)
    requires Words(text) == []
    ensures DocumentWords(text, detect) == []
  {
    LinesJoinBack(text);
    JoinKeepsWords("\n", Lines(text));
    KeptOfBlankLines(Lines(text), false, detect);
  }

  predicate NoneBlank(sections: seq<Section>) {
    forall i :: 0 <= i < |sections| ==> Words(sections[i].text) != []
  }

  lemma FlushAddsNoBlank(s: State)
    requires NoneBlank(s.sections)
    ensures NoneBlank(Flushed(s))
  {
    StripKeepsWords(Join("\n", s.lines));
  }

  lemma {:induction false} NoBlankSection(s: State, lines: seq<string>, detect: Detector)
    requires NoneBlank(s.sections)
    ensures NoneBlank(Flushed(Fold(s, lines, detect)))
    decreases |lines|
  {
    FlushAddsNoBlank(s);
    if lines != [] {
      NoBlankSection(Step(s, lines[0], detect), lines[1..], detect);
    }
  }

  // ---- spans ----

  predicate Orderly(sections: seq<Section>, limit: nat) {
    && (forall i :: 0 <= i < |sections| ==> sections[i].end == sections[i].start + |sections[i].text| <= limit)
    && (forall i :: 0 <= i < |sections| - 1 ==> sections[i].end <= sections[i + 1].start)
  }

  /** Stored sections end before the current one starts, and the collected lines fit before the position. */
  predicate Placed(s: State) {
    Orderly(s.sections, s.start) && s.start + Extent(s.lines) <= s.pos && (s.pos > 0 ==> s.start < s.pos)
  }

  lemma FlushIsOrderly(s: State)
    requires Placed(s)
    ensures Orderly(Flushed(s), if s.pos > 0 then s.pos - 1 else 0)
  {
    JoinedExtent(s.lines);
    StripKeepsWords(Join("\n", s.lines));
    if s.lines == [] {
      assert Strip("") == "";
    }
  }

  lemma {:induction false} FoldStaysPlaced(s: State, lines: seq<string>, detect: Detector)
    requires Placed(s)
    ensures Placed(Fold(s, lines, detect)) && Fold(s, lines, detect).pos == s.pos + Extent(lines)
    decreases |lines|
  {
    if lines != [] {
      FlushIsOrderly(s);
      ExtentAppend(s.lines, lines[0]);
      FoldStaysPlaced(Step(s, lines[0], detect), lines[1..], detect);
    }
  }

  /** Section spans lie inside the document, in order and without overlap, and each is as long as its text. */
  lemma SectionsStayInside(text: string, detect: Detector)
    ensures Orderly(Segment(text, detect), |text|)
  {
    LinesJoinBack(text);
    FoldStaysPlaced(START, Lines(text), detect);
    FlushIsOrderly(Fold(START, Lines(text), detect));
    StripKeepsWords(text);
  }

  // ---- headings ----

  /** A section starts at the top as the summary, or at a line detected as its heading. */
  predicate Headed(lines: seq<string>, detect: Detector, heading: string, start: nat) {
    || (start == 0 && heading == "summary")
    || exists j :: 0 <= j < |lines| && Extent(lines[..j]) == start && detect(lines[j]) == Some(heading)
  }

  predicate AllHeaded(lines: seq<string>, detect: Detector, s: State) {
    && Headed(lines, detect, s.heading, s.start)
    && forall i :: 0 <= i < |s.sections| ==> Headed(lines, detect, s.sections[i].heading, s.sections[i].start)
  }

  lemma StepStaysHeaded(lines: seq<string>, detect: Detector, s: State, k: nat)
    requires k < |lines| && s.pos == Extent(lines[..k]) && AllHeaded(lines, detect, s)
    ensures AllHeaded(lines, detect, Step(s, lines[k], detect))
    ensures Step(s, lines[k], detect).pos == Extent(lines[..k + 1])
  {
    ExtentAppend(lines[..k], lines[k]);
    assert lines[..k + 1] == lines[..k] + [lines[k]];
    if Drops(s, lines[k], detect) {
      assert Headed(lines, detect, detect(lines[k]).value, s.pos);
    }
  }

  lemma {:induction false} FoldStaysHeaded(lines: seq<string>, detect: Detector, s: State, k: nat)
    requires k <= |lines| && s.pos == Extent(lines[..k]) && AllHeaded(lines, detect, s)
    ensures AllHeaded(lines, detect, Fold(s, lines[k..], detect))
    decreases |lines| - k
  {
    if k < |lines| {
      StepStaysHeaded(lines, detect, s, k);
      assert lines[k..][1..] == lines[k + 1..];
      FoldStaysHeaded(lines, detect, Step(s, lines[k], detect), k + 1);
    }
  }

  /** Every section carries the label detected on the line it starts at, or opens the document. */
  lemma SectionsAreHeaded(text: string, detect: Detector, i: nat)
    requires i < |Segment(text, detect)|
    ensures var section := Segment(text, detect)[i];
            Headed(Lines(text), detect, section.heading, section.start)
            || (|Segment(text, detect)| == 1 && section.heading == "other" && section.start == 0)
  {
    var lines := Lines(text);
    assert lines[0..] == lines && lines[..0] == [];
    FoldStaysHeaded(lines, detect, START, 0);
  }

  // ---- which lines a section holds ----

  /** Lines `a` to `b` follow the heading in line `a - 1`, or open the document, and hold no later heading. */
  predicate Follows(lines: seq<string>, detect: Detector, heading: string, start: nat, a: nat, b: nat) {
    && a <= b <= |lines|
    && (if a == 0 then heading == "summary" && start == 0
        else detect(lines[a - 1]) == Some(heading) && start == Extent(lines[..a - 1]))
    && forall j :: a < j < b ==> detect(lines[j]).None?
  }

  /** The section is the stripped text of such lines, up to the next heading or the end. */
  predicate HoldsLines(lines: seq<string>, detect: Detector, section: Section, a: nat, b: nat) {
    && Follows(lines, detect, section.heading, section.start, a, b)
    && (b == |lines| || (a < b && detect(lines[b]).Some?))
    && section.text == Strip(Join("\n", lines[a..b])) && section.text != ""
    && section.end == section.start + |section.text|
  }

  ghost predicate AllHoldLines(lines: seq<string>, detect: Detector, sections: seq<Section>) {
    forall i :: 0 <= i < |sections| ==> HoldsSomeLines(lines, detect, sections[i])
  }

  ghost predicate HoldsSomeLines(lines: seq<string>, detect: Detector, section: Section) {
    exists a: nat, b: nat :: HoldsLines(lines, detect, section, a, b)
  }

  /** After `k` lines: the collected lines are those since line `a`. */
  ghost predicate Collecting(lines: seq<string>, detect: Detector, s: State, a: nat, k: nat) {
    && k <= |lines| && s.pos == Extent(lines[..k])
    && Follows(lines, detect, s.heading, s.start, a, k) && s.lines == lines[a..k]
    && AllHoldLines(lines, detect, s.sections)
  }

  lemma FlushHoldsLines(lines: seq<string>, detect: Detector, s: State, a: nat, k: nat)
    requires Collecting(lines, detect, s, a, k)
    requires k == |lines| || (a < k && detect(lines[k]).Some?)
    ensures AllHoldLines(lines, detect, Flushed(s))
  {
    var text := Strip(Join("\n", s.lines));
    if text != "" {
      var added := Section(s.heading, text, s.start, s.start + |text|);
      assert HoldsLines(lines, detect, added, a, k);
      assert HoldsSomeLines(lines, detect, added);
    }
  }

  lemma StepCollects(lines: seq<string>, detect: Detector, s: State, a: nat, k: nat) returns (a': nat)
    requires Collecting(lines, detect, s, a, k) && k < |lines|
    ensures Collecting(lines, detect, Step(s, lines[k], detect), a', k + 1)
  {
    ExtentAppend(lines[..k], lines[k]);
    assert lines[..k + 1] == lines[..k] + [lines[k]];
    if Drops(s, lines[k], detect) {
      a' := k + 1;
      FlushHoldsLines(lines, detect, s, a, k);
    } else {
      a' := a;
      assert lines[a..k + 1] == lines[a..k] + [lines[k]];
    }
  }

  lemma {:induction false} FoldCollects(lines: seq<string>, detect: Detector, s: State, a: nat, k: nat) returns (a': nat)
    requires Collecting(lines, detect, s, a, k)
    ensures Collecting(lines, detect, Fold(s, lines[k..], detect), a', |lines|)
    decreases |lines| - k
  {
    if k == |lines| {
      a' := a;
    } else {
      var next := StepCollects(lines, detect, s, a, k);
      assert lines[k..][1..] == lines[k + 1..];
      a' := FoldCollects(lines, detect, Step(s, lines[k], detect), next, k + 1);
    }
  }

  /**
   Every section holds the lines from its heading, or from the top, to the next heading that
   follows a line, and nothing else; a document without any text is one section of its own.
   */
  lemma SectionsHoldTheirLines(text: string, detect: Detector)
    ensures || AllHoldLines(Lines(text), detect, Segment(text, detect))
            || Segment(text, detect) == [Section("other", Strip(text), 0, |Strip(text)|)]
  {
    var lines := Lines(text);
    assert lines[0..] == lines && lines[..0] == [] && lines[0..0] == [];
    var a := FoldCollects(lines, detect, START, 0, 0);
    FlushHoldsLines(lines, detect, Fold(START, lines, detect), a, |lines|);
  }
}
