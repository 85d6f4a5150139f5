/**
 Splitting a text into chunks of about a target number of words
 (serving/app/services/chunking.py, `_split_into_word_chunks`).
 */
module WordChunks {
  import opened Sorting
  import opened Text

  datatype Span = Span(content: string, start: nat, end: nat)

  // ---- sentences ----

  predicate EndsSentence(c: char) {
    c == '.' || c == '!' || c == '?'
  }

  /** The first whitespace right after a sentence end, or the length of the text. */
  function Break(text: string, i: nat): (b: nat)
    requires 1 <= i
    ensures b < |text| ==> 1 <= b && IsSpace(text[b])
    ensures b <= |text|
    decreases |text| - i
  {
    if i >= |text| then |text|
    else if EndsSentence(text[i - 1]) && IsSpace(text[i]) then i
    else Break(text, i + 1)
  }

  /** The text cut at whitespace runs that follow a sentence end; the runs are dropped. */
  function Sentences(text: string): seq<string>
    decreases |text|
  {
    var b := Break(text, 1);
    if b == |text| then [text] else [text[..b]] + Sentences(LeftTrimmed(text[b..]))
  }

  lemma {:induction false} SentencesKeepWords(text: string)
    ensures FlatWords(Sentences(text)) == Words(text)
    decreases |text|
  {
    var b := Break(text, 1);
    if b == |text| {
      assert FlatWords([text]) == Words(text) + [];
    } else {
      var rest := LeftTrimmed(text[b..]);
      SentencesKeepWords(rest);
      LeftTrimmedKeepsWords(text[b..]);
      WordsCut(text[..b], text[b..]);
      assert text == text[..b] + text[b..];
    }
  }

  /** A sentence end with white space right after it. */
  predicate BreaksAt(text: string, i: nat) {
    1 <= i < |text| && text[i - 1] in {'.', '!', '?'} && IsSpace(text[i])
  }

  lemma {:induction false} BreakIsFirst(text: string, i: nat)
    requires 1 <= i
    ensures forall j: nat :: i <= j < Break(text, i) ==> !BreaksAt(text, j)
    ensures Break(text, i) < |text| ==> BreaksAt(text, Break(text, i))
    decreases |text| - i
  {
    if i < |text| && !(EndsSentence(text[i - 1]) && IsSpace(text[i])) {
      BreakIsFirst(text, i + 1);
    }
  }

  lemma {:induction false} LeftTrimmedIsRest(s: string) returns (gap: string)
    ensures s == gap + LeftTrimmed(s) && AllSpace(gap)
    ensures s != "" && IsSpace(s[0]) ==> gap != ""
  {
    if s != "" && IsSpace(s[0]) {
      var more := LeftTrimmedIsRest(s[1..]);
      gap := [s[0]] + more;
    } else {
      gap := "";
    }
  }

  /** The parts with the gaps between them. */
  function Interleaved(parts: seq<string>, gaps: seq<string>): string
    requires |parts| == |gaps| + 1
  {
    if gaps == [] then parts[0] else parts[0] + gaps[0] + Interleaved(parts[1..], gaps[1..])
  }

  /** Cut wherever a sentence ends before white space, and nowhere else. */
  predicate AreSentences(parts: seq<string>, gaps: seq<string>) {
    && |parts| == |gaps| + 1
    && (forall i :: 0 <= i < |parts| ==> forall j: nat | j < |parts[i]| :: !BreaksAt(parts[i], j))
    && (forall i :: 0 <= i < |gaps| ==> gaps[i] != "" && AllSpace(gaps[i]))
    && (forall i :: 0 <= i < |gaps| ==> parts[i] != "" && parts[i][|parts[i]| - 1] in {'.', '!', '?'})
    && (forall i :: 0 < i < |parts| ==> parts[i] == "" || !IsSpace(parts[i][0]))
  }

  lemma OneMoreSentence(first: string, gap: string, parts: seq<string>, gaps: seq<string>)
    requires AreSentences(parts, gaps) && gap != "" && AllSpace(gap)
    requires first != "" && first[|first| - 1] in {'.', '!', '?'} && forall j: nat | j < |first| :: !BreaksAt(first, j)
    requires parts[0] == "" || !IsSpace(parts[0][0])
    ensures AreSentences([first] + parts, [gap] + gaps)
    ensures Interleaved([first] + parts, [gap] + gaps) == first + gap + Interleaved(parts, gaps)
  {
    assert ([first] + parts)[1..] == parts && ([gap] + gaps)[1..] == gaps;
  }

  lemma NoBreakInFront(text: string, b: nat)
    requires b <= |text| && forall j: nat :: 1 <= j < b ==> !BreaksAt(text, j)
    ensures forall j: nat | j < b :: !BreaksAt(text[..b], j)
  {
    forall j: nat | j < b ensures !BreaksAt(text[..b], j) {
      assert 1 <= j ==> !BreaksAt(text, j);
    }
  }

  /** Where the first sentence is cut off. */
  lemma FirstSentence(text: string) returns (gap: string)
    requires Break(text, 1) < |text|
    ensures var b := Break(text, 1);
            var first, rest := text[..b], LeftTrimmed(text[b..]);
            && first != "" && first[|first| - 1] in {'.', '!', '?'} && first[0] == text[0]
            && (forall j: nat | j < |first| :: !BreaksAt(first, j))
            && gap != "" && AllSpace(gap) && text == first + gap + rest
            && (rest == "" || !IsSpace(rest[0]))
  {
    var b := Break(text, 1);
    BreakIsFirst(text, 1);
    NoBreakInFront(text, b);
    gap := LeftTrimmedIsRest(text[b..]);
    LeftTrimmedKeepsWords(text[b..]);
    assert text == text[..b] + text[b..];
  }

  lemma OneSentence(text: string)
    requires Break(text, 1) == |text|
    ensures AreSentences([text], []) && Interleaved([text], []) == text
  {
    BreakIsFirst(text, 1);
  }

  /** The sentences of a text, with the white space that was dropped between them, are the text. */
  lemma {:induction false} SentencesAreCutAtEnds(text: string) returns (gaps: seq<string>)
    ensures AreSentences(Sentences(text), gaps) && Interleaved(Sentences(text), gaps) == text
    ensures text != "" ==> Sentences(text)[0] != "" && Sentences(text)[0][0] == text[0]
    ensures text == "" ==> Sentences(text)[0] == ""
    decreases |text|
  {
    var b := Break(text, 1);
    if b == |text| {
      OneSentence(text);
      gaps := [];
    } else {
      var gap := FirstSentence(text);
      var rest := LeftTrimmed(text[b..]);
      var more := SentencesAreCutAtEnds(rest);
      OneMoreSentence(text[..b], gap, Sentences(rest), more);
      gaps := [gap] + more;
    }
  }

  // ---- packing sentences ----

  /** Sentences packed greedily: a sentence that would overflow a started chunk opens the next. */
  function Packed(sentences: seq<string>, target: int, current: seq<string>): seq<seq<string>>
    decreases |sentences|
  {
    if sentences == [] then (if current == [] then [] else [current])
    else
      var ws := Words(sentences[0]);
      if current != [] && |current| + |ws| > target then [current] + Packed(sentences[1..], target, ws)
      else Packed(sentences[1..], target, current + ws)
  }

  /** A chunk is within the target, or it is exactly one sentence. */
  predicate FitsOrSentence(chunk: seq<string>, target: int, sentences: seq<string>) {
    |chunk| <= target || exists i :: 0 <= i < |sentences| && chunk == Words(sentences[i])
  }

  /** The started chunk stays at the front of the first chunk that comes out. */
  lemma {:induction false} StartedChunkIsFirst(sentences: seq<string>, target: int, current: seq<string>)
    requires current != []
    ensures var groups := Packed(sentences, target, current); groups != [] && current <= groups[0]
    decreases |sentences|
  {
    if sentences != [] {
      var ws := Words(sentences[0]);
      if |current| + |ws| <= target {
        StartedChunkIsFirst(sentences[1..], target, current + ws);
      }
    }
  }

  lemma {:induction false} PackingKeepsWords(sentences: seq<string>, target: int, current: seq<string>)
    ensures var groups := Packed(sentences, target, current);
            && Flatten(groups) == current + FlatWords(sentences)
            && forall i :: 0 <= i < |groups| ==> groups[i] != []
    decreases |sentences|
  {
    if sentences == [] {
      assert Flatten([current]) == current + Flatten([]);
    } else {
      var ws, rest := Words(sentences[0]), sentences[1..];
      if current != [] && |current| + |ws| > target {
        PackingKeepsWords(rest, target, ws);
      } else {
        PackingKeepsWords(rest, target, current + ws);
        assert current + ws + FlatWords(rest) == current + (ws + FlatWords(rest));
      }
    }
  }

  lemma {:induction false} PackedChunksFit(sentences: seq<string>, target: int, current: seq<string>, all: seq<string>, i: nat)
    requires current == [] || FitsOrSentence(current, target, all)
    requires forall s :: s in sentences ==> s in all
    requires i < |Packed(sentences, target, current)|
    ensures FitsOrSentence(Packed(sentences, target, current)[i], target, all)
    decreases |sentences|
  {
    if sentences != [] {
      var ws, rest := Words(sentences[0]), sentences[1..];
      assert sentences[0] in all;
      if current != [] && |current| + |ws| > target {
        if i > 0 {
          PackedChunksFit(rest, target, ws, all, i - 1);
        }
      } else {
        if current == [] {
          assert current + ws == ws;
        }
        PackedChunksFit(rest, target, current + ws, all, i);
      }
    }
  }

  /** No two neighbours would fit together. */
  lemma {:induction false} PackingIsGreedy(sentences: seq<string>, target: int, current: seq<string>, i: nat)
    requires i + 1 < |Packed(sentences, target, current)|
    ensures var groups := Packed(sentences, target, current); |groups[i]| + |groups[i + 1]| > target
    decreases |sentences|
  {
    var ws, rest := Words(sentences[0]), sentences[1..];
    if current != [] && |current| + |ws| > target {
      if i > 0 {
        PackingIsGreedy(rest, target, ws, i - 1);
      } else if ws != [] {
        StartedChunkIsFirst(rest, target, ws);
      }
    } else {
      PackingIsGreedy(rest, target, current + ws, i);
    }
  }

  // ---- pieces ----

  /** Chunks written out with single spaces, one character apart. */
  function Spaced(groups: seq<seq<string>>, start: nat): seq<Span>
    decreases |groups|
  {
    if groups == [] then []
    else
      var content := Join(" ", groups[0]);
      [Span(content, start, start + |content|)] + Spaced(groups[1..], start + |content| + 1)
  }

  function Pieces(text: string, target: int, base: nat): seq<Span> {
    if Strip(text) == "" then []
    else if |Words(text)| <= target then [Span(Strip(text), base, base + |Strip(text)|)]
    else Spaced(Packed(Sentences(text), target, []), base)
  }

  /** Write out the started chunk. */
  method Flush(current: seq<string>, start: nat) returns (flushed: Span, next: nat)
    requires AreWords(current) && current != []
    ensures forall rest: seq<seq<string>> :: Spaced([current] + rest, start) == [flushed] + Spaced(rest, next)
  {
    var content := Strip(Join(" ", current));
    JoinedWords(current);
    StripOfTrimmed(Join(" ", current));
    flushed, next := Span(content, start, start + |content|), start + |content| + 1;
    forall rest: seq<seq<string>> ensures Spaced([current] + rest, start) == [flushed] + Spaced(rest, next) {
      assert ([current] + rest)[1..] == rest;
    }
  }

  /** Sentence by sentence; no started chunk is blank, so the check for blank chunks never drops one. */
  method PackSentences(sentences: seq<string>, target: int, base: nat) returns (chunks: seq<Span>)
    ensures chunks == Spaced(Packed(sentences, target, []), base)
  {
    chunks := [];
    var current: seq<string> := [];
    var start: nat := base;
    assert sentences[0..] == sentences;
    for i := 0 to |sentences|
      invariant AreWords(current)
      invariant Spaced(Packed(sentences, target, []), base) == chunks + Spaced(Packed(sentences[i..], target, current), start)
    {
      var ws := Words(sentences[i]);
      WordsAreWords(sentences[i]);
      assert sentences[i..][1..] == sentences[i + 1..];
      if current != [] && |current| + |ws| > target {
        var flushed, next := Flush(current, start);
        chunks, start, current := chunks + [flushed], next, ws;
      } else {
        current := current + ws;
      }
    }
    if current != [] {
      var flushed, next := Flush(current, start);
      assert [current] + [] == [current];
      chunks := chunks + [flushed];
    }
  }

  method SplitIntoWordChunks(text: string, target: int, base: nat) returns (chunks: seq<Span>)
    ensures chunks == Pieces(text, target, base)
  {
    if Strip(text) == "" {
      return [];
    }
    if |Words(text)| <= target {
      return [Span(Strip(text), base, base + |Strip(text)|)];
    }
    chunks := PackSentences(Sentences(text), target, base);
  }

  function Contents(spans: seq<Span>): seq<string> {
    Map((s: Span) => s.content, spans)
  }

  predicate WordGroups(groups: seq<seq<string>>) {
    forall i :: 0 <= i < |groups| ==> groups[i] != [] && AreWords(groups[i])
  }

  lemma {:induction false} GroupsOfWords(groups: seq<seq<string>>)
    requires AreWords(Flatten(groups)) && forall i :: 0 <= i < |groups| ==> groups[i] != []
    ensures WordGroups(groups)
  {
    if groups != [] {
      var rest := Flatten(groups[1..]);
      assert forall i :: 0 <= i < |rest| ==> rest[i] == Flatten(groups)[|groups[0]| + i];
      assert forall i :: 0 <= i < |groups[0]| ==> groups[0][i] == Flatten(groups)[i];
      GroupsOfWords(groups[1..]);
    }
  }

  lemma {:induction false} SpacedContents(groups: seq<seq<string>>, start: nat)
    ensures |Spaced(groups, start)| == |groups|
    ensures forall i :: 0 <= i < |groups| ==> Spaced(groups, start)[i].content == Join(" ", groups[i])
    decreases |groups|
  {
    if groups != [] {
      SpacedContents(groups[1..], start + |Join(" ", groups[0])| + 1);
    }
  }

  lemma {:induction false} JoinedGroupsKeepWords(contents: seq<string>, groups: seq<seq<string>>)
    requires WordGroups(groups) && |contents| == |groups|
    requires forall i :: 0 <= i < |groups| ==> contents[i] == Join(" ", groups[i])
    ensures FlatWords(contents) == Flatten(groups)
  {
    if groups != [] {
      JoinedWords(groups[0]);
      JoinedGroupsKeepWords(contents[1..], groups[1..]);
    }
  }

  lemma SpacedWords(groups: seq<seq<string>>, start: nat)
    requires WordGroups(groups)
    ensures var spans := Spaced(groups, start);
            && |spans| == |groups| && FlatWords(Contents(spans)) == Flatten(groups)
            && forall i :: 0 <= i < |spans| ==> Words(spans[i].content) == groups[i]
  {
    SpacedContents(groups, start);
    JoinedGroupsKeepWords(Contents(Spaced(groups, start)), groups);
    forall i | 0 <= i < |groups| ensures Words(Join(" ", groups[i])) == groups[i] {
      JoinedWords(groups[i]);
    }
  }

  predicate SpanInside(s: Span, lo: nat, hi: nat) {
    lo <= s.start && s.end == s.start + |s.content| <= hi
  }

  /** Spans one blank apart, from `start` on, inside the room. */
  predicate Fills(spans: seq<Span>, start: nat, room: nat) {
    && (forall i :: 0 <= i < |spans| ==> SpanInside(spans[i], start, start + room))
    && (forall i :: 0 <= i < |spans| - 1 ==> spans[i + 1].start == spans[i].end + 1)
    && (spans != [] ==> spans[0].start == start)
  }

  lemma FillsOneMore(first: Span, rest: seq<Span>, start: nat, length: nat, room: nat)
    requires SpanInside(first, start, start + length) && first.start == start && first.end == start + length
    requires Fills(rest, start + length + 1, room)
    ensures Fills([first] + rest, start, if rest == [] then length else length + 1 + room)
  {
    var spans := [first] + rest;
    forall i | 1 <= i < |spans| ensures spans[i] == rest[i - 1] {
    }
  }

  /** Spaced chunks fill exactly the room their words take when joined. */
  lemma {:induction false} SpacedRoom(groups: seq<seq<string>>, start: nat)
    requires WordGroups(groups)
    ensures |Spaced(groups, start)| == |groups|
    ensures Fills(Spaced(groups, start), start, |Join(" ", Flatten(groups))|)
    decreases |groups|
  {
    if groups != [] {
      var content, rest := Join(" ", groups[0]), groups[1..];
      SpacedRoom(rest, start + |content| + 1);
      var spans := Spaced(groups, start);
      FillsOneMore(spans[0], Spaced(rest, start + |content| + 1), start, |content|, |Join(" ", Flatten(rest))|);
      JoinedRoom(groups);
    }
  }

  lemma JoinedRoom(groups: seq<seq<string>>)
    requires groups != [] && WordGroups(groups)
    ensures var content, rest := Join(" ", groups[0]), groups[1..];
            |Join(" ", Flatten(groups))| == if rest == [] then |content| else |content| + 1 + |Join(" ", Flatten(rest))|
  {
    var rest := groups[1..];
    if rest == [] {
      assert Flatten(groups) == groups[0];
    } else {
      assert rest[0] != [];
      assert Flatten(rest) == rest[0] + Flatten(rest[1..]);
      JoinConcat(" ", groups[0], Flatten(rest));
    }
  }

  /** The pieces of a text hold exactly its words, in order. */
  lemma PiecesKeepWords(text: string, target: int, base: nat)
    ensures FlatWords(Contents(Pieces(text, target, base))) == Words(text)
    ensures Pieces(text, target, base) == [] <==> Words(text) == []
    ensures forall i :: 0 <= i < |Pieces(text, target, base)| ==> Words(Pieces(text, target, base)[i].content) != []
  {
    StripKeepsWords(text);
    if Strip(text) != "" {
      if |Words(text)| <= target {
        var p := Pieces(text, target, base);
        assert Contents(p) == [Strip(text)];
        assert FlatWords(Contents(p)) == Words(Strip(text)) + [];
      } else {
        var groups := PackedGroups(text, target);
        SpacedWords(groups, base);
      }
    }
  }

  lemma PackedGroups(text: string, target: int) returns (groups: seq<seq<string>>)
    ensures groups == Packed(Sentences(text), target, [])
    ensures WordGroups(groups) && Flatten(groups) == Words(text)
  {
    groups := Packed(Sentences(text), target, []);
    SentencesKeepWords(text);
    PackingKeepsWords(Sentences(text), target, []);
    WordsAreWords(text);
    assert [] + FlatWords(Sentences(text)) == Words(text);
    GroupsOfWords(groups);
  }

  /** A text within the target is one piece, stripped; any other is written out word by word, with single spaces. */
  lemma PiecesAreWrittenOut(text: string, target: int, base: nat)
    ensures Words(text) != [] && |Words(text)| <= target ==>
              Pieces(text, target, base) == [Span(Strip(text), base, base + |Strip(text)|)]
    ensures |Words(text)| > target ==>
              forall i :: 0 <= i < |Pieces(text, target, base)| ==>
                Pieces(text, target, base)[i].content == Join(" ", Words(Pieces(text, target, base)[i].content))
  {
    StripKeepsWords(text);
    if |Words(text)| > target {
      var groups := PackedGroups(text, target);
      SpacedContents(groups, base);
      SpacedWords(groups, base);
    }
  }

  /** Each piece is within the target or is a single sentence of the text. */
  lemma PiecesFit(text: string, target: int, base: nat, i: nat)
    requires i < |Pieces(text, target, base)|
    ensures FitsOrSentence(Words(Pieces(text, target, base)[i].content), target, Sentences(text))
  {
    StripKeepsWords(text);
    if |Words(text)| > target {
      var groups := PackedGroups(text, target);
      SpacedWords(groups, base);
      PackedChunksFit(Sentences(text), target, [], Sentences(text), i);
    }
  }

  /** No two neighbouring pieces would fit the target together. */
  lemma PiecesAreGreedy(text: string, target: int, base: nat, i: nat)
    requires i + 1 < |Pieces(text, target, base)|
    ensures var pieces := Pieces(text, target, base);
            |Words(pieces[i].content)| + |Words(pieces[i + 1].content)| > target
  {
    var groups := PackedGroups(text, target);
    SpacedWords(groups, base);
    PackingIsGreedy(Sentences(text), target, [], i);
  }

  /** Pieces lie one character apart, from the base, inside the room of the stripped text. */
  lemma PiecesStayInside(text: string, target: int, base: nat)
    ensures var pieces := Pieces(text, target, base);
            && (forall i :: 0 <= i < |pieces| ==> SpanInside(pieces[i], base, base + |Strip(text)|))
            && (forall i :: 0 <= i < |pieces| - 1 ==> pieces[i + 1].start == pieces[i].end + 1)
            && (pieces != [] ==> pieces[0].start == base)
  {
    if Strip(text) != "" && |Words(text)| > target {
      var groups := PackedGroups(text, target);
      SpacedRoom(groups, base);
      WordsTakeLessRoom(text);
    }
  }

  lemma WordsTakeLessRoom(text: string)
    ensures |Join(" ", Words(text))| <= |Strip(text)|
  {
    StripKeepsWords(text);
    JoinedNoLonger(Strip(text));
  }
}
