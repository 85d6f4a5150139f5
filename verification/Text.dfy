/** Python's `str.strip`, `str.split()` and `str.join`. */
module Text {

  /** The characters `str.isspace` accepts. */
  predicate IsSpace(c: char) {
    var n := c as int;
    || 0x09 <= n <= 0x0D || 0x1C <= n <= 0x20 || n == 0x85 || n == 0xA0 || n == 0x1680
    || 0x2000 <= n <= 0x200A || n == 0x2028 || n == 0x2029 || n == 0x202F || n == 0x205F || n == 0x3000
  }

  predicate NoSpace(s: string) {
    forall i :: 0 <= i < |s| ==> !IsSpace(s[i])
  }

  predicate AllSpace(s: string) {
    forall i :: 0 <= i < |s| ==> IsSpace(s[i])
  }

  function LeftTrimmed(s: string): (t: string)
    ensures |t| <= |s|
  {
    if s != [] && IsSpace(s[0]) then LeftTrimmed(s[1..]) else s
  }

  function RightTrimmed(s: string): string {
    if s != [] && IsSpace(s[|s| - 1]) then RightTrimmed(s[..|s| - 1]) else s
  }

  function Strip(s: string): string {
    RightTrimmed(LeftTrimmed(s))
  }

  function Join(separator: string, parts: seq<string>): string {
    if parts == [] then ""
    else if |parts| == 1 then parts[0]
    else parts[0] + separator + Join(separator, parts[1..])
  }

  /** The words of a text: its maximal runs of non-space characters. */
  function Words(s: string): seq<string>
    decreases |s|
  {
    if s == [] then []
    else if IsSpace(s[0]) then Words(s[1..])
    else
      var n := RunLength(s);
      [s[..n]] + Words(s[n..])
  }

  function RunLength(s: string): (n: nat)
    ensures n <= |s| && NoSpace(s[..n])
    ensures n < |s| ==> IsSpace(s[n])
    ensures s != [] && !IsSpace(s[0]) ==> n > 0
  {
    if s == [] || IsSpace(s[0]) then 0 else 1 + RunLength(s[1..])
  }

  // ---- words ----

  predicate IsWord(w: string) {
    w != "" && NoSpace(w)
  }

  predicate AreWords(ws: seq<string>) {
    forall i :: 0 <= i < |ws| ==> IsWord(ws[i])
  }

  lemma {:induction false} WordsAreWords(s: string)
    ensures AreWords(Words(s))
    decreases |s|
  {
    if s != "" {
      if IsSpace(s[0]) {
        WordsAreWords(s[1..]);
      } else {
        WordsAreWords(s[RunLength(s)..]);
      }
    }
  }

  lemma {:induction false} RunStopsAtSpace(a: string, b: string)
    requires b != "" ==> IsSpace(b[0])
    ensures RunLength(a + b) == RunLength(a)
  {
    if a == "" {
      assert a + b == b;
    } else {
      assert (a + b)[1..] == a[1..] + b;
      RunStopsAtSpace(a[1..], b);
    }
  }

  /** A text cut at whitespace has the words of its two halves. */
  lemma {:induction false} WordsCut(a: string, b: string)
    requires b != "" ==> IsSpace(b[0])
    ensures Words(a + b) == Words(a) + Words(b)
    decreases |a|
  {
    if a == "" {
      assert a + b == b;
    } else if IsSpace(a[0]) {
      assert (a + b)[1..] == a[1..] + b;
      WordsCut(a[1..], b);
    } else {
      var n := RunLength(a);
      RunStopsAtSpace(a, b);
      assert (a + b)[..n] == a[..n] && (a + b)[n..] == a[n..] + b;
      WordsCut(a[n..], b);
      assert Words(a + b) == [a[..n]] + (Words(a[n..]) + Words(b));
    }
  }

  lemma {:induction false} SpaceHasNoWords(s: string)
    requires AllSpace(s)
    ensures Words(s) == []
  {
    if s != "" {
      SpaceHasNoWords(s[1..]);
    }
  }

  /** Whitespace between two texts adds no words. */
  lemma WordsAround(a: string, space: string, b: string)
    requires space != "" && AllSpace(space)
    ensures Words(a + space + b) == Words(a) + Words(b)
  {
    assert a + space + b == a + (space + b);
    WordsCut(a, space + b);
    WordsAfterSpace(space, b);
  }

  lemma {:induction false} WordsAfterSpace(space: string, b: string)
    requires AllSpace(space)
    ensures Words(space + b) == Words(b)
  {
    if space == "" {
      assert space + b == b;
    } else {
      assert (space + b)[1..] == space[1..] + b;
      WordsAfterSpace(space[1..], b);
    }
  }

  lemma {:induction false} LeftTrimmedKeepsWords(s: string)
    ensures Words(LeftTrimmed(s)) == Words(s)
    ensures LeftTrimmed(s) == "" || !IsSpace(LeftTrimmed(s)[0])
  {
    if s != "" && IsSpace(s[0]) {
      LeftTrimmedKeepsWords(s[1..]);
    }
  }

  lemma {:induction false} RightTrimmedKeepsWords(s: string)
    ensures Words(RightTrimmed(s)) == Words(s) && |RightTrimmed(s)| <= |s|
    ensures s != "" && !IsSpace(s[0]) ==> RightTrimmed(s) != "" && RightTrimmed(s)[0] == s[0]
    ensures RightTrimmed(s) == "" || !IsSpace(RightTrimmed(s)[|RightTrimmed(s)| - 1])
    decreases |s|
  {
    if s != "" && IsSpace(s[|s| - 1]) {
      var front, last := s[..|s| - 1], s[|s| - 1..];
      RightTrimmedKeepsWords(front);
      assert s == front + last;
      WordsCut(front, last);
      SpaceHasNoWords(last);
      assert Words(front) + [] == Words(front);
    }
  }

  predicate Trimmed(s: string) {
    s != "" ==> !IsSpace(s[0]) && !IsSpace(s[|s| - 1])
  }

  /** Stripping keeps the words, leaves no space at either end, and empties exactly the texts without words. */
  lemma StripKeepsWords(s: string)
    ensures Words(Strip(s)) == Words(s) && |Strip(s)| <= |s| && Trimmed(Strip(s))
    ensures Strip(s) == "" <==> Words(s) == []
  {
    LeftTrimmedKeepsWords(s);
    RightTrimmedKeepsWords(LeftTrimmed(s));
  }

  lemma StripOfTrimmed(s: string)
    requires Trimmed(s)
    ensures Strip(s) == s
  {
  }

  lemma WordIsItsWords(w: string)
    requires IsWord(w)
    ensures Words(w) == [w]
  {
    assert w[..|w|] == w && w[|w|..] == "";
  }

  /** Words joined by a space are split back, and the joined text has no outer space. */
  lemma {:induction false} JoinedWords(ws: seq<string>)
    requires AreWords(ws)
    ensures Words(Join(" ", ws)) == ws && Trimmed(Join(" ", ws))
    ensures Join(" ", ws) == "" <==> ws == []
  {
    if |ws| == 1 {
      WordIsItsWords(ws[0]);
    } else if ws != [] {
      var rest := Join(" ", ws[1..]);
      JoinedWords(ws[1..]);
      WordIsItsWords(ws[0]);
      WordsAround(ws[0], " ", rest);
    }
  }

  /** Rejoining the words of a text never makes it longer. */
  lemma {:induction false} JoinedNoLonger(s: string)
    ensures |Join(" ", Words(s))| <= |s|
    decreases |s|
  {
    if s != "" {
      if IsSpace(s[0]) {
        JoinedNoLonger(s[1..]);
      } else {
        var n := RunLength(s);
        var tail := s[n..];
        JoinedNoLonger(tail);
        if tail != "" {
          JoinedNoLonger(tail[1..]);
          assert Words(tail) == Words(tail[1..]);
        }
        assert Words(s)[1..] == Words(tail);
      }
    }
  }

  // ---- the words of several texts ----

  function FlatWords(parts: seq<string>): seq<string> {
    if parts == [] then [] else Words(parts[0]) + FlatWords(parts[1..])
  }

  lemma {:induction false} FlatWordsConcat(a: seq<string>, b: seq<string>)
    ensures FlatWords(a + b) == FlatWords(a) + FlatWords(b)
  {
    if a == [] {
      assert a + b == b;
    } else {
      assert (a + b)[0] == a[0] && (a + b)[1..] == a[1..] + b;
      FlatWordsConcat(a[1..], b);
    }
  }

  lemma FlatWordsAppend(a: seq<string>, t: string)
    ensures FlatWords(a + [t]) == FlatWords(a) + Words(t)
  {
    FlatWordsConcat(a, [t]);
    assert FlatWords([t]) == Words(t) + [];
  }

  /** Joining texts by whitespace keeps their words in order. */
  lemma {:induction false} JoinKeepsWords(separator: string, parts: seq<string>)
    requires separator != "" && AllSpace(separator)
    ensures Words(Join(separator, parts)) == FlatWords(parts)
  {
    if |parts| == 1 {
      assert FlatWords(parts) == Words(parts[0]) + [];
    } else if parts != [] {
      JoinKeepsWords(separator, parts[1..]);
      WordsAround(parts[0], separator, Join(separator, parts[1..]));
    }
  }

  lemma {:induction false} JoinConcat(separator: string, a: seq<string>, b: seq<string>)
    requires a != [] && b != []
    ensures Join(separator, a + b) == Join(separator, a) + separator + Join(separator, b)
  {
    assert (a + b)[0] == a[0] && (a + b)[1..] == a[1..] + b;
    if |a| > 1 {
      JoinConcat(separator, a[1..], b);
    }
  }
}
