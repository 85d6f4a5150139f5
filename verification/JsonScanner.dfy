/**
 Isolating the JSON object in a model answer (`_extract_json_object` in
 serving/app/agents/jd_analyst.py, semantic_matching.py and extraction.py).

 The scanner keeps a brace depth and two string flags. It is related to a grammar of balanced
 text, in which braces inside string literals do not count, and to a JSON printer.
 */
module JsonScanner {
  import opened Wrappers

  datatype Error = NoObject | NeverClosed

  // ---- the scanner ----

  function Add(n: nat, consumed: Option<nat>): Option<nat> {
    match consumed
    case None => None
    case Some(m) => Some(n + m)
  }

  /** The loop variables: braces open, inside a string literal, just after a backslash in one. */
  datatype State = State(depth: int, inString: bool, escaped: bool)

  function Next(s: State, c: char): State {
    if s.inString then
      if s.escaped then s.(escaped := false)
      else if c == '\\' then s.(escaped := true)
      else if c == '"' then s.(inString := false)
      else s
    else if c == '"' then s.(inString := true)
    else if c == '{' then s.(depth := s.depth + 1)
    else if c == '}' then s.(depth := s.depth - 1)
    else s
  }

  predicate Closes(s: State, c: char) {
    !s.inString && c == '}' && s.depth == 1
  }

  /** How many characters are consumed up to the brace that brings the depth back to zero. */
  function Scan(rest: string, s: State): Option<nat>
    decreases |rest|
  {
    if rest == [] then None
    else if Closes(s, rest[0]) then Some(1)
    else Add(1, Scan(rest[1..], Next(s, rest[0])))
  }

  lemma {:induction false} ScanStaysInside(rest: string, s: State)
    ensures Scan(rest, s).Some? ==> 1 <= Scan(rest, s).value <= |rest|
    decreases |rest|
  {
    if rest != [] {
      ScanStaysInside(rest[1..], Next(s, rest[0]));
    }
  }

  function Outside(depth: int): State { State(depth, false, false) }

  function Inside(depth: int): State { State(depth, true, false) }

  /** Where the first opening brace is, or the length of the text. */
  function FindBrace(text: string): (i: nat)
    ensures i <= |text| && '{' !in text[..i]
    ensures i < |text| ==> text[i] == '{'
  {
    if text == [] || text[0] == '{' then 0 else 1 + FindBrace(text[1..])
  }

  function Extract(text: string): Result<string, Error> {
    var start := FindBrace(text);
    if start == |text| then Err(NoObject)
    else
      ScanStaysInside(text[start..], Outside(0));
      match Scan(text[start..], Outside(0))
      case None => Err(NeverClosed)
      case Some(n) => Ok(text[start..start + n])
  }

  method ExtractJsonObject(text: string) returns (r: Result<string, Error>)
    ensures r == Extract(text)
  {
    var start := FindBrace(text);
    if start == |text| {
      return Err(NoObject);
    }
    var depth, inString, escaped := 0, false, false;
    for index := start to |text|
      invariant Scan(text[start..], Outside(0)) == Add(index - start, Scan(text[index..], State(depth, inString, escaped)))
    {
      var c := text[index];
      assert text[index..][1..] == text[index + 1..];
      if inString {
        if escaped {
          escaped := false;
        } else if c == '\\' {
          escaped := true;
        } else if c == '"' {
          inString := false;
        }
      } else if c == '"' {
        inString := true;
      } else if c == '{' {
        depth := depth + 1;
      } else if c == '}' {
        depth := depth - 1;
        if depth == 0 {
          return Ok(text[start..index + 1]);
        }
      }
    }
    return Err(NeverClosed);
  }

  // ---- balanced text ----

  /** One unit inside a string literal: a character that stands for itself, or an escaped one. */
  datatype Unit = Itself(c: char) | Escaped(c: char)

  /** A piece of balanced text: a neutral character, a string literal, or a braced group. */
  datatype Item = Neutral(c: char) | Literal(units: seq<Unit>) | Group(items: seq<Item>)

  predicate NeutralChar(c: char) {
    c != '"' && c != '{' && c != '}'
  }

  predicate GoodUnits(units: seq<Unit>) {
    forall i :: 0 <= i < |units| && units[i].Itself? ==> units[i].c != '"' && units[i].c != '\\'
  }

  predicate Good(item: Item) {
    match item
    case Neutral(c) => NeutralChar(c)
    case Literal(units) => GoodUnits(units)
    case Group(items) => GoodAll(items)
  }

  predicate GoodAll(items: seq<Item>) {
    items != [] ==> Good(items[0]) && GoodAll(items[1..])
  }

  function RenderUnit(unit: Unit): string {
    match unit
    case Itself(c) => [c]
    case Escaped(c) => ['\\', c]
  }

  function RenderUnits(units: seq<Unit>): string {
    if units == [] then "" else RenderUnit(units[0]) + RenderUnits(units[1..])
  }

  function Render(item: Item): string {
    match item
    case Neutral(c) => [c]
    case Literal(units) => ['"'] + RenderUnits(units) + ['"']
    case Group(items) => ['{'] + RenderAll(items) + ['}']
  }

  function RenderAll(items: seq<Item>): string {
    if items == [] then "" else Render(items[0]) + RenderAll(items[1..])
  }

  // ---- balanced text is scanned whole ----

  lemma ScanStep(c: char, tail: string, s: State)
    requires !Closes(s, c)
    ensures Scan([c] + tail, s) == Add(1, Scan(tail, Next(s, c)))
  {
    assert ([c] + tail)[1..] == tail;
  }

  lemma {:induction false} ScanUnits(units: seq<Unit>, rest: string, depth: int)
    requires GoodUnits(units)
    ensures Scan(RenderUnits(units) + ['"'] + rest, Inside(depth))
         == Add(|RenderUnits(units)| + 1, Scan(rest, Outside(depth)))
  {
    var text := RenderUnits(units) + ['"'] + rest;
    if units == [] {
      assert text[1..] == rest;
    } else {
      var tail := RenderUnits(units[1..]) + ['"'] + rest;
      ScanUnits(units[1..], rest, depth);
      match units[0]
      case Itself(c) =>
        assert text[0] == c && text[1..] == tail;
      case Escaped(c) =>
        assert text[0] == '\\' && text[1..][0] == c && text[1..][1..] == tail;
    }
  }

  lemma ScanLiteral(units: seq<Unit>, rest: string, depth: int)
    requires GoodUnits(units)
    ensures var literal := Render(Literal(units));
            Scan(literal + rest, Outside(depth)) == Add(|literal|, Scan(rest, Outside(depth)))
  {
    ScanUnits(units, rest, depth);
    var text := Render(Literal(units)) + rest;
    assert text[0] == '"' && text[1..] == RenderUnits(units) + ['"'] + rest;
  }

  lemma {:induction false} ScanItem(item: Item, rest: string, depth: nat)
    requires Good(item) && depth >= 1
    ensures Scan(Render(item) + rest, Outside(depth)) == Add(|Render(item)|, Scan(rest, Outside(depth)))
    decreases item, 0
  {
    match item
    case Neutral(c) =>
      ScanStep(c, rest, Outside(depth));
    case Literal(units) =>
      ScanLiteral(units, rest, depth);
    case Group(items) =>
      var inner, closing := RenderAll(items), ['}'] + rest;
      ScanItems(items, closing, depth + 1);
      OpensGroup(inner + closing, depth);
      ClosesGroup(rest, depth);
      AddThrice(|inner|, Scan(rest, Outside(depth)));
      BracesAround(inner, rest);
  }

  lemma OpensGroup(tail: string, depth: nat)
    ensures Scan(['{'] + tail, Outside(depth)) == Add(1, Scan(tail, Outside(depth + 1)))
  {
    ScanStep('{', tail, Outside(depth));
  }

  lemma ClosesGroup(rest: string, depth: nat)
    requires depth >= 1
    ensures Scan(['}'] + rest, Outside(depth + 1)) == Add(1, Scan(rest, Outside(depth)))
  {
    ScanStep('}', rest, Outside(depth + 1));
  }

  lemma BracesAround(inner: string, rest: string)
    ensures ['{'] + inner + ['}'] + rest == ['{'] + (inner + (['}'] + rest))
    ensures |['{'] + inner + ['}']| == |inner| + 2
  {
  }

  lemma AddThrice(n: nat, consumed: Option<nat>)
    ensures Add(1, Add(n, Add(1, consumed))) == Add(n + 2, consumed)
  {
  }

  lemma {:induction false} ScanItems(items: seq<Item>, rest: string, depth: nat)
    requires GoodAll(items) && depth >= 1
    ensures Scan(RenderAll(items) + rest, Outside(depth)) == Add(|RenderAll(items)|, Scan(rest, Outside(depth)))
    decreases items, 1
  {
    if items == [] {
      assert RenderAll(items) + rest == rest;
    } else {
      var after := RenderAll(items[1..]) + rest;
      ScanItem(items[0], after, depth);
      ScanItems(items[1..], rest, depth);
      assert RenderAll(items) + rest == Render(items[0]) + after;
    }
  }

  lemma {:induction false} FindBraceSkips(prefix: string, rest: string)
    requires '{' !in prefix && rest != [] && rest[0] == '{'
    ensures FindBrace(prefix + rest) == |prefix|
  {
    if prefix == [] {
      assert prefix + rest == rest;
    } else {
      assert (prefix + rest)[1..] == prefix[1..] + rest;
      FindBraceSkips(prefix[1..], rest);
    }
  }

  lemma ScanGroup(items: seq<Item>, suffix: string)
    requires GoodAll(items)
    ensures Scan(Render(Group(items)) + suffix, Outside(0)) == Some(|Render(Group(items))|)
  {
    var text, tail := Render(Group(items)) + suffix, ['}'] + suffix;
    ScanItems(items, tail, 1);
    assert text[0] == '{' && text[1..] == RenderAll(items) + tail;
  }

  /** Whatever surrounds it, a balanced group after a text without opening braces is what comes out. */
  lemma GroupIsExtracted(prefix: string, items: seq<Item>, suffix: string)
    requires '{' !in prefix && GoodAll(items)
    ensures Extract(prefix + Render(Group(items)) + suffix) == Ok(Render(Group(items)))
  {
    var group := Render(Group(items));
    var rest := group + suffix;
    assert prefix + group + suffix == prefix + rest;
    FindBraceSkips(prefix, rest);
    ScanGroup(items, suffix);
    assert (prefix + rest)[|prefix|..] == rest;
    assert rest[..|group|] == group;
  }

  /** An introduction that mentions a placeholder in braces hides the object behind it, whatever that is. */
  lemma PlaceholderIsExtracted(answer: string)
    ensures Extract("Fill in {x}: " + answer) == Ok("{x}")
  {
    var items := [Neutral('x')];
    assert items[1..] == [];
    assert RenderAll(items) == "x" + RenderAll([]);
    assert Render(Group(items)) == "{x}";
    GroupIsExtracted("Fill in ", items, ": " + answer);
    assert "Fill in {x}: " == "Fill in " + "{x}" + ": ";
    assert "Fill in {x}: " + answer == "Fill in " + "{x}" + (": " + answer);
  }

  // ---- whatever is extracted is balanced ----

  /** The text that closes one open group per layer. */
  function Closing(layers: seq<seq<Item>>): string {
    if layers == [] then "" else RenderAll(layers[0]) + ['}'] + Closing(layers[1..])
  }

  predicate GoodLayers(layers: seq<seq<Item>>) {
    forall i :: 0 <= i < |layers| ==> GoodAll(layers[i])
  }

  lemma UnitFirst(unit: Unit, units: seq<Unit>, after: string)
    ensures RenderUnits([unit] + units) + ['"'] + after == RenderUnit(unit) + (RenderUnits(units) + ['"'] + after)
    ensures |RenderUnits([unit] + units)| == |RenderUnit(unit)| + |RenderUnits(units)|
  {
    assert ([unit] + units)[1..] == units;
  }

  lemma {:induction false} ReadUnits(rest: string, depth: nat) returns (units: seq<Unit>, after: string)
    requires Scan(rest, Inside(depth)).Some?
    ensures GoodUnits(units) && rest == RenderUnits(units) + ['"'] + after
    ensures Scan(rest, Inside(depth)) == Add(|RenderUnits(units)| + 1, Scan(after, Outside(depth)))
    decreases |rest|
  {
    if rest[0] == '"' {
      units, after := [], rest[1..];
    } else if rest[0] == '\\' {
      assert rest[1..] == [rest[1]] + rest[2..];
      ScanStep(rest[1], rest[2..], State(depth, true, true));
      var more;
      more, after := ReadUnits(rest[2..], depth);
      units := [Escaped(rest[1])] + more;
      UnitFirst(Escaped(rest[1]), more, after);
    } else {
      var more;
      more, after := ReadUnits(rest[1..], depth);
      units := [Itself(rest[0])] + more;
      UnitFirst(Itself(rest[0]), more, after);
    }
  }

  lemma ReadLiteral(rest: string, depth: nat) returns (units: seq<Unit>, after: string)
    requires rest != [] && rest[0] == '"' && Scan(rest, Outside(depth)).Some?
    ensures GoodUnits(units) && rest == Render(Literal(units)) + after
    ensures Scan(rest, Outside(depth)) == Add(|Render(Literal(units))|, Scan(after, Outside(depth)))
  {
    units, after := ReadUnits(rest[1..], depth);
  }

  lemma PrefixAfter(first: string, prefix: string, tail: string)
    requires prefix <= tail
    ensures first + prefix <= first + tail
    ensures (first + tail)[|first| + |prefix|..] == tail[|prefix|..]
  {
  }

  /** A successful scan with `depth` groups open has read exactly what closes them. */
  lemma {:induction false} ReadLayers(rest: string, depth: nat) returns (layers: seq<seq<Item>>)
    requires depth >= 1 && Scan(rest, Outside(depth)).Some?
    ensures |layers| == depth && GoodLayers(layers)
    ensures Closing(layers) <= rest && Scan(rest, Outside(depth)) == Some(|Closing(layers)|)
    decreases |rest|
  {
    var c, tail := rest[0], rest[1..];
    assert rest == [c] + tail;
    if c == '"' {
      var units, after := ReadLiteral(rest, depth);
      var more := ReadLayers(after, depth);
      layers := Front(Literal(units), more);
      PrefixAfter(Render(Literal(units)), Closing(more), after);
    } else if c == '{' {
      var more := ReadLayers(tail, depth + 1);
      layers := Nested(more);
      PrefixAfter([c], Closing(more), tail);
    } else if c == '}' {
      if depth == 1 {
        layers := [[]];
        assert Closing(layers) == ['}'];
      } else {
        var more := ReadLayers(tail, depth - 1);
        layers := [[]] + more;
        assert layers[1..] == more;
        PrefixAfter([c], Closing(more), tail);
      }
    } else {
      var more := ReadLayers(tail, depth);
      layers := Front(Neutral(c), more);
      PrefixAfter([c], Closing(more), tail);
    }
  }

  lemma Front(item: Item, more: seq<seq<Item>>) returns (layers: seq<seq<Item>>)
    requires more != [] && Good(item) && GoodLayers(more)
    ensures |layers| == |more| && GoodLayers(layers) && Closing(layers) == Render(item) + Closing(more)
  {
    layers := [[item] + more[0]] + more[1..];
    assert layers[1..] == more[1..];
    assert ([item] + more[0])[1..] == more[0];
  }

  lemma Nested(more: seq<seq<Item>>) returns (layers: seq<seq<Item>>)
    requires |more| >= 2 && GoodLayers(more)
    ensures |layers| == |more| - 1 && GoodLayers(layers) && Closing(layers) == ['{'] + Closing(more)
  {
    layers := Front(Group(more[0]), more[1..]);
  }

  predicate Holds(text: string, prefix: string, items: seq<Item>, suffix: string) {
    '{' !in prefix && GoodAll(items) && text == prefix + Render(Group(items)) + suffix
  }

  /** A successful extraction exhibits the balanced group it found. */
  lemma ExtractedIsGroup(text: string) returns (prefix: string, items: seq<Item>, suffix: string)
    requires Extract(text).Ok?
    ensures Holds(text, prefix, items, suffix) && Extract(text) == Ok(Render(Group(items)))
  {
    var start := FindBrace(text);
    var rest := text[start..];
    var layers := ReadLayers(rest[1..], 1);
    prefix, items := text[..start], layers[0];
    var group := Render(Group(items));
    assert layers[1..] == [];
    assert group == ['{'] + Closing(layers);
    suffix := rest[|group|..];
    assert rest == group + suffix;
    assert text == prefix + rest;
  }

  /**
   Extraction succeeds exactly when the text is a prefix without opening braces, a balanced
   group, and anything; with no opening brace it reports that, otherwise an unclosed object.
   */
  lemma ExtractSucceedsIffGroup(text: string)
    ensures Extract(text).Ok? <==> exists prefix, items, suffix :: Holds(text, prefix, items, suffix)
    ensures Extract(text) == Err(NoObject) <==> '{' !in text
  {
    if Extract(text).Ok? {
      var prefix, items, suffix := ExtractedIsGroup(text);
    } else if exists prefix, items, suffix :: Holds(text, prefix, items, suffix) {
      var prefix, items, suffix :| Holds(text, prefix, items, suffix);
      GroupIsExtracted(prefix, items, suffix);
    }
    if Extract(text) != Err(NoObject) {
      assert text[FindBrace(text)] == '{';
    } else {
      assert text[..FindBrace(text)] == text;
    }
  }
}
