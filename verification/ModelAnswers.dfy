/**
 Reading a model answer (serving/app/agents/jd_analyst.py, `parse_jd_analyst_response`), and
 the JSON texts such an answer may hold.

 Decoding JSON and validating one requirement are parameters.
 */
module ModelAnswers {
  import opened Wrappers
  import opened JsonScanner

  /** A JSON value; a number is kept as its text. */
  datatype Json =
    | Null
    | Bool(b: bool)
    | Number(text: string)
    | String(s: string)
    | List(items: seq<Json>)
    | Object(fields: seq<Field>)

  datatype Field = Field(key: string, value: Json)

  // ---- Python's json.dumps ----

  function HexDigit(n: nat): (c: char)
    requires n < 16
    ensures c != '"' && c != '\\'
  {
    "0123456789abcdef"[n]
  }

  function Hex4(n: nat): seq<Unit>
    requires n < 0x10000
  {
    [Escaped('u'), Itself(HexDigit(n / 4096)), Itself(HexDigit(n / 256 % 16)),
     Itself(HexDigit(n / 16 % 16)), Itself(HexDigit(n % 16))]
  }

  /** How one character is written in a string literal: ASCII only, above the first plane as a surrogate pair. */
  function EscapeChar(c: char): seq<Unit> {
    var n := c as int;
    if c == '"' || c == '\\' then [Escaped(c)]
    else if c == '\n' then [Escaped('n')]
    else if c == '\r' then [Escaped('r')]
    else if c == '\t' then [Escaped('t')]
    else if n == 8 then [Escaped('b')]
    else if n == 12 then [Escaped('f')]
    else if 0x20 <= n <= 0x7e then [Itself(c)]
    else if n < 0x10000 then Hex4(n)
    else Hex4(0xd800 + (n - 0x10000) / 0x400) + Hex4(0xdc00 + (n - 0x10000) % 0x400)
  }

  function Escape(s: string): seq<Unit> {
    if s == [] then [] else EscapeChar(s[0]) + Escape(s[1..])
  }

  function Quote(s: string): string {
    ['"'] + RenderUnits(Escape(s)) + ['"']
  }

  function Print(v: Json): string
    decreases v, 0
  {
    match v
    case Null => "null"
    case Bool(b) => if b then "true" else "false"
    case Number(text) => text
    case String(s) => Quote(s)
    case List(items) => ['['] + PrintItems(items) + [']']
    case Object(fields) => ['{'] + PrintFields(fields) + ['}']
  }

  function PrintItems(items: seq<Json>): string
    decreases items, 1
  {
    if items == [] then ""
    else Print(items[0]) + (if |items| == 1 then "" else ", ") + PrintItems(items[1..])
  }

  function PrintFields(fields: seq<Field>): string
    decreases fields, 1
  {
    if fields == [] then ""
    else
      Quote(fields[0].key) + ": " + Print(fields[0].value) + (if |fields| == 1 then "" else ", ") + PrintFields(fields[1..])
  }

  predicate NumberName(text: string) {
    text == "NaN" || text == "Infinity" || text == "-Infinity"
  }

  /** Digits with sign, point and exponent, or one of the names Python prints for the other floats. */
  predicate NumberText(text: string) {
    || NumberName(text)
    || forall i :: 0 <= i < |text| ==> text[i] in "0123456789+-.eE"
  }

  predicate WellFormed(v: Json)
    decreases v, 0
  {
    match v
    case Number(text) => NumberText(text)
    case List(items) => WellFormedItems(items)
    case Object(fields) => WellFormedFields(fields)
    case _ => true
  }

  predicate WellFormedItems(items: seq<Json>)
    decreases items, 1
  {
    items != [] ==> WellFormed(items[0]) && WellFormedItems(items[1..])
  }

  predicate WellFormedFields(fields: seq<Field>)
    decreases fields, 1
  {
    fields != [] ==> WellFormed(fields[0].value) && WellFormedFields(fields[1..])
  }

  // ---- printed JSON is balanced ----

  lemma {:induction false} RenderConcat(a: seq<Item>, b: seq<Item>)
    ensures RenderAll(a + b) == RenderAll(a) + RenderAll(b)
    ensures GoodAll(a) && GoodAll(b) ==> GoodAll(a + b)
  {
    if a == [] {
      assert a + b == b;
    } else {
      var rest := a[1..];
      RenderConcat(rest, b);
      assert (a + b)[0] == a[0] && (a + b)[1..] == rest + b;
      assert RenderAll(a + b) == Render(a[0]) + (RenderAll(rest) + RenderAll(b));
    }
  }

  lemma {:induction false} NeutralText(text: string) returns (items: seq<Item>)
    requires forall i :: 0 <= i < |text| ==> NeutralChar(text[i])
    ensures GoodAll(items) && RenderAll(items) == text
  {
    if text == [] {
      items := [];
    } else {
      var rest := NeutralText(text[1..]);
      items := [Neutral(text[0])] + rest;
      assert items[1..] == rest;
    }
  }

  lemma EscapeIsGood(c: char)
    ensures GoodUnits(EscapeChar(c))
  {
  }

  lemma {:induction false} EscapesAreGood(s: string)
    ensures GoodUnits(Escape(s))
  {
    if s != [] {
      EscapeIsGood(s[0]);
      EscapesAreGood(s[1..]);
    }
  }

  lemma Quoted(s: string) returns (items: seq<Item>)
    ensures GoodAll(items) && RenderAll(items) == Quote(s)
  {
    EscapesAreGood(s);
    items := [Literal(Escape(s))];
    assert items[1..] == [];
  }

  lemma Join2(a: seq<Item>, b: seq<Item>) returns (items: seq<Item>)
    requires GoodAll(a) && GoodAll(b)
    ensures GoodAll(items) && RenderAll(items) == RenderAll(a) + RenderAll(b)
  {
    items := a + b;
    RenderConcat(a, b);
  }

  lemma ScalarIsBalanced(v: Json) returns (items: seq<Item>)
    requires WellFormed(v) && (v.Null? || v.Bool? || v.Number?)
    ensures GoodAll(items) && RenderAll(items) == Print(v)
  {
    ScalarIsNeutral(v);
    items := NeutralText(Print(v));
  }

  lemma ScalarIsNeutral(v: Json)
    requires WellFormed(v) && (v.Null? || v.Bool? || v.Number?)
    ensures forall i :: 0 <= i < |Print(v)| ==> NeutralChar(Print(v)[i])
  {
    if v.Number? && !NumberName(v.text) {
      forall i | 0 <= i < |v.text| ensures NeutralChar(v.text[i]) {
        assert v.text[i] in "0123456789+-.eE";
      }
    }
  }

  lemma Braced(inner: seq<Item>) returns (items: seq<Item>)
    requires GoodAll(inner)
    ensures GoodAll(items) && RenderAll(items) == ['{'] + RenderAll(inner) + ['}']
  {
    items := [Group(inner)];
    assert items[1..] == [];
  }

  lemma Bracketed(inner: seq<Item>) returns (items: seq<Item>)
    requires GoodAll(inner)
    ensures GoodAll(items) && RenderAll(items) == ['['] + RenderAll(inner) + [']']
  {
    var open := NeutralText(['[']);
    var close := NeutralText([']']);
    items := Join2(open, inner);
    items := Join2(items, close);
  }

  lemma {:induction false} PrintIsBalanced(v: Json) returns (items: seq<Item>)
    requires WellFormed(v)
    ensures GoodAll(items) && RenderAll(items) == Print(v)
    decreases v, 0
  {
    match v
    case Null =>
      items := ScalarIsBalanced(v);
    case Bool(_) =>
      items := ScalarIsBalanced(v);
    case Number(_) =>
      items := ScalarIsBalanced(v);
    case String(s) =>
      items := Quoted(s);
    case List(values) =>
      var inner := ItemsAreBalanced(values);
      items := Bracketed(inner);
    case Object(fields) =>
      var inner := FieldsAreBalanced(fields);
      items := Braced(inner);
  }

  lemma {:induction false} ItemsAreBalanced(values: seq<Json>) returns (items: seq<Item>)
    requires WellFormedItems(values)
    ensures GoodAll(items) && RenderAll(items) == PrintItems(values)
    decreases values, 1
  {
    if values == [] {
      items := [];
    } else {
      var first := PrintIsBalanced(values[0]);
      var separator := NeutralText(if |values| == 1 then "" else ", ");
      var rest := ItemsAreBalanced(values[1..]);
      items := Join2(first, separator);
      items := Join2(items, rest);
    }
  }

  lemma {:induction false} FieldsAreBalanced(fields: seq<Field>) returns (items: seq<Item>)
    requires WellFormedFields(fields)
    ensures GoodAll(items) && RenderAll(items) == PrintFields(fields)
    decreases fields, 1
  {
    if fields == [] {
      items := [];
    } else {
      var key := Quoted(fields[0].key);
      var colon := NeutralText(": ");
      var value := PrintIsBalanced(fields[0].value);
      var separator := NeutralText(if |fields| == 1 then "" else ", ");
      var rest := FieldsAreBalanced(fields[1..]);
      items := Join2(key, colon);
      items := Join2(items, value);
      items := Join2(items, separator);
      items := Join2(items, rest);
    }
  }

  /** A printed object of any nesting comes out whole, whatever its strings hold and whatever follows. */
  lemma PrintedObjectIsExtracted(v: Json, prefix: string, suffix: string)
    requires v.Object? && WellFormed(v) && '{' !in prefix
    ensures Extract(prefix + Print(v) + suffix) == Ok(Print(v))
  {
    var inner := FieldsAreBalanced(v.fields);
    GroupIsExtracted(prefix, inner, suffix);
  }

  // ---- reading the answer ----

  const MAX_REQUIREMENTS := 200

  datatype AnswerError = NotJson | NoList | Empty | TooMany | InvalidAt(position: nat)

  /** A decoder makes an object, or nothing, of a text in braces. */
  ghost predicate DecodesObjects(loads: string -> Option<Json>) {
    forall t :: t != [] && t[0] == '{' && loads(t).Some? ==> loads(t).value.Object?
  }

  /** A key given twice keeps its last value. */
  function Get(fields: seq<Field>, key: string): Option<Json> {
    if fields == [] then None
    else
      var last := fields[|fields| - 1];
      if last.key == key then Some(last.value) else Get(fields[..|fields| - 1], key)
  }

  function ValidatedFrom<R>(items: seq<Json>, validate: Json -> Option<R>, k: nat): Result<seq<R>, AnswerError>
    requires k <= |items|
    decreases |items| - k
  {
    if k == |items| then Ok([])
    else
      match validate(items[k])
      case None => Err(InvalidAt(k))
      case Some(requirement) =>
        match ValidatedFrom(items, validate, k + 1)
        case Err(e) => Err(e)
        case Ok(rest) => Ok([requirement] + rest)
  }

  function ReadPayload<R>(fields: seq<Field>, validate: Json -> Option<R>): Result<seq<R>, AnswerError> {
    match Get(fields, "requirements")
    case Some(List(items)) =>
      if items == [] then Err(Empty)
      else if |items| > MAX_REQUIREMENTS then Err(TooMany)
      else ValidatedFrom(items, validate, 0)
    case _ => Err(NoList)
  }

  function ReadAnswer<R>(text: string, loads: string -> Option<Json>, validate: Json -> Option<R>): Result<seq<R>, AnswerError> {
    match Extract(text)
    case Err(_) => Err(NotJson)
    case Ok(object_) =>
      match loads(object_)
      case Some(Object(fields)) => ReadPayload(fields, validate)
      case _ => Err(NotJson)
  }

  method ParseJdAnalystResponse<R>(text: string, loads: string -> Option<Json>, validate: Json -> Option<R>)
    returns (r: Result<seq<R>, AnswerError>)
    requires DecodesObjects(loads)
    ensures r == ReadAnswer(text, loads, validate)
  {
    var extracted := ExtractJsonObject(text);
    if extracted.Err? {
      return Err(NotJson);
    }
    var payload := loads(extracted.value);
    if payload.None? {
      return Err(NotJson);
    }
    ExtractedIsBraced(text);
    var raw := Get(payload.value.fields, "requirements");
    if raw.None? || !raw.value.List? {
      return Err(NoList);
    }
    var items := raw.value.items;
    if items == [] {
      return Err(Empty);
    }
    if |items| > MAX_REQUIREMENTS {
      return Err(TooMany);
    }
    var requirements: seq<R> := [];
    FollowingTwice([], [], ValidatedFrom(items, validate, 0));
    for position := 0 to |items|
      invariant ValidatedFrom(items, validate, 0) == Following(requirements, ValidatedFrom(items, validate, position))
    {
      var validated := validate(items[position]);
      if validated.None? {
        return Err(InvalidAt(position));
      }
      FollowingTwice(requirements, [validated.value], ValidatedFrom(items, validate, position + 1));
      requirements := requirements + [validated.value];
    }
    assert requirements + [] == requirements;
    return Ok(requirements);
  }

  function Following<R>(first: seq<R>, rest: Result<seq<R>, AnswerError>): Result<seq<R>, AnswerError> {
    match rest
    case Err(e) => Err(e)
    case Ok(r) => Ok(first + r)
  }

  lemma FollowingTwice<R>(a: seq<R>, b: seq<R>, rest: Result<seq<R>, AnswerError>)
    ensures Following([], rest) == rest
    ensures Following(a, Following(b, rest)) == Following(a + b, rest)
  {
    if rest.Ok? {
      assert [] + rest.value == rest.value;
      assert a + (b + rest.value) == a + b + rest.value;
    }
  }

  /** What is extracted begins with a brace, so decoding it can only give an object. */
  lemma ExtractedIsBraced(text: string)
    requires Extract(text).Ok?
    ensures Extract(text).value != [] && Extract(text).value[0] == '{'
  {
    var prefix, items, suffix := ExtractedIsGroup(text);
  }

  predicate InvalidFirstAt<R>(items: seq<Json>, validate: Json -> Option<R>, k: nat, position: nat) {
    && k <= position < |items| && validate(items[position]).None?
    && forall i :: k <= i < position ==> validate(items[i]).Some?
  }

  /** All or nothing: every requirement in order, or the first one that does not validate. */
  lemma {:induction false} AllOrNothing<R>(items: seq<Json>, validate: Json -> Option<R>, k: nat)
    requires k <= |items|
    ensures var r := ValidatedFrom(items, validate, k);
            && (r.Ok? <==> forall i :: k <= i < |items| ==> validate(items[i]).Some?)
            && (r.Ok? ==> |r.value| == |items| - k
                          && forall i :: k <= i < |items| ==> validate(items[i]) == Some(r.value[i - k]))
            && (r.Err? ==> r.error.InvalidAt? && InvalidFirstAt(items, validate, k, r.error.position))
    decreases |items| - k
  {
    if k < |items| {
      AllOrNothing(items, validate, k + 1);
    }
  }

  /** A printed payload in any brace-free introduction is read as that payload. */
  lemma PrintedAnswerIsRead<R>(
    v: Json, prefix: string, suffix: string, loads: string -> Option<Json>, validate: Json -> Option<R>)
    requires v.Object? && WellFormed(v) && '{' !in prefix && loads(Print(v)) == Some(v)
    ensures ReadAnswer(prefix + Print(v) + suffix, loads, validate) == ReadPayload(v.fields, validate)
  {
    PrintedObjectIsExtracted(v, prefix, suffix);
  }

  // ---- what is read, in terms of the decoded object ----

  /** The field that counts for a key: the last one with it. */
  predicate CountsFor(fields: seq<Field>, key: string, i: nat) {
    i < |fields| && fields[i].key == key && forall j :: i < j < |fields| ==> fields[j].key != key
  }

  lemma {:induction false} GetFinds(fields: seq<Field>, key: string, i: nat)
    requires CountsFor(fields, key, i)
    ensures Get(fields, key) == Some(fields[i].value)
    decreases |fields|
  {
    var last := |fields| - 1;
    if i < last {
      assert fields[last].key != key;
      GetFinds(fields[..last], key, i);
    }
  }

  lemma {:induction false} GetMisses(fields: seq<Field>, key: string)
    requires forall i :: 0 <= i < |fields| ==> fields[i].key != key
    ensures Get(fields, key) == None
    decreases |fields|
  {
    if fields != [] {
      GetMisses(fields[..|fields| - 1], key);
    }
  }

  /** Position `position` is the first whose value does not validate. */
  predicate FirstInvalid<R>(items: seq<Json>, validate: Json -> Option<R>, position: nat) {
    position < |items| && validate(items[position]).None? && forall i :: 0 <= i < position ==> validate(items[i]).Some?
  }

  /**
   The answer is the list under "requirements", each item validated in its place. An empty list,
   one of more than 200 items, and the first invalid item are reported as such.
   */
  lemma AnswerIsTheList<R>(
    text: string, loads: string -> Option<Json>, validate: Json -> Option<R>, fields: seq<Field>, f: nat, items: seq<Json>)
    requires Extract(text).Ok? && loads(Extract(text).value) == Some(Object(fields))
    requires CountsFor(fields, "requirements", f) && fields[f].value == List(items)
    ensures var r := ReadAnswer(text, loads, validate);
            && (r == Err(Empty) <==> items == [])
            && (r == Err(TooMany) <==> |items| > 200)
            && (r.Ok? <==> 1 <= |items| <= 200 && forall i :: 0 <= i < |items| ==> validate(items[i]).Some?)
            && (r.Ok? ==> |r.value| == |items| && forall i :: 0 <= i < |items| ==> validate(items[i]) == Some(r.value[i]))
            && (r.Err? && 1 <= |items| <= 200 ==>
                  r.error.InvalidAt? && FirstInvalid(items, validate, r.error.position))
  {
    GetFinds(fields, "requirements", f);
    AllOrNothing(items, validate, 0);
  }

  /** Without a list under "requirements", or without an object to begin with, that is what is reported. */
  lemma AnswerWithoutList<R>(text: string, loads: string -> Option<Json>, validate: Json -> Option<R>)
    ensures Extract(text).Err? ==> ReadAnswer(text, loads, validate) == Err(NotJson)
    ensures Extract(text).Ok? && !(loads(Extract(text).value).Some? && loads(Extract(text).value).value.Object?) ==>
              ReadAnswer(text, loads, validate) == Err(NotJson)
    ensures Extract(text).Ok? && loads(Extract(text).value).Some? && loads(Extract(text).value).value.Object? ==>
              var fields := loads(Extract(text).value).value.fields;
              && ((forall i :: 0 <= i < |fields| ==> fields[i].key != "requirements") ==>
                    ReadAnswer(text, loads, validate) == Err(NoList))
              && (forall f: nat :: CountsFor(fields, "requirements", f) && !fields[f].value.List? ==>
                    ReadAnswer(text, loads, validate) == Err(NoList))
  {
    if Extract(text).Ok? && loads(Extract(text).value).Some? && loads(Extract(text).value).value.Object? {
      var fields := loads(Extract(text).value).value.fields;
      if forall i :: 0 <= i < |fields| ==> fields[i].key != "requirements" {
        GetMisses(fields, "requirements");
      }
      forall f: nat | CountsFor(fields, "requirements", f) && !fields[f].value.List?
        ensures ReadAnswer(text, loads, validate) == Err(NoList)
      {
        GetFinds(fields, "requirements", f);
      }
    }
  }
}
