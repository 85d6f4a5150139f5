/**
 The rubric fingerprint (serving/app/services/rubric.py, `compute_content_hash`).

 The JSON encoding of one criterion is an injective, newline-free function `encode`; the digest
 `sha` is an arbitrary function, so the theorems name the colliding payloads instead of
 excluding them.
 */
module ContentHash {
  import opened Wrappers
  import opened Sorting
  import opened Text

  /** What the fingerprint covers. */
  datatype Criterion = Criterion(
    text: string, category: string, isMustHave: bool, units: int, minYears: Option<string>, minSeniority: Option<string>)

  type Encoding = Criterion -> string

  ghost predicate Canonical(encode: Encoding) {
    && (forall c, d :: encode(c) == encode(d) ==> c == d)
    && (forall c :: encode(c) != "" && '\n' !in encode(c))
  }

  /** Code-point order. */
  predicate StringLe(a: string, b: string) {
    || a == []
    || (b != [] && (a[0] < b[0] || (a[0] == b[0] && StringLe(a[1..], b[1..]))))
  }

  lemma {:induction false} StringLeTotal(a: string, b: string)
    ensures StringLe(a, b) || StringLe(b, a)
    ensures StringLe(a, b) && StringLe(b, a) ==> a == b
  {
    if a != [] && b != [] && a[0] == b[0] {
      StringLeTotal(a[1..], b[1..]);
      assert a == [a[0]] + a[1..] && b == [b[0]] + b[1..];
    }
  }

  lemma {:induction false} StringLeTransitive(a: string, b: string, c: string)
    requires StringLe(a, b) && StringLe(b, c)
    ensures StringLe(a, c)
  {
    if a != [] && b != [] && c != [] && a[0] == b[0] == c[0] {
      StringLeTransitive(a[1..], b[1..], c[1..]);
    }
  }

  lemma StringLeIsOrder()
    ensures TotalPreorder(StringLe) && Antisymmetric(StringLe)
  {
    forall a: string, b: string
      ensures StringLe(a, b) || StringLe(b, a)
      ensures StringLe(a, b) && StringLe(b, a) ==> a == b
    {
      StringLeTotal(a, b);
    }
    forall a: string, b: string, c: string | StringLe(a, b) && StringLe(b, c) ensures StringLe(a, c) {
      StringLeTransitive(a, b, c);
    }
  }

  /** The hashed text: one encoded criterion a line, sorted. */
  function Payload(encode: Encoding, criteria: seq<Criterion>): string {
    Join("\n", Sort(Map(encode, criteria), StringLe))
  }

  // ---- lines can be read back ----

  predicate Lines(parts: seq<string>) {
    forall i :: 0 <= i < |parts| ==> parts[i] != "" && '\n' !in parts[i]
  }

  lemma FirstNewline(a: string, x: string)
    requires '\n' !in a
    ensures var s := a + "\n" + x;
            s[|a|] == '\n' && forall i :: 0 <= i < |a| ==> s[i] != '\n'
  {
    var s := a + "\n" + x;
    forall i | 0 <= i < |a| ensures s[i] != '\n' {
      assert s[i] == a[i];
    }
  }

  lemma SameFirstLine(a: string, b: string, x: string, y: string)
    requires '\n' !in a && '\n' !in b
    requires a + "\n" + x == b + "\n" + y
    ensures a == b && x == y
  {
    var s := a + "\n" + x;
    FirstNewline(a, x);
    FirstNewline(b, y);
    assert |a| == |b|;
    assert a == s[..|a|] && b == s[..|b|];
    assert x == s[|a| + 1..] && y == s[|b| + 1..];
  }

  lemma {:induction false} JoinedLinesDetermineParts(a: seq<string>, b: seq<string>)
    requires Lines(a) && Lines(b) && Join("\n", a) == Join("\n", b)
    ensures a == b
  {
    if |a| == 1 {
      assert a == [a[0]] && b == [b[0]];
    } else if |a| > 1 {
      SameFirstLine(a[0], b[0], Join("\n", a[1..]), Join("\n", b[1..]));
      JoinedLinesDetermineParts(a[1..], b[1..]);
      assert a == [a[0]] + a[1..] && b == [b[0]] + b[1..];
    }
  }

  // ---- the fingerprint sees the criteria and nothing else ----

  lemma {:induction false} EncodedCount(encode: Encoding, s: seq<Criterion>, c: Criterion)
    requires Canonical(encode)
    ensures multiset(Map(encode, s))[encode(c)] == multiset(s)[c]
  {
    if s != [] {
      EncodedCount(encode, s[1..], c);
      assert s == [s[0]] + s[1..];
      assert Map(encode, s) == [encode(s[0])] + Map(encode, s[1..]);
    }
  }

  /** Two rubrics have the same payload exactly when they hold the same criteria, in any order. */
  lemma PayloadIffSameCriteria(encode: Encoding, a: seq<Criterion>, b: seq<Criterion>)
    requires Canonical(encode)
    ensures Payload(encode, a) == Payload(encode, b) <==> multiset(a) == multiset(b)
  {
    StringLeIsOrder();
    var x, y := Map(encode, a), Map(encode, b);
    SortPermutes(x, StringLe);
    SortPermutes(y, StringLe);
    if multiset(a) == multiset(b) {
      MapPermutes(encode, a, b);
      SortUnique(x, y, StringLe);
    }
    if Payload(encode, a) == Payload(encode, b) {
      LinesOfSorted(encode, a);
      LinesOfSorted(encode, b);
      JoinedLinesDetermineParts(Sort(x, StringLe), Sort(y, StringLe));
      forall c: Criterion ensures multiset(a)[c] == multiset(b)[c] {
        EncodedCount(encode, a, c);
        EncodedCount(encode, b, c);
      }
    }
  }

  lemma LinesOfSorted(encode: Encoding, a: seq<Criterion>)
    requires Canonical(encode)
    ensures Lines(Sort(Map(encode, a), StringLe))
  {
    var x := Map(encode, a);
    SortPermutes(x, StringLe);
    SamePresence(Sort(x, StringLe), x);
    forall i | 0 <= i < |x| ensures Sort(x, StringLe)[i] != "" && '\n' !in Sort(x, StringLe)[i] {
      assert Sort(x, StringLe)[i] in x;
    }
  }

  function Fingerprint(encode: Encoding, sha: string -> string, criteria: seq<Criterion>): string {
    sha(Payload(encode, criteria))
  }

  /** The hash changes when and only when the criteria change, unless the digest collides on these two payloads. */
  lemma FingerprintIffSameCriteria(encode: Encoding, sha: string -> string, a: seq<Criterion>, b: seq<Criterion>)
    requires Canonical(encode)
    ensures multiset(a) == multiset(b) ==> Fingerprint(encode, sha, a) == Fingerprint(encode, sha, b)
    ensures Fingerprint(encode, sha, a) == Fingerprint(encode, sha, b) ==>
              || multiset(a) == multiset(b)
              || (Payload(encode, a) != Payload(encode, b) && sha(Payload(encode, a)) == sha(Payload(encode, b)))
  {
    PayloadIffSameCriteria(encode, a, b);
  }
}
