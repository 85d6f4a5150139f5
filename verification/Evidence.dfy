/**
 Evidence quotes: resolving a quote to offsets (serving/app/services/screening.py,
 `_resolve_quote`) and verifying a cited span (serving/app/services/scoring.py,
 `verify_evidence_span`).
 */
module Evidence {
  import opened Wrappers

  datatype Error = EmptyQuote | NegativeOffset | InvertedSpan | PastEnd | Mismatch

  predicate OccursAt(text: string, quote: string, i: nat) {
    i + |quote| <= |text| && text[i..i + |quote|] == quote
  }

  /** Python's `str.find` from a position: the first occurrence at or after it. */
  function Find(text: string, quote: string, from: nat): (r: Option<nat>)
    ensures r.Some? ==> r.value >= from && OccursAt(text, quote, r.value)
    ensures forall i :: from <= i < (if r.Some? then r.value else |text|) ==> !OccursAt(text, quote, i)
    decreases |text| - from
  {
    if from + |quote| > |text| then None
    else if OccursAt(text, quote, from) then Some(from)
    else Find(text, quote, from + 1)
  }

  /** The error raised for a cited span, if any. */
  function VerifySpan(text: string, start: int, end: int, quote: string): (e: Option<Error>)
    ensures e.None? <==> quote != "" && 0 <= start && end == start + |quote| && OccursAt(text, quote, start)
  {
    if quote == "" then Some(EmptyQuote)
    else if start < 0 || end < 0 then Some(NegativeOffset)
    else if end <= start then Some(InvertedSpan)
    else if end > |text| then Some(PastEnd)
    else if text[start..end] != quote then Some(Mismatch)
    else None
  }

  function ResolveQuote(text: string, quote: string): Result<Option<(nat, nat)>, Error> {
    if quote == "" then Ok(None)
    else
      match Find(text, quote, 0)
      case None => Ok(None)
      case Some(start) =>
        if Find(text, quote, start + 1).Some? then Ok(None)
        else
          match VerifySpan(text, start, start + |quote|, quote)
          case Some(e) => Err(e)
          case None => Ok(Some((start, start + |quote|)))
  }

  ghost predicate OccursOnlyAt(text: string, quote: string, start: nat) {
    OccursAt(text, quote, start) && forall i: nat :: OccursAt(text, quote, i) ==> i == start
  }

  /**
   A quote resolves exactly when it is nonempty and occurs exactly once, overlaps counted, and
   then to that occurrence; verifying the resolved span never fails.
   */
  lemma QuoteResolvesIffUnique(text: string, quote: string)
    ensures ResolveQuote(text, quote).Ok?
    ensures forall start: nat, end: nat :: ResolveQuote(text, quote) == Ok(Some((start, end))) <==>
              quote != "" && OccursOnlyAt(text, quote, start) && end == start + |quote|
  {
    if quote != "" && Find(text, quote, 0).Some? {
      var start := Find(text, quote, 0).value;
      if Find(text, quote, start + 1).None? {
        forall i: nat | OccursAt(text, quote, i) ensures i == start {
          assert i < |text|;
        }
        assert OccursOnlyAt(text, quote, start);
      } else {
        assert OccursAt(text, quote, Find(text, quote, start + 1).value);
      }
    }
    forall start: nat | quote != "" && OccursOnlyAt(text, quote, start)
      ensures ResolveQuote(text, quote) == Ok(Some((start, start + |quote|)))
    {
      assert OccursAt(text, quote, start) && start < |text|;
    }
  }

  /** A span that verifies is read back as the quote, and no other quote verifies there. */
  lemma VerifiedSpanDeterminesQuote(text: string, start: int, end: int, quote: string, other: string)
    requires VerifySpan(text, start, end, quote).None?
    ensures 0 <= start < end <= |text| && text[start..end] == quote
    ensures VerifySpan(text, start, end, other).None? <==> other == quote
  {
  }
}
