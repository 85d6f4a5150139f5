/** Lists of timestamps, seen through a moving window. */
module SlidingWindow {

  /** The timestamps strictly later than the cutoff, in order. */
  function After(stamps: seq<real>, cutoff: real): seq<real> {
    if stamps == [] then []
    else if stamps[0] > cutoff then [stamps[0]] + After(stamps[1..], cutoff)
    else After(stamps[1..], cutoff)
  }

  /** How many timestamps lie in (start, start + width]. */
  function InWindow(stamps: seq<real>, start: real, width: real): nat {
    if stamps == [] then 0
    else (if start < stamps[0] <= start + width then 1 else 0) + InWindow(stamps[1..], start, width)
  }

  /** Python's `[stamp] * count`, empty when the count is not positive. */
  function Repeat(stamp: real, count: int): (r: seq<real>)
    ensures |r| == if count <= 0 then 0 else count
    ensures forall i :: 0 <= i < |r| ==> r[i] == stamp
  {
    if count <= 0 then [] else [stamp] + Repeat(stamp, count - 1)
  }

  ghost predicate Nondecreasing(stamps: seq<real>) {
    forall i, j :: 0 <= i < j < |stamps| ==> stamps[i] <= stamps[j]
  }

  lemma {:induction false} AfterConcat(a: seq<real>, b: seq<real>, cutoff: real)
    ensures After(a + b, cutoff) == After(a, cutoff) + After(b, cutoff)
  {
    if a == [] {
      assert a + b == b;
    } else {
      assert (a + b)[1..] == a[1..] + b;
      AfterConcat(a[1..], b, cutoff);
    }
  }

  /** Filtering twice is filtering once by the later cutoff. */
  lemma {:induction false} AfterAfter(stamps: seq<real>, early: real, late: real)
    requires early <= late
    ensures After(After(stamps, early), late) == After(stamps, late)
  {
    if stamps != [] {
      AfterAfter(stamps[1..], early, late);
    }
  }

  lemma {:induction false} AfterAll(stamps: seq<real>, cutoff: real)
    requires forall i :: 0 <= i < |stamps| ==> stamps[i] > cutoff
    ensures After(stamps, cutoff) == stamps
  {
    if stamps != [] {
      AfterAll(stamps[1..], cutoff);
    }
  }

  lemma {:induction false} AfterNone(stamps: seq<real>, cutoff: real)
    requires forall i :: 0 <= i < |stamps| ==> stamps[i] <= cutoff
    ensures After(stamps, cutoff) == []
  {
    if stamps != [] {
      AfterNone(stamps[1..], cutoff);
    }
  }

  /** On an ordered list the filter keeps a suffix. */
  lemma {:induction false} AfterIsSuffix(stamps: seq<real>, cutoff: real) returns (k: nat)
    requires Nondecreasing(stamps)
    ensures k <= |stamps| && After(stamps, cutoff) == stamps[k..]
    ensures forall i :: 0 <= i < k ==> stamps[i] <= cutoff
    ensures forall i :: k <= i < |stamps| ==> stamps[i] > cutoff
  {
    if stamps == [] {
      k := 0;
    } else if stamps[0] > cutoff {
      AfterAll(stamps, cutoff);
      k := 0;
    } else {
      var rest := AfterIsSuffix(stamps[1..], cutoff);
      k := rest + 1;
    }
  }

  lemma AfterNondecreasing(stamps: seq<real>, cutoff: real)
    requires Nondecreasing(stamps)
    ensures Nondecreasing(After(stamps, cutoff))
  {
    var _ := AfterIsSuffix(stamps, cutoff);
  }

  /** At least `count` stamps of an ordered list have expired exactly when the count-th has. */
  lemma ExpiredCount(stamps: seq<real>, count: nat, cutoff: real)
    requires Nondecreasing(stamps) && 1 <= count <= |stamps|
    ensures |After(stamps, cutoff)| + count <= |stamps| <==> stamps[count - 1] <= cutoff
  {
    var k := AfterIsSuffix(stamps, cutoff);
  }

  lemma {:induction false} AfterShrinks(stamps: seq<real>, early: real, late: real)
    requires early <= late
    ensures |After(stamps, late)| <= |After(stamps, early)|
  {
    if stamps != [] {
      AfterShrinks(stamps[1..], early, late);
    }
  }

  lemma {:induction false} InWindowConcat(a: seq<real>, b: seq<real>, start: real, width: real)
    ensures InWindow(a + b, start, width) == InWindow(a, start, width) + InWindow(b, start, width)
  {
    if a == [] {
      assert a + b == b;
    } else {
      assert (a + b)[1..] == a[1..] + b;
      InWindowConcat(a[1..], b, start, width);
    }
  }

  lemma {:induction false} InWindowRepeat(stamp: real, count: int, start: real, width: real)
    ensures InWindow(Repeat(stamp, count), start, width)
         == if count > 0 && start < stamp <= start + width then count else 0
  {
    if count > 0 {
      assert Repeat(stamp, count)[1..] == Repeat(stamp, count - 1);
      InWindowRepeat(stamp, count - 1, start, width);
    }
  }

  lemma {:induction false} InWindowAfter(stamps: seq<real>, start: real, width: real, cutoff: real)
    requires cutoff <= start
    ensures InWindow(stamps, start, width) <= |After(stamps, cutoff)|
  {
    if stamps != [] {
      InWindowAfter(stamps[1..], start, width, cutoff);
    }
  }

  /**
   The step every limiter here relies on. Granting `count` stamps at `stamp` keeps every
   window within `capacity`, provided the stamps later than `cutoff` left room for them and the
   cutoff lies at least one window before the grant.
   */
  lemma GrantKeepsWindows(stamps: seq<real>, capacity: int, width: real, cutoff: real, stamp: real, count: int)
    requires forall start :: InWindow(stamps, start, width) <= if capacity < 0 then 0 else capacity
    requires cutoff <= stamp - width
    requires count <= 0 || |After(stamps, cutoff)| + count <= capacity
    ensures forall start :: InWindow(stamps + Repeat(stamp, count), start, width) <= if capacity < 0 then 0 else capacity
  {
    forall start ensures InWindow(stamps + Repeat(stamp, count), start, width) <= if capacity < 0 then 0 else capacity {
      InWindowConcat(stamps, Repeat(stamp, count), start, width);
      InWindowRepeat(stamp, count, start, width);
      if start < stamp <= start + width {
        InWindowAfter(stamps, start, width, cutoff);
      }
    }
  }
}
