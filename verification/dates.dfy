/**
 * Calendar dates as day numbers. An ISO text "YYYY-MM-DD" of a four-digit
 * year orders exactly as its day number does, which the pipeline relies on
 * when it compares date texts.
 */
module Dates {

  /** Days since 1970-01-01. */
  type Date = int

  /** A processing time stamp (seconds since the epoch). */
  type Timestamp = int

  /** 2200-01-01, the cutoff the resolver returns when nothing is left to process. */
  const SENTINEL: Date := 84006

  /** Every date from lo through hi, ascending; empty when hi < lo. */
  function Range(lo: Date, hi: Date): seq<Date>
  {
    seq(if lo <= hi then hi - lo + 1 else 0, i => lo + i)
  }

  /** A run holds exactly the dates between its ends. */
  lemma RangeMembers(lo: Date, hi: Date)
    ensures forall d :: d in Range(lo, hi) <==> lo <= d <= hi
  {
    forall d | lo <= d <= hi ensures d in Range(lo, hi) {
      assert Range(lo, hi)[d - lo] == d;
    }
  }

  /** The elements of s that are on or after d, in their order. */
  function DatesFrom(s: seq<Date>, d: Date): (r: seq<Date>)
  {
    if s == [] then [] else (if s[0] >= d then [s[0]] else []) + DatesFrom(s[1..], d)
  }

  lemma {:induction false} DatesFromMembers(s: seq<Date>, d: Date)
    ensures forall x :: x in DatesFrom(s, d) <==> x in s && x >= d
  {
    if s != [] {
      DatesFromMembers(s[1..], d);
      assert s == [s[0]] + s[1..];
    }
  }

  /** Filtering a run of dates from lo on keeps exactly the run from d on. */
  lemma {:induction false} DatesFromRange(lo: Date, hi: Date, d: Date)
    requires lo <= d
    ensures DatesFrom(Range(lo, hi), d) == Range(d, hi)
    decreases hi - lo
  {
    if lo <= hi {
      var r := Range(lo, hi);
      assert r[1..] == Range(lo + 1, hi);
      if lo < d {
        DatesFromRange(lo + 1, hi, d);
      } else {
        DatesFromRange(lo + 1, hi, d + 1);
        assert DatesFrom(Range(lo + 1, hi), d) == Range(lo + 1, hi) by {
          DatesFromAbove(Range(lo + 1, hi), d);
        }
        assert Range(d, hi) == [d] + Range(d + 1, hi);
      }
    }
  }

  lemma {:induction false} DatesFromAbove(s: seq<Date>, d: Date)
    requires forall i :: 0 <= i < |s| ==> s[i] >= d
    ensures DatesFrom(s, d) == s
  {
    if s != [] {
      DatesFromAbove(s[1..], d);
      assert s == [s[0]] + s[1..];
    }
  }
}
