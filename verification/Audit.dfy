/** The in-memory audit trail, bounded by count and by age. Instants are milliseconds. */
module Audit {
  datatype Record = Record(id: nat, endedAt: int)

  predicate Chronological(records: seq<Record>) {
    forall i, j :: 0 <= i < j < |records| ==> records[i].endedAt <= records[j].endedAt
  }

  /** The records that are not older than a cutoff, in order. */
  function Since(records: seq<Record>, cutoff: int): seq<Record> {
    if records == [] then []
    else
      var last := records[|records| - 1];
      Since(records[..|records| - 1], cutoff) + (if last.endedAt >= cutoff then [last] else [])
  }

  function LastOf(records: seq<Record>, count: nat): seq<Record> {
    if |records| <= count then records else records[|records| - count..]
  }

  /** What one append leaves of what was retained. */
  function Appended(kept: seq<Record>, r: Record, maxRecords: nat, maxAge: nat): seq<Record> {
    Since(LastOf(kept + [r], maxRecords), r.endedAt - maxAge)
  }

  /** What any run of appends retains. */
  function Trail(all: seq<Record>, maxRecords: nat, maxAge: nat): seq<Record> {
    if all == [] then []
    else Appended(Trail(all[..|all| - 1], maxRecords, maxAge), all[|all| - 1], maxRecords, maxAge)
  }

  /** Whether the records from `from` on satisfy both bounds, the age relative to the newest record. */
  predicate Fits(all: seq<Record>, from: nat, maxRecords: nat, maxAge: nat)
    requires from <= |all|
  {
    && |all| - from <= maxRecords
    && (from < |all| ==>
          forall i :: from <= i < |all| ==> all[i].endedAt >= all[|all| - 1].endedAt - maxAge)
  }

  lemma {:induction false} SinceIs(records: seq<Record>, cutoff: int)
    ensures |Since(records, cutoff)| <= |records|
    ensures forall r :: r in Since(records, cutoff) <==> r in records && r.endedAt >= cutoff
  {
    if records != [] {
      SinceIs(records[..|records| - 1], cutoff);
      assert records == records[..|records| - 1] + [records[|records| - 1]];
    }
  }

  /** Filtering chronological records by age keeps a suffix: everything from the first one that is young enough. */
  lemma {:induction false} SinceIsASuffix(records: seq<Record>, cutoff: int) returns (from: nat)
    requires Chronological(records)
    ensures from <= |records| && Since(records, cutoff) == records[from..]
    ensures forall i :: 0 <= i < |records| ==> (records[i].endedAt >= cutoff <==> from <= i)
  {
    if records == [] {
      from := 0;
    } else {
      var front := records[..|records| - 1];
      from := SinceIsASuffix(front, cutoff);
      assert records == front + [records[|records| - 1]];
      if records[|records| - 1].endedAt < cutoff {
        from := |records|;
      } else {
        assert records[from..] == front[from..] + [records[|records| - 1]];
      }
    }
  }

  /** In any order of end times: both bounds hold of what is retained, and the newest record is retained. */
  lemma {:induction false} TrailIsBounded(all: seq<Record>, maxRecords: nat, maxAge: nat)
    requires all != [] && maxRecords >= 1
    ensures var kept := Trail(all, maxRecords, maxAge);
            && |kept| <= maxRecords && all[|all| - 1] in kept
            && forall r :: r in kept ==> r in all && r.endedAt >= all[|all| - 1].endedAt - maxAge
  {
    hide Since, LastOf;
    var front, last := all[..|all| - 1], all[|all| - 1];
    var before := Trail(front, maxRecords, maxAge);
    if front != [] { TrailIsBounded(front, maxRecords, maxAge); }
    LastOfIs(before, last, maxRecords);
    SinceIs(LastOf(before + [last], maxRecords), last.endedAt - maxAge);
    assert all == front + [last];
  }

  lemma LastOfIs(before: seq<Record>, last: Record, count: nat)
    requires count >= 1
    ensures |LastOf(before + [last], count)| <= count && last in LastOf(before + [last], count)
    ensures forall r :: r in LastOf(before + [last], count) ==> r in before || r == last
  {
    var recent := LastOf(before + [last], count);
    assert recent[|recent| - 1] == last;
  }

  /**
   * With non-decreasing end times, the trail is the longest suffix of everything appended that fits both the count
   * bound and the age bound relative to the newest record.
   */
  lemma {:induction false} TrailIsTheLongestSuffix(all: seq<Record>, maxRecords: nat, maxAge: nat) returns (from: nat)
    requires Chronological(all) && maxRecords >= 1
    ensures from <= |all| && Trail(all, maxRecords, maxAge) == all[from..]
    ensures forall k :: 0 <= k <= |all| ==> (Fits(all, k, maxRecords, maxAge) <==> from <= k)
  {
    hide Since, Fits, Chronological, Trail;
    if all == [] {
      from := 0;
      NothingFits(maxRecords, maxAge);
      TrailOfNothing(maxRecords, maxAge);
    } else {
      ChronologicalParts(all);
      var front, last := all[..|all| - 1], all[|all| - 1];
      var cutoff := last.endedAt - maxAge;
      var before := TrailIsTheLongestSuffix(front, maxRecords, maxAge);
      var start := if |all| - before <= maxRecords then before else |all| - maxRecords;
      TrailOfSuffix(all, before, maxRecords, maxAge);
      var young := SinceIsASuffix(all[start..], cutoff);
      from := start + young;
      SliceOfSlice(all, start, young);
      SuffixCutoff(all, start, young, cutoff);
      forall k | 0 <= k <= |all| ensures Fits(all, k, maxRecords, maxAge) <==> from <= k {
        FitsIff(all, front, before, start, young, k, maxRecords, maxAge);
      }
    }
  }

  lemma {:induction false} TrailOfNothing(maxRecords: nat, maxAge: nat)
    ensures Trail([], maxRecords, maxAge) == []
  {
  }

  lemma {:induction false} TrailOfSuffix(all: seq<Record>, before: nat, maxRecords: nat, maxAge: nat)
    requires all != [] && before < |all| && maxRecords >= 1
    requires Trail(all[..|all| - 1], maxRecords, maxAge) == all[..|all| - 1][before..]
    ensures var start := if |all| - before <= maxRecords then before else |all| - maxRecords;
            Trail(all, maxRecords, maxAge) == Since(all[start..], all[|all| - 1].endedAt - maxAge)
  {
    hide Since;
    var start := if |all| - before <= maxRecords then before else |all| - maxRecords;
    assert all[..|all| - 1][before..] + [all[|all| - 1]] == all[before..];
    LastOfSuffix(all, before, maxRecords);
  }

  lemma LastOfSuffix(all: seq<Record>, before: nat, count: nat)
    requires before <= |all|
    ensures LastOf(all[before..], count) == if |all| - before <= count then all[before..] else all[|all| - count..]
  {
  }

  lemma SliceOfSlice(all: seq<Record>, start: nat, young: nat)
    requires start + young <= |all|
    ensures all[start..][young..] == all[start + young..]
  {
  }

  lemma SuffixCutoff(all: seq<Record>, start: nat, young: nat, cutoff: int)
    requires start <= |all|
    requires forall i :: 0 <= i < |all| - start ==> (all[start..][i].endedAt >= cutoff <==> young <= i)
    ensures forall i :: start <= i < |all| ==> (all[i].endedAt >= cutoff <==> start + young <= i)
  {
    forall i | start <= i < |all| ensures all[i].endedAt >= cutoff <==> start + young <= i {
      assert all[i] == all[start..][i - start];
    }
  }

  lemma NothingFits(maxRecords: nat, maxAge: nat)
    ensures Fits([], 0, maxRecords, maxAge)
  {
  }

  lemma ChronologicalParts(all: seq<Record>)
    requires all != [] && Chronological(all)
    ensures Chronological(all[..|all| - 1]) && forall k :: 0 <= k <= |all| ==> Chronological(all[k..])
  {
  }

  lemma FitsIff(
    all: seq<Record>, front: seq<Record>, before: nat, start: nat, young: nat, k: nat, maxRecords: nat, maxAge: nat)
    requires all != [] && front == all[..|all| - 1] && Chronological(all) && maxRecords >= 1
    requires before <= |front|
    requires forall j :: 0 <= j <= |front| ==> (Fits(front, j, maxRecords, maxAge) <==> before <= j)
    requires start == if |all| - before <= maxRecords then before else |all| - maxRecords
    requires start + young <= |all| && k <= |all|
    requires var cutoff := all[|all| - 1].endedAt - maxAge;
             forall i :: start <= i < |all| ==> (all[i].endedAt >= cutoff <==> start + young <= i)
    ensures Fits(all, k, maxRecords, maxAge) <==> start + young <= k
  {
    var n := |all|;
    var cutoff := all[n - 1].endedAt - maxAge;
    if k < start {
      if start == before && Fits(all, k, maxRecords, maxAge) {
        assert forall i :: k <= i < |front| ==> front[i] == all[i];
        assert front[|front| - 1].endedAt <= all[n - 1].endedAt;
        assert Fits(front, k, maxRecords, maxAge);
      }
    } else if k < start + young {
      assert all[k].endedAt < cutoff;
    }
  }

  lemma {:induction false} TrailStep(all: seq<Record>, r: Record, maxRecords: nat, maxAge: nat)
    ensures Trail(all + [r], maxRecords, maxAge) == Appended(Trail(all, maxRecords, maxAge), r, maxRecords, maxAge)
  {
    hide Since;
    assert (all + [r])[..|all|] == all;
  }

  class BoundedAuditTrail {
    const maxRecords: nat
    const maxAge: nat
    var records: seq<Record>
    /** Everything ever appended. */
    ghost var all: seq<Record>

    ghost predicate Valid()
      reads this
    {
      maxRecords >= 1 && records == Trail(all, maxRecords, maxAge)
    }

    constructor (maxRecords: nat, maxAgeSeconds: nat)
      requires maxRecords >= 1 && maxAgeSeconds >= 1
      ensures Valid() && all == [] && this.maxRecords == maxRecords && maxAge == 1000 * maxAgeSeconds
    {
      this.maxRecords, maxAge := maxRecords, 1000 * maxAgeSeconds;
      records, all := [], [];
    }

    /** Stores the record, drops the oldest beyond the count and then whatever is too old for this record. */
    method Append(r: Record)
      requires Valid()
      modifies this
      ensures Valid() && all == old(all) + [r]
      ensures Chronological(all) ==>
                exists from :: 0 <= from <= |all| && records == all[from..]
                               && forall k :: 0 <= k <= |all| ==> (Fits(all, k, maxRecords, maxAge) <==> from <= k)
    {
      hide Since, Fits, Chronological, Trail;
      ghost var before := records;
      TrailStep(all, r, maxRecords, maxAge);
      records := records + [r];
      if |records| > maxRecords { records := records[|records| - maxRecords..]; }
      assert records == LastOf(before + [r], maxRecords);
      all := all + [r];
      Prune();
      if Chronological(all) { var from := TrailIsTheLongestSuffix(all, maxRecords, maxAge); }
    }

    /** Removes the records older than the age bound, measured from the newest one. */
    method Prune()
      requires records != []
      modifies this`records
      ensures records == Since(old(records), old(records)[|old(records)| - 1].endedAt - maxAge)
    {
      var cutoff := records[|records| - 1].endedAt - maxAge;
      var kept: seq<Record> := [];
      for i := 0 to |records|
        invariant records == old(records) && kept == Since(records[..i], cutoff)
      {
        assert records[..i + 1][..i] == records[..i];
        if records[i].endedAt >= cutoff { kept := kept + [records[i]]; }
      }
      assert records[..|records|] == records;
      records := kept;
    }
  }
}
