/**
 * The report record shared by every view (src/lib/supabase.ts), the outcome of
 * the one remote read the views perform, and the order-preserving filter that
 * the list and location views both derive their displays from.
 */
module Reports {

  datatype Option<+T> = None | Some(value: T)

  /** Lifecycle label of a report. */
  datatype Status = Active | Investigating | Resolved

  /** Reporter-assigned urgency. */
  datatype Severity = Low | Medium | High | Critical

  /** The string literal the backend stores for a status. */
  function StatusName(s: Status): string
  {
    match s
    case Active => "active"
    case Investigating => "investigating"
    case Resolved => "resolved"
  }

  /** One row of the water-report collection; `contactInfo` is nullable. */
  datatype WaterReport = WaterReport(
    id: string,
    title: string,
    description: string,
    location: string,
    status: Status,
    severity: Severity,
    reportedBy: string,
    contactInfo: Option<string>,
    createdAt: string,
    updatedAt: string)

  /**
   * What a `select('*')` against the backend hands back: either data (which
   * may be null) or an error.
   */
  datatype FetchOutcome = Fetched(data: Option<seq<WaterReport>>) | FetchFailed

  /** The list a successful fetch installs: the data, or an empty list for null. */
  function FetchedList(data: Option<seq<WaterReport>>): seq<WaterReport>
  {
    match data
    case Some(d) => d
    case None => []
  }

  /**
   * `s.filter(keep)`: the members of `s` that satisfy `keep`, in their order
   * in `s`. Defined by appending at the end, as the array is scanned.
   */
  function Filter(s: seq<WaterReport>, keep: WaterReport -> bool): (r: seq<WaterReport>)
    ensures |r| <= |s|
    ensures forall x :: x in r ==> x in s && keep(x)
  {
    if s == [] then []
    else
      var rest := Filter(s[..|s| - 1], keep);
      assert forall x :: x in s[..|s| - 1] ==> x in s;
      if keep(s[|s| - 1]) then rest + [s[|s| - 1]] else rest
  }

  /** The test `r.status === st`. */
  function HasStatus(st: Status): WaterReport -> bool
  {
    (r: WaterReport) => r.status == st
  }

  /** The reports whose status is exactly `st`. */
  function WithStatus(s: seq<WaterReport>, st: Status): seq<WaterReport>
  {
    Filter(s, HasStatus(st))
  }

  /**
   * `a` is an order-preserving subsequence of `b`: `a` is `b` with some
   * elements removed. Matching the last elements greedily is complete.
   */
  predicate IsSubsequence(a: seq<WaterReport>, b: seq<WaterReport>)
  {
    if a == [] then true
    else if b == [] then false
    else if a[|a| - 1] == b[|b| - 1] then IsSubsequence(a[..|a| - 1], b[..|b| - 1])
    else IsSubsequence(a, b[..|b| - 1])
  }

  /** Every list is a subsequence of itself. */
  lemma {:induction false} SubsequenceReflexive(s: seq<WaterReport>)
    ensures IsSubsequence(s, s)
  {
    if s != [] {
      SubsequenceReflexive(s[..|s| - 1]);
    }
  }

  /** A report is kept exactly when it is in `s` and satisfies the predicate. */
  lemma {:induction false} FilterMembership(s: seq<WaterReport>, keep: WaterReport -> bool, x: WaterReport)
    ensures x in Filter(s, keep) <==> x in s && keep(x)
  {
    if s != [] {
      FilterMembership(s[..|s| - 1], keep, x);
      assert s == s[..|s| - 1] + [s[|s| - 1]];
    }
  }

  /** Filtering never reorders: the result is a subsequence of the input. */
  lemma {:induction false} FilterIsSubsequence(s: seq<WaterReport>, keep: WaterReport -> bool)
    ensures IsSubsequence(Filter(s, keep), s)
  {
    if s != [] {
      var init := s[..|s| - 1];
      FilterIsSubsequence(init, keep);
      var rest := Filter(init, keep);
      if keep(s[|s| - 1]) {
        assert (rest + [s[|s| - 1]])[..|rest|] == rest;
      } else if rest != [] {
        assert rest[|rest| - 1] in rest;
      }
    }
  }

  /** Filtering one more report at the end adds it exactly when it passes. */
  lemma FilterSnoc(s: seq<WaterReport>, x: WaterReport, keep: WaterReport -> bool)
    ensures Filter(s + [x], keep) == if keep(x) then Filter(s, keep) + [x] else Filter(s, keep)
  {
    assert (s + [x])[..|s|] == s;
  }

  /**
   * Since every status is one of three values, the three per-status counts
   * add up to the length of the list.
   */
  lemma {:induction false} StatusCountsSum(s: seq<WaterReport>)
    ensures |WithStatus(s, Active)| + |WithStatus(s, Investigating)| + |WithStatus(s, Resolved)| == |s|
  {
    if s != [] {
      var init := s[..|s| - 1];
      StatusCountsSum(init);
      assert s == init + [s[|s| - 1]];
    }
  }
}
