/**
 * The alert list (src/components/AlertList.tsx): the fetched reports, a
 * four-way status filter over them, the per-filter counts on the filter
 * buttons and the placeholder shown when nothing matches.
 */
module AlertList {
  import opened Reports

  /** The filter buttons: everything, or one exact status. */
  datatype StatusFilter = All | Only(status: Status)

  /** `filteredReports`. */
  function FilteredReports(reports: seq<WaterReport>, filter: StatusFilter): (shown: seq<WaterReport>)
    ensures filter == All ==> shown == reports
    ensures |shown| <= |reports|
  {
    match filter
    case All => reports
    case Only(st) => WithStatus(reports, st)
  }

  /**
   * Under a status filter the list is the order-preserving subsequence of
   * the reports with that exact status: nothing else, and none of them left out.
   */
  lemma FilteredByStatus(reports: seq<WaterReport>, st: Status)
    ensures IsSubsequence(FilteredReports(reports, Only(st)), reports)
    ensures forall x :: x in FilteredReports(reports, Only(st)) <==> x in reports && x.status == st
  {
    FilterIsSubsequence(reports, HasStatus(st));
    forall x ensures x in FilteredReports(reports, Only(st)) <==> x in reports && x.status == st {
      FilterMembership(reports, HasStatus(st), x);
    }
  }

  /** The count on a filter button: `reports.length` for All, else that status's filter length. */
  function ButtonCount(reports: seq<WaterReport>, filter: StatusFilter): (n: nat)
    ensures n == |FilteredReports(reports, filter)|
  {
    match filter
    case All => |reports|
    case Only(st) => |WithStatus(reports, st)|
  }

  /** `activeCount`, shown in the header line. */
  function ActiveCount(reports: seq<WaterReport>): (n: nat)
    ensures n == ButtonCount(reports, Only(Active))
    ensures n <= |reports|
  {
    |WithStatus(reports, Active)|
  }

  /** The Active, Investigating and Resolved buttons together count every report. */
  lemma ButtonCountsSum(reports: seq<WaterReport>)
    ensures ButtonCount(reports, Only(Active)) + ButtonCount(reports, Only(Investigating))
      + ButtonCount(reports, Only(Resolved)) == ButtonCount(reports, All)
  {
    StatusCountsSum(reports);
  }

  /** The placeholder when the filtered list is empty; under a status filter it names that status. */
  function EmptyMessage(filter: StatusFilter): (m: string)
    ensures filter.Only? ==> |m| == |StatusName(filter.status)| + 18 && m[3..|m| - 15] == StatusName(filter.status)
  {
    match filter
    case All => "No water issues reported yet."
    case Only(st) => "No " + StatusName(st) + " reports found."
  }

  /** What the list renders. */
  datatype ListBody = Spinner | Placeholder(message: string) | Cards(cards: seq<WaterReport>)

  function Body(loading: bool, reports: seq<WaterReport>, filter: StatusFilter): (body: ListBody)
    ensures body.Spinner? <==> loading
    ensures body.Placeholder? <==> !loading && FilteredReports(reports, filter) == []
    ensures body.Placeholder? ==> body.message == EmptyMessage(filter)
    ensures body.Cards? ==> body.cards == FilteredReports(reports, filter) && body.cards != []
  {
    if loading then Spinner
    else
      var shown := FilteredReports(reports, filter);
      if |shown| == 0 then Placeholder(EmptyMessage(filter)) else Cards(shown)
  }

  /** With no reports at all, every filter shows its own placeholder. */
  lemma NoReportsPlaceholder(filter: StatusFilter)
    ensures Body(false, [], filter) == Placeholder(EmptyMessage(filter))
  {
    assert |FilteredReports([], filter)| <= 0;
  }

  /** The placeholders: the general one under All, "No {status} reports found." under a status. */
  lemma EmptyMessages()
    ensures EmptyMessage(All) == "No water issues reported yet."
    ensures EmptyMessage(Only(Active)) == "No active reports found."
    ensures EmptyMessage(Only(Investigating)) == "No investigating reports found."
    ensures EmptyMessage(Only(Resolved)) == "No resolved reports found."
  {
    assert "No " + "active" == "No active";
    assert "No active" + " reports found." == "No active reports found.";
    assert "No " + "investigating" == "No investigating";
    assert "No investigating" + " reports found." == "No investigating reports found.";
    assert "No " + "resolved" == "No resolved";
    assert "No resolved" + " reports found." == "No resolved reports found.";
  }

  /** Component state of the list view. */
  class AlertListState {
    var reports: seq<WaterReport>
    var loading: bool
    var filter: StatusFilter

    /** Mount: no reports yet, spinner shown, filter All. */
    constructor ()
      ensures reports == [] && loading && filter == All
    {
      reports := [];
      loading := true;
      filter := All;
    }

    /** The cards shown: the reports that pass the current filter, in fetch order. */
    function Displayed(): (shown: seq<WaterReport>)
      reads this
      ensures IsSubsequence(shown, reports)
      ensures forall x :: x in shown <==> x in reports && (filter == All || x.status == filter.status)
    {
      if filter.Only? then
        FilteredByStatus(reports, filter.status);
        FilteredReports(reports, filter)
      else
        SubsequenceReflexive(reports);
        FilteredReports(reports, filter)
    }

    /**
     * `fetchReports` once its request has settled: the data (or an empty
     * list for null) on success, the old list on failure; the spinner goes
     * away either way and the filter is kept.
     */
    method FetchReports(outcome: FetchOutcome)
      modifies this
      ensures outcome.Fetched? ==> reports == FetchedList(outcome.data)
      ensures outcome.FetchFailed? ==> reports == old(reports)
      ensures !loading && filter == old(filter)
    {
      if outcome.Fetched? {
        reports := FetchedList(outcome.data);
      }
      loading := false;
    }

    /** A change event on the collection re-runs the fetch; the filter survives. */
    method OnCollectionChange(outcome: FetchOutcome)
      modifies this
      ensures outcome.Fetched? ==> reports == FetchedList(outcome.data)
      ensures outcome.FetchFailed? ==> reports == old(reports)
      ensures !loading && filter == old(filter)
    {
      FetchReports(outcome);
    }

    /** A filter button: only the filter changes; nothing is refetched. */
    method SetFilter(f: StatusFilter)
      modifies this
      ensures filter == f
      ensures reports == old(reports) && loading == old(loading)
    {
      filter := f;
    }
  }
}
