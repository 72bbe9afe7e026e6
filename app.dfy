/**
 * The application shell (src/App.tsx): one view variable chosen by the
 * header's navigation and reset to the list after a report is filed.
 */
module App {

  datatype View = Home | Report | Map

  /** The three views the main area can hold. */
  datatype Screen = AlertListScreen | ReportFormScreen | MapViewScreen

  /** `{currentView === ... && <...>}`: the condition guarding each screen. */
  predicate Renders(view: View, screen: Screen)
  {
    || (view == Home && screen == AlertListScreen)
    || (view == Report && screen == ReportFormScreen)
    || (view == Map && screen == MapViewScreen)
  }

  /** Each view renders exactly one screen, and each screen belongs to exactly one view. */
  lemma ExactlyOneScreen(view: View)
    ensures exists screen :: Renders(view, screen) && forall other :: Renders(view, other) ==> other == screen
    ensures forall screen, v :: Renders(v, screen) && Renders(view, screen) ==> v == view
  {
    var screen := match view case Home => AlertListScreen case Report => ReportFormScreen case Map => MapViewScreen;
    assert Renders(view, screen);
  }

  class AppState {
    var currentView: View

    /** The app opens on the list. */
    constructor ()
      ensures currentView == Home
    {
      currentView := Home;
    }

    /** `onNavigate`: any of the header's targets, taken without a guard. */
    method Navigate(target: View)
      modifies this
      ensures currentView == target
    {
      currentView := target;
    }

    /** `handleReportSuccess`, at the moment its delayed call runs: back to the list. */
    method HandleReportSuccess()
      modifies this
      ensures currentView == Home
    {
      currentView := Home;
    }
  }
}
