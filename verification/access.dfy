/**
 * Role gating of the main layout: the navigation entries the sidebar
 * offers, and which panel the main area renders for the active view.
 */
module Access {
  import opened Process

  const DashboardView: string := "dashboard"
  const SecurityView: string := "security"

  /** The ids of the sidebar's navigation entries for a user with `role`. */
  function NavItems(role: string): (items: seq<string>)
    ensures |items| == (if role == Director then 2 else 1) && items[0] == DashboardView
    ensures SecurityView in items <==> role == Director
    ensures forall i :: 0 <= i < |items| ==> items[i] == DashboardView || items[i] == SecurityView
  {
    ["dashboard"] + (if role == "diretor" then ["security"] else [])
  }

  datatype Panel = DashboardPanel | SecurityPanel

  /**
   * The panels the main area renders: the dashboard for the dashboard
   * view, the security panel for the security view but only for a director.
   */
  function Panels(view: string, role: string): (r: seq<Panel>)
    ensures DashboardPanel in r <==> view == DashboardView
    ensures SecurityPanel in r <==> view == SecurityView && role == Director
    ensures |r| <= 1
  {
    (if view == "dashboard" then [DashboardPanel] else [])
    + (if view == "security" && role == "diretor" then [SecurityPanel] else [])
  }

  /** The counters above the process list are shown to directors only. */
  predicate ShowsKpis(role: string) {
    role == "diretor"
  }

  /**
   * The views a user can be on: the initial dashboard view, or any view a
   * navigation entry for `role` sets.
   */
  predicate Reachable(view: string, role: string) {
    view == DashboardView || view in NavItems(role)
  }

  /** The counters and the security entry are granted together, by the same role test. */
  lemma KpisGoWithSecurityEntry(role: string)
    ensures ShowsKpis(role) <==> SecurityView in NavItems(role)
    ensures ShowsKpis(role) <==> role == Director
  {
  }

  /**
   * The security panel needs both gates: it renders only on a view the
   * sidebar offers, and only to directors.
   */
  lemma SecurityPanelGated(view: string, role: string)
    ensures SecurityPanel in Panels(view, role) ==> Reachable(view, role) && role == Director
    ensures SecurityPanel in Panels(view, role) <==> view == SecurityView && SecurityView in NavItems(role)
  {
  }

  /**
   * A user moved off the director role while on the security view keeps
   * that view but sees no panel at all, and is no longer offered the entry.
   */
  lemma DemotedOnSecurityView(role: string)
    requires role != Director
    ensures Panels(SecurityView, role) == []
    ensures !Reachable(SecurityView, role)
  {
  }

  /** Every reachable view renders exactly one panel. */
  lemma ReachableRendersOne(view: string, role: string)
    requires Reachable(view, role)
    ensures |Panels(view, role)| == 1
  {
  }
}
