/**
 * The admin area's frame: a loading screen that, after a delay, either sends
 * a logged-out visitor to the login page or reveals the tabs, and a tab bar
 * that selects which panel is shown.
 */
module AdminShell {
  import opened Wrappers
  import opened Http
  import opened JsText
  import opened Session

  datatype Tab = Dashboard | Users | Activities | Donations

  /** The four panels the shell can show. */
  datatype AdminPanel = DashboardPanel | UsersPanel | ActivitiesPanel | DonationsPanel

  /** The `content` map from a tab to its panel. */
  function PanelFor(t: Tab): AdminPanel {
    match t
    case Dashboard => DashboardPanel
    case Users => UsersPanel
    case Activities => ActivitiesPanel
    case Donations => DonationsPanel
  }

  /** Distinct tabs show distinct panels. */
  lemma PanelForInjective(a: Tab, b: Tab)
    ensures PanelFor(a) == PanelFor(b) ==> a == b
  {
  }

  class Shell {
    var loading: bool
    var activeTab: Tab

    constructor ()
      ensures loading && activeTab == Dashboard
    {
      loading := true;
      activeTab := Dashboard;
    }

    /** The timer callback: a cookie with the logout marker sends the visitor
        to `/login` (with no `from`); any other cookie, the empty one
        included, ends the loading screen. */
    method AfterDelay(browser: Browser)
      modifies this, browser
      ensures AdminAdmits(old(browser.cookie)) ==> !loading && browser.history == old(browser.history)
      ensures !AdminAdmits(old(browser.cookie)) ==>
        loading == old(loading) && browser.history == old(browser.history) + [Navigation("/login", NoState)]
      ensures browser.cookie == old(browser.cookie) && browser.alerts == old(browser.alerts)
      ensures activeTab == old(activeTab)
    {
      if Contains(browser.cookie, LoggedOut) {
        browser.Navigate(Navigation("/login", NoState));
      } else {
        loading := false;
      }
    }

    /** A click on a tab button. */
    method SelectTab(t: Tab)
      modifies this
      ensures activeTab == t && loading == old(loading)
    {
      activeTab := t;
    }

    /** What the shell renders: the spinner (no panel) while loading, the
        active tab's panel afterwards. */
    function Shown(): Option<AdminPanel>
      reads this
    {
      if loading then None else Some(PanelFor(activeTab))
    }
  }

  /** Once loaded, a tab's panel is shown exactly when that tab is active. */
  lemma ShownIsActiveTab(s: Shell, t: Tab)
    requires !s.loading
    ensures s.Shown() == Some(PanelFor(t)) <==> t == s.activeTab
  {
    PanelForInjective(t, s.activeTab);
  }
}
