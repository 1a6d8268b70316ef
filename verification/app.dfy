/** The application shell: whether the user is logged in, which page is
    open, how a menu label moves between pages, and which view is shown. */
module App {
  import opened Common
  import Sidebar

  datatype PageKey = OverviewPage | CreatePostPage | SchedulePage | LookbookPage | LivestreamPage

  /** The top-level views. */
  datatype View = LoginView | OverviewView | CreatePostView | ScheduleView | LookbookView | LivestreamView

  datatype AppState = AppState(loggedIn: bool, page: PageKey)

  /** The first render: logged in exactly when a non-empty token is stored,
      on the overview page. */
  function InitialState(token: Option<string>): (st: AppState)
    ensures st.loggedIn <==> token.Some? && token.value != ""
    ensures st.page == OverviewPage
  {
    AppState(token.Some? && token.value != "", OverviewPage)
  }

  /** `handleLogin`: logged in, same page. */
  function HandleLogin(st: AppState): (r: AppState)
    ensures r.loggedIn && r.page == st.page
  {
    st.(loggedIn := true)
  }

  /** The page a menu label leads to, when it leads to one. */
  function PageFor(item: string): (p: Option<PageKey>)
    ensures item == Sidebar.CreatePostLabel <==> p == Some(CreatePostPage)
    ensures item == Sidebar.Overview <==> p == Some(OverviewPage)
    ensures item == Sidebar.ScheduleLabel <==> p == Some(SchedulePage)
    ensures item == Sidebar.LookbookLabel <==> p == Some(LookbookPage)
    ensures item == Sidebar.LivestreamLabel <==> p == Some(LivestreamPage)
  {
    if item == Sidebar.CreatePostLabel then Some(CreatePostPage)
    else if item == Sidebar.Overview then Some(OverviewPage)
    else if item == Sidebar.ScheduleLabel then Some(SchedulePage)
    else if item == Sidebar.LookbookLabel then Some(LookbookPage)
    else if item == Sidebar.LivestreamLabel then Some(LivestreamPage)
    else None
  }

  /** `handleNavigate`: a known label opens its page; any other label
      changes nothing. Login state is never touched. */
  function Navigate(st: AppState, item: string): (r: AppState)
    ensures r.loggedIn == st.loggedIn
    ensures PageFor(item).Some? ==> r.page == PageFor(item).value
    ensures PageFor(item).None? ==> r == st
  {
    match PageFor(item)
    case Some(p) => st.(page := p)
    case None => st
  }

  /** The menu label of each page. */
  function LabelOf(p: PageKey): string {
    match p
    case OverviewPage => Sidebar.Overview
    case CreatePostPage => Sidebar.CreatePostLabel
    case SchedulePage => Sidebar.ScheduleLabel
    case LookbookPage => Sidebar.LookbookLabel
    case LivestreamPage => Sidebar.LivestreamLabel
  }

  /** Every page is reachable from any state by its own label, which is a
      menu item. */
  lemma NavigateToEveryPage(st: AppState, p: PageKey)
    ensures Navigate(st, LabelOf(p)) == st.(page := p)
    ensures LabelOf(p) in Sidebar.Menu
  {
    assert Sidebar.Menu[0] == Sidebar.Overview;
  }

  /** The statistics, orders and settings items have no page of their own:
      clicking them in the menu leaves the app where it was. */
  lemma UnroutedMenuItems(st: AppState, i: nat)
    requires 5 <= i < |Sidebar.Menu|
    ensures Navigate(st, Sidebar.Click(i)) == st
  {
    Sidebar.MenuLabelsDistinct();
  }

  /** The view rendered: the login screen until logged in, then the open
      page's view. */
  function Render(st: AppState): (v: View)
    ensures !st.loggedIn <==> v == LoginView
  {
    if !st.loggedIn then LoginView
    else match st.page
      case CreatePostPage => CreatePostView
      case SchedulePage => ScheduleView
      case LookbookPage => LookbookView
      case LivestreamPage => LivestreamView
      case OverviewPage => OverviewView
  }

  /** Once logged in, different pages show different views. */
  lemma RenderDistinguishesPages(st1: AppState, st2: AppState)
    requires st1.loggedIn && st2.loggedIn
    ensures Render(st1) == Render(st2) <==> st1.page == st2.page
  {
  }

  /** Logging in shows the page that was open before. */
  lemma LoginRevealsPage(st: AppState)
    ensures Render(HandleLogin(st)) == Render(st.(loggedIn := true))
    ensures Render(HandleLogin(st)) != LoginView
  {
  }
}
