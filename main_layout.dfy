/**
 * The page shell (src/components/main-layout.tsx with the view buttons of
 * src/components/sidebar.tsx): which view is active, whether the mobile menu
 * sheet is open, and which single view is rendered with the task list.
 */
module MainLayout {
  import opened Records

  /** The three view buttons of the sidebar (sidebar.tsx:33-65). */
  datatype SidebarItem = CalendarItem | BoardItem | ListItem

  /** The literal each button passes to setActiveView (sidebar.tsx:39, 50, 61). */
  function ViewName(item: SidebarItem): (v: string)
    ensures IsView(v)
  {
    match item
    case CalendarItem => "calendar"
    case BoardItem => "board"
    case ListItem => "list"
  }

  /** The values of activeView that render a view (main-layout.tsx:75-77). */
  predicate IsView(v: string)
  {
    v == "calendar" || v == "board" || v == "list"
  }

  /** Each view value comes from exactly one button. */
  lemma ViewNamesDistinct(a: SidebarItem, b: SidebarItem)
    ensures ViewName(a) == ViewName(b) <==> a == b
  {
  }

  /** Every view value has a button that selects it. */
  lemma EveryViewHasAButton(v: string)
    requires IsView(v)
    ensures exists item :: ViewName(item) == v
  {
    if v == "calendar" {
      assert ViewName(CalendarItem) == v;
    } else if v == "board" {
      assert ViewName(BoardItem) == v;
    } else {
      assert ViewName(ListItem) == v;
    }
  }

  /** A button is highlighted when activeView is its literal (sidebar.tsx:34, 45, 56). */
  predicate Highlighted(item: SidebarItem, activeView: string)
  {
    activeView == ViewName(item)
  }

  /** A rendered view and what it receives (main-layout.tsx:75-77): the
      calendar and the board get tasks and projects, the list only tasks. */
  datatype Pane =
    | CalendarPane(tasks: seq<Task>, projects: seq<Project>)
    | BoardPane(tasks: seq<Task>, projects: seq<Project>)
    | ListPane(tasks: seq<Task>)

  /** The three independent conditionals of lines 75-77. */
  function RenderedPanes(activeView: string, tasks: seq<Task>, projects: seq<Project>): (panes: seq<Pane>)
    ensures |panes| <= 1
    ensures |panes| == 1 <==> IsView(activeView)
    ensures forall i :: 0 <= i < |panes| ==> panes[i].tasks == tasks
    ensures forall i :: 0 <= i < |panes| && !panes[i].ListPane? ==> panes[i].projects == projects
    ensures |panes| == 1 ==>
      && (panes[0].CalendarPane? <==> activeView == "calendar")
      && (panes[0].BoardPane? <==> activeView == "board")
      && (panes[0].ListPane? <==> activeView == "list")
  {
    (if activeView == "calendar" then [CalendarPane(tasks, projects)] else [])
    + (if activeView == "board" then [BoardPane(tasks, projects)] else [])
    + (if activeView == "list" then [ListPane(tasks)] else [])
  }

  /** The view a button selects. */
  function PaneOf(item: SidebarItem, tasks: seq<Task>, projects: seq<Project>): Pane
  {
    match item
    case CalendarItem => CalendarPane(tasks, projects)
    case BoardItem => BoardPane(tasks, projects)
    case ListItem => ListPane(tasks)
  }

  /** For a valid activeView exactly one button is highlighted, and the one
      view rendered is the view of that button. */
  lemma HighlightMatchesView(activeView: string, tasks: seq<Task>, projects: seq<Project>)
    requires IsView(activeView)
    ensures exists item :: Highlighted(item, activeView)
    ensures forall a, b :: Highlighted(a, activeView) && Highlighted(b, activeView) ==> a == b
    ensures forall item :: Highlighted(item, activeView) ==>
      RenderedPanes(activeView, tasks, projects) == [PaneOf(item, tasks, projects)]
  {
    EveryViewHasAButton(activeView);
    var item :| ViewName(item) == activeView;
    assert Highlighted(item, activeView);
  }

  /** The shell's state (lines 23-24). */
  class Layout {
    var activeView: string
    var isMobileMenuOpen: bool

    /** activeView only ever holds a view name. */
    ghost predicate Valid()
      reads this
    {
      IsView(activeView)
    }

    /** Lines 23-24: the calendar, with the menu closed. */
    constructor()
      ensures Valid()
      ensures activeView == "calendar" && !isMobileMenuOpen
    {
      activeView := "calendar";
      isMobileMenuOpen := false;
    }

    /** A button of the desktop sidebar (line 33): the view changes, the
        menu flag does not. */
    method SelectFromDesktop(item: SidebarItem)
      modifies this
      ensures Valid()
      ensures activeView == ViewName(item) && isMobileMenuOpen == old(isMobileMenuOpen)
    {
      activeView := ViewName(item);
    }

    /** A button of the sidebar in the mobile sheet (lines 51-54): the view
        changes and the sheet closes. */
    method SelectFromMobile(item: SidebarItem)
      modifies this
      ensures Valid()
      ensures activeView == ViewName(item) && !isMobileMenuOpen
    {
      activeView := ViewName(item);
      isMobileMenuOpen := false;
    }

    /** The sheet's onOpenChange (line 41): opening or dismissing the menu
        leaves the view alone. */
    method SetMobileMenuOpen(open: bool)
      requires Valid()
      modifies this
      ensures Valid()
      ensures isMobileMenuOpen == open && activeView == old(activeView)
    {
      isMobileMenuOpen := open;
    }

    /** What the shell renders in its current state: one view. */
    function Rendered(tasks: seq<Task>, projects: seq<Project>): (panes: seq<Pane>)
      requires Valid()
      reads this
      ensures |panes| == 1 && panes[0].tasks == tasks
      ensures forall item :: Highlighted(item, activeView) ==> panes == [PaneOf(item, tasks, projects)]
    {
      HighlightMatchesView(activeView, tasks, projects);
      RenderedPanes(activeView, tasks, projects)
    }
  }
}
