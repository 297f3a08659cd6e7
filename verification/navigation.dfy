/**
 * The mobile menu and the highlighting of the current page's navigation link.
 *
 * The menu's state is three class flags on three elements: 'active' on the
 * hamburger button, 'open' on the navigation bar and 'no-scroll' on the body.
 * The current page is read from the last '/'-separated segment of the
 * location's pathname.
 */
module Navigation {
  import opened Wrappers

  // ---------------------------------------------------------------------------
  // Splitting a path on '/'
  // ---------------------------------------------------------------------------

  /** `s.split(sep)`: the pieces between separators, always at least one. */
  function Split(s: string, sep: char): (parts: seq<string>)
    ensures |parts| >= 1
    ensures forall k :: 0 <= k < |parts| ==> sep !in parts[k]
  {
    if s == [] then [[]]
    else
      var rest := Split(s[1..], sep);
      if s[0] == sep then [[]] + rest
      else [[s[0]] + rest[0]] + rest[1..]
  }

  /** `parts.join(sep)`. */
  function Join(parts: seq<string>, sep: char): string
    requires |parts| >= 1
  {
    if |parts| == 1 then parts[0] else parts[0] + [sep] + Join(parts[1..], sep)
  }

  /** Splitting and joining again gives back the path. */
  lemma {:induction false} JoinSplit(s: string, sep: char)
    ensures Join(Split(s, sep), sep) == s
  {
    if s != [] {
      var rest := Split(s[1..], sep);
      JoinSplit(s[1..], sep);
      var parts := Split(s, sep);
      if s[0] == sep {
        assert parts[1..] == rest;
      } else if |rest| > 1 {
        assert parts[1..] == rest[1..];
        assert Join(rest, sep) == rest[0] + [sep] + Join(rest[1..], sep);
      }
    }
  }

  /** Joining pieces free of the separator and splitting again gives back the pieces. */
  lemma {:induction false} SplitJoin(parts: seq<string>, sep: char)
    requires |parts| >= 1
    requires forall k :: 0 <= k < |parts| ==> sep !in parts[k]
    ensures Split(Join(parts, sep), sep) == parts
    decreases |parts|
  {
    if |parts| == 1 {
      SplitWithoutSeparator(parts[0], sep);
    } else {
      SplitJoin(parts[1..], sep);
      SplitAfterPiece(parts[0], sep, Join(parts[1..], sep));
    }
  }

  lemma {:induction false} SplitWithoutSeparator(s: string, sep: char)
    requires sep !in s
    ensures Split(s, sep) == [s]
  {
    if s != [] {
      SplitWithoutSeparator(s[1..], sep);
      assert [s[0]] + s[1..] == s;
    }
  }

  lemma {:induction false} SplitAfterPiece(a: string, sep: char, x: string)
    requires sep !in a
    ensures Split(a + [sep] + x, sep) == [a] + Split(x, sep)
  {
    var s := a + [sep] + x;
    if a == [] {
      assert s[1..] == x;
    } else {
      assert s[1..] == a[1..] + [sep] + x;
      SplitAfterPiece(a[1..], sep, x);
      assert [a[0]] + a[1..] == a;
    }
  }

  /** The last piece of a join is preceded by a separator. */
  lemma {:induction false} JoinLast(parts: seq<string>, sep: char)
    requires |parts| >= 2
    ensures Join(parts, sep) == Join(parts[..|parts| - 1], sep) + [sep] + parts[|parts| - 1]
    decreases |parts|
  {
    if |parts| > 2 {
      JoinLast(parts[1..], sep);
      assert parts[1..][..|parts| - 2] == parts[..|parts| - 1][1..];
    }
  }

  function Last(parts: seq<string>): string
    requires |parts| >= 1
  {
    parts[|parts| - 1]
  }

  /**
   * `s.split(sep).pop()` is the longest suffix of `s` without a separator: it
   * is either the whole of `s` or preceded by a separator, and it is empty
   * exactly when `s` is empty or ends with the separator.
   */
  lemma LastPieceIsLastSegment(s: string, sep: char)
    ensures var l := Last(Split(s, sep));
      |l| <= |s| && l == s[|s| - |l|..] && sep !in l &&
      (|l| < |s| ==> s[|s| - |l| - 1] == sep) &&
      (l == [] <==> s == [] || s[|s| - 1] == sep)
  {
    var parts := Split(s, sep);
    var l := Last(parts);
    JoinSplit(s, sep);
    if |parts| >= 2 {
      JoinLast(parts, sep);
      var a := Join(parts[..|parts| - 1], sep);
      assert s == a + [sep] + l;
      assert s[|s| - |l|..] == l;
      assert s[|s| - |l| - 1] == sep;
    }
    if l != [] && s != [] {
      assert s[|s| - 1] == l[|l| - 1];
    }
  }

  // ---------------------------------------------------------------------------
  // The current page
  // ---------------------------------------------------------------------------

  const DefaultPage := "index.html"

  /** `pathname.split('/').pop() || 'index.html'`. */
  function CurrentPage(pathname: string): (page: string)
    ensures page != ""
    ensures '/' !in page
  {
    var last := Last(Split(pathname, '/'));
    if last == "" then DefaultPage else last
  }

  /**
   * The current page is the text after the last '/' of the pathname, or
   * 'index.html' when the pathname is empty or ends with '/'.
   */
  lemma CurrentPageIsLastSegment(pathname: string)
    ensures pathname == "" || pathname[|pathname| - 1] == '/' ==> CurrentPage(pathname) == DefaultPage
    ensures pathname != "" && pathname[|pathname| - 1] != '/' ==>
      var page := CurrentPage(pathname);
      0 < |page| <= |pathname| && page == pathname[|pathname| - |page|..] && '/' !in page &&
      (|page| < |pathname| ==> pathname[|pathname| - |page| - 1] == '/')
  {
    LastPieceIsLastSegment(pathname, '/');
    var l := Last(Split(pathname, '/'));
    assert CurrentPage(pathname) == if l == "" then DefaultPage else l;
  }

  /** A page name after the last '/' of any pathname is the current page. */
  lemma PageAfterLastSlash(dir: string, file: string)
    requires file != "" && '/' !in file
    ensures CurrentPage(dir + "/" + file) == file
  {
    var path := dir + "/" + file;
    LastPieceIsLastSegment(path, '/');
    var l := Last(Split(path, '/'));
    assert path[|path| - |file|..] == file;
    assert path[|path| - |file| - 1] == '/';
    assert l == file;
  }

  lemma CurrentPageExamples()
    ensures CurrentPage("/") == "index.html"
    ensures CurrentPage("/a/b.html") == "b.html"
  {
    CurrentPageIsLastSegment("/");
    PageAfterLastSlash("/a", "b.html");
    assert "/a" + "/" + "b.html" == "/a/b.html";
  }

  // ---------------------------------------------------------------------------
  // Active-link marking
  // ---------------------------------------------------------------------------

  /** A 'nav a' element: its href attribute (absent: `None`) and its classes. */
  datatype Link = Link(href: Option<string>, classList: set<string>)

  const ActiveClass := "active"

  /**
   * The test of the marking loop, with its second disjunct as written. For a
   * non-empty current page it is plain equality of the href with the page.
   */
  predicate LinkMatches(href: Option<string>, currentPage: string)
    ensures LinkMatches(href, currentPage) ==> href.Some?
    ensures currentPage != "" ==> (LinkMatches(href, currentPage) <==> href == Some(currentPage))
  {
    href == Some(currentPage) || (currentPage == "" && href == Some(DefaultPage))
  }

  /** One iteration of the marking loop: a matching link gains 'active' and nothing else changes. */
  function Marked(link: Link, currentPage: string): (r: Link)
    ensures r.href == link.href
    ensures link.classList <= r.classList && r.classList - link.classList <= {ActiveClass}
    ensures ActiveClass in r.classList <==> LinkMatches(link.href, currentPage) || ActiveClass in link.classList
    ensures !LinkMatches(link.href, currentPage) ==> r == link
  {
    if LinkMatches(link.href, currentPage) then link.(classList := link.classList + {ActiveClass})
    else link
  }

  function MarkedAll(links: seq<Link>, currentPage: string): (r: seq<Link>)
    ensures |r| == |links|
    ensures forall k :: 0 <= k < |links| ==> r[k] == Marked(links[k], currentPage)
  {
    seq(|links|, k requires 0 <= k < |links| => Marked(links[k], currentPage))
  }

  /**
   * For any pathname, a link ends up 'active' exactly when its href equals the
   * current page or it already was; the `currentPage === ''` disjunct never
   * holds. Marking only adds 'active': hrefs never change, other classes stay,
   * and a link that does not match is left as it was.
   */
  lemma MarkingIsHrefEquality(links: seq<Link>, pathname: string)
    ensures var page := CurrentPage(pathname);
      var r := MarkedAll(links, page);
      forall k :: 0 <= k < |links| ==>
        (LinkMatches(links[k].href, page) <==> links[k].href == Some(page)) &&
        (ActiveClass in r[k].classList <==> links[k].href == Some(page) || ActiveClass in links[k].classList) &&
        r[k].href == links[k].href &&
        links[k].classList <= r[k].classList &&
        r[k].classList - links[k].classList <= {ActiveClass} &&
        (links[k].href != Some(page) ==> r[k] == links[k])
  {
  }

  // ---------------------------------------------------------------------------
  // The menu
  // ---------------------------------------------------------------------------

  datatype MenuState = MenuState(hamburgerActive: bool, navOpen: bool, bodyNoScroll: bool)

  /** The three flags agree: the menu is wholly open or wholly closed. */
  predicate InLockstep(m: MenuState) {
    m.hamburgerActive == m.navOpen && m.navOpen == m.bodyNoScroll
  }

  function AllFlags(b: bool): MenuState {
    MenuState(b, b, b)
  }

  /** A hamburger click toggles all three classes. */
  function Toggled(m: MenuState): (r: MenuState)
    ensures r.hamburgerActive != m.hamburgerActive && r.navOpen != m.navOpen && r.bodyNoScroll != m.bodyNoScroll
  {
    MenuState(!m.hamburgerActive, !m.navOpen, !m.bodyNoScroll)
  }

  /** A navigation-link click removes all three classes. */
  function Closed(m: MenuState): (r: MenuState)
    ensures r == AllFlags(false)
  {
    m.(hamburgerActive := false, navOpen := false, bodyNoScroll := false)
  }

  /** Two hamburger clicks restore the menu; lockstep holds after a click exactly when it held before. */
  lemma ToggleProperties(m: MenuState)
    ensures Toggled(Toggled(m)) == m
    ensures InLockstep(Toggled(m)) <==> InLockstep(m)
  {
  }

  /** Closing is idempotent and puts the menu in lockstep from any state. */
  lemma CloseProperties(m: MenuState)
    ensures Closed(Closed(m)) == Closed(m)
    ensures InLockstep(Closed(m))
  {
  }

  datatype Click = Hamburger | NavLink

  function AfterClick(m: MenuState, c: Click): MenuState {
    match c
    case Hamburger => Toggled(m)
    case NavLink => Closed(m)
  }

  /** The menu after a series of clicks, the last click last. */
  function AfterClicks(m: MenuState, clicks: seq<Click>): MenuState
    decreases |clicks|
  {
    if clicks == [] then m
    else AfterClick(AfterClicks(m, clicks[..|clicks| - 1]), clicks[|clicks| - 1])
  }

  /** Hamburger clicks since the last navigation-link click. */
  function TogglesSinceClose(clicks: seq<Click>): nat
    decreases |clicks|
  {
    if clicks == [] || clicks[|clicks| - 1] == NavLink then 0
    else 1 + TogglesSinceClose(clicks[..|clicks| - 1])
  }

  /** From any state in lockstep, every series of clicks keeps the menu in lockstep. */
  lemma {:induction false} ClicksKeepLockstep(m: MenuState, clicks: seq<Click>)
    requires InLockstep(m)
    ensures InLockstep(AfterClicks(m, clicks))
    decreases |clicks|
  {
    if clicks != [] {
      ClicksKeepLockstep(m, clicks[..|clicks| - 1]);
    }
  }

  /**
   * Starting closed, the menu is open exactly when an odd number of hamburger
   * clicks followed the last navigation-link click.
   */
  lemma {:induction false} OpenIffOddToggles(clicks: seq<Click>)
    ensures AfterClicks(AllFlags(false), clicks) == AllFlags(TogglesSinceClose(clicks) % 2 == 1)
    decreases |clicks|
  {
    if clicks != [] {
      OpenIffOddToggles(clicks[..|clicks| - 1]);
    }
  }

  /** The hamburger, the navigation bar, the body and the 'nav a' links of one page. */
  class Page {
    var hamburgerActive: bool
    var navOpen: bool
    var bodyNoScroll: bool
    var links: seq<Link>

    function Menu(): MenuState
      reads this
    {
      MenuState(hamburgerActive, navOpen, bodyNoScroll)
    }

    /** The hamburger's 'click' listener. */
    method OnHamburgerClick()
      modifies this
      ensures Menu() == Toggled(old(Menu()))
      ensures links == old(links)
    {
      hamburgerActive := !hamburgerActive;
      navOpen := !navOpen;
      bodyNoScroll := !bodyNoScroll;
    }

    /** The 'click' listener of every '#main-nav a' link. */
    method OnNavLinkClick()
      modifies this
      ensures Menu() == Closed(old(Menu()))
      ensures links == old(links)
    {
      hamburgerActive := false;
      navOpen := false;
      bodyNoScroll := false;
    }

    /** The DOMContentLoaded listener: mark the link of the current page 'active'. */
    method MarkActiveLinks(pathname: string)
      modifies this
      ensures links == MarkedAll(old(links), CurrentPage(pathname))
      ensures Menu() == old(Menu())
    {
      var currentPage := CurrentPage(pathname);
      var i := 0;
      while i < |links|
        invariant 0 <= i <= |links| == |old(links)|
        invariant forall k :: 0 <= k < |links| ==>
          links[k] == if k < i then Marked(old(links)[k], currentPage) else old(links)[k]
        invariant Menu() == old(Menu())
      {
        var href := links[i].href;
        if href == Some(currentPage) || (currentPage == "" && href == Some(DefaultPage)) {
          links := links[i := links[i].(classList := links[i].classList + {ActiveClass})];
        }
        i := i + 1;
      }
    }
  }
}
