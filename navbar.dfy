/**
 * The site header (src/components/Navbar.jsx): the path each menu item links
 * to, and the open/closed state of the mobile menu.
 */
module Navbar {
  import opened Wrappers
  import opened Strings

  /** The menu items, in the order the header shows them. */
  const MenuItems: seq<string> := ["Home", "Alerts", "Safe Zones", "Neighbors"]

  /** The paths the router declares (src/App.jsx). */
  const Routes: seq<string> := ["/", "/alerts", "/safezones", "/sahayak", "/neighbors"]

  /**
   * The link target of a menu item: "Home" goes to the root; any other item
   * goes to "/" followed by the item lower-cased, with its first space dropped.
   */
  function PathFor(item: string): (p: string)
    ensures |p| >= 1 && p[0] == '/'
    ensures item == "Home" ==> p == "/"
  {
    if item == "Home" then "/" else "/" + ReplaceFirst(Lower(item), " ", "")
  }

  /** An item other than "Home" that has no space links to its whole text, lower-cased. */
  lemma PathWithoutSpace(item: string)
    requires item != "Home"
    requires ' ' !in item
    ensures PathFor(item) == "/" + Lower(item)
  {
    IndexOfCharAbsent(item, ' ');
    IndexOfSpaceLower(item);
  }

  /**
   * An item other than "Home" whose first space stands at `i` links to the
   * lower-cased text before and after that space; later spaces are kept.
   */
  lemma PathWithSpace(item: string, i: nat)
    requires item != "Home"
    requires i < |item| && item[i] == ' ' && ' ' !in item[..i]
    ensures PathFor(item) == "/" + (Lower(item[..i]) + Lower(item[i + 1..]))
  {
    IndexOfCharAt(item, ' ', i);
    var low := Lower(item);
    calc {
      PathFor(item);
      "/" + ReplaceFirst(low, " ", "");
      { IndexOfSpaceLower(item); }
      "/" + (low[..i] + low[i + 1..]);
      { LowerPrefix(item, i); LowerSuffix(item, i + 1); }
      "/" + (Lower(item[..i]) + Lower(item[i + 1..]));
    }
  }

  /** Only the first space is removed: the item "A B C" would link to "/ab c". */
  lemma OnlyFirstSpaceRemoved()
    ensures PathFor("A B C") == "/ab c"
  {
    var item := "A B C";
    assert "/" + (Lower(item[..1]) + Lower(item[2..])) == "/ab c" by {
      assert item[..1] == "A" && item[2..] == "B C";
    }
    PathWithSpace(item, 1);
  }

  /**
   * The one-word items link to their lower-cased text. The item is a
   * parameter rather than a literal so that the verifier does not try to
   * evaluate `PathFor` on the literal itself.
   */
  lemma OneWordPath(item: string)
    requires item == "Alerts" || item == "Neighbors"
    ensures PathFor(item) == if item == "Alerts" then "/alerts" else "/neighbors"
  {
    if item == "Alerts" {
      assert "/" + Lower(item) == "/alerts";
      assert forall j :: 0 <= j < |item| ==> item[j] != ' ';
    } else {
      assert "/" + Lower(item) == "/neighbors";
      assert forall j :: 0 <= j < |item| ==> item[j] != ' ';
    }
    PathWithoutSpace(item);
  }

  /** The item "Safe Zones" links to "/safezones": its one space is dropped. */
  lemma SafeZonesPath(item: string)
    requires item == "Safe Zones"
    ensures PathFor(item) == "/safezones"
  {
    assert "/" + (Lower(item[..4]) + Lower(item[5..])) == "/safezones" by {
      assert item[..4] == "Safe" && item[5..] == "Zones";
      assert Lower(item[..4]) == "safe" && Lower(item[5..]) == "zones";
    }
    PathWithSpace(item, 4);
  }

  /**
   * Every header link points at a route the router declares; the route
   * "/sahayak" is declared but no header link reaches it.
   */
  lemma MenuPathsAreRoutes()
    ensures forall item :: item in MenuItems ==> PathFor(item) in Routes && PathFor(item) != "/sahayak"
  {
    forall item | item in MenuItems
      ensures PathFor(item) in Routes && PathFor(item) != "/sahayak"
    {
      if item == "Alerts" || item == "Neighbors" {
        OneWordPath(item);
      } else if item == "Safe Zones" {
        SafeZonesPath(item);
      }
    }
  }

  /** The mobile menu: closed at first, flipped by the menu button, closed by following a link. */
  class Menu {
    var isOpen: bool

    constructor ()
      ensures !isOpen
    {
      isOpen := false;
    }

    /** The menu button. */
    method Toggle()
      modifies this
      ensures isOpen == !old(isOpen)
    {
      isOpen := !isOpen;
    }

    /** A link in the mobile dropdown: navigates to the item's path and closes the menu. */
    method FollowMobileLink(item: string) returns (path: string)
      modifies this
      ensures !isOpen
      ensures path == PathFor(item)
    {
      path := PathFor(item);
      isOpen := false;
    }
  }
}
