/** The bottom navigation of the mobile layout: three destinations, the one
    the current path belongs to highlighted. */
module MobileShellNav {
  import opened Strings

  const NavItems: seq<string> := ["/booths", "/checkin", "/learning"]

  /** A destination is highlighted on its own page and on every page below
      it. */
  predicate IsActive(pathname: string, href: string)
  {
    pathname == href || StartsWith(pathname, href + "/")
  }

  lemma ActiveBelow(href: string, rest: string)
    ensures IsActive(href, href)
    ensures IsActive(href + "/" + rest, href)
  {
    assert (href + "/" + rest)[..|href + "/"|] == href + "/";
  }

  /** A path that merely starts with the destination's letters, without a
      separating slash, does not highlight it: `/boothsX` is not below
      `/booths`. */
  lemma SiblingNotActive(pathname: string, href: string)
    requires StartsWith(pathname, href) && pathname != href && pathname[|href|] != '/'
    ensures !IsActive(pathname, href)
  {
  }

  /** An active destination agrees with the path in its second character. */
  lemma ActiveSecondChar(pathname: string, href: string)
    requires |href| >= 2 && IsActive(pathname, href)
    ensures |pathname| >= 2 && pathname[1] == href[1]
  {
    if pathname != href {
      assert pathname[..|href + "/"|] == href + "/";
      assert pathname[1] == (href + "/")[1];
    }
  }

  /** Whatever the path, at most one destination is highlighted. */
  lemma AtMostOneActive(pathname: string)
    ensures forall i, j :: 0 <= i < j < |NavItems| ==> !(IsActive(pathname, NavItems[i]) && IsActive(pathname, NavItems[j]))
  {
    forall i, j | 0 <= i < j < |NavItems| && IsActive(pathname, NavItems[i])
      ensures !IsActive(pathname, NavItems[j])
    {
      ActiveSecondChar(pathname, NavItems[i]);
      if IsActive(pathname, NavItems[j]) {
        ActiveSecondChar(pathname, NavItems[j]);
      }
    }
  }
}
