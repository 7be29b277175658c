/**
 Which sidebar entry of the admin area is highlighted for the current
 pathname. The dashboard link is matched exactly; every other link is matched
 as a prefix, so a sub-page keeps its section highlighted. The pathname may be
 missing (`null` before the router knows it).
 */
module AdminNav {
  import opened Types
  import opened Text

  const Dashboard: string := "/admin"

  /** The sidebar links, top to bottom. */
  const Sidebar: seq<string> := ["/admin", "/admin/clients", "/admin/schedule", "/admin/tasks", "/admin/finance"]

  /** `isActiveLink(path)` for the current `pathname`. */
  function IsActiveLink(pathname: Option<string>, path: string): (r: bool)
    ensures path == Dashboard ==> (r <==> pathname == Some(Dashboard))
    ensures path != Dashboard ==> (r <==> pathname.Some? && StartsWith(pathname.value, path))
    ensures pathname.None? ==> !r
  {
    if path == Dashboard && pathname == Some(Dashboard) then true
    else if path != Dashboard && pathname.Some? && StartsWith(pathname.value, path) then true
    else false
  }

  /** The dashboard stays unhighlighted on every admin sub-page. */
  lemma {:induction false} DashboardNotActiveOnSubPage(sub: string)
    requires |sub| > 0
    ensures !IsActiveLink(Some(Dashboard + sub), Dashboard)
  {
    assert |Dashboard + sub| > |Dashboard|;
  }

  /** A section's link is active on the section page and on every page below it. */
  lemma {:induction false} SectionActiveBelow(path: string, rest: string)
    requires path != Dashboard
    ensures IsActiveLink(Some(path + rest), path)
  {
    assert (path + rest)[..|path|] == path;
  }

  /** No section link is a prefix of another section link. */
  lemma SidebarRoutesPrefixFree()
    ensures forall i, j :: 1 <= i < |Sidebar| && 1 <= j < |Sidebar| && i != j ==> !StartsWith(Sidebar[j], Sidebar[i])
  {
    // after "/admin/" the links differ at the first or second character
    assert forall i :: 1 <= i < |Sidebar| ==> |Sidebar[i]| > 7 && Sidebar[i][..7] == "/admin/";
    assert Sidebar[1][7] == 'c' && Sidebar[2][7] == 's' && Sidebar[3][7] == 't' && Sidebar[4][7] == 'f';
    assert Sidebar[2][8] == 'c' && Sidebar[3][8] == 'a';
  }

  /**
   On the dashboard or on any page under one of the four sections, exactly one
   sidebar link is highlighted: the dashboard's, or that section's.
   */
  lemma {:induction false} ExactlyOneActive(k: nat, rest: string)
    requires k < |Sidebar|
    requires k == 0 ==> rest == ""
    ensures IsActiveLink(Some(Sidebar[k] + rest), Sidebar[k])
    ensures forall i :: 0 <= i < |Sidebar| && i != k ==> !IsActiveLink(Some(Sidebar[k] + rest), Sidebar[i])
  {
    var p := Sidebar[k] + rest;
    if k == 0 {
      assert p == Dashboard;
    } else {
      SectionActiveBelow(Sidebar[k], rest);
      assert p[..|Sidebar[k]|] == Sidebar[k];
      assert p != Dashboard by {
        assert |p| > |Dashboard|;
      }
    }
    SidebarRoutesPrefixFree();
    forall i | 0 <= i < |Sidebar| && i != k ensures !IsActiveLink(Some(p), Sidebar[i]) {
      if i > 0 && k > 0 {
        CommonPrefixes(Sidebar[i], Sidebar[k], p);
      }
    }
  }

  /** Two prefixes of one string are prefixes of each other, the shorter of the longer. */
  lemma CommonPrefixes(a: string, b: string, s: string)
    ensures StartsWith(s, a) && StartsWith(s, b) ==> StartsWith(b, a) || StartsWith(a, b)
  {
    if StartsWith(s, a) && StartsWith(s, b) {
      if |a| <= |b| {
        assert b[..|a|] == s[..|b|][..|a|];
      } else {
        assert a[..|b|] == s[..|a|][..|b|];
      }
    }
  }

  /**
   The prefix test is not segment-aware: a page whose path merely begins with
   a section's path, such as "/admin/tasksX", highlights that section.
   */
  lemma PrefixMatchIgnoresSegments()
    ensures IsActiveLink(Some("/admin/tasksX"), "/admin/tasks")
  {
    SectionActiveBelow("/admin/tasks", "X");
    assert "/admin/tasks" + "X" == "/admin/tasksX";
  }
}
