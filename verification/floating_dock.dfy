/**
 The admin's navigation dock: five links, and which of them is highlighted
 for the current path.  The dashboard link matches its path exactly, every
 other link matches any path that starts with its own.
 */
module FloatingDock {
  import opened Js

  datatype DockItem = DockItem(title: string, href: string)

  const Items: seq<DockItem> := [
    DockItem("Dashboard", "/admin"),
    DockItem("Users", "/admin/users"),
    DockItem("Workshops", "/admin/workshops"),
    DockItem("Registrations", "/admin/registrations"),
    DockItem("Settings", "/admin/settings")]

  /** `isActive(href)` for the current `pathname`. */
  function IsActive(href: string, pathname: string): (active: bool)
    ensures href == "/admin" ==> (active <==> pathname == "/admin")
    ensures href != "/admin" ==> (active <==> |href| <= |pathname| && pathname[..|href|] == href)
  {
    if href == "/admin" then pathname == href else StartsWith(pathname, href)
  }

  /** Two prefixes of the same string are prefixes of one another. */
  lemma PrefixesComparable(a: string, b: string, s: string)
    requires a <= s && b <= s && |a| <= |b|
    ensures a <= b
  {
    assert forall i :: 0 <= i < |a| ==> a[i] == s[i] == b[i];
  }

  /** No link other than the dashboard's is a prefix of another link. */
  lemma HrefsUnrelated(i: int, j: int)
    requires 1 <= i < |Items| && 1 <= j < |Items| && i != j
    ensures !(Items[i].href <= Items[j].href)
  {
    var a, b := Items[i].href, Items[j].href;
    if |a| <= |b| {
      assert a[7] != b[7];
    }
  }

  /** Whatever the path, at most one link is highlighted. */
  lemma AtMostOneActive(pathname: string, i: int, j: int)
    requires 0 <= i < |Items| && 0 <= j < |Items|
    requires IsActive(Items[i].href, pathname) && IsActive(Items[j].href, pathname)
    ensures i == j
  {
    if i != j && i != 0 && j != 0 {
      if |Items[i].href| <= |Items[j].href| {
        PrefixesComparable(Items[i].href, Items[j].href, pathname);
        HrefsUnrelated(i, j);
      } else {
        PrefixesComparable(Items[j].href, Items[i].href, pathname);
        HrefsUnrelated(j, i);
      }
    }
  }

  /** The dashboard link is only highlighted on the dashboard itself; sub-pages highlight their section. */
  lemma DashboardExactOnly(pathname: string)
    ensures IsActive(Items[0].href, pathname) <==> pathname == "/admin"
    ensures IsActive(Items[1].href, "/admin/users/edit") && !IsActive(Items[0].href, "/admin/users/edit")
  {
  }

  /** The raw prefix test also highlights "Users" on an unrelated "/admin/usersX". */
  lemma RawPrefixMatch()
    ensures IsActive(Items[1].href, "/admin/usersX")
  {
    assert "/admin/users" <= "/admin/usersX";
  }
}
