/**
 * The signed-in shell around every page: the sidebar's menu, which entry is
 * highlighted for the current pathname, and the guard that renders nothing
 * for a visitor who is not signed in.
 */
module Layout {
  import opened Base

  datatype MenuItem = MenuItem(path: string, title: string, exact: bool)

  /** The sidebar entries, in order; only the dashboard matches its path exactly. */
  const MenuItems: seq<MenuItem> := [
    MenuItem("/", "Dashboard", true),
    MenuItem("/tasks", "My Tasks", false),
    MenuItem("/today", "Today", false),
    MenuItem("/upcoming", "Upcoming", false),
    MenuItem("/completed", "Completed", false),
    MenuItem("/projects", "Projects", false),
    MenuItem("/calendar", "Calendar", false),
    MenuItem("/teams", "Teams", false),
    MenuItem("/settings", "Settings", false)
  ]

  /** `String.prototype.startsWith`, character by character. */
  function StartsWith(s: string, prefix: string): (r: bool)
    ensures r <==> prefix <= s
  {
    |prefix| <= |s| && s[..|prefix|] == prefix
  }

  /**
   * `isActive(path, exact)`: with `exact`, the pathname is the path; without,
   * the path is a plain string prefix of the pathname, with no regard for
   * segment boundaries.
   */
  function IsActive(pathname: string, path: string, exact: bool): (r: bool)
    ensures exact ==> (r <==> pathname == path)
    ensures !exact ==> (r <==> path <= pathname)
  {
    if exact then pathname == path else StartsWith(pathname, path)
  }

  /** An exact match is also a prefix match. */
  lemma ExactImpliesPrefix(pathname: string, path: string)
    requires IsActive(pathname, path, true)
    ensures IsActive(pathname, path, false)
  {
  }

  /** "/tasks" is active on "/tasksX": the prefix rule does not stop at a '/'. */
  lemma PrefixIgnoresSegments()
    ensures IsActive("/tasksX", "/tasks", false)
  {
    assert "/tasksX"[..6] == "/tasks";
  }

  /** Only the "/" entry matches exactly. */
  lemma OnlyRootIsExact()
    ensures forall i :: 0 <= i < |MenuItems| ==> (MenuItems[i].exact <==> MenuItems[i].path == "/")
  {
  }

  /** Two prefixes of one string: the shorter is a prefix of the longer. */
  lemma PrefixesComparable(a: string, b: string, s: string)
    requires a <= s && b <= s && |a| <= |b|
    ensures a <= b
  {
    assert a == s[..|a|] && b[..|a|] == s[..|a|];
  }

  /** No entry's path is a prefix of another's, "/" aside. */
  lemma MenuPathsIndependent()
    ensures forall i, j :: 1 <= i < |MenuItems| && 1 <= j < |MenuItems| && i != j ==>
              !(MenuItems[i].path <= MenuItems[j].path)
  {
    forall i, j | 1 <= i < |MenuItems| && 1 <= j < |MenuItems| && i != j
      ensures !(MenuItems[i].path <= MenuItems[j].path)
    {
      var a, b := MenuItems[i].path, MenuItems[j].path;
      assert |a| >= 3 && |b| >= 3 && (a[1] != b[1] || a[2] != b[2]);
    }
  }

  /**
   * For every pathname at most one entry is highlighted by `isActive`:
   * the dashboard only on "/" itself, and any other entry only when its path
   * begins the pathname.
   */
  lemma AtMostOneActive(pathname: string, i: int, j: int)
    requires 0 <= i < j < |MenuItems|
    requires IsActive(pathname, MenuItems[i].path, MenuItems[i].exact)
    ensures !IsActive(pathname, MenuItems[j].path, MenuItems[j].exact)
  {
    OnlyRootIsExact();
    MenuPathsIndependent();
    var a, b := MenuItems[i].path, MenuItems[j].path;
    assert |b| > 1;
    if IsActive(pathname, b, MenuItems[j].exact) && i > 0 {
      if |a| <= |b| {
        PrefixesComparable(a, b, pathname);
      } else {
        PrefixesComparable(b, a, pathname);
      }
    }
  }

  /**
   * What the layout renders: nothing without a signed-in user, else the
   * highlight of each menu entry, in menu order.
   */
  function Render(isAuthenticated: bool, pathname: string): (r: Option<seq<bool>>)
    ensures r.None? <==> !isAuthenticated
    ensures r.Some? ==> |r.value| == |MenuItems|
    ensures r.Some? ==> forall i :: 0 <= i < |MenuItems| ==>
              r.value[i] == IsActive(pathname, MenuItems[i].path, MenuItems[i].exact)
  {
    if !isAuthenticated then None
    else Some(seq(|MenuItems|, i requires 0 <= i < |MenuItems| => IsActive(pathname, MenuItems[i].path, MenuItems[i].exact)))
  }
}
