/** The administration sidebar (src/components/layout/AdminSidebar.tsx): the
    static two-level menu, the active-route rules that highlight a group, an item
    or a child, and the expansion state the sidebar keeps for its groups and for
    the items that have children. The current path comes from the router and is
    passed in explicitly; whether the sidebar is collapsed likewise. */
module Sidebar {
  import opened Collections

  /** A navigable entry. An absent `children` list is modelled as the empty list:
      every rule of the sidebar treats the two alike. `icon` is a presentation
      hint that no rule reads. */
  datatype MenuItem = MenuItem(title: string, url: string, icon: string, badge: Option<nat>, children: seq<MenuItem>)

  /** A collapsible section of the sidebar. */
  datatype MenuGroup = MenuGroup(groupLabel: string, items: seq<MenuItem>)

  function Leaf(title: string, url: string, icon: string): MenuItem
  {
    MenuItem(title, url, icon, None, [])
  }

  /** The menu definition of the sidebar. */
  const Menu: seq<MenuGroup> := [
    MenuGroup("Vue d'ensemble", [
      Leaf("Dashboard", "/", "LayoutDashboard"),
      MenuItem("Activité", "/activity", "Activity", Some(12), [])
    ]),
    MenuGroup("Gestion des utilisateurs", [
      MenuItem("Utilisateurs", "/users", "Users", None, [
        Leaf("Tous les utilisateurs", "/users", "Users"),
        Leaf("Profils & Rôles", "/users/profiles", "Shield"),
        Leaf("Vérifications", "/users/verifications", "UserCheck")
      ])
    ]),
    MenuGroup("Administration", [
      MenuItem("Système", "/system", "Settings", None, [
        Leaf("Menus dynamiques", "/system/menus", "Menu"),
        Leaf("Permissions", "/system/permissions", "Shield"),
        Leaf("Configuration", "/system/config", "Settings")
      ]),
      MenuItem("Communications", "/communications", "Mail", None, [
        MenuItem("Notifications", "/communications/notifications", "Bell", Some(5), []),
        Leaf("Templates emails", "/communications/templates", "FileText"),
        Leaf("Multilingue", "/communications/languages", "Globe")
      ])
    ]),
    MenuGroup("Monitoring", [
      MenuItem("Exceptions", "/exceptions", "AlertTriangle", Some(3), []),
      Leaf("Traçabilité", "/audit", "Database"),
      Leaf("Statistiques", "/analytics", "BarChart3")
    ])
  ]

  /** The menu has the four groups of the sidebar, in order, and the items with
      children are exactly "Utilisateurs", "Système" and "Communications", with
      three children each. */
  lemma MenuLayout()
    ensures |Menu| == 4
    ensures Menu[0].groupLabel == "Vue d'ensemble" && Menu[1].groupLabel == "Gestion des utilisateurs"
    ensures Menu[2].groupLabel == "Administration" && Menu[3].groupLabel == "Monitoring"
    ensures |Menu[0].items| == 2 && |Menu[1].items| == 1 && |Menu[2].items| == 2 && |Menu[3].items| == 3
    ensures forall g, i :: 0 <= g < |Menu| && 0 <= i < |Menu[g].items| && Menu[g].items[i].children != [] ==>
      (g, i) in {(1, 0), (2, 0), (2, 1)} && |Menu[g].items[i].children| == 3
    ensures Menu[1].items[0].title == "Utilisateurs" && |Menu[1].items[0].children| == 3
    ensures Menu[2].items[0].title == "Système" && |Menu[2].items[0].children| == 3
    ensures Menu[2].items[1].title == "Communications" && |Menu[2].items[1].children| == 3
  {
  }

  // ---------------------------------------------------------------------------
  // Active-route rules

  /** `isActive(path)`: the path shown is exactly `path`. */
  function IsActive(currentPath: string, path: string): (r: bool)
    ensures r <==> |currentPath| == |path| && forall i :: 0 <= i < |path| ==> currentPath[i] == path[i]
  {
    currentPath == path
  }

  /** Being active is exact equality: a route below `path` (a longer path that
      starts with it) never makes `path` active. */
  lemma NoPrefixActivation(path: string, below: string)
    requires below != ""
    ensures !IsActive(path + below, path)
  {
    assert |path + below| != |path|;
  }

  /** `children.some(child => isActive(child.url))`. */
  function SomeChildActive(currentPath: string, children: seq<MenuItem>): (r: bool)
    ensures r <==> exists i :: 0 <= i < |children| && children[i].url == currentPath
  {
    if children == [] then false
    else IsActive(currentPath, children[0].url) || SomeChildActive(currentPath, children[1..])
  }

  /** `isMenuActive(item)`: the item's own route or one of its children's is shown. */
  function IsMenuActive(currentPath: string, item: MenuItem): (r: bool)
    ensures r <==> item.url == currentPath || exists c :: c in item.children && c.url == currentPath
  {
    var r := IsActive(currentPath, item.url) || SomeChildActive(currentPath, item.children);
    assert (exists c :: c in item.children && c.url == currentPath)
      <==> exists i :: 0 <= i < |item.children| && item.children[i].url == currentPath;
    r
  }

  /** A childless item is active exactly when its own route is shown. */
  lemma ChildlessMenuActive(currentPath: string, item: MenuItem)
    requires item.children == []
    ensures IsMenuActive(currentPath, item) <==> item.url == currentPath
  {
  }

  /** Showing a child's route highlights its parent, whatever the parent's own route. */
  lemma ChildActivatesParent(currentPath: string, item: MenuItem, i: nat)
    requires i < |item.children| && item.children[i].url == currentPath
    ensures IsMenuActive(currentPath, item)
  {
    assert item.children[i] in item.children;
  }

  /** `isGroupActive(items)`: some item, or some child of an item, has the route
      shown. The source repeats the item rule inline; it agrees with
      `IsMenuActive` item by item. */
  function IsGroupActive(currentPath: string, items: seq<MenuItem>): (r: bool)
    ensures r <==> exists i :: 0 <= i < |items| && IsMenuActive(currentPath, items[i])
  {
    if items == [] then false
    else if IsActive(currentPath, items[0].url) then true
    else if SomeChildActive(currentPath, items[0].children) then true
    else IsGroupActive(currentPath, items[1..])
  }

  /** On the dashboard route the "Dashboard" item, but not "Activité", is
      highlighted, and so is their group "Vue d'ensemble". */
  lemma DashboardRouteHighlights()
    ensures Menu[0].groupLabel == "Vue d'ensemble"
    ensures IsMenuActive("/", Menu[0].items[0]) && !IsMenuActive("/", Menu[0].items[1])
    ensures IsGroupActive("/", Menu[0].items)
  {
  }

  /** On the dashboard route the "Gestion des utilisateurs" group is not highlighted. */
  lemma DashboardRouteLeavesUserGroup()
    ensures !IsGroupActive("/", Menu[1].items)
  {
  }

  /** On the dashboard route the "Administration" group is not highlighted. */
  lemma DashboardRouteLeavesAdministrationGroup()
    ensures !IsGroupActive("/", Menu[2].items)
  {
  }

  /** On the dashboard route the "Monitoring" group is not highlighted. */
  lemma DashboardRouteLeavesMonitoringGroup()
    ensures !IsGroupActive("/", Menu[3].items)
  {
  }

  /** On "/users/verifications" the "Utilisateurs" item and its group are
      highlighted through its child, while "/users" itself is not active. */
  lemma VerificationsRouteHighlights()
    ensures Menu[1].items[0].title == "Utilisateurs"
    ensures IsMenuActive("/users/verifications", Menu[1].items[0])
    ensures IsGroupActive("/users/verifications", Menu[1].items)
    ensures !IsActive("/users/verifications", "/users")
  {
  }

  // ---------------------------------------------------------------------------
  // Expansion lists

  /** The filter that drops one label: `g => g !== label`. */
  function Differs(key: string): (keep: string -> bool)
    ensures !keep(key)
    ensures forall g :: g != key ==> keep(g)
  {
    g => g != key
  }

  /** The update both toggles apply to their list: a present label is removed
      (every occurrence), an absent one is appended. */
  function Toggle(labels: seq<string>, key: string): (r: seq<string>)
    ensures key !in labels ==> r == labels + [key]
    ensures key in labels ==> SubsequenceOf(r, labels)
    ensures key in r <==> key !in labels
    ensures forall m :: m != key ==> (m in r <==> m in labels)
    ensures forall m :: m != key && key in labels ==> multiset(r)[m] == multiset(labels)[m]
  {
    if key in labels then
      FilterIsSubsequence(labels, Differs(key));
      FilterMultiset(labels, Differs(key));
      Filter(labels, Differs(key))
    else labels + [key]
  }

  /** Opening then closing a closed label restores the list exactly. */
  lemma {:induction false} ToggleTwiceFromAbsent(labels: seq<string>, key: string)
    requires key !in labels
    ensures Toggle(Toggle(labels, key), key) == labels
  {
    FilterAppend(labels, [key], Differs(key));
    assert Filter([key], Differs(key)) == [];
  }

  /** Closing then reopening an open label keeps the same labels open, with this
      one moved to the end. */
  lemma {:induction false} ToggleTwiceFromPresent(labels: seq<string>, key: string)
    requires key in labels
    ensures Toggle(Toggle(labels, key), key) == Filter(labels, Differs(key)) + [key]
    ensures forall m :: m in Toggle(Toggle(labels, key), key) <==> m in labels
  {
  }

  /** Toggling never duplicates a label in a list that has none. */
  lemma ToggleKeepsNoDuplicates(labels: seq<string>, key: string)
    ensures NoDuplicates(labels) ==> NoDuplicates(Toggle(labels, key))
  {
    if !NoDuplicates(labels) {
    } else if key in labels {
      FilterKeepsNoDuplicates(labels, Differs(key));
    } else {
      NoDuplicatesSnoc(labels, key);
    }
  }

  /** The expansion state of one sidebar: the labels of the open groups and the
      titles of the open items. */
  class SidebarState {
    var expandedGroups: seq<string>
    var expandedMenus: seq<string>

    /** Neither list names anything twice; the toggles keep it so. */
    predicate Valid()
      reads this
    {
      NoDuplicates(expandedGroups) && NoDuplicates(expandedMenus)
    }

    /** A fresh sidebar shows only the "Vue d'ensemble" group open and no item open. */
    constructor ()
      ensures expandedGroups == ["Vue d'ensemble"] && expandedMenus == []
      ensures forall key :: GroupItemsShown(false, key) <==> key == "Vue d'ensemble"
      ensures forall collapsed, groupLabel, item :: !ChildrenShown(collapsed, groupLabel, item)
      ensures Valid()
    {
      expandedGroups := ["Vue d'ensemble"];
      expandedMenus := [];
    }

    /** `toggleGroup(groupLabel)`: opens a closed group or closes an open one. */
    method ToggleGroup(key: string)
      modifies this
      ensures expandedGroups == Toggle(old(expandedGroups), key)
      ensures expandedMenus == old(expandedMenus)
      ensures old(Valid()) ==> Valid()
    {
      ToggleKeepsNoDuplicates(expandedGroups, key);
      expandedGroups := Toggle(expandedGroups, key);
    }

    /** `toggleMenu(title)`: opens a closed item or closes an open one. */
    method ToggleMenu(title: string)
      modifies this
      ensures expandedMenus == Toggle(old(expandedMenus), title)
      ensures expandedGroups == old(expandedGroups)
      ensures old(Valid()) ==> Valid()
    {
      ToggleKeepsNoDuplicates(expandedMenus, title);
      expandedMenus := Toggle(expandedMenus, title);
    }

    /** Whether a group's items are rendered. */
    function GroupItemsShown(collapsed: bool, key: string): (r: bool)
      reads this
      ensures collapsed ==> !r
      ensures !collapsed ==> (r <==> exists i :: 0 <= i < |expandedGroups| && expandedGroups[i] == key)
    {
      !collapsed && key in expandedGroups
    }

    /** Whether the children of `item`, an item of the group `groupLabel`, are
        rendered: the item's row must be rendered (its group's items are shown)
        and the item must have children and be expanded. */
    function ChildrenShown(collapsed: bool, groupLabel: string, item: MenuItem): (r: bool)
      reads this
      ensures r ==> GroupItemsShown(collapsed, groupLabel)
      ensures collapsed ==> !r
      ensures item.children == [] ==> !r
      ensures GroupItemsShown(collapsed, groupLabel) && item.children != [] ==>
        (r <==> exists i :: 0 <= i < |expandedMenus| && expandedMenus[i] == item.title)
    {
      GroupItemsShown(collapsed, groupLabel) && HasChildren(item) && item.title in expandedMenus
    }

    /** A click on a group header: ignored while the sidebar is collapsed,
      otherwise it flips whether the group's items are shown. */
    method ClickGroupHeader(collapsed: bool, key: string)
      modifies this
      ensures collapsed ==> expandedGroups == old(expandedGroups)
      ensures !collapsed ==> expandedGroups == Toggle(old(expandedGroups), key)
      ensures !collapsed ==> (GroupItemsShown(collapsed, key) <==> !old(GroupItemsShown(collapsed, key)))
      ensures expandedMenus == old(expandedMenus)
      ensures old(Valid()) ==> Valid()
    {
      if !collapsed {
        ToggleGroup(key);
      }
    }

    /** A click on an item row: only an item with children toggles, and then, in
      any group whose items are shown, it flips whether its children are shown. */
    method ClickItem(item: MenuItem)
      modifies this
      ensures !HasChildren(item) ==> expandedMenus == old(expandedMenus)
      ensures HasChildren(item) ==> expandedMenus == Toggle(old(expandedMenus), item.title)
      ensures forall collapsed, groupLabel :: HasChildren(item) && GroupItemsShown(collapsed, groupLabel) ==>
        (ChildrenShown(collapsed, groupLabel, item) <==> !old(ChildrenShown(collapsed, groupLabel, item)))
      ensures expandedGroups == old(expandedGroups)
      ensures old(Valid()) ==> Valid()
    {
      if HasChildren(item) {
        ToggleMenu(item.title);
      }
    }
  }

  /** `hasChildren`: the item carries at least one child. */
  function HasChildren(item: MenuItem): (r: bool)
    ensures r <==> exists c :: c in item.children
  {
    assert item.children != [] ==> item.children[0] in item.children;
    |item.children| > 0
  }
}
