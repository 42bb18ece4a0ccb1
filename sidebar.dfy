/** The navigation menu: three items everybody sees, then the role-gated
    administration items. The gate compares the stored role text as it is,
    without normalising it. */
module Sidebar {
  import opened Wrappers
  import opened Seqs
  import opened Auth

  /** A menu entry; `roles == None` means every logged-in user sees it. */
  datatype MenuItem = MenuItem(title: string, href: string, roles: Option<seq<string>>)

  const COMMON_MENU_ITEMS: seq<MenuItem> := [
    MenuItem("Dashboard", "/dashboard", None),
    MenuItem("Inventario", "/inventario", None),
    MenuItem("Mis Préstamos", "/prestamos", None)
  ]

  const ADMIN_MENU_ITEMS: seq<MenuItem> := [
    MenuItem("Reportes", "/reportes", Some([ADMIN])),
    MenuItem("Configuración", "/configuracion", Some([ADMIN]))
  ]

  /** `!item.roles || item.roles.includes(role)` */
  predicate VisibleTo(item: MenuItem, role: string) {
    item.roles.None? || role in item.roles.value
  }

  /** The menu a user sees: the common items, then the administration items
      whose role list admits the raw stored role. */
  function MenuFor(user: Option<User>): seq<MenuItem> {
    COMMON_MENU_ITEMS
    + if user.None? then [] else Filter(ADMIN_MENU_ITEMS, item => VisibleTo(item, user.value.role))
  }

  /** `getMenuItems()`: copies the common items, then pushes every
      administration item the user's role admits. */
  method GetMenuItems(user: Option<User>) returns (items: seq<MenuItem>)
    ensures items == MenuFor(user)
  {
    items := COMMON_MENU_ITEMS;
    if user.Some? {
      var admitted := item => VisibleTo(item, user.value.role);
      for i := 0 to |ADMIN_MENU_ITEMS|
        invariant items == COMMON_MENU_ITEMS + Filter(ADMIN_MENU_ITEMS[..i], admitted)
      {
        var item := ADMIN_MENU_ITEMS[i];
        FilterConcat(ADMIN_MENU_ITEMS[..i], [item], admitted);
        assert ADMIN_MENU_ITEMS[..i + 1] == ADMIN_MENU_ITEMS[..i] + [item];
        if item.roles.None? || user.value.role in item.roles.value {
          items := items + [item];
        }
      }
      assert ADMIN_MENU_ITEMS[..|ADMIN_MENU_ITEMS|] == ADMIN_MENU_ITEMS;
    }
  }

  /** The common items always come first, unchanged and in declared order,
      and nothing but administration items follows them. */
  lemma MenuStartsWithCommon(user: Option<User>)
    ensures 3 <= |MenuFor(user)| <= 5 && MenuFor(user)[..3] == COMMON_MENU_ITEMS
    ensures forall i :: 3 <= i < |MenuFor(user)| ==> MenuFor(user)[i] in ADMIN_MENU_ITEMS
  {
    var menu := MenuFor(user);
    if user.Some? {
      var admitted := item => VisibleTo(item, user.value.role);
      forall i | 3 <= i < |menu| ensures menu[i] in ADMIN_MENU_ITEMS {
        FilterMembership(ADMIN_MENU_ITEMS, admitted, menu[i]);
      }
    }
  }

  /** Without a user the menu is exactly the common items. */
  lemma MenuWithoutUser()
    ensures MenuFor(None) == COMMON_MENU_ITEMS
  {}

  /** An administration item is shown exactly when its role list is missing
      or contains the raw stored role. */
  lemma AdminItemShownIff(user: User, item: MenuItem)
    requires item in ADMIN_MENU_ITEMS
    ensures item in MenuFor(Some(user)) <==> VisibleTo(item, user.role)
  {
    var admitted := i => VisibleTo(i, user.role);
    FilterMembership(ADMIN_MENU_ITEMS, admitted, item);
    assert item !in COMMON_MENU_ITEMS;
  }

  /** The role "Admin" sees all five items, in declared order. */
  lemma MenuForAdmin(user: User)
    requires user.role == ADMIN
    ensures MenuFor(Some(user)) == COMMON_MENU_ITEMS + ADMIN_MENU_ITEMS
    ensures |MenuFor(Some(user))| == 5
  {
    var admitted := i => VisibleTo(i, user.role);
    FilterKeepsAll(ADMIN_MENU_ITEMS, admitted);
  }

  /** Any other stored role, "admin" included, sees only the common items,
      although `isAdmin` holds for "admin": the menu and the role predicate
      disagree on lower-case roles. */
  lemma MenuForOtherRoles(user: User)
    requires user.role != ADMIN
    ensures MenuFor(Some(user)) == COMMON_MENU_ITEMS
    ensures user.role == "admin" ==> IsAdmin(Some(user))
  {
    var admitted := i => VisibleTo(i, user.role);
    assert !admitted(ADMIN_MENU_ITEMS[0]) && !admitted(ADMIN_MENU_ITEMS[1]);
    assert ADMIN_MENU_ITEMS[1..][1..] == [];
    assert Filter(ADMIN_MENU_ITEMS[1..], admitted) == [];
    assert Filter(ADMIN_MENU_ITEMS, admitted) == [];
    if user.role == "admin" {
      IsAdminIff(user);
    }
  }
}
