/**
 * The inline keyboards (keyboards.py). A keyboard is a list of rows of
 * buttons; a button carries its caption and the callback string the
 * handlers decode. The builders that append in loops are methods proved
 * equal to a layout function; the lemmas state what the layouts promise.
 */
module Keyboards {
  import opened Wrappers
  import opened Text
  import opened Config
  import opened Database

  datatype Button = Button(text: string, callbackData: string)

  /** `InlineKeyboardMarkup(inline_keyboard=rows)`. */
  type Keyboard = seq<seq<Button>>

  // ---------------------------------------------------------------------
  // Callback strings (the f-strings of the builders)
  // ---------------------------------------------------------------------

  /** `f"manage_users:{page}:{filter}"`, that is the fields joined with ':'. */
  function ManageUsersData(page: int, filter: string): (d: string)
    ensures StartsWith(d, "manage_users:")
  {
    StartsWithConcat("manage_users:", IntToString(page) + ":" + filter);
    Join(["manage_users", IntToString(page), filter], ':')
  }

  /** `f"setrole:{uid}:{role}:{page}:{filter}"`. */
  function SetRoleData(uid: int, role: string, page: int, filter: string): (d: string)
    ensures StartsWith(d, "setrole:")
  {
    StartsWithConcat("setrole:", IntToString(uid) + ":" + role + ":" + IntToString(page) + ":" + filter);
    Join(["setrole", IntToString(uid), role, IntToString(page), filter], ':')
  }

  /** `f"broadcast_role:{role}"`. */
  function BroadcastRoleData(role: string): (d: string)
    ensures StartsWith(d, "broadcast_role:")
  {
    StartsWithConcat("broadcast_role:", role);
    Join(["broadcast_role", role], ':')
  }

  /** Marks the user's current role in a role row. */
  const RoleMark: string := "✅ "

  /** Marks the active filter tab. */
  const FilterMark: string := "🔹 "

  predicate IsRoleMarked(b: Button) { StartsWith(b.text, RoleMark) }

  predicate IsFilterMarked(b: Button) { StartsWith(b.text, FilterMark) }

  /** A caption whose first character is not a mark's first character carries no mark. */
  lemma Unmarked(caption: string)
    requires |caption| > 0 && caption[0] != RoleMark[0] && caption[0] != FilterMark[0]
    ensures !StartsWith(caption, RoleMark) && !StartsWith(caption, FilterMark)
  {
    StartsWithHead(caption, RoleMark);
    StartsWithHead(caption, FilterMark);
  }

  // ---------------------------------------------------------------------
  // get_admin_panel_kb
  // ---------------------------------------------------------------------

  /** The admin menu: edit welcome, manage users (page 0, no filter), search, broadcast, refresh. */
  function AdminPanelKb(): (kb: Keyboard)
    ensures |kb| == 5 && forall i :: 0 <= i < 5 ==> |kb[i]| == 1
    ensures kb[1][0].callbackData == ManageUsersData(0, AllFilter)
  {
    [[Button("✏️ Змінити вітальне повідомлення", "edit_welcome")],
     [Button("👤 Керування користувачами", ManageUsersData(0, AllFilter))],
     [Button("🔍 Знайти користувача", "search_user")],
     [Button("📤 Надіслати розсилку", "broadcast")],
     [Button("🔄 Оновити", "refresh_admin")]]
  }

  // ---------------------------------------------------------------------
  // get_broadcast_roles_kb
  // ---------------------------------------------------------------------

  const BroadcastAllButton: Button := Button("📢 Усі користувачі", BroadcastRoleData(AllFilter))

  const CancelBroadcastButton: Button := Button("❌ Скасувати", "cancel_broadcast")

  function BroadcastRoleButton(role: string): Button
  {
    Button("🎓 " + role, BroadcastRoleData(role))
  }

  /** The role choice of a broadcast: "everyone" first, then each allowed role once in order, then Cancel. */
  method GetBroadcastRolesKb() returns (kb: Keyboard)
    ensures |kb| == |AllowedRoles()| + 2
    ensures kb[0] == [BroadcastAllButton]
    ensures forall j :: 0 <= j < |AllowedRoles()| ==> kb[j + 1] == [BroadcastRoleButton(AllowedRoles()[j])]
    ensures kb[|kb| - 1] == [CancelBroadcastButton]
  {
    kb := [[BroadcastAllButton]];
    var j := 0;
    while j < |AllowedRoles()|
      invariant 0 <= j <= |AllowedRoles()|
      invariant |kb| == j + 1 && kb[0] == [BroadcastAllButton]
      invariant forall k :: 0 <= k < j ==> kb[k + 1] == [BroadcastRoleButton(AllowedRoles()[k])]
    {
      kb := kb + [[BroadcastRoleButton(AllowedRoles()[j])]];
      j := j + 1;
    }
    kb := kb + [[CancelBroadcastButton]];
  }

  // ---------------------------------------------------------------------
  // get_user_list_kb: the layout
  // ---------------------------------------------------------------------

  /** One role button of a user's row: marked when it names the user's current role. */
  function RoleButton(u: UserRow, role: string, page: int, filter: string): Button
  {
    Button((if u.role == Some(role) then RoleMark else "") + role, SetRoleData(u.id, role, page, filter))
  }

  /** One role button per entry of `roles`, in order. */
  function RoleButtons(u: UserRow, roles: seq<string>, page: int, filter: string): (row: seq<Button>)
    ensures |row| == |roles|
    ensures forall j :: 0 <= j < |roles| ==> row[j] == RoleButton(u, roles[j], page, filter)
  {
    if roles == [] then []
    else RoleButtons(u, roles[..|roles| - 1], page, filter) + [RoleButton(u, roles[|roles| - 1], page, filter)]
  }

  /** A user's role row: one button per allowed role, in ALLOWED_ROLES order. */
  function RoleRow(u: UserRow, page: int, filter: string): seq<Button>
  {
    RoleButtons(u, AllowedRoles(), page, filter)
  }

  function ClearRoleButton(uid: int, page: int, filter: string): Button
  {
    Button("❌ Видалити роль", SetRoleData(uid, NullToken, page, filter))
  }

  const SeparatorButton: Button := Button(Repeat('—', 20), "none")

  /** The three rows each listed user contributes. */
  function UserRows(u: UserRow, page: int, filter: string): Keyboard
  {
    [RoleRow(u, page, filter), [ClearRoleButton(u.id, page, filter)], [SeparatorButton]]
  }

  function UsersBlock(users: seq<UserRow>, page: int, filter: string): (block: Keyboard)
    ensures |block| == 3 * |users|
  {
    if users == [] then []
    else UsersBlock(users[..|users| - 1], page, filter) + UserRows(users[|users| - 1], page, filter)
  }

  function PrevButton(page: int, filter: string): Button
  {
    Button("◀️ Попередня", ManageUsersData(page - 1, filter))
  }

  function NextButton(page: int, filter: string): Button
  {
    Button("▶️ Наступна", ManageUsersData(page + 1, filter))
  }

  /** Whether another page follows: `(page + 1) * PAGE_SIZE < total_users`. */
  predicate HasNextPage(page: int, totalUsers: int)
  {
    (page + 1) * PageSize < totalUsers
  }

  /** Previous, then Next, each only when it applies; the row is empty on a lone first page. */
  function NavRow(page: int, totalUsers: int, filter: string): (nav: seq<Button>)
  {
    (if page > 0 then [PrevButton(page, filter)] else []) +
    (if HasNextPage(page, totalUsers) then [NextButton(page, filter)] else [])
  }

  /** A filter tab: jumps to page 0 of `target`, marked when `target` is the active filter. */
  function FilterTab(caption: string, target: string, current: string): Button
  {
    Button((if current == target then FilterMark else "") + caption, ManageUsersData(0, target))
  }

  /** The tab of one role filter, captioned with the role's first three characters. */
  function RoleTab(role: string, current: string): Button
  {
    FilterTab(Take(role, 3), role, current)
  }

  /** One role tab per entry of `roles`, in order. */
  function RoleTabs(roles: seq<string>, current: string): (tabs: seq<Button>)
    ensures |tabs| == |roles|
    ensures forall j :: 0 <= j < |roles| ==> tabs[j] == RoleTab(roles[j], current)
  {
    if roles == [] then [] else RoleTabs(roles[..|roles| - 1], current) + [RoleTab(roles[|roles| - 1], current)]
  }

  /** The filter row: "All" first, then one tab per allowed role. */
  function FilterRow(current: string): (row: seq<Button>)
  {
    [FilterTab("All", AllFilter, current)] + RoleTabs(AllowedRoles(), current)
  }

  const BackButton: Button := Button("⬅️ Back", "back_to_admin")

  /** The whole user-management keyboard for one page. */
  function UserListLayout(users: seq<UserRow>, page: int, totalUsers: int, filter: string): (kb: Keyboard)
  {
    var nav := NavRow(page, totalUsers, filter);
    UsersBlock(users, page, filter) + (if nav != [] then [nav] else []) + [FilterRow(filter)] + [[BackButton]]
  }

  // ---------------------------------------------------------------------
  // get_user_list_kb: the builder
  // ---------------------------------------------------------------------

  /** The inner loop of `get_user_list_kb`: one user's role buttons, appended role by role. */
  method BuildRoleRow(u: UserRow, page: int, filter: string) returns (row: seq<Button>)
    ensures row == RoleRow(u, page, filter)
  {
    var roles := AllowedRoles();
    row := [];
    var j := 0;
    while j < |roles|
      invariant 0 <= j <= |roles|
      invariant row == RoleButtons(u, roles[..j], page, filter)
    {
      row := row + [RoleButton(u, roles[j], page, filter)];
      assert roles[..j + 1][..j] == roles[..j];
      j := j + 1;
    }
    assert roles[..j] == roles;
  }

  /** The filter-tab loop of `get_user_list_kb`: "All", then a tab per role, appended in order. */
  method BuildFilterRow(current: string) returns (row: seq<Button>)
    ensures row == FilterRow(current)
  {
    var roles := AllowedRoles();
    row := [FilterTab("All", AllFilter, current)];
    var j := 0;
    while j < |roles|
      invariant 0 <= j <= |roles|
      invariant row == [FilterTab("All", AllFilter, current)] + RoleTabs(roles[..j], current)
    {
      var filterRole := roles[j];
      row := row + [FilterTab(Take(filterRole, 3), filterRole, current)];
      assert roles[..j + 1][..j] == roles[..j];
      j := j + 1;
    }
    assert roles[..j] == roles;
  }

  /** The navigation part of `get_user_list_kb`: Previous, then Next, each only when it applies. */
  method BuildNavRow(page: int, totalUsers: int, filter: string) returns (nav: seq<Button>)
    ensures nav == NavRow(page, totalUsers, filter)
  {
    nav := [];
    if page > 0 {
      nav := nav + [PrevButton(page, filter)];
    }
    if (page + 1) * PageSize < totalUsers {
      nav := nav + [NextButton(page, filter)];
    }
  }

  /** `get_user_list_kb(users, page, total_users, current_filter)`, row by row as the source appends them. */
  method GetUserListKb(users: seq<UserRow>, page: int, totalUsers: int, currentFilter: string)
    returns (kb: Keyboard)
    ensures kb == UserListLayout(users, page, totalUsers, currentFilter)
  {
    kb := [];
    var i := 0;
    while i < |users|
      invariant 0 <= i <= |users|
      invariant kb == UsersBlock(users[..i], page, currentFilter)
    {
      var u := users[i];
      var roleButtons := BuildRoleRow(u, page, currentFilter);
      kb := kb + [roleButtons];
      kb := kb + [[ClearRoleButton(u.id, page, currentFilter)]];
      kb := kb + [[SeparatorButton]];
      assert users[..i + 1][..i] == users[..i];
      i := i + 1;
    }
    assert users[..|users|] == users;

    var nav := BuildNavRow(page, totalUsers, currentFilter);
    if nav != [] {
      kb := kb + [nav];
    }

    var filters := BuildFilterRow(currentFilter);
    kb := kb + [filters];

    kb := kb + [[BackButton]];
  }

  // ---------------------------------------------------------------------
  // What the user-list layout promises
  // ---------------------------------------------------------------------

  /** Every listed user contributes exactly three consecutive rows: roles, clear-role, separator. */
  lemma {:induction false} UsersBlockAt(users: seq<UserRow>, page: int, filter: string, k: nat)
    requires k < |users|
    ensures UsersBlock(users, page, filter)[3 * k] == RoleRow(users[k], page, filter)
    ensures UsersBlock(users, page, filter)[3 * k + 1] == [ClearRoleButton(users[k].id, page, filter)]
    ensures UsersBlock(users, page, filter)[3 * k + 2] == [SeparatorButton]
    decreases |users|
  {
    var init := users[..|users| - 1];
    if k < |users| - 1 {
      UsersBlockAt(init, page, filter, k);
      assert init[k] == users[k];
    }
  }

  /** The rows of a page start with three rows per listed user, in list order. */
  lemma UserListRows(users: seq<UserRow>, page: int, totalUsers: int, filter: string)
    ensures var kb := UserListLayout(users, page, totalUsers, filter);
            forall k :: 0 <= k < |users| ==>
              kb[3 * k] == RoleRow(users[k], page, filter) &&
              kb[3 * k + 1] == [ClearRoleButton(users[k].id, page, filter)] &&
              kb[3 * k + 2] == [SeparatorButton]
  {
    var block := UsersBlock(users, page, filter);
    var kb := UserListLayout(users, page, totalUsers, filter);
    var nav := NavRow(page, totalUsers, filter);
    assert kb == block + ((if nav != [] then [nav] else []) + [FilterRow(filter)] + [[BackButton]]);
    forall k | 0 <= k < |users|
      ensures kb[3 * k] == RoleRow(users[k], page, filter)
      ensures kb[3 * k + 1] == [ClearRoleButton(users[k].id, page, filter)]
      ensures kb[3 * k + 2] == [SeparatorButton]
    {
      UsersBlockAt(users, page, filter, k);
    }
  }

  /**
   * After the users' rows come the navigation row, only when it has a
   * button, then the filter tabs, and always the single Back button last.
   */
  lemma UserListTail(users: seq<UserRow>, page: int, totalUsers: int, filter: string)
    ensures var kb := UserListLayout(users, page, totalUsers, filter);
            var nav := NavRow(page, totalUsers, filter);
            |kb| == 3 * |users| + (if nav != [] then 1 else 0) + 2 &&
            (nav != [] ==> kb[3 * |users|] == nav) &&
            kb[|kb| - 2] == FilterRow(filter) &&
            kb[|kb| - 1] == [BackButton]
  {
    var block := UsersBlock(users, page, filter);
    var nav := NavRow(page, totalUsers, filter);
    var tail := (if nav != [] then [nav] else []) + [FilterRow(filter)] + [[BackButton]];
    var kb := UserListLayout(users, page, totalUsers, filter);
    assert kb == block + tail;
    assert kb[|kb| - 1] == tail[|tail| - 1];
    assert kb[|kb| - 2] == tail[|tail| - 2];
  }

  /** A role button is marked exactly when it names the user's current role. */
  lemma RoleButtonMarked(u: UserRow, role: string, page: int, filter: string)
    requires role in AllowedRoles()
    ensures IsRoleMarked(RoleButton(u, role, page, filter)) <==> u.role == Some(role)
  {
    RoleNames();
    var caption := RoleButton(u, role, page, filter).text;
    if u.role == Some(role) {
      StartsWithConcat(RoleMark, role);
    } else {
      Unmarked(caption);
    }
  }

  /** In a user's role row the button for role r targets `setrole:uid:r:page:filter`. */
  lemma RoleRowTargets(u: UserRow, page: int, filter: string)
    ensures var row := RoleRow(u, page, filter);
            |row| == |AllowedRoles()| &&
            forall j :: 0 <= j < |row| ==> row[j].callbackData == SetRoleData(u.id, AllowedRoles()[j], page, filter)
  {
  }

  /** A button of a user's role row is marked exactly when it names the user's current role. */
  lemma RoleRowMarks(u: UserRow, page: int, filter: string)
    ensures var row := RoleRow(u, page, filter);
            |row| == |AllowedRoles()| &&
            forall j :: 0 <= j < |row| ==> (IsRoleMarked(row[j]) <==> u.role == Some(AllowedRoles()[j]))
  {
    var roles := AllowedRoles();
    var row := RoleRow(u, page, filter);
    forall j | 0 <= j < |row|
      ensures IsRoleMarked(row[j]) <==> u.role == Some(roles[j])
    {
      RoleButtonMarked(u, roles[j], page, filter);
    }
  }

  /**
   * At most one button of a role row is marked, and one is marked exactly
   * when the user's role is an allowed one (none when it is unset or "").
   */
  lemma RoleRowMarkedOnce(u: UserRow, page: int, filter: string)
    ensures var row := RoleRow(u, page, filter);
            (forall j, j' :: 0 <= j < j' < |row| ==> !(IsRoleMarked(row[j]) && IsRoleMarked(row[j']))) &&
            ((exists j :: 0 <= j < |row| && IsRoleMarked(row[j])) <==> u.role.Some? && u.role.value in AllowedRoles())
  {
    var roles := AllowedRoles();
    var row := RoleRow(u, page, filter);
    RoleRowMarks(u, page, filter);
    RolesDistinct();
    forall j, j' | 0 <= j < j' < |row|
      ensures !(IsRoleMarked(row[j]) && IsRoleMarked(row[j']))
    {
      assert roles[j] != roles[j'];
    }
    if u.role.Some? && u.role.value in roles {
      var j :| 0 <= j < |roles| && roles[j] == u.role.value;
      assert IsRoleMarked(row[j]);
    }
  }

  /** The clear-role button of a user carries the role token "NULL". */
  lemma ClearRoleTargets(uid: int, page: int, filter: string)
    ensures ClearRoleButton(uid, page, filter).callbackData == SetRoleData(uid, NullToken, page, filter)
    ensures !IsRoleMarked(ClearRoleButton(uid, page, filter))
  {
    Unmarked(ClearRoleButton(uid, page, filter).text);
  }

  /**
   * Previous is offered exactly when page > 0 and leads to page - 1; Next
   * exactly when another page follows and leads to page + 1; both keep the filter.
   */
  lemma NavRowButtons(page: int, totalUsers: int, filter: string)
    ensures var nav := NavRow(page, totalUsers, filter);
            |nav| == (if page > 0 then 1 else 0) + (if HasNextPage(page, totalUsers) then 1 else 0) &&
            (page > 0 ==> nav[0].callbackData == ManageUsersData(page - 1, filter)) &&
            (HasNextPage(page, totalUsers) ==> nav[|nav| - 1].callbackData == ManageUsersData(page + 1, filter)) &&
            (forall b :: b in nav ==> b.callbackData in {ManageUsersData(page - 1, filter), ManageUsersData(page + 1, filter)})
  {
  }

  /** A filter tab is marked exactly when its target is the active filter. */
  lemma FilterTabMarked(caption: string, target: string, current: string)
    requires |caption| > 0 && caption[0] != RoleMark[0] && caption[0] != FilterMark[0]
    ensures IsFilterMarked(FilterTab(caption, target, current)) <==> current == target
  {
    if current == target {
      StartsWithConcat(FilterMark, caption);
    } else {
      Unmarked(caption);
    }
  }

  /** The tab of an allowed role is marked exactly when that role is the active filter. */
  lemma RoleTabMarked(role: string, current: string)
    requires role in AllowedRoles()
    ensures IsFilterMarked(RoleTab(role, current)) <==> current == role
  {
    RoleNames();
    var caption := Take(role, 3);
    assert caption[0] == role[0];
    FilterTabMarked(caption, role, current);
  }

  /** The filter row holds "All" and one tab per allowed role, each jumping to page 0 of its filter. */
  lemma FilterRowTargets(current: string)
    ensures var row := FilterRow(current);
            var targets := [AllFilter] + AllowedRoles();
            |row| == |targets| &&
            forall j :: 0 <= j < |row| ==> row[j].callbackData == ManageUsersData(0, targets[j])
  {
  }

  /** A tab of the filter row is marked exactly when its filter is the active one. */
  lemma FilterRowMarks(current: string)
    ensures var row := FilterRow(current);
            var targets := [AllFilter] + AllowedRoles();
            |row| == |targets| &&
            forall j :: 0 <= j < |row| ==> (IsFilterMarked(row[j]) <==> current == targets[j])
  {
    var roles := AllowedRoles();
    var row := FilterRow(current);
    var targets := [AllFilter] + roles;
    FilterTabMarked("All", AllFilter, current);
    forall j | 1 <= j < |row|
      ensures IsFilterMarked(row[j]) <==> current == targets[j]
    {
      assert row[j] == RoleTab(roles[j - 1], current);
      RoleTabMarked(roles[j - 1], current);
    }
  }

  /**
   * At most one tab is marked, and one is marked exactly when the active
   * filter is "ALL" or an allowed role; any other filter string marks none.
   */
  lemma FilterRowMarkedOnce(current: string)
    ensures var row := FilterRow(current);
            var targets := [AllFilter] + AllowedRoles();
            (forall j, j' :: 0 <= j < j' < |row| ==> !(IsFilterMarked(row[j]) && IsFilterMarked(row[j']))) &&
            ((exists j :: 0 <= j < |row| && IsFilterMarked(row[j])) <==> current in targets)
  {
    var roles := AllowedRoles();
    var row := FilterRow(current);
    var targets := [AllFilter] + roles;
    FilterRowMarks(current);
    RolesDistinct();
    ReservedNotRoles();
    forall j, j' | 0 <= j < j' < |row|
      ensures !(IsFilterMarked(row[j]) && IsFilterMarked(row[j']))
    {
      assert targets[j'] == roles[j' - 1];
      assert targets[j] != targets[j'];
    }
    if current in targets {
      var j :| 0 <= j < |targets| && targets[j] == current;
      assert IsFilterMarked(row[j]);
    }
  }
}
