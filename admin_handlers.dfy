/**
 * The admin side of the bot (handlers/admin_handlers.py, with the states of
 * states.py). Each handler becomes a method of `AdminRouter`; the router's
 * filters (sender in ADMINS, the current FSM state, the callback prefix)
 * become the guard under which the method does anything at all. The FSM
 * storage is a map from the admin's id to the session (state and data);
 * `state.clear()` removes the entry. Messages sent back to Telegram are
 * returned as views, without their display text.
 */
module AdminHandlers {
  import opened Wrappers
  import opened Text
  import opened Config
  import opened Database
  import opened Keyboards

  // ---------------------------------------------------------------------
  // FSM states and session data
  // ---------------------------------------------------------------------

  /** No state, `SearchUser.waiting_query`, `EditWelcome.waiting_text`, and the three `Broadcast` states. */
  datatype FsmState =
    | Idle
    | SearchWaitingQuery
    | EditWelcomeWaitingText
    | BroadcastSelectRole
    | BroadcastWaitingMessage
    | BroadcastConfirm

  /** The keys the handlers store with `update_data`; a missing key reads as None. */
  datatype SessionData = SessionData(roleFilter: Option<string>, message: Option<string>, page: Option<int>)

  datatype Session = Session(state: FsmState, data: SessionData)

  /** The session of an admin with no stored state or data. */
  const Fresh: Session := Session(Idle, SessionData(None, None, None))

  function SessionIn(sessions: map<int, Session>, id: int): Session
  {
    if id in sessions then sessions[id] else Fresh
  }

  /** `state.clear()`: state and data are both dropped. */
  function Cleared(sessions: map<int, Session>, id: int): (r: map<int, Session>)
    ensures SessionIn(r, id) == Fresh
    ensures forall other :: other != id ==> SessionIn(r, other) == SessionIn(sessions, other)
  {
    sessions - {id}
  }

  /** `state.set_state(st)`: the data is kept. */
  function WithState(sessions: map<int, Session>, id: int, st: FsmState): (r: map<int, Session>)
    ensures SessionIn(r, id) == SessionIn(sessions, id).(state := st)
    ensures forall other :: other != id ==> SessionIn(r, other) == SessionIn(sessions, other)
  {
    sessions[id := SessionIn(sessions, id).(state := st)]
  }

  /** `state.update_data(page=page, role_filter=role_filter)` of `set_user_role`: the state is kept. */
  function WithListPosition(sessions: map<int, Session>, id: int, page: int, filter: string): (r: map<int, Session>)
    ensures SessionIn(r, id).state == SessionIn(sessions, id).state
    ensures SessionIn(r, id).data == SessionIn(sessions, id).data.(page := Some(page), roleFilter := Some(filter))
    ensures forall other :: other != id ==> SessionIn(r, other) == SessionIn(sessions, other)
  {
    var s := SessionIn(sessions, id);
    sessions[id := s.(data := s.data.(page := Some(page), roleFilter := Some(filter)))]
  }

  // ---------------------------------------------------------------------
  // Decoding the callback strings (`callback.data.split(':')`)
  // ---------------------------------------------------------------------

  /** The position a `manage_users` callback asks for. */
  datatype ListRequest = ListRequest(page: int, filter: string)

  /** The role change a `setrole` callback asks for. */
  datatype RoleChange = RoleChange(userId: int, role: string, page: int, filter: string)

  /**
   * `page = int(data[1]); role_filter = data[2]`: None stands for the
   * IndexError or ValueError the handler raises on a short or non-numeric
   * string.
   */
  function DecodeManageUsers(data: string): (r: Option<ListRequest>)
    ensures r.Some? <==> |Split(data, ':')| >= 3 && ParseInt(Split(data, ':')[1]).Some?
  {
    var parts := Split(data, ':');
    if |parts| < 3 then None
    else match ParseInt(parts[1])
      case None => None
      case Some(page) => Some(ListRequest(page, parts[2]))
  }

  /** `user_id = int(data[1]); new_role = data[2]; page = int(data[3]); role_filter = data[4]`. */
  function DecodeSetRole(data: string): (r: Option<RoleChange>)
    ensures r.Some? <==>
              |Split(data, ':')| >= 5 && ParseInt(Split(data, ':')[1]).Some? && ParseInt(Split(data, ':')[3]).Some?
  {
    var parts := Split(data, ':');
    if |parts| < 5 then None
    else match (ParseInt(parts[1]), ParseInt(parts[3]))
      case (Some(uid), Some(page)) => Some(RoleChange(uid, parts[2], page, parts[4]))
      case _ => None
  }

  /** `role = callback.data.split(':')[1]`. */
  function DecodeBroadcastRole(data: string): (r: Option<string>)
    ensures r.Some? <==> ':' in data
  {
    var parts := Split(data, ':');
    if |parts| < 2 then None else Some(parts[1])
  }

  /** The pieces of a `manage_users` callback string. */
  lemma ManageUsersParts(page: int, filter: string)
    requires ':' !in filter
    ensures Split(ManageUsersData(page, filter), ':') == ["manage_users", IntToString(page), filter]
  {
    var parts := ["manage_users", IntToString(page), filter];
    assert forall k :: 0 <= k < |parts| ==> ':' !in parts[k];
    SplitJoin(parts, ':');
  }

  /** The pieces of a `setrole` callback string. */
  lemma SetRoleParts(uid: int, role: string, page: int, filter: string)
    requires ':' !in role && ':' !in filter
    ensures Split(SetRoleData(uid, role, page, filter), ':') ==
            ["setrole", IntToString(uid), role, IntToString(page), filter]
  {
    var parts := ["setrole", IntToString(uid), role, IntToString(page), filter];
    assert forall k :: 0 <= k < |parts| ==> ':' !in parts[k];
    SplitJoin(parts, ':');
  }

  /** The handler reads back the page and filter the keyboard encoded. */
  lemma DecodeManageUsersData(page: int, filter: string)
    requires ':' !in filter
    ensures DecodeManageUsers(ManageUsersData(page, filter)) == Some(ListRequest(page, filter))
  {
    ManageUsersParts(page, filter);
    ParseIntToString(page);
  }

  /** The handler reads back the user, role, page and filter the keyboard encoded. */
  lemma DecodeSetRoleData(uid: int, role: string, page: int, filter: string)
    requires ':' !in role && ':' !in filter
    ensures DecodeSetRole(SetRoleData(uid, role, page, filter)) == Some(RoleChange(uid, role, page, filter))
  {
    SetRoleParts(uid, role, page, filter);
    ParseIntToString(uid);
    ParseIntToString(page);
  }

  /** The handler reads back the role the broadcast keyboard encoded. */
  lemma DecodeBroadcastRoleData(role: string)
    requires ':' !in role
    ensures DecodeBroadcastRole(BroadcastRoleData(role)) == Some(role)
  {
    var parts := ["broadcast_role", role];
    assert forall k :: 0 <= k < |parts| ==> ':' !in parts[k];
    SplitJoin(parts, ':');
  }

  /**
   * The re-render after a role change hands the `setrole` string to the
   * `manage_users` decoder, which reads it by position: the user id becomes
   * the page and the role token becomes the filter.
   */
  lemma RerenderReadsSetRoleData(uid: int, role: string, page: int, filter: string)
    requires ':' !in role && ':' !in filter
    ensures DecodeManageUsers(SetRoleData(uid, role, page, filter)) == Some(ListRequest(uid, role))
  {
    SetRoleParts(uid, role, page, filter);
    ParseIntToString(uid);
  }

  /** A role button of the user list decodes to that user, that role, and the page and filter shown. */
  lemma RoleButtonDecodes(u: UserRow, page: int, filter: string, j: nat)
    requires ':' !in filter && j < |AllowedRoles()|
    ensures DecodeSetRole(RoleRow(u, page, filter)[j].callbackData) ==
            Some(RoleChange(u.id, AllowedRoles()[j], page, filter))
  {
    var r := AllowedRoles()[j];
    RoleNames();
    assert r in AllowedRoles();
    DecodeSetRoleData(u.id, r, page, filter);
  }

  /** A clear-role button decodes to that user and the "NULL" token, which the handler turns into no role. */
  lemma ClearRoleDecodes(uid: int, page: int, filter: string)
    requires ':' !in filter
    ensures DecodeSetRole(ClearRoleButton(uid, page, filter).callbackData) == Some(RoleChange(uid, NullToken, page, filter))
  {
    DecodeSetRoleData(uid, NullToken, page, filter);
  }

  // ---------------------------------------------------------------------
  // Page arithmetic of manage_users
  // ---------------------------------------------------------------------

  /** The page count the header shows: `total_users // PAGE_SIZE + 1`. */
  function ReportedPages(totalUsers: nat): (n: int)
    ensures n >= 1
    ensures (n - 1) * PageSize <= totalUsers < n * PageSize
  {
    totalUsers / PageSize + 1
  }

  /**
   * Against the ceiling of `total / PAGE_SIZE`, the header is one more
   * whenever the total is a multiple of the page size, and equal otherwise.
   * Against the page count of a list that shows one empty page when there
   * are no users, `max(1, ceiling)`, the header is one too many exactly
   * when the users fill their last page, and right for no users at all.
   */
  lemma ReportedPagesVersusCeiling(totalUsers: nat)
    ensures var ceiling := (totalUsers + PageSize - 1) / PageSize;
            ReportedPages(totalUsers) == if totalUsers % PageSize == 0 then ceiling + 1 else ceiling
    ensures var ceiling := (totalUsers + PageSize - 1) / PageSize;
            var pages := if ceiling < 1 then 1 else ceiling;
            ReportedPages(totalUsers) == pages + (if totalUsers > 0 && totalUsers % PageSize == 0 then 1 else 0)
  {
    var q := totalUsers / PageSize;
    var m := totalUsers % PageSize;
    assert totalUsers == q * PageSize + m;
    if m == 0 {
      assert totalUsers + PageSize - 1 == q * PageSize + (PageSize - 1);
    } else {
      assert totalUsers + PageSize - 1 == (q + 1) * PageSize + (m - 1);
    }
  }

  // ---------------------------------------------------------------------
  // The broadcast loop
  // ---------------------------------------------------------------------

  /** How many of `ids` the delivery oracle accepts (the successful `send_message` calls). */
  function Delivered(ids: seq<int>, deliver: int -> bool): (n: nat)
    ensures n <= |ids|
  {
    if ids == [] then 0
    else Delivered(ids[..|ids| - 1], deliver) + (if deliver(ids[|ids| - 1]) then 1 else 0)
  }

  /** When every send succeeds all recipients count as sent; when none does, none. */
  lemma {:induction false} DeliveredExtremes(ids: seq<int>, deliver: int -> bool)
    ensures (forall k :: 0 <= k < |ids| ==> deliver(ids[k])) ==> Delivered(ids, deliver) == |ids|
    ensures (forall k :: 0 <= k < |ids| ==> !deliver(ids[k])) ==> Delivered(ids, deliver) == 0
  {
    if ids != [] {
      DeliveredExtremes(ids[..|ids| - 1], deliver);
    }
  }

  /** The tally is per recipient: it adds up over consecutive parts of the list. */
  lemma {:induction false} DeliveredAppend(a: seq<int>, b: seq<int>, deliver: int -> bool)
    ensures Delivered(a + b, deliver) == Delivered(a, deliver) + Delivered(b, deliver)
    decreases |b|
  {
    if b == [] {
      assert a + b == a;
    } else {
      assert (a + b)[..|a + b| - 1] == a + b[..|b| - 1];
      assert (a + b)[|a + b| - 1] == b[|b| - 1];
      DeliveredAppend(a, b[..|b| - 1], deliver);
    }
  }

  /**
   * Over a list without repeats the tally is the number of listed ids the
   * oracle accepts, so it does not depend on the order of the list.
   */
  lemma {:induction false} DeliveredCount(ids: seq<int>, deliver: int -> bool)
    requires Distinct(ids)
    ensures Delivered(ids, deliver) == |set id | id in ids && deliver(id)|
  {
    if ids != [] {
      var init, last := ids[..|ids| - 1], ids[|ids| - 1];
      assert ids == init + [last];
      assert last !in init;
      DeliveredCount(init, deliver);
      var before := set id | id in init && deliver(id);
      if deliver(last) {
        assert (set id | id in ids && deliver(id)) == before + {last};
      } else {
        assert (set id | id in ids && deliver(id)) == before;
      }
    }
  }

  /** A broadcast counts as sent exactly the matching users the oracle accepts, in whatever order they come. */
  lemma BroadcastTally(users: Users, f: Option<string>, ids: seq<int>, deliver: int -> bool)
    requires IsRecipientList(users, f, ids)
    ensures Delivered(ids, deliver) == |set id | id in Matching(users, f) && deliver(id)|
  {
    DeliveredCount(ids, deliver);
    forall id ensures id in ids <==> id in Matching(users, f) {
      if id in ids {
        var k :| 0 <= k < |ids| && ids[k] == id;
      }
    }
    assert (set id | id in ids && deliver(id)) == (set id | id in Matching(users, f) && deliver(id));
  }

  /**
   * The send loop of `confirm_broadcast`: each recipient in turn is counted
   * as sent or, when the send raises, as failed, and the loop goes on.
   */
  method Dispatch(ids: seq<int>, deliver: int -> bool) returns (sent: nat, failed: nat)
    ensures sent == Delivered(ids, deliver)
    ensures sent + failed == |ids|
  {
    sent, failed := 0, 0;
    var i := 0;
    while i < |ids|
      invariant 0 <= i <= |ids|
      invariant sent == Delivered(ids[..i], deliver)
      invariant sent + failed == i
    {
      assert ids[..i + 1][..i] == ids[..i];
      if deliver(ids[i]) {
        sent := sent + 1;
      } else {
        failed := failed + 1;
      }
      i := i + 1;
    }
    assert ids[..i] == ids;
  }

  /** A recipient list of `get_users_for_broadcast`: every matching user once, in no particular order. */
  ghost predicate IsRecipientList(users: Users, f: Option<string>, ids: seq<int>)
  {
    Distinct(ids) &&
    (forall k :: 0 <= k < |ids| ==> ids[k] in users && Matches(users[ids[k]], f)) &&
    (forall id :: id in users && Matches(users[id], f) ==> id in ids) &&
    |ids| == Count(users, f)
  }

  // ---------------------------------------------------------------------
  // What the handlers send back
  // ---------------------------------------------------------------------

  /**
   * `Ignored`: the router's filters do not let the update through (sender
   * not an admin, wrong state, wrong callback). `Failed`: the handler raised
   * before changing anything. `Rejected`: the handler refused the input and
   * asked again, changing nothing. `Shown`: it ran to the end.
   */
  datatype Reply<T> = Ignored | Failed | Rejected | Shown(view: T)

  /** The admin panel: the role statistics behind its text and the menu keyboard. */
  datatype PanelView = PanelView(stats: map<string, int>, kb: Keyboard)

  /** One page of the user list: the "Page x/y" header numbers, the rows, the keyboard. */
  datatype UserListView = UserListView(pageShown: int, pagesShown: int, rows: seq<UserRow>, kb: Keyboard)

  /** The answer to a role button: whether `set_role` succeeded, and the re-rendered list. */
  datatype RoleChangeView = RoleChangeView(saved: bool, list: UserListView)

  /** The confirmation prompt of a broadcast. */
  datatype ConfirmView = ConfirmView(roleFilter: Option<string>, recipients: nat, message: string, kb: Keyboard)

  /** The report after a broadcast. */
  datatype BroadcastReport = BroadcastReport(sent: nat, failed: nat)

  /** The two-button keyboard under the confirmation prompt. */
  function ConfirmKb(): (kb: Keyboard)
    ensures |kb| == 2 && |kb[0]| == 1 && |kb[1]| == 1
    ensures kb[0][0].callbackData == "confirm_send_broadcast" && kb[1][0] == CancelBroadcastButton
  {
    [[Button("✅ Підтвердити та надіслати", "confirm_send_broadcast")], [CancelBroadcastButton]]
  }

  /** What `manage_users` shows for a decoded request over the current users. */
  ghost predicate IsListView(users: Users, req: ListRequest, view: UserListView)
  {
    var total := Count(users, Some(req.filter));
    view.pageShown == req.page + 1 &&
    view.pagesShown == ReportedPages(total) &&
    IsPage(users, Some(req.filter), req.page * PageSize, PageSize, view.rows) &&
    view.kb == UserListLayout(view.rows, req.page, total, req.filter)
  }

  /**
   * A list view under the filter "NULL" has no rows, so the handler shows
   * its "no users under this filter" text; the header numbers it computes
   * are page `p + 1` of 1.
   */
  lemma NullListViewEmpty(users: Users, p: int, view: UserListView)
    requires RolesValid(users)
    requires IsListView(users, ListRequest(p, NullToken), view)
    ensures view.rows == [] && view.pageShown == p + 1 && view.pagesShown == 1
  {
    NullFilterListsNobody(users);
    NullPageEmpty(users, p * PageSize, PageSize, view.rows);
  }

  /**
   * A clear-role press re-renders the list under the filter "NULL", which no
   * stored user matches: whatever page and filter the button was on, the
   * admin sees no rows, only the "no users under this filter" text.
   */
  lemma ClearRoleRerendersEmpty(users: Users, uid: int, page: int, filter: string, view: UserListView)
    requires RolesValid(users) && ':' !in filter
    requires IsListView(users, ListRequest(uid, NullToken), view)
    ensures DecodeManageUsers(ClearRoleButton(uid, page, filter).callbackData) == Some(ListRequest(uid, NullToken))
    ensures view.rows == [] && view.pageShown == uid + 1 && view.pagesShown == 1
  {
    ClearRoleTargets(uid, page, filter);
    RerenderReadsSetRoleData(uid, NullToken, page, filter);
    NullListViewEmpty(users, uid, view);
  }

  /** A broadcast text is accepted when present, non-empty and at most MAX_MESSAGE_LENGTH long. */
  predicate ValidText(text: Option<string>)
  {
    text.Some? && text.value != "" && |text.value| <= MaxMessageLength
  }

  /**
   * A text the dispatcher gives to a command handler registered before the
   * state handlers, so that the state handler never sees it and the state is
   * kept: aiogram's `Command` filter reads the first word of the plain
   * text (or of the caption), ignoring its formatting entities; `/start`
   * and `/help` belong to the user router, which main.py includes first, and
   * `/admin` to this router's first handler.
   */
  predicate TakenByCommand(text: Option<string>)
  {
    text.Some? && FirstWord(text.value) in {"/start", "/help", "/admin"}
  }

  /** A command is found after any leading whitespace and before any arguments. */
  lemma CommandTextTaken(lead: string, command: string, args: string)
    requires forall k :: 0 <= k < |lead| ==> IsSpace(lead[k])
    requires command in {"/start", "/help", "/admin"}
    requires args == [] || IsSpace(args[0])
    ensures TakenByCommand(Some(lead + command + args))
  {
    FirstWordIs(lead, command, args);
  }

  /** Only the whole first word counts: `/administer`, or a command later in the text, is ordinary text. */
  lemma OtherTextNotTaken(lead: string, word: string, rest: string)
    requires forall k :: 0 <= k < |lead| ==> IsSpace(lead[k])
    requires word != [] && forall k :: 0 <= k < |word| ==> !IsSpace(word[k])
    requires word !in {"/start", "/help", "/admin"}
    requires rest == [] || IsSpace(rest[0])
    ensures !TakenByCommand(Some(lead + word + rest))
  {
    FirstWordIs(lead, word, rest);
  }

  // ---------------------------------------------------------------------
  // The router
  // ---------------------------------------------------------------------

  class AdminRouter {
    /** ADMINS from the configuration. */
    const admins: seq<int>
    /** The repository the handlers share. */
    const db: Database
    /** The FSM storage: one session per admin. */
    var sessions: map<int, Session>

    ghost predicate Valid()
      reads this, db
    {
      db.Valid()
    }

    constructor (admins: seq<int>, db: Database)
      requires db.Valid()
      ensures Valid()
      ensures this.admins == admins && this.db == db && sessions == map[]
    {
      this.admins := admins;
      this.db := db;
      sessions := map[];
    }

    /** `is_admin(user_id)`: the filter every admin handler carries. */
    predicate IsAdmin(userId: int)
    {
      userId in admins
    }

    /** `_get_admin_panel_text` and `get_admin_panel_kb`. */
    method Panel() returns (view: PanelView)
      ensures IsRolesStats(db.users, view.stats)
      ensures view.kb == AdminPanelKb()
    {
      var stats := db.GetRolesStats();
      view := PanelView(stats, AdminPanelKb());
    }

    /** `admin_panel` (/admin) and `refresh_admin_panel`: the panel, for admins only; nothing changes. */
    method AdminPanel(userId: int) returns (reply: Reply<PanelView>)
      ensures !IsAdmin(userId) ==> reply == Ignored
      ensures IsAdmin(userId) ==> reply.Shown? && IsRolesStats(db.users, reply.view.stats) && reply.view.kb == AdminPanelKb()
    {
      if !IsAdmin(userId) {
        return Ignored;
      }
      var view := Panel();
      reply := Shown(view);
    }

    /** The body of `manage_users` for callback data `data`, read by position. */
    method RenderUserList(data: string) returns (reply: Reply<UserListView>)
      ensures DecodeManageUsers(data).None? ==> reply == Failed
      ensures DecodeManageUsers(data).Some? ==> reply.Shown? && IsListView(db.users, DecodeManageUsers(data).value, reply.view)
    {
      var req := DecodeManageUsers(data);
      if req.None? {
        return Failed;
      }
      var page, filter := req.value.page, req.value.filter;
      var rows := db.GetUsers(page * PageSize, PageSize, Some(filter));
      var total := db.GetUsersCount(Some(filter));
      var kb := GetUserListKb(rows, page, total, filter);
      reply := Shown(UserListView(page + 1, ReportedPages(total), rows, kb));
    }

    /** `manage_users`: fires for admins on callbacks starting with "manage_users"; nothing changes. */
    method ManageUsers(userId: int, data: string) returns (reply: Reply<UserListView>)
      ensures !IsAdmin(userId) || !StartsWith(data, "manage_users") ==> reply == Ignored
      ensures IsAdmin(userId) && StartsWith(data, "manage_users") ==>
                match DecodeManageUsers(data)
                case None => reply == Failed
                case Some(req) => reply.Shown? && IsListView(db.users, req, reply.view)
    {
      if !IsAdmin(userId) || !StartsWith(data, "manage_users") {
        return Ignored;
      }
      reply := RenderUserList(data);
    }

    /**
     * `set_user_role`: the role token "NULL" clears the role, and `set_role`
     * runs. Its outcome is announced with `callback.answer`; when Telegram
     * refuses that (`answerAccepted` false) the handler raises there, after the
     * write. Otherwise the page and filter are stored in the session whatever
     * its state, and the list is re-rendered from the same callback string
     * whether or not the role was saved.
     */
    method SetUserRole(userId: int, data: string, storageOk: bool, answerAccepted: bool)
      returns (reply: Reply<RoleChangeView>)
      requires Valid()
      modifies this, db
      ensures Valid()
      ensures !IsAdmin(userId) || !StartsWith(data, "setrole") || DecodeSetRole(data).None? ==>
                unchanged(this) && unchanged(db) &&
                reply == if IsAdmin(userId) && StartsWith(data, "setrole") then Failed else Ignored
      ensures IsAdmin(userId) && StartsWith(data, "setrole") && DecodeSetRole(data).Some? ==>
                var change := DecodeSetRole(data).value;
                var role := if change.role == NullToken then None else Some(change.role);
                var saved := RoleAccepted(role) && storageOk;
                db.users == (if saved then WithRole(old(db.users), change.userId, role) else old(db.users)) &&
                db.settings == old(db.settings) && db.history == old(db.history) &&
                if !answerAccepted then reply == Failed && sessions == old(sessions)
                else
                  reply.Shown? && reply.view.saved == saved &&
                  sessions == WithListPosition(old(sessions), userId, change.page, change.filter) &&
                  DecodeManageUsers(data).Some? &&
                  IsListView(db.users, DecodeManageUsers(data).value, reply.view.list)
    {
      if !IsAdmin(userId) || !StartsWith(data, "setrole") {
        return Ignored;
      }
      var decoded := DecodeSetRole(data);
      if decoded.None? {
        return Failed;
      }
      var change := decoded.value;
      var role := if change.role == NullToken then None else Some(change.role);
      var saved := db.SetRole(change.userId, role, storageOk);
      if !answerAccepted {
        return Failed;
      }
      sessions := WithListPosition(sessions, userId, change.page, change.filter);
      var list := RenderUserList(data);
      reply := Shown(RoleChangeView(saved, list.view));
    }

    /** `start_search_user`: enters `SearchUser.waiting_query`. */
    method StartSearchUser(userId: int)
      modifies this
      ensures sessions == if IsAdmin(userId) then WithState(old(sessions), userId, SearchWaitingQuery) else old(sessions)
    {
      if IsAdmin(userId) {
        sessions := WithState(sessions, userId, SearchWaitingQuery);
      }
    }

    /**
     * `process_search_user`: an absent or empty text is refused and the state
     * kept; any other text, whitespace only included, runs the search,
     * except a `/start`, `/help` or `/admin` command, which its own handler
     * takes while the admin stays in the search state. The
     * results are sent before the state is cleared: when Telegram refuses
     * that answer (`answerAccepted` false, as for a username whose `_` breaks
     * the Markdown), the handler raises and the admin stays in the search state.
     */
    method ProcessSearchUser(userId: int, text: Option<string>, answerAccepted: bool)
      returns (reply: Reply<seq<UserRow>>)
      modifies this
      ensures !IsAdmin(userId) || SessionIn(old(sessions), userId).state != SearchWaitingQuery || TakenByCommand(text) ==>
                reply == Ignored && sessions == old(sessions)
      ensures IsAdmin(userId) && SessionIn(old(sessions), userId).state == SearchWaitingQuery && !TakenByCommand(text) ==>
                if text == None || text == Some("") then reply == Rejected && sessions == old(sessions)
                else if !answerAccepted then reply == Failed && sessions == old(sessions)
                else reply.Shown? && IsSearchResult(db.users, text.value, reply.view) &&
                     sessions == Cleared(old(sessions), userId)
    {
      if !IsAdmin(userId) || SessionIn(sessions, userId).state != SearchWaitingQuery || TakenByCommand(text) {
        return Ignored;
      }
      if text == None || text == Some("") {
        return Rejected;
      }
      var rows := db.SearchUsers(text.value);
      if !answerAccepted {
        return Failed;
      }
      sessions := Cleared(sessions, userId);
      reply := Shown(rows);
    }

    /** `start_edit_welcome`: enters `EditWelcome.waiting_text`. */
    method StartEditWelcome(userId: int)
      modifies this
      ensures sessions == if IsAdmin(userId) then WithState(old(sessions), userId, EditWelcomeWaitingText) else old(sessions)
    {
      if IsAdmin(userId) {
        sessions := WithState(sessions, userId, EditWelcomeWaitingText);
      }
    }

    /**
     * `process_edit_welcome`: an empty or over-long text is refused, the state
     * kept and the setting untouched; otherwise the text is written and the
     * state cleared, even when the write fails. The outcome is announced
     * before the clear: when Telegram refuses that answer, the write stands
     * but the admin stays in the editing state. A `/start`, `/help` or
     * `/admin` command goes to its own handler and is never saved.
     */
    method ProcessEditWelcome(userId: int, text: Option<string>, now: int, storageOk: bool, answerAccepted: bool)
      returns (reply: Reply<bool>)
      requires Valid()
      modifies this, db
      ensures Valid()
      ensures db.users == old(db.users) && db.history == old(db.history)
      ensures !IsAdmin(userId) || SessionIn(old(sessions), userId).state != EditWelcomeWaitingText || TakenByCommand(text) ==>
                reply == Ignored && sessions == old(sessions) && db.settings == old(db.settings)
      ensures IsAdmin(userId) && SessionIn(old(sessions), userId).state == EditWelcomeWaitingText && !TakenByCommand(text) ==>
                if !ValidText(text) then reply == Rejected && sessions == old(sessions) && db.settings == old(db.settings)
                else db.settings == (if storageOk then old(db.settings)[WelcomeKey := Setting(text.value, now)] else old(db.settings)) &&
                     if answerAccepted then reply == Shown(storageOk) && sessions == Cleared(old(sessions), userId)
                     else reply == Failed && sessions == old(sessions)
    {
      if !IsAdmin(userId) || SessionIn(sessions, userId).state != EditWelcomeWaitingText || TakenByCommand(text) {
        return Ignored;
      }
      if !ValidText(text) {
        return Rejected;
      }
      var ok := db.SetSetting(WelcomeKey, text.value, now, storageOk);
      if !answerAccepted {
        return Failed;
      }
      sessions := Cleared(sessions, userId);
      reply := Shown(ok);
    }

    /** `start_broadcast`: enters `Broadcast.select_role` and offers the role keyboard. */
    method StartBroadcast(userId: int) returns (reply: Reply<Keyboard>)
      modifies this
      ensures !IsAdmin(userId) ==> reply == Ignored && sessions == old(sessions)
      ensures IsAdmin(userId) ==>
                sessions == WithState(old(sessions), userId, BroadcastSelectRole) && reply.Shown? &&
                |reply.view| == |AllowedRoles()| + 2 && reply.view[0] == [BroadcastAllButton] &&
                (forall j :: 0 <= j < |AllowedRoles()| ==> reply.view[j + 1] == [BroadcastRoleButton(AllowedRoles()[j])]) &&
                reply.view[|reply.view| - 1] == [CancelBroadcastButton]
    {
      if !IsAdmin(userId) {
        return Ignored;
      }
      sessions := WithState(sessions, userId, BroadcastSelectRole);
      var kb := GetBroadcastRolesKb();
      reply := Shown(kb);
    }

    /** `select_broadcast_role`: only in `Broadcast.select_role`; stores the chosen role and waits for the text. */
    method SelectBroadcastRole(userId: int, data: string) returns (reply: Reply<string>)
      modifies this
      ensures var s := SessionIn(old(sessions), userId);
              if !IsAdmin(userId) || s.state != BroadcastSelectRole || !StartsWith(data, "broadcast_role") then
                reply == Ignored && sessions == old(sessions)
              else if DecodeBroadcastRole(data).None? then
                reply == Failed && sessions == old(sessions)
              else
                reply == Shown(DecodeBroadcastRole(data).value) &&
                sessions == old(sessions)[userId := Session(BroadcastWaitingMessage,
                                                            s.data.(roleFilter := DecodeBroadcastRole(data)))]
    {
      var s := SessionIn(sessions, userId);
      if !IsAdmin(userId) || s.state != BroadcastSelectRole || !StartsWith(data, "broadcast_role") {
        return Ignored;
      }
      var role := DecodeBroadcastRole(data);
      if role.None? {
        return Failed;
      }
      sessions := sessions[userId := Session(BroadcastWaitingMessage, s.data.(roleFilter := role))];
      reply := Shown(role.value);
    }

    /**
     * `waiting_broadcast_message`: only in `Broadcast.waiting_message`; an
     * empty or over-long text is refused and the state kept; otherwise the
     * text is stored and the prompt shows how many users the stored filter
     * reaches. The stored text is the HTML form `html` of the message, while
     * the command filters read its plain text or caption, `plain`: a
     * `/start`, `/help` or `/admin` command there, bold or not, goes to its
     * own handler and the state is kept.
     */
    method WaitingBroadcastMessage(userId: int, plain: Option<string>, html: Option<string>)
      returns (reply: Reply<ConfirmView>)
      modifies this
      ensures var s := SessionIn(old(sessions), userId);
              if !IsAdmin(userId) || s.state != BroadcastWaitingMessage || TakenByCommand(plain) then
                reply == Ignored && sessions == old(sessions)
              else if !ValidText(html) then
                reply == Rejected && sessions == old(sessions)
              else
                sessions == old(sessions)[userId := Session(BroadcastConfirm, s.data.(message := html))] &&
                reply == Shown(ConfirmView(s.data.roleFilter, Count(db.users, s.data.roleFilter), html.value, ConfirmKb()))
    {
      var s := SessionIn(sessions, userId);
      if !IsAdmin(userId) || s.state != BroadcastWaitingMessage || TakenByCommand(plain) {
        return Ignored;
      }
      if !ValidText(html) {
        return Rejected;
      }
      sessions := sessions[userId := Session(BroadcastConfirm, s.data.(message := html))];
      var recipients := db.GetUsersCount(s.data.roleFilter);
      reply := Shown(ConfirmView(s.data.roleFilter, recipients, html.value, ConfirmKb()));
    }

    /**
     * `confirm_broadcast`: only in `Broadcast.confirm`. The "sending" notice
     * goes out first: when Telegram refuses it (`noticeShown` false) the
     * handler raises before anything is sent. Otherwise it sends to every
     * user the stored filter matches, counting successes and failures, and
     * records one history row with the number sent. The report then replaces
     * the notice and the state is cleared; when Telegram refuses the report
     * (`reportShown` false) the sends and the row stand but the admin stays
     * in the confirm state.
     */
    method ConfirmBroadcast(userId: int, deliver: int -> bool, now: int, storageOk: bool,
                            noticeShown: bool, reportShown: bool)
      returns (reply: Reply<BroadcastReport>, sent: nat)
      requires Valid()
      modifies this, db
      ensures Valid()
      ensures db.users == old(db.users) && db.settings == old(db.settings)
      ensures var s := SessionIn(old(sessions), userId);
              if !IsAdmin(userId) || s.state != BroadcastConfirm || !noticeShown then
                reply == (if IsAdmin(userId) && s.state == BroadcastConfirm then Failed else Ignored) &&
                sent == 0 && sessions == old(sessions) && db.history == old(db.history)
              else
                (exists ids :: IsRecipientList(db.users, s.data.roleFilter, ids) && sent == Delivered(ids, deliver)) &&
                sent == |set id | id in Matching(db.users, s.data.roleFilter) && deliver(id)| &&
                db.history == old(db.history) +
                  (if storageOk then [BroadcastRecord(userId, s.data.roleFilter, s.data.message, sent, now)] else []) &&
                reply == (if reportShown then Shown(BroadcastReport(sent, Count(db.users, s.data.roleFilter) - sent)) else Failed) &&
                sessions == if reportShown then Cleared(old(sessions), userId) else old(sessions)
    {
      sent := 0;
      var s := SessionIn(sessions, userId);
      if !IsAdmin(userId) || s.state != BroadcastConfirm {
        return Ignored, 0;
      }
      if !noticeShown {
        return Failed, 0;
      }
      var ids := db.GetUsersForBroadcast(s.data.roleFilter);
      var failed;
      sent, failed := Dispatch(ids, deliver);
      db.SaveBroadcast(userId, s.data.roleFilter, s.data.message, sent, now, storageOk);
      assert IsRecipientList(db.users, s.data.roleFilter, ids);
      BroadcastTally(db.users, s.data.roleFilter, ids, deliver);
      if reportShown {
        sessions := Cleared(sessions, userId);
        reply := Shown(BroadcastReport(sent, failed));
      } else {
        reply := Failed;
      }
    }

    /** `cancel_broadcast`: clears the session from whatever state it is in. */
    method CancelBroadcast(userId: int)
      modifies this
      ensures sessions == if IsAdmin(userId) then Cleared(old(sessions), userId) else old(sessions)
    {
      if IsAdmin(userId) {
        sessions := Cleared(sessions, userId);
      }
    }

    /** `back_to_admin`: clears the session from whatever state it is in and shows the panel. */
    method BackToAdmin(userId: int) returns (reply: Reply<PanelView>)
      modifies this
      ensures !IsAdmin(userId) ==> reply == Ignored && sessions == old(sessions)
      ensures IsAdmin(userId) ==>
                sessions == Cleared(old(sessions), userId) && reply.Shown? &&
                IsRolesStats(db.users, reply.view.stats) && reply.view.kb == AdminPanelKb()
    {
      if !IsAdmin(userId) {
        return Ignored;
      }
      sessions := Cleared(sessions, userId);
      var view := Panel();
      reply := Shown(view);
    }
  }
}
