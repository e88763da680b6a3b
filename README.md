# Community bot core in Dafny

A model of the core of a Telegram bot written with aiogram over SQLite. The
bot serves a school community. A user is recorded when one of the bot's
message handlers accepts a message from them. An admin can assign each
user one of four roles (student, applicant, teacher, parent), browse the users a page at a time, search them, edit the welcome
text, and broadcast a message to everyone or to one role.

The model covers four parts of the repository:

- `database.py`: the repository class. It becomes the class
  `Database.Database`, whose three tables are fields: `users` (a map from
  id to record), `settings` (a map from key to value) and `history` (a
  sequence of broadcast records). Each query is a method whose contract
  gives its result, or the new tables, as a function of the old ones. For
  example, a page of `get_users` is a window of a ranking by `last_seen`,
  newest first. A failed write is modelled by a `storageOk` parameter.
- `keyboards.py`: the inline keyboards as data (button captions and
  callback strings). The user-list builder is a method proved equal to a
  layout function. Lemmas about that layout state which buttons carry
  which callbacks and which captions are marked.
- `handlers/admin_handlers.py`, with the states of `states.py`: each
  handler is a method of `AdminHandlers.AdminRouter`. The router holds the
  admin ids, the shared database and the FSM storage, which maps each
  admin's id to a state plus stored data. A handler's filters (admin
  sender, current state, callback prefix) become the guard under which it
  does anything. The result type tells apart four outcomes: an update the
  filters do not let through, a handler that raises (a callback string
  that does not decode, or an answer Telegram refuses), an input that is
  refused and asked for again, and a completed view. Where a handler
  answers before it clears the state, whether Telegram accepts the answer
  is a parameter, because a refused answer leaves the state in place. The
  callback strings the keyboards build are decoded by position, like
  `split(':')` followed by `int(...)`. Lemmas prove that each decoder reads
  back what the matching keyboard encoded.
- `handlers/user_handlers.py`: the middleware, which records the human
  sender of a message before the handler that accepted it runs, and the
  start screen with its fallback welcome text.

The code's quirks are modelled as written:

- The page header shows `total // PAGE_SIZE + 1`. A list that shows one
  empty page for no users has `max(1, ceil(T/P))` pages. The two agree for
  no users and for a total that is not a multiple of PAGE_SIZE; for a
  positive multiple the header shows one page too many
  (`AdminHandlers.ReportedPagesVersusCeiling`).
- After a role change, the list is re-rendered from the `setrole`
  callback string. The `manage_users` decoder reads it by position, so the
  user id becomes the page and the role token becomes the filter
  (`AdminHandlers.RerenderReadsSetRoleData`). The handler does not
  re-render the page and filter the admin was looking at.
- A search text made only of whitespace passes the handler's check. It
  then returns no rows, and the search state is cleared. The handler does
  not prompt again.
- `set_role` checks a role against the enumeration only when the role is
  truthy. The empty string is written as it is.
- `set_user_role` stores `page` and `role_filter` in the session whatever
  the session's state. In the middle of a broadcast, this overwrites the
  role filter the broadcast will use.

## Model

| member | source | states |
|---|---|---|
| Config.RolesDistinct | config.py:19 | The role enumeration has four entries, pairwise distinct |
| Config.ReservedNotRoles | config.py:19 | "ALL", "NULL", "all" and "" are not roles, so the filter, clear-role and statistics keys never collide with a role |
| Config.RoleNames | config.py:19 | Every role has at least three characters, holds no ':' and does not start with either mark character |
| Text.Split | handlers/admin_handlers.py:61 | `split(':')` gives at least one piece and no piece contains ':' |
| Text.ParseInt | handlers/admin_handlers.py:62 | `int()` succeeds exactly on an optional '-' followed by at least one ASCII digit |
| Text.TrimStart | database.py:132 | `lstrip()` drops a prefix made only of whitespace and keeps the rest, which is empty or starts with a non-whitespace character |
| Text.TrimEnd | database.py:132 | `rstrip()` drops a suffix made only of whitespace and keeps the rest, which is empty or ends with a non-whitespace character |
| Text.Strip | database.py:132 | `strip()` is never longer than its input and neither starts nor ends with whitespace |
| Text.SplitJoin | handlers/admin_handlers.py:61 | Splitting at ':' a join of ':'-free parts gives back exactly those parts |
| Text.JoinSplit | handlers/admin_handlers.py:90 | Joining the pieces of a split gives back the original string |
| Text.ParseIntToString | handlers/admin_handlers.py:62 | `int()` of a number's decimal text gives back that number, negatives included |
| Text.TakeWord | handlers/admin_handlers.py:37 | The leading word is the longest prefix without whitespace: it is followed by whitespace or the end |
| Text.FirstWord | handlers/admin_handlers.py:37 | The first word of `split()` holds no whitespace and is empty exactly when the text is all whitespace |
| Text.FirstWordIs | handlers/admin_handlers.py:37 | After leading whitespace, a word followed by whitespace or the end is the first word |
| Text.StripEmpty | database.py:132-134 | `strip()` gives "" exactly when every character is whitespace |
| Database.RoleAccepted | database.py:83 | `set_role`'s guard: an accepted role is falsy or allowed, so "NULL" and "ALL" are never stored as roles |
| Database.FilterActive | database.py:98 | `role and role != "ALL"`: a filter restricts exactly when it is truthy and not "ALL"; every allowed role restricts |
| Database.Matches | database.py:98-103 | An inactive filter matches every user. The filter "NULL" matches no user whose role `set_role` accepted |
| Database.NullFilterListsNobody | database.py:80-103 | When every stored role passed `set_role`'s guard, the filter "NULL" matches no user and counts zero |
| Database.NullRankingEmpty | database.py:93-110 | Under that invariant every ranking for the filter "NULL" is empty |
| Database.NullPageEmpty | database.py:93-113 | Under that invariant every page of `get_users` for the filter "NULL" is empty |
| Database.CountBounds | database.py:115-127 | A filtered count is at most the total; with no active filter it is the total |
| Database.InactiveFiltersAgree | database.py:98-109 | None, "" and "ALL" all select every user |
| Database.Upserted | database.py:66-73 | The upsert sets username, full name and last_seen. It keeps an existing user's role and creation time. A new user gets no role. Other rows are unchanged |
| Database.UpsertTwice | database.py:66-73 | A second upsert of the same sender with the same name and username changes only last_seen, to the later time; the role and the creation time stay as the first upsert left them |
| Database.WithRole | database.py:86 | The UPDATE changes only that user's role; an unknown id changes nothing |
| Database.AssignedUserListedOnce | database.py:80-110 | After a role is set, that user appears exactly once in the ranking filtered by that role |
| Database.Window | database.py:101-102 | LIMIT/OFFSET keep at most `limit` ids, those after `offset`, in order |
| Database.RankingLength | database.py:93-127 | A full ranking lists as many users as the count query reports |
| Database.PageRows | database.py:93-113 | A page has the size the count implies and holds only matching users |
| Database.MostRecentExists | database.py:101 | Every non-empty set of users has a most recently seen member, so the ORDER BY is well defined |
| Database.Pick | database.py:141 | A LIMIT without ORDER BY returns distinct members of the matching set, at most `limit` of them, and all of them when they fit |
| Database.NormalizeQuery | database.py:132 | The stripped query is cut to at most MAX_SEARCH_LENGTH characters |
| Database.PlanSearch | database.py:132-143 | No query for a text that strips to ""; an id lookup exactly when the stripped text is all digits, with the id `int()` would read; otherwise a name search for the stripped text |
| Database.PlanSearchEmpty | database.py:132-134 | No query runs exactly when the text is whitespace only |
| Database.PlanSearchByName | database.py:136-143 | A name search uses a non-empty, non-numeric prefix of the stripped text, at most 100 characters long |
| Database.SearchResultBounds | database.py:129-147 | A search returns at most 20 rows. A whitespace-only text returns none. A numeric query returns at most the one user with that id. A name search returns only users whose full name or username contains the query |
| Database.SettingValue | database.py:165-174 | A setting reads as present exactly when its key is stored |
| Database.RolesStatsBounded | database.py:149-160 | Every statistic lies between 0 and the overall total |
| Database.SetThenGet | database.py:176-188 | After a write, the key reads back the written value and other keys are unchanged |
| Database.WithDefaultWelcome | database.py:52-55 | INSERT OR IGNORE adds the default welcome text only when the key is missing and keeps every existing setting |
| Database.InitKeepsWelcome | database.py:52-55 | Initialising again changes nothing and never overwrites an edited welcome text |
| Database.Database.Init | database.py:16-60 | The settings become the old ones with the default welcome inserted if missing; users and history are unchanged |
| Database.Database.AddUser | database.py:62-78 | Succeeds iff the storage does; the users become the upsert of the sender; the other tables are unchanged |
| Database.Database.SetRole | database.py:80-91 | Succeeds iff the role is falsy or an allowed role and the storage works; only then is the user's role replaced |
| Database.Database.Rank | database.py:100-108 | The loop yields a ranking: every matching user once, by last_seen descending |
| Database.Database.GetUsers | database.py:93-113 | The page is the window at `offset` of some ranking of the matching users; its length follows from the count |
| Database.Database.GetUsersCount | database.py:115-127 | The count is at most the number of users, and equals it when the filter is None, "" or "ALL" |
| Database.Database.SearchUsers | database.py:129-147 | The rows are a search result for the query, as defined by its plan (none, by id, or by name with LIMIT 20) |
| Database.Database.GetRolesStats | database.py:149-163 | The keys are exactly the four roles and "all". Each role maps to its user count; "all" maps to the number of users |
| Database.Database.GetSetting | database.py:165-174 | Present iff the key is stored, and then the stored value |
| Database.Database.SetSetting | database.py:176-188 | Succeeds iff the storage does; then the key reads back the new value; users and history unchanged |
| Database.Database.GetUsersForBroadcast | database.py:190-202 | Every matching user exactly once and no one else, as many as get_users_count reports for the same filter |
| Database.Database.SaveBroadcast | database.py:204-214 | One history record is appended when the storage works; nothing changes otherwise |
| Keyboards.AdminPanelKb | keyboards.py:5-13 | Five one-button rows; the user-management button opens page 0 of every user |
| Keyboards.ManageUsersData | keyboards.py:42 | Every manage_users callback starts with "manage_users:", the prefix the handler's filter tests |
| Keyboards.SetRoleData | keyboards.py:33 | Every setrole callback starts with "setrole:", the prefix the handler's filter tests |
| Keyboards.BroadcastRoleData | keyboards.py:19 | Every broadcast_role callback starts with "broadcast_role:", the prefix the handler's filter tests |
| Keyboards.NavRow | keyboards.py:40-46 | The navigation row: Previous when page > 0, then Next when `(page + 1) * PAGE_SIZE < total`; its properties are stated by NavRowButtons |
| Keyboards.FilterRow | keyboards.py:48-51 | The filter row: the "All" tab, then one tab per role; its properties are stated by FilterRowTargets, FilterRowMarks and FilterRowMarkedOnce |
| Keyboards.UserListLayout | keyboards.py:23-54 | The whole user-list keyboard: three rows per user, the navigation row when it is not empty, the filter row, Back; its properties are stated by UserListRows and UserListTail |
| Keyboards.GetBroadcastRolesKb | keyboards.py:15-21 | "All users", then one button per role in order, then cancel, each on its own row |
| Keyboards.RoleButtons | keyboards.py:29-35 | One button per role, in order, each carrying that role's setrole callback |
| Keyboards.UsersBlock | keyboards.py:27-38 | Three rows per listed user |
| Keyboards.RoleTabs | keyboards.py:49-50 | One tab per role, in order, each captioned with the first three letters of the role |
| Keyboards.BuildRoleRow | keyboards.py:28-36 | The loop builds exactly the role row of the layout |
| Keyboards.BuildNavRow | keyboards.py:40-46 | The navigation row of the layout: previous iff page > 0, next iff a later user exists |
| Keyboards.BuildFilterRow | keyboards.py:48-51 | The loop builds exactly the filter row of the layout |
| Keyboards.GetUserListKb | keyboards.py:23-54 | The keyboard equals the user-list layout for those users, page, total and filter |
| Keyboards.UsersBlockAt | keyboards.py:27-38 | Rows 3k, 3k+1 and 3k+2 are the role row, clear-role button and separator of the k-th user |
| Keyboards.UserListRows | keyboards.py:27-38 | The user-list keyboard starts with the per-user block of every listed user |
| Keyboards.UserListTail | keyboards.py:40-53 | After the users come the navigation row if not empty, then the filter tabs, then Back |
| Keyboards.RoleButtonMarked | keyboards.py:32 | A role button is marked iff the user has that role |
| Keyboards.RoleRowTargets | keyboards.py:33 | The j-th role button sets the j-th role for that user on the same page and filter |
| Keyboards.RoleRowMarks | keyboards.py:29-35 | Each role button is marked iff the user holds that button's role |
| Keyboards.RoleRowMarkedOnce | keyboards.py:29-35 | A user with an allowed role has exactly one marked button; one without a role has none |
| Keyboards.ClearRoleTargets | keyboards.py:37 | The clear-role button carries the "NULL" token for that user, page and filter |
| Keyboards.NavRowButtons | keyboards.py:40-46 | The previous and next buttons request pages page-1 and page+1 with the same filter |
| Keyboards.FilterTabMarked | keyboards.py:48 | The "All" tab is marked iff the current filter is "ALL" |
| Keyboards.RoleTabMarked | keyboards.py:50 | A role tab is marked iff the current filter is that role |
| Keyboards.FilterRowTargets | keyboards.py:48-50 | The tabs open page 0 of "ALL" and of each role, in order |
| Keyboards.FilterRowMarks | keyboards.py:48-50 | Each tab is marked iff the current filter is that tab's target |
| Keyboards.FilterRowMarkedOnce | keyboards.py:48-51 | With the filter "ALL" or a role, exactly one tab is marked; with any other filter, none is |
| AdminHandlers.Cleared | handlers/admin_handlers.py:142 | `state.clear()` resets that admin's state and data and leaves other admins' sessions alone |
| AdminHandlers.WithState | handlers/admin_handlers.py:115 | `set_state` changes only the state of that admin and keeps the stored data |
| AdminHandlers.WithListPosition | handlers/admin_handlers.py:108 | `update_data` stores the page and filter, keeps the state and the message, and touches no other admin |
| AdminHandlers.DecodeManageUsers | handlers/admin_handlers.py:61-63 | Decoding succeeds iff there are at least three pieces and the second parses as an integer |
| AdminHandlers.DecodeSetRole | handlers/admin_handlers.py:90-94 | Decoding succeeds iff there are at least five pieces and the second and fourth parse as integers |
| AdminHandlers.DecodeBroadcastRole | handlers/admin_handlers.py:182 | Decoding succeeds iff the data contains ':' |
| AdminHandlers.ManageUsersParts | keyboards.py:42 | A manage_users callback splits into its prefix, the page's text and the filter |
| AdminHandlers.SetRoleParts | keyboards.py:33 | A setrole callback splits into its prefix, user id, role, page and filter |
| AdminHandlers.DecodeManageUsersData | handlers/admin_handlers.py:61-63 | Decoding a manage_users callback gives back the encoded page and filter |
| AdminHandlers.DecodeSetRoleData | handlers/admin_handlers.py:90-94 | Decoding a setrole callback gives back the encoded user, role, page and filter |
| AdminHandlers.DecodeBroadcastRoleData | handlers/admin_handlers.py:182 | Decoding a broadcast_role callback gives back the encoded role |
| AdminHandlers.RerenderReadsSetRoleData | handlers/admin_handlers.py:109 | The re-render reads a setrole callback as page = user id and filter = role token |
| AdminHandlers.RoleButtonDecodes | handlers/admin_handlers.py:90-99 | Pressing the j-th role button of a user asks to set the j-th role for that user, on the page and filter shown |
| AdminHandlers.ClearRoleDecodes | handlers/admin_handlers.py:96-99 | Pressing clear-role asks for the "NULL" token, which the handler turns into no role |
| AdminHandlers.CommandTextTaken | handlers/admin_handlers.py:37 | A text whose first word, after any whitespace, is `/start`, `/help` or `/admin` goes to that command's handler, which main.py:26-27 and this router register before the state handlers |
| AdminHandlers.OtherTextNotTaken | handlers/admin_handlers.py:37 | A text whose first word is any other word, `/administer` or a later command included, reaches the state handler |
| AdminHandlers.NullListViewEmpty | handlers/admin_handlers.py:64-83 | A list rendered for the filter "NULL" has no rows, so the "no users" text replaces the list; the header numbers computed are page p+1 of 1 |
| AdminHandlers.ClearRoleRerendersEmpty | handlers/admin_handlers.py:96-109 | A clear-role press re-renders the list under the filter "NULL": whatever page and filter the button was on, the admin sees no rows, only the "no users" text |
| AdminHandlers.ReportedPages | handlers/admin_handlers.py:68 | The header's page count n is at least 1, and (n-1)·PAGE_SIZE ≤ total < n·PAGE_SIZE |
| AdminHandlers.ReportedPagesVersusCeiling | handlers/admin_handlers.py:68 | The header count is the bare ceiling plus one on multiples of PAGE_SIZE, zero included, and the ceiling otherwise. Against `max(1, ceiling)` it is one too many exactly on positive multiples |
| AdminHandlers.Delivered | handlers/admin_handlers.py:234-241 | The number of successful sends is at most the number of recipients |
| AdminHandlers.DeliveredExtremes | handlers/admin_handlers.py:234-241 | All sends succeeding counts every recipient; none succeeding counts zero |
| AdminHandlers.DeliveredAppend | handlers/admin_handlers.py:234-241 | The success count adds up over consecutive parts of the recipient list |
| AdminHandlers.DeliveredCount | handlers/admin_handlers.py:234-241 | Over a list without repeats the success count is the number of listed ids whose send succeeds, whatever their order |
| AdminHandlers.BroadcastTally | handlers/admin_handlers.py:231-241 | Over any recipient list of `get_users_for_broadcast`, the success count is the number of matching users whose send succeeds |
| AdminHandlers.Dispatch | handlers/admin_handlers.py:232-241 | The loop's sent count is the number of successful sends, and sent + failed is the number of recipients |
| AdminHandlers.ConfirmKb | handlers/admin_handlers.py:213-216 | Confirm, then the same cancel button the role keyboard has |
| AdminHandlers.AdminRouter.constructor | handlers/admin_handlers.py:14-15 | The router starts with the admin ids, the shared database and no session |
| AdminHandlers.AdminRouter.IsAdmin | handlers/admin_handlers.py:20-21 | The `F.from_user.id.in_(ADMINS)` filter: the sender's id is one of ADMINS. Every handler's contract sends a non-admin to `Ignored` with nothing changed |
| AdminHandlers.AdminRouter.Panel | handlers/admin_handlers.py:25-34 | The panel shows role statistics of the current users and the admin keyboard |
| AdminHandlers.AdminRouter.AdminPanel | handlers/admin_handlers.py:37-55 | `/admin` and refresh: ignored for non-admins, otherwise the statistics and the admin keyboard |
| AdminHandlers.AdminRouter.RenderUserList | handlers/admin_handlers.py:59-84 | A malformed callback fails. Otherwise the page number, the header count, a window of the ranking and the matching keyboard are shown |
| AdminHandlers.AdminRouter.ManageUsers | handlers/admin_handlers.py:58-84 | Ignored unless an admin sends a manage_users callback; then the list view for the decoded request |
| AdminHandlers.AdminRouter.SetUserRole | handlers/admin_handlers.py:87-109 | "NULL" clears the role, and the role is saved iff it is accepted and storage works. A failed decode changes nothing. If Telegram refuses the answer, the handler stops after the write. Otherwise the session stores page and filter, and the re-rendered list is the one the positional decode asks for |
| AdminHandlers.AdminRouter.StartSearchUser | handlers/admin_handlers.py:112-117 | An admin enters the search state, data kept |
| AdminHandlers.AdminRouter.ProcessSearchUser | handlers/admin_handlers.py:120-142 | In the search state, a missing or empty text is refused with the state kept. A text whose first word is `/start`, `/help` or `/admin` is left to that command's handler and the state kept. Any other text, whitespace only included, runs the search. When Telegram accepts the answer, the result is shown and the state cleared; when it refuses it, the handler raises and the state is kept |
| AdminHandlers.AdminRouter.StartEditWelcome | handlers/admin_handlers.py:145-150 | An admin enters the welcome-editing state, data kept |
| AdminHandlers.AdminRouter.ProcessEditWelcome | handlers/admin_handlers.py:153-167 | A `/start`, `/help` or `/admin` command is left to its handler and nothing changes. An empty or too long text is refused and nothing changes. Otherwise the welcome setting is written when storage works. The state is cleared when Telegram accepts the answer, whether or not the write succeeded, and kept when it refuses it |
| AdminHandlers.AdminRouter.StartBroadcast | handlers/admin_handlers.py:170-176 | An admin enters role selection and is shown "all", each role, then cancel |
| AdminHandlers.AdminRouter.SelectBroadcastRole | handlers/admin_handlers.py:179-188 | Only in role selection: stores the decoded role and waits for the message; a callback without ':' fails and changes nothing |
| AdminHandlers.AdminRouter.WaitingBroadcastMessage | handlers/admin_handlers.py:191-218 | Only while waiting, and not when the plain text or caption is a `/start`, `/help` or `/admin` command, formatted or not, which its handler takes with the state kept: an empty or too long HTML text is refused. Otherwise the HTML text is stored, the state moves to confirm, and the prompt shows the stored filter's user count |
| AdminHandlers.AdminRouter.ConfirmBroadcast | handlers/admin_handlers.py:221-250 | Only in confirm. If the "sending" notice is refused, nothing is sent and nothing changes. Otherwise every matching user is tried once: sent is the number of matching users whose send succeeds, whatever the order, and failed the rest of the matching users. One history record with the sent count is added when storage works. The state is cleared when the report is shown, and kept when Telegram refuses it |
| AdminHandlers.AdminRouter.CancelBroadcast | handlers/admin_handlers.py:253-258 | An admin's session is cleared from any state |
| AdminHandlers.AdminRouter.BackToAdmin | handlers/admin_handlers.py:261-271 | An admin's session is cleared from any state and the panel is shown |
| UserHandlers.ResolveWelcome | handlers/user_handlers.py:21-23 | Never empty; a stored non-empty text is shown as is; a missing or empty one falls back to the default |
| UserHandlers.StartKb | handlers/user_handlers.py:25-28 | Information, then Contacts, each on its own row |
| UserHandlers.WelcomeAfterInit | handlers/user_handlers.py:21-23 | On a fresh store, the start screen shows the default welcome inserted at initialisation |
| UserHandlers.WelcomeAfterEdit | handlers/user_handlers.py:74-76 | After an admin saves a non-empty welcome text, the start screen shows exactly that text |
| UserHandlers.Recorded | handlers/user_handlers.py:14-15 | A human sender is upserted when storage works; no sender, a bot sender or a failed write leaves the users unchanged |
| UserHandlers.UserRouter.StartScreen | handlers/user_handlers.py:18-30 | `/start`, and likewise `back_to_start`: the stored welcome text or the default, over the start keyboard |
| UserHandlers.SaveUserMiddleware.Call | handlers/user_handlers.py:13-16 | The sender is recorded as `Recorded` says; the handler's answer is returned unchanged; the middleware's own step leaves settings and history unchanged |

## Left out

- Message texts, Markdown/HTML formatting, `edit_text` and `callback.answer` calls, and the `TelegramBadRequest` fallbacks: the model returns views without display text. The row-by-row text of `manage_users` and `process_search_user` is not modelled.
- `asyncio.sleep(0.05)` between broadcast sends: timing only. Telegram delivery is a parameter `deliver: int -> bool`; `false` stands for a send that raises.
- The clock: `datetime.now()` and SQLite's `CURRENT_TIMESTAMP` are both a `now` parameter.
- Database.Database.GetUsers: a read that fails with a storage error returns `[]` in the source; the model's reads always succeed. The same holds for `get_users_count` (0), `search_users` (`[]`), `get_roles_stats` (zeros), `get_setting` (None) and `get_users_for_broadcast` (`[]`).
- Database.Database.Init: creating the tables and indexes is not modelled, because the model's tables always exist. A failing `init` raises at start-up, which is also not modelled.
- Database.NameMatches: SQLite's `LIKE` folds ASCII case and treats `%` and `_` in the query as wildcards. The model uses an exact substring test.
- Database.Database.Rank: ties in `last_seen` are broken in an order SQLite chooses. The model admits any order among ties.
- Text.ParseInt: Python's `int()` also accepts surrounding whitespace, a leading `+`, underscores between digits and non-ASCII digits. The model accepts an optional `-` and ASCII digits. Only hand-made callback strings are affected.
- Database.PlanSearch: `str.isdigit` is true for some non-ASCII digits. The model sends such a query to the name search.
- `PAGE_SIZE` is read from the environment with default 10; the model fixes it at 10. `ADMIN_IDS` parsing and the missing-token checks of config.py are left out; the admin ids are a constructor argument.
- main.py is not part of this model. It registers the middleware for messages only and routes users before admins. Here the middleware is a method any driver calls before a handler.
- UserHandlers.SaveUserMiddleware.Call: main.py:23 registers it as an inner message middleware. It therefore runs only once some message handler's filters have accepted the message: an ordinary user's text that no handler accepts is never recorded, and neither is a callback. The driver that calls `Call` is trusted to respect this. The handler is also a pure function here. So `settings == old(settings)` describes the middleware's own step only, not a handler such as `process_edit_welcome` that writes settings inside the same call.
- AdminHandlers.TakenByCommand: the model reads the bare command word only. A command addressed to this bot by name (`/admin@botname`) is also taken by its handler, and so is a command in a photo's caption. In the model the first reaches the state handler as ordinary text. For the second, the search and welcome handlers see no text and refuse it, while the broadcast handler, whose plain text is the caption, leaves it to the command as the source does. In every case the state is kept.
- AdminHandlers.AdminRouter: the FSM storage is keyed by the admin's user id. aiogram's default key is the pair (chat, user), so one admin in two chats has two sessions in the source and one in the model.
- AdminHandlers.AdminRouter.ProcessSearchUser: whether Telegram accepts the answer is a parameter; the model does not work out from the rows whether their Markdown would be refused. The same holds for `SetUserRole`, `ProcessEditWelcome` and the two edits of `ConfirmBroadcast`. Other handlers answer after their state change or clear the state before answering. A refused answer there changes nothing the model tracks, so it is not a parameter.
- Each handler module opens its own `Database()` on the same file; the model shares one `Database` object.
- Concurrent handlers for the same admin and transactions across connections are not modelled. Each method runs to completion.
- The static screens `help_command`, `show_info`, `show_contacts` and `none_callback` are not modelled: they read and write no state.
