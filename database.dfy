/**
 * The user/settings repository (database.py). The three SQLite tables become
 * the three fields of class `Database`: a map from user id to the user's
 * columns, a map from settings key to value, and the append-only broadcast
 * history. Reads are functions or methods without `modifies`; every write
 * takes `storageOk`, the outcome of the storage call (false stands for the
 * exception the source logs and turns into `False`), and `now`, the clock
 * reading `datetime.now()` would give.
 */
module Database {
  import opened Wrappers
  import opened Text
  import opened Config

  /** The columns of one `users` row, keyed by its id. */
  datatype UserRecord = UserRecord(
    username: Option<string>,
    fullName: string,
    role: Option<string>,
    createdAt: int,
    lastSeen: int)

  /** A row of `SELECT id, full_name, username, role FROM users`. */
  datatype UserRow = UserRow(id: int, fullName: string, username: Option<string>, role: Option<string>)

  /** A `settings` row. */
  datatype Setting = Setting(value: string, updatedAt: int)

  /** A `broadcast_history` row (the autoincrement id is the position in the sequence). */
  datatype BroadcastRecord = BroadcastRecord(
    adminId: int,
    roleFilter: Option<string>,
    message: Option<string>,
    recipientsCount: int,
    createdAt: int)

  type Users = map<int, UserRecord>

  // ---------------------------------------------------------------------
  // Roles and the shared filter rule
  // ---------------------------------------------------------------------

  /** Python falsiness of an optional string: `None` or `""`. */
  predicate IsFalsy(role: Option<string>)
  {
    role == None || role == Some("")
  }

  /**
   * `set_role`'s guard: a falsy role is written unchecked, any other must be
   * allowed. So the tokens "NULL" and "ALL" are never stored as roles, and a
   * stored non-empty role is always one of ALLOWED_ROLES.
   */
  predicate RoleAccepted(role: Option<string>)
    ensures RoleAccepted(role) ==> role != Some(NullToken) && role != Some(AllFilter)
    ensures RoleAccepted(role) && !IsFalsy(role) ==> role.value in AllowedRoles()
  {
    ReservedNotRoles();
    IsFalsy(role) || role.value in AllowedRoles()
  }

  /**
   * `role and role != "ALL"`: a filter restricts the query only when it is
   * truthy and not "ALL"; every allowed role restricts.
   */
  predicate FilterActive(f: Option<string>)
    ensures FilterActive(f) <==> !IsFalsy(f) && f != Some(AllFilter)
    ensures f.Some? && f.value in AllowedRoles() ==> FilterActive(f)
  {
    ReservedNotRoles();
    f.Some? && f.value != "" && f.value != AllFilter
  }

  /**
   * `WHERE role=?` when the filter is active; no condition otherwise. A user
   * whose role `set_role` accepted never matches the filter "NULL".
   */
  predicate Matches(u: UserRecord, f: Option<string>)
    ensures !FilterActive(f) ==> Matches(u, f)
    ensures RoleAccepted(u.role) && f == Some(NullToken) ==> !Matches(u, f)
  {
    ReservedNotRoles();
    FilterActive(f) ==> u.role == f
  }

  function Matching(users: Users, f: Option<string>): set<int>
  {
    set id | id in users && Matches(users[id], f)
  }

  /** `SELECT COUNT(*)` under the filter. */
  function Count(users: Users, f: Option<string>): nat
  {
    |Matching(users, f)|
  }

  /** A non-empty set has a member (stated as an implication so no caller's facts can clash with it). */
  lemma HasMember(s: set<int>)
    ensures s != {} ==> exists x :: x in s
  {
    if forall x :: x !in s {
      assert s == {};
    }
  }

  lemma {:induction false} SubsetCard(a: set<int>, b: set<int>)
    requires a <= b
    ensures |a| <= |b|
    decreases |a|
  {
    if a != {} {
      HasMember(a);
      var x :| x in a;
      SubsetCard(a - {x}, b - {x});
    }
  }

  /** An inactive filter counts every user; an active one never counts more. */
  lemma CountBounds(users: Users, f: Option<string>)
    ensures Count(users, f) <= |users|
    ensures !FilterActive(f) ==> Count(users, f) == |users|
  {
    SubsetCard(Matching(users, f), users.Keys);
    if !FilterActive(f) {
      forall id ensures id in Matching(users, f) <==> id in users.Keys {}
      assert Matching(users, f) == users.Keys;
      assert |users.Keys| == |users|;
    }
  }

  /** `get_users`, `get_users_count` and `get_users_for_broadcast` share one rule: "", "ALL" and None all mean "everyone". */
  lemma InactiveFiltersAgree(users: Users, f: Option<string>)
    requires !FilterActive(f)
    ensures Matching(users, f) == Matching(users, None) == users.Keys
    ensures Matching(users, f) == Matching(users, Some(AllFilter)) == Matching(users, Some(""))
  {
    forall id ensures id in Matching(users, f) <==> id in users.Keys {}
    forall id ensures id in Matching(users, None) <==> id in users.Keys {}
    forall id ensures id in Matching(users, Some(AllFilter)) <==> id in users.Keys {}
    forall id ensures id in Matching(users, Some("")) <==> id in users.Keys {}
  }

  // ---------------------------------------------------------------------
  // Writes on the users table
  // ---------------------------------------------------------------------

  /**
   * The upsert of `add_user`: a new id gets a row with no role and
   * `created_at = now`; an existing id gets new username, full name and
   * last-seen time and keeps its role and creation time.
   */
  function Upserted(users: Users, id: int, username: Option<string>, fullName: string, now: int): (r: Users)
    ensures r.Keys == users.Keys + {id}
    ensures r[id].username == username && r[id].fullName == fullName && r[id].lastSeen == now
    ensures id in users ==> r[id].role == users[id].role && r[id].createdAt == users[id].createdAt
    ensures id !in users ==> r[id].role == None && r[id].createdAt == now
    ensures forall other :: other in users && other != id ==> r[other] == users[other]
  {
    if id in users then users[id := users[id].(username := username, fullName := fullName, lastSeen := now)]
    else users[id := UserRecord(username, fullName, None, now, now)]
  }

  /** Upserting the same identity twice changes only the last-seen time the second time. */
  lemma UpsertTwice(users: Users, id: int, username: Option<string>, fullName: string, t1: int, t2: int)
    ensures var once := Upserted(users, id, username, fullName, t1);
            Upserted(once, id, username, fullName, t2) == once[id := once[id].(lastSeen := t2)]
  {
  }

  /** `UPDATE users SET role=? WHERE id=?`: no row changes when the id is unknown. */
  function WithRole(users: Users, id: int, role: Option<string>): (r: Users)
    ensures r.Keys == users.Keys
    ensures id in users ==> r[id] == users[id].(role := role)
    ensures id !in users ==> r == users
    ensures forall other :: other in users && other != id ==> r[other] == users[other]
  {
    if id in users then users[id := users[id].(role := role)] else users
  }

  /** Every stored role passed `set_role`'s guard. */
  predicate RolesValid(users: Users)
  {
    forall id :: id in users ==> RoleAccepted(users[id].role)
  }

  /**
   * The filter "NULL" selects no stored user: every stored role passed
   * `set_role`'s guard, which never lets the token "NULL" through.
   */
  lemma NullFilterListsNobody(users: Users)
    requires RolesValid(users)
    ensures Matching(users, Some(NullToken)) == {}
    ensures Count(users, Some(NullToken)) == 0
  {
    forall id | id in users
      ensures !Matches(users[id], Some(NullToken))
    {
      assert RoleAccepted(users[id].role);
    }
  }

  /** `rows` is the page at `offset` of some ranking of the users matching `f`. */
  ghost predicate IsPage(users: Users, f: Option<string>, offset: int, limit: nat, rows: seq<UserRow>)
  {
    exists order :: IsRanking(users, f, order) && rows == Rows(users, Window(order, offset, limit))
  }

  /** Every page under the filter "NULL" is empty. */
  lemma NullPageEmpty(users: Users, offset: int, limit: nat, rows: seq<UserRow>)
    requires RolesValid(users)
    requires IsPage(users, Some(NullToken), offset, limit, rows)
    ensures rows == []
  {
    var order :| IsRanking(users, Some(NullToken), order) && rows == Rows(users, Window(order, offset, limit));
    NullRankingEmpty(users, order);
  }

  /** Hence a ranking under the filter "NULL" is empty. */
  lemma NullRankingEmpty(users: Users, order: seq<int>)
    requires RolesValid(users)
    requires IsRanking(users, Some(NullToken), order)
    ensures order == []
  {
    NullFilterListsNobody(users);
    RankingLength(users, Some(NullToken), order);
  }

  /** After a role is set on a known user, every ordering of that role's users lists the user exactly once. */
  lemma AssignedUserListedOnce(users: Users, id: int, r: string, order: seq<int>)
    requires id in users && r in AllowedRoles()
    requires IsRanking(WithRole(users, id, Some(r)), Some(r), order)
    ensures exists k :: 0 <= k < |order| && order[k] == id
    ensures forall k, k' :: 0 <= k < k' < |order| ==> !(order[k] == id && order[k'] == id)
  {
    ReservedNotRoles();
    assert id in Matching(WithRole(users, id, Some(r)), Some(r));
  }

  // ---------------------------------------------------------------------
  // ORDER BY last_seen DESC LIMIT ? OFFSET ?
  // ---------------------------------------------------------------------

  predicate Distinct(ids: seq<int>)
  {
    forall i, j :: 0 <= i < j < |ids| ==> ids[i] != ids[j]
  }

  /**
   * `order` lists the users matching `f`, each once, most recently seen first.
   * Users with equal last-seen times may come in any order, as in SQLite.
   */
  predicate IsRanking(users: Users, f: Option<string>, order: seq<int>)
  {
    Distinct(order) &&
    (forall i :: 0 <= i < |order| ==> order[i] in Matching(users, f)) &&
    (forall id :: id in Matching(users, f) ==> id in order) &&
    (forall i, j :: 0 <= i < j < |order| ==> users[order[i]].lastSeen >= users[order[j]].lastSeen)
  }

  /** How many rows `LIMIT limit OFFSET offset` keeps of `n`; SQLite reads a negative offset as 0. */
  function WindowSize(n: nat, offset: int, limit: nat): nat
  {
    var rest := if offset <= 0 then n else if offset >= n then 0 else n - offset;
    if rest <= limit then rest else limit
  }

  /** `LIMIT limit OFFSET offset` applied to `order`. */
  function Window(order: seq<int>, offset: int, limit: nat): (w: seq<int>)
    ensures |w| == WindowSize(|order|, offset, limit)
    ensures |w| <= limit
    ensures forall k :: 0 <= k < |w| ==> w[k] == order[k + (if offset <= 0 then 0 else offset)]
  {
    var lo := if offset <= 0 then 0 else if offset >= |order| then |order| else offset;
    var hi := if lo + limit >= |order| then |order| else lo + limit;
    order[lo..hi]
  }

  lemma {:induction false} DistinctCard(s: seq<int>)
    requires Distinct(s)
    ensures |set x | x in s| == |s|
  {
    if s != [] {
      DistinctCard(s[1..]);
      assert (set x | x in s) == (set x | x in s[1..]) + {s[0]};
    }
  }

  /** An ordering lists exactly as many users as the count reports. */
  lemma RankingLength(users: Users, f: Option<string>, order: seq<int>)
    requires IsRanking(users, f, order)
    ensures |order| == Count(users, f)
  {
    DistinctCard(order);
    forall x ensures x in (set x | x in order) <==> x in Matching(users, f) {}
    assert (set x | x in order) == Matching(users, f);
  }

  /** Every row of a page matches the filter, and the page holds exactly the rows the window admits. */
  lemma PageRows(users: Users, f: Option<string>, order: seq<int>, offset: int, limit: nat)
    requires IsRanking(users, f, order)
    ensures |Window(order, offset, limit)| == WindowSize(Count(users, f), offset, limit) <= limit
    ensures forall id :: id in Window(order, offset, limit) ==> id in users && Matches(users[id], f)
  {
    RankingLength(users, f, order);
  }

  function RowOf(users: Users, id: int): UserRow
    requires id in users
  {
    UserRow(id, users[id].fullName, users[id].username, users[id].role)
  }

  function Rows(users: Users, ids: seq<int>): (rows: seq<UserRow>)
    requires forall k :: 0 <= k < |ids| ==> ids[k] in users
    ensures |rows| == |ids|
    ensures forall k :: 0 <= k < |ids| ==> rows[k] == RowOf(users, ids[k])
  {
    seq(|ids|, k requires 0 <= k < |ids| => RowOf(users, ids[k]))
  }

  /** Among finitely many known users one was seen last. */
  lemma {:induction false} MostRecentExists(users: Users, s: set<int>)
    requires s != {} && s <= users.Keys
    ensures exists x :: x in s && forall y :: y in s ==> users[y].lastSeen <= users[x].lastSeen
    decreases |s|
  {
    HasMember(s);
    var z :| z in s;
    if s != {z} {
      MostRecentExists(users, s - {z});
      var x :| x in s - {z} && forall y :: y in s - {z} ==> users[y].lastSeen <= users[x].lastSeen;
      if users[z].lastSeen <= users[x].lastSeen {
        assert forall y :: y in s ==> users[y].lastSeen <= users[x].lastSeen;
      } else {
        assert forall y :: y in s ==> users[y].lastSeen <= users[z].lastSeen;
      }
    }
  }

  /** `ids` is some `limit` (or all, if fewer) distinct members of `s`, in no particular order. */
  predicate IsSample(ids: seq<int>, s: set<int>, limit: nat)
  {
    Distinct(ids) &&
    (forall k :: 0 <= k < |ids| ==> ids[k] in s) &&
    |ids| == (if |s| <= limit then |s| else limit)
  }

  /** The rows a query without ORDER BY hands back: up to `limit` members of `s`, in an order SQLite chooses. */
  method Pick(s: set<int>, limit: nat) returns (ids: seq<int>)
    ensures IsSample(ids, s, limit)
    ensures |s| <= limit ==> forall x :: x in s ==> x in ids
  {
    var remaining := s;
    ids := [];
    while remaining != {} && |ids| < limit
      invariant remaining <= s
      invariant Distinct(ids)
      invariant forall k :: 0 <= k < |ids| ==> ids[k] in s && ids[k] !in remaining
      invariant forall x :: x in s ==> x in ids || x in remaining
      invariant |ids| + |remaining| == |s|
      invariant |ids| <= limit
      decreases |remaining|
    {
      HasMember(remaining);
      var x :| x in remaining;
      ids := ids + [x];
      remaining := remaining - {x};
    }
  }

  // ---------------------------------------------------------------------
  // search_users
  // ---------------------------------------------------------------------

  /** `query.strip()[:MAX_SEARCH_LENGTH]`. */
  function NormalizeQuery(query: string): (q: string)
    ensures |q| <= MaxSearchLength
  {
    Take(Strip(query), MaxSearchLength)
  }

  /** Which query `search_users` runs for a raw query. */
  datatype SearchPlan = NoSearch | ById(id: nat) | ByName(q: string)

  function PlanSearch(query: string): (p: SearchPlan)
    ensures p == NoSearch <==> NormalizeQuery(query) == ""
    ensures p.ById? <==> IsDigits(NormalizeQuery(query))
    ensures p.ById? ==> ParseInt(NormalizeQuery(query)) == Some(p.id)
    ensures p.ByName? ==> p.q == NormalizeQuery(query)
  {
    var q := NormalizeQuery(query);
    if q == "" then NoSearch
    else if IsDigits(q) then ById(DigitsValue(q))
    else ByName(q)
  }

  /** A query strips to nothing exactly when it is whitespace only; then no search runs. */
  lemma PlanSearchEmpty(query: string)
    ensures PlanSearch(query) == NoSearch <==> forall k :: 0 <= k < |query| ==> IsSpace(query[k])
  {
    StripEmpty(query);
  }

  /** A name search looks for a non-empty, non-numeric query of at most MAX_SEARCH_LENGTH characters. */
  lemma PlanSearchByName(query: string)
    requires PlanSearch(query).ByName?
    ensures var q := PlanSearch(query).q;
            0 < |q| <= MaxSearchLength && !IsDigits(q) && StartsWith(Strip(query), q)
  {
  }

  /** `full_name LIKE %q% OR username LIKE %q%` as a substring test; a NULL username never matches. */
  predicate NameMatches(u: UserRecord, q: string)
  {
    Contains(u.fullName, q) || (u.username.Some? && Contains(u.username.value, q))
  }

  function NameMatching(users: Users, q: string): set<int>
  {
    set id | id in users && NameMatches(users[id], q)
  }

  /**
   * What `search_users(query)` may return: nothing for a query that strips
   * to "", the one user with that id for an all-digit query, otherwise up to
   * 20 users whose full name or username contains the query, in an order
   * SQLite chooses.
   */
  ghost predicate IsSearchResult(users: Users, query: string, rows: seq<UserRow>)
  {
    match PlanSearch(query)
    case NoSearch => rows == []
    case ById(id) => rows == if id in users then [RowOf(users, id)] else []
    case ByName(q) =>
      exists ids :: IsSample(ids, NameMatching(users, q), SearchResultLimit) && rows == Rows(users, ids)
  }

  /**
   * A search returns at most 20 rows; none for a whitespace-only query; at
   * most one, carrying the queried id, for an all-digit query; and only
   * users whose name or username contains the query otherwise.
   */
  lemma SearchResultBounds(users: Users, query: string, rows: seq<UserRow>)
    requires IsSearchResult(users, query, rows)
    ensures |rows| <= SearchResultLimit
    ensures (forall k :: 0 <= k < |query| ==> IsSpace(query[k])) ==> rows == []
    ensures PlanSearch(query).ById? ==>
              |rows| <= 1 && forall k :: 0 <= k < |rows| ==> rows[k].id == PlanSearch(query).id
    ensures PlanSearch(query).ByName? ==>
              forall k :: 0 <= k < |rows| ==> rows[k].id in users && NameMatches(users[rows[k].id], PlanSearch(query).q)
  {
    PlanSearchEmpty(query);
    match PlanSearch(query)
    case NoSearch =>
    case ById(id) =>
    case ByName(q) =>
      var ids :| IsSample(ids, NameMatching(users, q), SearchResultLimit) && rows == Rows(users, ids);
      assert |rows| == |ids|;
  }

  /** `SELECT value FROM settings WHERE key=?`, None when there is no row. */
  function SettingValue(settings: map<string, Setting>, key: string): (v: Option<string>)
    ensures v.Some? <==> key in settings
  {
    if key in settings then Some(settings[key].value) else None
  }

  // ---------------------------------------------------------------------
  // get_roles_stats
  // ---------------------------------------------------------------------

  /** The dictionary `get_roles_stats` builds: each allowed role's count, and the overall total under "all". */
  ghost predicate IsRolesStats(users: Users, stats: map<string, int>)
  {
    (forall r :: r in stats <==> r in AllowedRoles() || r == AllStatsKey) &&
    (forall r :: r in AllowedRoles() ==> stats[r] == Count(users, Some(r))) &&
    AllStatsKey in stats && stats[AllStatsKey] == |users|
  }

  /** No role's count exceeds the overall total. */
  lemma RolesStatsBounded(users: Users, stats: map<string, int>)
    requires IsRolesStats(users, stats)
    ensures forall r :: r in stats ==> 0 <= stats[r] <= stats[AllStatsKey]
  {
    forall r | r in stats
      ensures 0 <= stats[r] <= stats[AllStatsKey]
    {
      if r != AllStatsKey {
        CountBounds(users, Some(r));
      }
    }
  }

  // ---------------------------------------------------------------------
  // Settings
  // ---------------------------------------------------------------------

  /** A successful `set_setting(k, v)` makes `get_setting(k)` return v and leaves other keys alone. */
  lemma SetThenGet(settings: map<string, Setting>, key: string, value: string, now: int, other: string)
    requires other != key
    ensures SettingValue(settings[key := Setting(value, now)], key) == Some(value)
    ensures SettingValue(settings[key := Setting(value, now)], other) == SettingValue(settings, other)
  {
  }

  /** `INSERT OR IGNORE` of the default welcome text in `init`. */
  function WithDefaultWelcome(settings: map<string, Setting>, now: int): (r: map<string, Setting>)
    ensures WelcomeKey in r && r.Keys == settings.Keys + {WelcomeKey}
    ensures forall k :: k in settings ==> r[k] == settings[k]
    ensures WelcomeKey !in settings ==> r[WelcomeKey] == Setting(DefaultWelcome, now)
  {
    if WelcomeKey in settings then settings else settings[WelcomeKey := Setting(DefaultWelcome, now)]
  }

  /** Running `init` again never overwrites a stored welcome text, edited or not. */
  lemma InitKeepsWelcome(settings: map<string, Setting>, t1: int, t2: int)
    ensures WithDefaultWelcome(WithDefaultWelcome(settings, t1), t2) == WithDefaultWelcome(settings, t1)
    ensures WelcomeKey in settings ==> SettingValue(WithDefaultWelcome(settings, t2), WelcomeKey) == SettingValue(settings, WelcomeKey)
  {
  }

  // ---------------------------------------------------------------------
  // The repository object
  // ---------------------------------------------------------------------

  class Database {
    var users: Users
    var settings: map<string, Setting>
    var history: seq<BroadcastRecord>

    ghost predicate Valid()
      reads this
    {
      RolesValid(users)
    }

    /** A store whose tables exist and are empty. */
    constructor ()
      ensures Valid()
      ensures users == map[] && settings == map[] && history == []
    {
      users, settings, history := map[], map[], [];
    }

    /** `init`: the tables already exist in the model; only the default welcome text is inserted, if missing. */
    method Init(now: int)
      requires Valid()
      modifies this
      ensures Valid()
      ensures settings == WithDefaultWelcome(old(settings), now)
      ensures users == old(users) && history == old(history)
    {
      settings := WithDefaultWelcome(settings, now);
    }

    method AddUser(userId: int, username: Option<string>, fullName: string, now: int, storageOk: bool)
      returns (ok: bool)
      requires Valid()
      modifies this
      ensures Valid()
      ensures ok == storageOk
      ensures users == if ok then Upserted(old(users), userId, username, fullName, now) else old(users)
      ensures settings == old(settings) && history == old(history)
    {
      ok := storageOk;
      if ok {
        users := Upserted(users, userId, username, fullName, now);
      }
    }

    /**
     * `set_role`: a truthy role outside ALLOWED_ROLES is refused before the
     * write; a falsy one (None or "") is written as it is. An unknown id is
     * not an error: the UPDATE matches no row and the call still succeeds.
     */
    method SetRole(userId: int, role: Option<string>, storageOk: bool) returns (ok: bool)
      requires Valid()
      modifies this
      ensures Valid()
      ensures ok <==> RoleAccepted(role) && storageOk
      ensures users == if ok then WithRole(old(users), userId, role) else old(users)
      ensures settings == old(settings) && history == old(history)
    {
      if !RoleAccepted(role) {
        return false;
      }
      ok := storageOk;
      if ok {
        users := WithRole(users, userId, role);
      }
    }

    /** The matching users, most recently seen first (SQLite's `ORDER BY last_seen DESC`). */
    method Rank(f: Option<string>) returns (order: seq<int>)
      ensures IsRanking(users, f, order)
    {
      var remaining := Matching(users, f);
      order := [];
      while remaining != {}
        invariant remaining <= Matching(users, f)
        invariant Distinct(order)
        invariant forall i :: 0 <= i < |order| ==> order[i] in Matching(users, f) && order[i] !in remaining
        invariant forall id :: id in Matching(users, f) ==> id in order || id in remaining
        invariant forall i, j :: 0 <= i < j < |order| ==> users[order[i]].lastSeen >= users[order[j]].lastSeen
        invariant forall i, id :: 0 <= i < |order| && id in remaining ==> users[order[i]].lastSeen >= users[id].lastSeen
        decreases |remaining|
      {
        MostRecentExists(users, remaining);
        var top :| top in remaining && forall y :: y in remaining ==> users[y].lastSeen <= users[top].lastSeen;
        order := order + [top];
        remaining := remaining - {top};
      }
    }

    /** `get_users(offset, limit, role)`: one page of the matching users, newest activity first. */
    method GetUsers(offset: int, limit: nat, role: Option<string>) returns (rows: seq<UserRow>)
      ensures exists order :: IsRanking(users, role, order) && rows == Rows(users, Window(order, offset, limit))
      ensures |rows| == WindowSize(Count(users, role), offset, limit)
    {
      var order := Rank(role);
      RankingLength(users, role, order);
      rows := Rows(users, Window(order, offset, limit));
    }

    /** `get_users_count(role)`. */
    function GetUsersCount(role: Option<string>): (n: nat)
      reads this
      ensures n <= |users|
      ensures !FilterActive(role) ==> n == |users|
    {
      CountBounds(users, role);
      Count(users, role)
    }

    /** `search_users(query)`. */
    method SearchUsers(query: string) returns (rows: seq<UserRow>)
      ensures IsSearchResult(users, query, rows)
    {
      match PlanSearch(query)
      case NoSearch =>
        rows := [];
      case ById(id) =>
        rows := if id in users then [RowOf(users, id)] else [];
      case ByName(q) =>
        var ids := Pick(NameMatching(users, q), SearchResultLimit);
        rows := Rows(users, ids);
    }

    /** `get_roles_stats()`: a count per allowed role, filled in one role at a time, then the overall total. */
    method GetRolesStats() returns (stats: map<string, int>)
      ensures IsRolesStats(users, stats)
    {
      var roles := AllowedRoles();
      RolesDistinct();
      stats := map r | r in roles :: 0;
      var i := 0;
      while i < |roles|
        invariant 0 <= i <= |roles|
        invariant forall r :: r in stats <==> r in roles
        invariant forall k :: 0 <= k < i ==> stats[roles[k]] == Count(users, Some(roles[k]))
      {
        var role := roles[i];
        stats := stats[role := Count(users, Some(role))];
        i := i + 1;
      }
      ReservedNotRoles();
      CountBounds(users, None);
      stats := stats[AllStatsKey := Count(users, None)];
    }

    /** `get_setting(key)`. */
    function GetSetting(key: string): (v: Option<string>)
      reads this
      ensures v.Some? <==> key in settings
      ensures v.Some? ==> v.value == settings[key].value
    {
      SettingValue(settings, key)
    }

    /** `set_setting(key, value)`: an upsert stamped with `now`. */
    method SetSetting(key: string, value: string, now: int, storageOk: bool) returns (ok: bool)
      requires Valid()
      modifies this
      ensures Valid()
      ensures ok == storageOk
      ensures settings == if ok then old(settings)[key := Setting(value, now)] else old(settings)
      ensures ok ==> GetSetting(key) == Some(value)
      ensures users == old(users) && history == old(history)
    {
      ok := storageOk;
      if ok {
        settings := settings[key := Setting(value, now)];
      }
    }

    /** `get_users_for_broadcast(role)`: every matching id, unpaginated, in no particular order. */
    method GetUsersForBroadcast(role: Option<string>) returns (ids: seq<int>)
      ensures Distinct(ids)
      ensures forall k :: 0 <= k < |ids| ==> ids[k] in users && Matches(users[ids[k]], role)
      ensures forall id :: id in users && Matches(users[id], role) ==> id in ids
      ensures |ids| == Count(users, role) == GetUsersCount(role)
    {
      ids := Pick(Matching(users, role), Count(users, role));
    }

    /** `save_broadcast(...)`: appends one history row; a storage failure is logged and swallowed. */
    method SaveBroadcast(adminId: int, roleFilter: Option<string>, message: Option<string>,
                         recipientsCount: int, now: int, storageOk: bool)
      requires Valid()
      modifies this
      ensures Valid()
      ensures history == if storageOk
                         then old(history) + [BroadcastRecord(adminId, roleFilter, message, recipientsCount, now)]
                         else old(history)
      ensures users == old(users) && settings == old(settings)
    {
      if storageOk {
        history := history + [BroadcastRecord(adminId, roleFilter, message, recipientsCount, now)];
      }
    }
  }
}
