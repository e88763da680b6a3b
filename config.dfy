/**
 * The configuration values the bot reads at start-up (config.py), taken as
 * constants. `PAGE_SIZE` comes from the environment with 10 as its default;
 * the model fixes it at the default.
 */
module Config {

  /** Users shown per page of the user-management list. */
  const PageSize: int := 10

  /** Longest welcome or broadcast text an admin may submit. */
  const MaxMessageLength: int := 4096

  /** Longest search query kept after stripping. */
  const MaxSearchLength: int := 100

  /** Most rows a name search returns (the `LIMIT 20` of the search query). */
  const SearchResultLimit: int := 20

  /** The fixed role enumeration, in display order. */
  function AllowedRoles(): seq<string> { ["Студент", "Абітурієнт", "Викладач", "Батько"] }

  /** The settings key of the welcome text. */
  const WelcomeKey: string := "welcome_message"

  /** The welcome text inserted at initialisation and used as the fallback. */
  const DefaultWelcome: string := "Ласкаво просимо до бота! 🎓"

  /** Pseudo-role meaning "every user" in filters and broadcast choices. */
  const AllFilter: string := "ALL"

  /** Role token a clear-role button carries instead of a role. */
  const NullToken: string := "NULL"

  /** Key of the overall total in the role statistics. */
  const AllStatsKey: string := "all"

  /** No role is listed twice. */
  lemma RolesDistinct()
    ensures |AllowedRoles()| == 4
    ensures forall i, j :: 0 <= i < j < |AllowedRoles()| ==> AllowedRoles()[i] != AllowedRoles()[j]
  {
    var rs := AllowedRoles();
    forall i, j | 0 <= i < j < |rs| ensures rs[i] != rs[j] {
      assert |rs[0]| == 7 && |rs[1]| == 10 && |rs[2]| == 8 && |rs[3]| == 6;
      assert rs[0][0] != rs[2][0];
    }
  }

  /** The reserved tokens and the empty string are not roles. */
  lemma ReservedNotRoles()
    ensures AllFilter !in AllowedRoles() && NullToken !in AllowedRoles()
    ensures AllStatsKey !in AllowedRoles() && "" !in AllowedRoles()
  {
    var rs := AllowedRoles();
    assert |rs[0]| == 7 && |rs[1]| == 10 && |rs[2]| == 8 && |rs[3]| == 6;
  }

  /**
   * The facts about the role names the rest of the model relies on: none is
   * one of the reserved tokens, none holds the callback separator ':', none
   * starts like a mark, and each has at least the three characters a filter
   * tab shows.
   */
  lemma RoleNames()
    ensures |AllowedRoles()| == 4
    ensures forall r :: r in AllowedRoles() ==>
              |r| >= 3 && r != AllFilter && r != NullToken && r != AllStatsKey && ':' !in r &&
              r[0] != '✅' && r[0] != '🔹'
  {
    var rs := AllowedRoles();
    forall r | r in rs
      ensures |r| >= 3 && r != AllFilter && r != NullToken && r != AllStatsKey && ':' !in r
      ensures r[0] != '✅' && r[0] != '🔹'
    {
      assert r == rs[0] || r == rs[1] || r == rs[2] || r == rs[3];
    }
  }
}
