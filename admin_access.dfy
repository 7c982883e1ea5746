/** `check_admin_access` and its two in-memory caches (ADMIN_IDS, TESTER_IDS),
    and `get_main_menu`, which decides whether a user sees the admin row.
    The users table is a map from user id to the columns these rules read. */
module AdminAccess {
  import opened Common
  import opened Text

  /** `name and name.lower() == ADMIN_USERNAME.lower()` */
  predicate NameMatches(name: Option<string>, adminUsername: string) {
    NonEmpty(name) && Lower(name.value) == Lower(adminUsername)
  }

  /** Which branch of `check_admin_access` answers. */
  datatype Grant = CachedAdmin | AdminByArgument | Tester | AdminByStoredName | Denied

  /** The branch taken: the admin cache first, then the handle passed in, then
      the stored row's tester flag, then the stored handle. */
  function Decide(adminIds: set<int>, adminUsername: string, userId: int,
                  username: Option<string>, users: map<int, UserRow>): Grant
  {
    if userId in adminIds then CachedAdmin
    else if NameMatches(username, adminUsername) then AdminByArgument
    else if userId in users && users[userId].isTester then Tester
    else if userId in users && NameMatches(users[userId].username, adminUsername) then AdminByStoredName
    else Denied
  }

  /** Access is granted exactly when one of the four sources vouches for the
      user, whatever their order. */
  lemma GrantedIff(adminIds: set<int>, adminUsername: string, userId: int,
                   username: Option<string>, users: map<int, UserRow>)
    ensures Decide(adminIds, adminUsername, userId, username, users) != Denied <==>
      || userId in adminIds
      || NameMatches(username, adminUsername)
      || (userId in users && (users[userId].isTester
                              || NameMatches(users[userId].username, adminUsername)))
  {
  }

  /** A user recorded as a tester whose stored handle is also the admin handle
      is admitted as a tester, so the admin cache does not learn their id. */
  lemma TesterCheckComesFirst(adminIds: set<int>, adminUsername: string, userId: int,
                              username: Option<string>, users: map<int, UserRow>)
    requires userId !in adminIds && !NameMatches(username, adminUsername)
    requires userId in users && users[userId].isTester
    ensures Decide(adminIds, adminUsername, userId, username, users) == Tester
  {
  }

  /** The comparison ignores ASCII case on both sides: a handle matches exactly
      when it is non-empty and its folded form matches the folded admin handle;
      two handles with the same folding match alike; a missing or empty handle
      never matches, whatever the admin handle is. */
  lemma NameMatchIgnoresCase(h: string, h2: string, a: string)
    ensures NameMatches(Some(h), a) <==> h != "" && NameMatches(Some(Lower(h)), Lower(a))
    ensures Lower(h) == Lower(h2) ==> (NameMatches(Some(h), a) <==> NameMatches(Some(h2), a))
    ensures !NameMatches(Some(""), a) && !NameMatches(None, a)
  {
  }

  class AccessCache {
    /** ADMIN_IDS: ids already confirmed as admins. */
    var adminIds: set<int>
    /** TESTER_IDS: ids confirmed as testers (recorded, never consulted). */
    var testerIds: set<int>
    /** ADMIN_USERNAME after `lstrip('@')`. */
    const adminUsername: string

    /** The start-up state: ADMIN_ID, when non-zero, is the only cached admin. */
    constructor (adminId: int, configuredUsername: string)
      ensures adminUsername == StripLeadingAt(configuredUsername)
      ensures adminIds == (if adminId != 0 then {adminId} else {})
      ensures testerIds == {}
    {
      adminUsername := StripLeadingAt(configuredUsername);
      adminIds := if adminId != 0 then {adminId} else {};
      testerIds := {};
    }

    /** `check_admin_access(user_id, username)`. The stored row is consulted only
        after the cache and the handle passed in have failed. */
    method CheckAdminAccess(userId: int, username: Option<string>, users: map<int, UserRow>)
      returns (granted: bool)
      modifies this
      ensures var g := Decide(old(adminIds), adminUsername, userId, username, users);
              && (granted <==> g != Denied)
              && adminIds == old(adminIds) + (if g in {AdminByArgument, AdminByStoredName} then {userId} else {})
              && testerIds == old(testerIds) + (if g == Tester then {userId} else {})
    {
      if userId in adminIds {
        return true;
      }
      if NameMatches(username, adminUsername) {
        adminIds := adminIds + {userId};
        return true;
      }
      var u := LookupUser(users, userId);
      if u.Some? {
        if u.value.isTester {
          testerIds := testerIds + {userId};
          return true;
        }
        if NameMatches(u.value.username, adminUsername) {
          adminIds := adminIds + {userId};
          return true;
        }
      }
      return false;
    }
  }

  /** Two calls in a row: the caches only grow, and a user the first call admits
      as an admin is answered from the cache by the second, even if the handle
      and the stored row are gone by then. A tester is looked up again. */
  method CheckTwice(cache: AccessCache, userId: int, username: Option<string>,
                    users: map<int, UserRow>, laterUsers: map<int, UserRow>)
    returns (first: bool, second: bool)
    modifies cache
    ensures old(cache.adminIds) <= cache.adminIds && old(cache.testerIds) <= cache.testerIds
    ensures var g := Decide(old(cache.adminIds), cache.adminUsername, userId, username, users);
            (g in {CachedAdmin, AdminByArgument, AdminByStoredName} ==> first && second)
            && (g == Tester && userId !in laterUsers ==> first && !second)
  {
    first := cache.CheckAdminAccess(userId, username, users);
    second := cache.CheckAdminAccess(userId, None, laterUsers);
  }

  datatype Button = Button(caption: string, callback: string)

  /** The rows every user sees, top to bottom. */
  const BaseMenu: seq<seq<Button>> := [
    [Button("🛍️ Магазин", "shop")],
    [Button("💰 Баланс", "balance"), Button("👤 Профиль", "profile")],
    [Button("🎫 Промокод", "promo"), Button("👥 Рефералы", "referrals")],
    [Button("📦 Мои покупки", "my_orders"), Button("📞 Поддержка", "support")],
    [Button("ℹ️ Помощь", "help")]
  ]

  const AdminRow: seq<Button> := [Button("👑 Админ-панель", "admin_panel")]

  /** The condition under which `get_main_menu` adds the admin row: a truthy id
      whose stored row has exactly the admin handle (case matters here) or the
      tester flag. */
  predicate ShowsAdminRow(userId: Option<int>, users: map<int, UserRow>, adminUsername: string) {
    && userId.Some? && userId.value != 0
    && userId.value in users
    && (users[userId.value].username == Some(adminUsername) || users[userId.value].isTester)
  }

  /** `get_main_menu(user_id)`: the five fixed rows, then the admin row when the
      stored user qualifies. */
  method MainMenu(userId: Option<int>, users: map<int, UserRow>, adminUsername: string)
    returns (kb: seq<seq<Button>>)
    ensures |kb| >= |BaseMenu| && kb[..|BaseMenu|] == BaseMenu
    ensures |kb| == |BaseMenu| + 1 <==> ShowsAdminRow(userId, users, adminUsername)
    ensures |kb| <= |BaseMenu| + 1 && (|kb| > |BaseMenu| ==> kb[|BaseMenu|] == AdminRow)
  {
    kb := BaseMenu;
    if userId.Some? && userId.value != 0 {
      var u := LookupUser(users, userId.value);
      if u.Some? && (u.value.username == Some(adminUsername) || u.value.isTester) {
        kb := kb + [AdminRow];
      }
    }
  }

  /** The admin row is offered only to users `check_admin_access` admits
      (for a non-empty admin handle), whatever the admin cache holds. */
  lemma AdminRowImpliesAccess(adminIds: set<int>, userId: int, username: Option<string>,
                              users: map<int, UserRow>, adminUsername: string)
    requires adminUsername != ""
    requires ShowsAdminRow(Some(userId), users, adminUsername)
    ensures Decide(adminIds, adminUsername, userId, username, users) != Denied
  {
  }

  /** The converse fails: a stored handle differing from the admin handle only in
      case is admitted by `check_admin_access` but gets no admin row. */
  lemma AccessWithoutAdminRow()
    ensures var users := map[7 := UserRow(Some("KANVYLSIA"), false)];
            && Decide({}, "kanvylsia", 7, None, users) == AdminByStoredName
            && !ShowsAdminRow(Some(7), users, "kanvylsia")
  {
  }
}
