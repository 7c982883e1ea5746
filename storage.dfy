/** The start-up work of `Database`: the default categories (INSERT OR IGNORE),
    the default settings (INSERT OR REPLACE), the column migration of the
    `users` table, and `get_stats`'s fallback to zeros. Tables are maps keyed by
    their primary key; query answers are inputs. */
module Storage {
  import opened Common
  import opened Text

  datatype Category = Category(name: string, position: int, isActive: bool)

  /** One `(id, name, position)` tuple of the default categories. */
  datatype CategorySeed = CategorySeed(id: int, name: string, position: int)

  datatype Setting = Setting(value: string, description: string, updatedAt: int)

  /** One `(key, value, description)` tuple of the default settings. */
  datatype SettingSeed = SettingSeed(key: string, value: string, description: string)

  /** The environment configuration the default settings are built from;
      `adminUsername` is ADMIN_USERNAME as configured, before `lstrip('@')`. */
  datatype Config = Config(
    currency: string, minDeposit: int, maxDeposit: int,
    referralBonusNew: int, referralBonusInviter: int, refPercent: int,
    adminUsername: string)

  const DefaultCategories: seq<CategorySeed> := [
    CategorySeed(1, "Разное", 1),
    CategorySeed(2, "Гриф - Броня", 2),
    CategorySeed(3, "Гриф - Кит", 3),
    CategorySeed(4, "Гриф - Зелье", 4),
    CategorySeed(5, "Гриф - Инструменты", 5),
    CategorySeed(6, "Анархия - Броня", 6),
    CategorySeed(7, "Анархия - Кит", 7),
    CategorySeed(8, "Анархия - Зелье", 8),
    CategorySeed(9, "Анархия - Инструменты", 9)
  ]

  /** The default settings' keys, values and descriptions, column by column. */
  const SettingKeys: seq<string> := [
    "shop_name", "welcome_message", "currency", "min_deposit", "max_deposit",
    "referral_bonus_new", "referral_bonus_inviter", "ref_percent", "admin_notifications",
    "maintenance_mode", "support_contact", "terms_url", "faq_url"]

  const SettingDescriptions: seq<string> := [
    "Название магазина", "Приветственное сообщение", "Валюта", "Мин. сумма", "Макс. сумма",
    "Бонус новому", "Бонус пригласившему", "% с покупок реферала", "Уведомления админам",
    "Режим техобслуживания", "Контакты поддержки", "Правила", "FAQ"]

  function SettingValues(cfg: Config): (values: seq<string>)
    ensures |values| == |SettingKeys| && values[2] == cfg.currency
    ensures values[10] == "@" + StripLeadingAt(cfg.adminUsername)
  {
    [ "Мой магазин", "Добро пожаловать!", cfg.currency,
      IntToDecimal(cfg.minDeposit), IntToDecimal(cfg.maxDeposit),
      IntToDecimal(cfg.referralBonusNew), IntToDecimal(cfg.referralBonusInviter),
      IntToDecimal(cfg.refPercent), "1", "0", "@" + StripLeadingAt(cfg.adminUsername), "", "" ]
  }

  function DefaultSettings(cfg: Config): (seeds: seq<SettingSeed>)
    ensures |seeds| == |SettingKeys|
    ensures forall i :: 0 <= i < |seeds| ==> seeds[i].key == SettingKeys[i]
    ensures seeds[2].value == cfg.currency
    ensures seeds[10].value == "@" + StripLeadingAt(cfg.adminUsername)
  {
    var values := SettingValues(cfg);
    seq(|SettingKeys|, i requires 0 <= i < |SettingKeys| =>
      SettingSeed(SettingKeys[i], values[i], SettingDescriptions[i]))
  }

  // ---------------------------------------------------------------- categories

  predicate NameTaken(cats: map<int, Category>, name: string) {
    exists id :: id in cats && cats[id].name == name
  }

  /** A seed is covered when its id or its name is already in the table. */
  predicate Covered(cats: map<int, Category>, s: CategorySeed) {
    s.id in cats || NameTaken(cats, s.name)
  }

  /** `INSERT OR IGNORE INTO categories (id, name, position)`: nothing happens
      when the id (primary key) or the name (UNIQUE) is already present. */
  function InsertOrIgnore(cats: map<int, Category>, s: CategorySeed): map<int, Category> {
    if Covered(cats, s) then cats else cats[s.id := Category(s.name, s.position, true)]
  }

  /** The seeding loop, one INSERT OR IGNORE per seed, in order. */
  function SeedCategories(cats: map<int, Category>, seeds: seq<CategorySeed>): map<int, Category> {
    if seeds == [] then cats
    else InsertOrIgnore(SeedCategories(cats, seeds[..|seeds| - 1]), seeds[|seeds| - 1])
  }

  function SeedIds(seeds: seq<CategorySeed>): set<int> {
    set i | 0 <= i < |seeds| :: seeds[i].id
  }

  /** Seeding never changes or removes a row, leaves every seed covered, and
      each added row is an active category with the name and position of a
      seed under that seed's id. */
  lemma {:induction false} SeedCategoriesSound(cats: map<int, Category>, seeds: seq<CategorySeed>)
    ensures var r := SeedCategories(cats, seeds);
            && (forall id :: id in cats ==> id in r && r[id] == cats[id])
            && r.Keys <= cats.Keys + SeedIds(seeds)
            && (forall i :: 0 <= i < |seeds| ==> Covered(r, seeds[i]))
            && (forall id :: id in r && id !in cats ==>
                  exists i :: 0 <= i < |seeds| && seeds[i].id == id
                              && r[id] == Category(seeds[i].name, seeds[i].position, true))
  {
    if seeds != [] {
      var init, last := seeds[..|seeds| - 1], seeds[|seeds| - 1];
      SeedCategoriesSound(cats, init);
      var m := SeedCategories(cats, init);
      InsertOrIgnoreSound(m, last);
      SeedIdsSnoc(seeds);
      var r := InsertOrIgnore(m, last);
      forall i | 0 <= i < |seeds|
        ensures Covered(r, seeds[i])
      {
        if i < |init| {
          assert seeds[i] == init[i];
          CoveredKept(m, r, seeds[i]);
        }
      }
      forall id | id in r && id !in cats
        ensures exists i :: 0 <= i < |seeds| && seeds[i].id == id
                            && r[id] == Category(seeds[i].name, seeds[i].position, true)
      {
        if id in m {
          var i :| 0 <= i < |init| && init[i].id == id
                   && m[id] == Category(init[i].name, init[i].position, true);
          assert seeds[i] == init[i];
        } else {
          assert seeds[|seeds| - 1] == last;
        }
      }
    }
  }

  /** One INSERT OR IGNORE keeps every row and leaves the seed covered: a
      covered seed changes nothing, any other adds the active row
      (name, position) under the seed's id. */
  lemma InsertOrIgnoreSound(m: map<int, Category>, s: CategorySeed)
    ensures var r := InsertOrIgnore(m, s);
            && (forall id :: id in m ==> id in r && r[id] == m[id])
            && r.Keys <= m.Keys + {s.id}
            && Covered(r, s)
            && (Covered(m, s) ==> r == m)
            && (!Covered(m, s) ==> r == m[s.id := Category(s.name, s.position, true)])
  {
  }

  lemma SeedIdsSnoc(seeds: seq<CategorySeed>)
    requires seeds != []
    ensures SeedIds(seeds) == SeedIds(seeds[..|seeds| - 1]) + {seeds[|seeds| - 1].id}
  {
    var init := seeds[..|seeds| - 1];
    assert forall i :: 0 <= i < |init| ==> init[i] == seeds[i];
  }

  lemma CoveredKept(m: map<int, Category>, r: map<int, Category>, s: CategorySeed)
    requires forall id :: id in m ==> id in r && r[id] == m[id]
    requires Covered(m, s)
    ensures Covered(r, s)
  {
    if s.id !in m {
      var id :| id in m && m[id].name == s.name;
      assert r[id].name == s.name;
    }
  }

  /** Seeds that are all covered change nothing. */
  lemma {:induction false} SeedCoveredIsNoop(cats: map<int, Category>, seeds: seq<CategorySeed>)
    requires forall i :: 0 <= i < |seeds| ==> Covered(cats, seeds[i])
    ensures SeedCategories(cats, seeds) == cats
  {
    if seeds != [] {
      SeedCoveredIsNoop(cats, seeds[..|seeds| - 1]);
      assert Covered(cats, seeds[|seeds| - 1]);
    }
  }

  /** Starting the bot a second time adds no category. */
  lemma SeedCategoriesIdempotent(cats: map<int, Category>, seeds: seq<CategorySeed>)
    ensures SeedCategories(SeedCategories(cats, seeds), seeds) == SeedCategories(cats, seeds)
  {
    SeedCategoriesSound(cats, seeds);
    SeedCoveredIsNoop(SeedCategories(cats, seeds), seeds);
  }

  // ------------------------------------------------------------------ settings

  /** `INSERT OR REPLACE INTO settings (key, value, description, updated_at)`. */
  function ReplaceSetting(m: map<string, Setting>, s: SettingSeed, now: int): map<string, Setting> {
    m[s.key := Setting(s.value, s.description, now)]
  }

  function SeedSettings(m: map<string, Setting>, seeds: seq<SettingSeed>, now: int): map<string, Setting> {
    if seeds == [] then m
    else ReplaceSetting(SeedSettings(m, seeds[..|seeds| - 1], now), seeds[|seeds| - 1], now)
  }

  function SeedKeys(seeds: seq<SettingSeed>): set<string> {
    set i | 0 <= i < |seeds| :: seeds[i].key
  }

  /** The seed at `i` is the last one with its key. */
  predicate LastWithKey(seeds: seq<SettingSeed>, i: int)
    requires 0 <= i < |seeds|
  {
    forall j :: i < j < |seeds| ==> seeds[j].key != seeds[i].key
  }

  /** After seeding, every seeded key holds the value of the last seed with that
      key, stamped `now`, whatever it held before; every other key is untouched. */
  lemma {:induction false} SettingsSeeded(m: map<string, Setting>, seeds: seq<SettingSeed>, now: int)
    ensures var r := SeedSettings(m, seeds, now);
            && r.Keys == m.Keys + SeedKeys(seeds)
            && (forall i :: 0 <= i < |seeds| && LastWithKey(seeds, i) ==>
                  r[seeds[i].key] == Setting(seeds[i].value, seeds[i].description, now))
            && (forall k :: k in m && k !in SeedKeys(seeds) ==> r[k] == m[k])
  {
    if seeds != [] {
      var init, last := seeds[..|seeds| - 1], seeds[|seeds| - 1];
      SettingsSeeded(m, init, now);
      assert seeds == init + [last];
      forall i | 0 <= i < |init| && LastWithKey(seeds, i)
        ensures LastWithKey(init, i)
      {
        assert forall j :: i < j < |init| ==> init[j] == seeds[j];
      }
      assert SeedKeys(seeds) == SeedKeys(init) + {last.key};
    }
  }

  /** A currency an admin stored at run time is replaced by the configured one
      at the next start. */
  lemma RestartResetsCurrency(m: map<string, Setting>, cfg: Config, now: int)
    ensures var r := SeedSettings(m, DefaultSettings(cfg), now);
            "currency" in r && r["currency"].value == cfg.currency
  {
    var seeds := DefaultSettings(cfg);
    assert LastWithKey(seeds, 2) by {
      assert forall j :: 2 < j < |SettingKeys| ==> SettingKeys[j] != SettingKeys[2];
    }
    SettingsSeeded(m, seeds, now);
  }

  /** The support contact stored at start-up is the admin handle, after the
      same `lstrip('@')` the access check applies, behind one `@`. */
  lemma SupportContactIsAdminHandle(m: map<string, Setting>, cfg: Config, now: int)
    ensures var r := SeedSettings(m, DefaultSettings(cfg), now);
            "support_contact" in r && r["support_contact"].value == "@" + StripLeadingAt(cfg.adminUsername)
  {
    var seeds := DefaultSettings(cfg);
    assert LastWithKey(seeds, 10) by {
      assert forall j :: 10 < j < |SettingKeys| ==> SettingKeys[j] != SettingKeys[10];
    }
    SettingsSeeded(m, seeds, now);
  }

  // ----------------------------------------------------------------- migration

  /** The columns `_migrate_db` adds to `users` when missing. */
  const MigratedColumns: seq<string> := ["is_tester", "tested_products"]

  /** The columns of a freshly created `users` table. */
  const UsersSchema: seq<string> := [
    "user_id", "username", "first_name", "balance", "total_deposited", "total_spent",
    "join_date", "referral_code", "referred_by", "total_referrals", "referral_earnings",
    "is_banned", "ban_reason", "banned_at", "banned_by", "last_active", "last_purchase",
    "is_tester", "tested_products"]

  /** `ALTER TABLE users ADD COLUMN` for each wanted column not yet present,
      the present ones re-read before each. */
  function AddMissing(cols: seq<string>, wanted: seq<string>): seq<string> {
    if wanted == [] then cols
    else
      var c := AddMissing(cols, wanted[..|wanted| - 1]);
      if wanted[|wanted| - 1] in c then c else c + [wanted[|wanted| - 1]]
  }

  predicate NoDuplicates(cols: seq<string>) {
    forall i, j :: 0 <= i < j < |cols| ==> cols[i] != cols[j]
  }

  /** Migration keeps the existing columns in place, adds every wanted column,
      adds nothing else, and never creates a duplicate column. */
  lemma {:induction false} AddMissingSound(cols: seq<string>, wanted: seq<string>)
    ensures var r := AddMissing(cols, wanted);
            && |r| >= |cols| && r[..|cols|] == cols
            && (forall w :: w in wanted ==> w in r)
            && (forall c :: c in r ==> c in cols || c in wanted)
            && (NoDuplicates(cols) ==> NoDuplicates(r))
  {
    if wanted != [] {
      var init := wanted[..|wanted| - 1];
      AddMissingSound(cols, init);
      assert forall w :: w in init ==> w in wanted;
      assert wanted == init + [wanted[|wanted| - 1]];
    }
  }

  /** When every wanted column is present, migration changes nothing; hence a
      second migration is a no-op. */
  lemma {:induction false} AddMissingPresentIsNoop(cols: seq<string>, wanted: seq<string>)
    requires forall w :: w in wanted ==> w in cols
    ensures AddMissing(cols, wanted) == cols
  {
    if wanted != [] {
      var init := wanted[..|wanted| - 1];
      assert forall w :: w in init ==> w in wanted;
      AddMissingPresentIsNoop(cols, init);
      assert wanted[|wanted| - 1] in wanted;
    }
  }

  lemma MigrationIdempotent(cols: seq<string>)
    ensures AddMissing(AddMissing(cols, MigratedColumns), MigratedColumns) == AddMissing(cols, MigratedColumns)
  {
    AddMissingSound(cols, MigratedColumns);
    AddMissingPresentIsNoop(AddMissing(cols, MigratedColumns), MigratedColumns);
  }

  /** A table created by this version already has both columns. */
  lemma FreshSchemaNeedsNoMigration()
    ensures AddMissing(UsersSchema, MigratedColumns) == UsersSchema
  {
    assert UsersSchema[17] == "is_tester" && UsersSchema[18] == "tested_products";
    AddMissingPresentIsNoop(UsersSchema, MigratedColumns);
  }

  class Database {
    var categories: map<int, Category>
    var settings: map<string, Setting>
    /** The column names of `users`, in table order. */
    var userColumns: seq<string>

    /** `Database()`: create the missing tables (`existingUsers` None means there
        is no `users` table yet), seed, then migrate. */
    constructor (existingCategories: map<int, Category>, existingSettings: map<string, Setting>,
                 existingUsers: Option<seq<string>>, cfg: Config, now: int)
      ensures categories == SeedCategories(existingCategories, DefaultCategories)
      ensures settings == SeedSettings(existingSettings, DefaultSettings(cfg), now)
      ensures userColumns == AddMissing(existingUsers.GetOr(UsersSchema), MigratedColumns)
    {
      categories := existingCategories;
      settings := existingSettings;
      userColumns := existingUsers.GetOr(UsersSchema);
      new;
      InitDb(cfg, now);
      MigrateDb();
    }

    /** The seeding part of `_init_db`: categories, then settings. */
    method InitDb(cfg: Config, now: int)
      modifies this
      ensures categories == SeedCategories(old(categories), DefaultCategories)
      ensures settings == SeedSettings(old(settings), DefaultSettings(cfg), now)
      ensures userColumns == old(userColumns)
    {
      SeedDefaultCategories();
      SeedDefaultSettings(cfg, now);
    }

    /** `INSERT OR IGNORE` of each default category, in order. */
    method SeedDefaultCategories()
      modifies this
      ensures categories == SeedCategories(old(categories), DefaultCategories)
      ensures settings == old(settings) && userColumns == old(userColumns)
    {
      var cats := DefaultCategories;
      for i := 0 to |cats|
        invariant categories == SeedCategories(old(categories), cats[..i])
        invariant settings == old(settings) && userColumns == old(userColumns)
      {
        assert cats[..i + 1][..i] == cats[..i];
        categories := InsertOrIgnore(categories, cats[i]);
      }
      assert cats[..|cats|] == cats;
    }

    /** `INSERT OR REPLACE` of each default setting, in order. */
    method SeedDefaultSettings(cfg: Config, now: int)
      modifies this
      ensures settings == SeedSettings(old(settings), DefaultSettings(cfg), now)
      ensures categories == old(categories) && userColumns == old(userColumns)
    {
      var defaults := DefaultSettings(cfg);
      for i := 0 to |defaults|
        invariant settings == SeedSettings(old(settings), defaults[..i], now)
        invariant categories == old(categories) && userColumns == old(userColumns)
      {
        assert defaults[..i + 1][..i] == defaults[..i];
        settings := settings[defaults[i].key := Setting(defaults[i].value, defaults[i].description, now)];
      }
      assert defaults[..|defaults|] == defaults;
    }

    /** The column part of `_migrate_db` (failed ALTERs are only logged and are
        not modelled). */
    method MigrateDb()
      modifies this
      ensures userColumns == AddMissing(old(userColumns), MigratedColumns)
      ensures categories == old(categories) && settings == old(settings)
    {
      var wanted := MigratedColumns;
      for i := 0 to |wanted|
        invariant userColumns == AddMissing(old(userColumns), wanted[..i])
        invariant categories == old(categories) && settings == old(settings)
      {
        assert wanted[..i + 1][..i] == wanted[..i];
        if wanted[i] !in userColumns {
          userColumns := userColumns + [wanted[i]];
        }
      }
      assert wanted[..|wanted|] == wanted;
    }
  }

  // --------------------------------------------------------------------- stats

  /** The keys `get_stats` fills, in order. */
  const StatKeys: seq<string> := [
    "total_users", "active_users", "banned_users", "total_balance", "testers_count",
    "total_products", "total_categories", "total_orders", "total_revenue",
    "today_orders", "today_revenue", "today_buyers", "total_referrals", "total_ref_earnings"]

  /** `testers_count` has a `try` of its own. */
  const TestersIndex: nat := 4

  /** What the query behind one key gives: a number, NULL, or an exception. */
  datatype Cell = Value(n: int) | Null | Raise

  /** `x or 0` */
  function CellValue(c: Cell): int {
    if c.Value? then c.n else 0
  }

  /** The first key whose query raises outside the testers `try`, or |answers|. */
  function FirstFatal(answers: seq<Cell>): (k: nat)
    ensures k <= |answers|
    ensures forall j :: 0 <= j < k ==> !answers[j].Raise? || j == TestersIndex
    ensures k < |answers| ==> answers[k].Raise? && k != TestersIndex
  {
    FirstFatalFrom(answers, 0)
  }

  function FirstFatalFrom(answers: seq<Cell>, i: nat): (k: nat)
    requires i <= |answers|
    ensures i <= k <= |answers|
    ensures forall j :: i <= j < k ==> !answers[j].Raise? || j == TestersIndex
    ensures k < |answers| ==> answers[k].Raise? && k != TestersIndex
    decreases |answers| - i
  {
    if i == |answers| then i
    else if answers[i].Raise? && i != TestersIndex then i
    else FirstFatalFrom(answers, i + 1)
  }

  lemma StatKeysDistinct()
    ensures forall i, j :: 0 <= i < j < |StatKeys| ==> StatKeys[i] != StatKeys[j]
  {
  }

  /** `for k in keys: stats.setdefault(k, 0)` */
  method SetDefaultZero(stats: map<string, int>, keys: seq<string>) returns (r: map<string, int>)
    ensures forall k :: k in r <==> k in stats || k in keys
    ensures forall k :: k in stats ==> r[k] == stats[k]
    ensures forall k :: k in keys && k !in stats ==> r[k] == 0
  {
    r := stats;
    for j := 0 to |keys|
      invariant forall k :: k in r <==> k in stats || k in keys[..j]
      invariant forall k :: k in stats ==> r[k] == stats[k]
      invariant forall k :: k in keys[..j] && k !in stats ==> r[k] == 0
    {
      assert keys[..j + 1] == keys[..j] + [keys[j]];
      if keys[j] !in r {
        r := r[keys[j] := 0];
      }
    }
    assert keys[..|keys|] == keys;
  }

  /** `get_stats()`. `answers[i]` is the cell behind `StatKeys[i]`. In the source
      the three `today_*` cells come from one query and the two referral cells
      from another, so those cells fail together; the model takes one cell per
      key and so also admits failure patterns the source cannot produce.
      Every key is present; the keys before the first failing query hold their
      answers (NULL read as 0), the rest are 0. */
  method GetStats(answers: seq<Cell>) returns (stats: map<string, int>)
    requires |answers| == |StatKeys|
    ensures forall k :: k in stats <==> k in StatKeys
    ensures forall i :: 0 <= i < |StatKeys| ==>
              stats[StatKeys[i]] == if i < FirstFatal(answers) then CellValue(answers[i]) else 0
  {
    StatKeysDistinct();
    stats := CollectStats(StatKeys, answers);
  }

  /** The body of `get_stats` over any list of distinct keys: fill in the
      answers up to the first failing query, then `setdefault` the rest. */
  method CollectStats(keys: seq<string>, answers: seq<Cell>) returns (stats: map<string, int>)
    requires |answers| == |keys|
    requires forall i, j :: 0 <= i < j < |keys| ==> keys[i] != keys[j]
    ensures forall k :: k in stats <==> k in keys
    ensures forall i :: 0 <= i < |keys| ==>
              stats[keys[i]] == if i < FirstFatal(answers) then CellValue(answers[i]) else 0
  {
    stats := map[];
    var i := 0;
    while i < |keys|
      invariant 0 <= i <= FirstFatal(answers)
      invariant forall k :: k in stats <==> k in keys[..i]
      invariant forall j :: 0 <= j < i ==> stats[keys[j]] == CellValue(answers[j])
    {
      if answers[i].Raise? && i != TestersIndex {
        break;
      }
      assert keys[..i + 1] == keys[..i] + [keys[i]];
      stats := stats[keys[i] := CellValue(answers[i])];
      i := i + 1;
    }
    assert i == FirstFatal(answers);
    if i < |keys| {
      ghost var before := stats;
      stats := SetDefaultZero(stats, keys);
      forall m | i <= m < |keys|
        ensures stats[keys[m]] == 0
      {
        assert keys[m] !in before;
      }
    } else {
      assert keys[..i] == keys;
    }
  }
}
