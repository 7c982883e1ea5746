# Storefront bot core, modelled in Dafny

This project models the core of a Telegram storefront bot (`main.py`). The bot
sells digital goods, keeps its state in SQLite and lets administrators create
promo codes. The model covers:

- the start-up work of `Database`: it seeds the default categories with
  INSERT OR IGNORE and the default settings with INSERT OR REPLACE, then adds
  the `is_tester` and `tested_products` columns to `users` when missing;
- `get_stats` and how it falls back to zeros when a query fails;
- `AdminLogger.log_action`, the format of an audit line;
- the two promo-code generators, `generate_promo_code` and
  `generate_smart_promo_code`;
- `format_price`, which groups thousands with spaces and picks the currency
  symbol;
- `check_admin_access` with its admin and tester caches, and `get_main_menu`;
- `create_smart_promo`: it infers the missing amount, usage limit and expiry,
  then inserts the row and logs the action.

Database answers, the clock, the random draws and the outcome of the log-file
write are all parameters. Tables are maps keyed by their primary or UNIQUE key.
Times are integer seconds.

Modules, one per part of the program:

| module | file | what |
|---|---|---|
| `Common` | common.dfy | `Option`, the `users` row fields the core reads |
| `Text` | text.dfy | `str(int)`, ASCII `lower()`, single-character replace and remove |
| `SmartPromo` | smart_promo.dfy | the parameter rules of `create_smart_promo` |
| `PromoCodes` | promo_codes.dfy | `generate_promo_code`, `generate_smart_promo_code` |
| `PriceFormat` | price_format.dfy | `format_price` |
| `AdminAccess` | admin_access.dfy | `check_admin_access` (class `AccessCache`), `get_main_menu` |
| `AuditLog` | audit_log.dfy | `AdminLogger` |
| `Promotions` | promotions.dfy | the `promocodes` table (class `PromoTable`), `create_smart_promo` |
| `Storage` | storage.dfy | `Database` start-up, migration, `get_stats` |

## Model

| member | source | states |
|---|---|---|
| Text.IntToDecimal | main.py:368-370 | `str(n)`: non-empty, a leading `-` exactly for negatives, no leading zero, 0 renders as exactly `0`, and the digits read back as the magnitude |
| Text.DecimalRoundTrip | main.py:370 | reading the decimal rendering of a natural number gives the number back |
| Text.Lower | main.py:384 | `lower()` on ASCII: no upper-case letter is left, every other character is kept, and each letter moves to its lower-case form |
| Text.LowerIdempotent | main.py:384 | folding a folded handle changes nothing |
| Text.StripLeadingAtSound | main.py:50 | `lstrip('@')` removes a prefix made only of `@` and nothing else, and the rest does not start with `@` |
| SmartPromo.Truncate | main.py:432 | `int(x)` truncates toward zero: the magnitude is the floor of `abs(x)` and the sign is kept |
| SmartPromo.AverageOrderAmount | main.py:431-432 | a NULL average or a zero average (falsy) gives 100; otherwise the average truncated toward zero |
| SmartPromo.NearestIndex | main.py:434 | `min(xs, key=...)`: the index has the least distance to the target, and every earlier index is strictly farther |
| SmartPromo.LadderAmount | main.py:433-434 | the amount is a ladder value nearest to the average, and on a tie the lower value |
| SmartPromo.TieGoesToLowerDenomination | main.py:433-434 | averages 75, 150 and 1500 give 50, 100 and 1000 |
| SmartPromo.NoOrdersGiveDefaultAmount | main.py:431-434 | with no completed orders, or an average of zero, the amount is 100 |
| SmartPromo.UsesForActivity | main.py:436-437 | the usage limit is 50 exactly above 100 active users, 25 exactly from 51 to 100, 10 exactly from 21 to 50, and 5 exactly at 20 or fewer |
| SmartPromo.UsesMonotone | main.py:437 | more active users never give a smaller usage limit |
| SmartPromo.ExpiresAt | main.py:441-443 | no expiry exactly when the day count is not positive; otherwise the expiry is that many days after now |
| SmartPromo.InferParams | main.py:430-443 | given parameters are kept; a missing amount is the ladder value nearest the truncated average (100 with no orders); a missing limit is the activity step for the active-user count; a missing expiry is 30 days; the row expires exactly when the day count is positive, that many days after now |
| PromoCodes.AlphabetChar | main.py:355 | a draw below 26 is an upper-case letter, the rest are digits; every result is a code character |
| PromoCodes.AlphabetIndex | main.py:355 | inverts `AlphabetChar` on the 36-character alphabet |
| PromoCodes.AlphabetInjective | main.py:355 | different draws give different characters |
| PromoCodes.Render | main.py:357 | a code has as many characters as draws, each from the alphabet |
| PromoCodes.FirstUnusedIndex | main.py:356-359 | the position of the first candidate not yet stored: every earlier one is stored, this one is not |
| PromoCodes.FirstUnused | main.py:423-425 | the result is the first candidate that is not stored: it is not stored and every candidate before it is; None exactly when every candidate is stored |
| PromoCodes.GeneratePromoCode | main.py:354-359 | returns the first drawn code not in the table, of the requested length and alphabet; None exactly when every supplied draw collides |
| PromoCodes.WordListsAreUpperCase | main.py:417-421 | every template word is upper-case |
| PromoCodes.Templated | main.py:417-421 | a word, an optional `_` and a number form a templated code ending in a digit |
| PromoCodes.SmartCandidates | main.py:416-422 | there are five candidates, each a templated code |
| PromoCodes.FirstFresh | main.py:423-425 | the scan over the patterns returns the first one not in the table |
| PromoCodes.GenerateSmartPromoCode | main.py:415-426 | returns a code not in the table: the first free template when there is one, otherwise the fallback 8-character random code |
| PriceFormat.GroupDigits | main.py:368 | grouping adds one separator per full group of three digits |
| PriceFormat.GroupThousands | main.py:368 | `{n:,}` puts a comma exactly every fourth place from the right, with digits everywhere else; removing the commas gives the digits back; one comma per full group of three |
| PriceFormat.ReplaceGroupCommas | main.py:368 | replacing the commas of the grouped digits by spaces gives the space-grouped digits |
| PriceFormat.GroupDigitsShape | main.py:368 | for any non-digit separator, the separator sits exactly every fourth place from the right, with digits elsewhere |
| PriceFormat.GroupDigitsRemove | main.py:368 | removing the separators from the grouped digits gives the digits back |
| PriceFormat.FormatPrice | main.py:364-370 | a storage failure gives `str(amount)` followed by the configured symbol; otherwise the text ends with the chosen symbol, its commas turned into spaces |
| PriceFormat.FormatPriceRoundTrip | main.py:364-368 | stripping the spaces from the amount part gives `str(amount)`; the amount part is grouped in threes, with no leading space, after a `-` for negatives; the symbol part is the symbol with its commas replaced by spaces |
| PriceFormat.SymbolChoice | main.py:366-368 | a stored currency gives the price the same symbol would give as the configured one, and the configured symbol then makes no difference |
| PriceFormat.FormatPriceExample | main.py:368 | 12345 with `₪` renders as `12 345₪` |
| AdminAccess.GrantedIff | main.py:381-395 | access is granted exactly when one of these holds: the id is cached, the handle passed in matches, the stored row is a tester, or the stored handle matches |
| AdminAccess.TesterCheckComesFirst | main.py:388-394 | a stored tester is admitted as a tester even when their stored handle is the admin handle |
| AdminAccess.NameMatchIgnoresCase | main.py:384 | for every handle and admin handle: a match is a non-empty handle whose folding equals the admin handle's; handles with the same folding match alike; a missing or empty handle never matches |
| AdminAccess.AccessCache.constructor | main.py:68-71 | the admin cache holds the configured id when it is non-zero; the tester cache is empty; the admin handle has its leading `@` stripped |
| AdminAccess.AccessCache.CheckAdminAccess | main.py:381-395 | the answer follows the four checks in order; the id is cached as an admin when a handle matched, and as a tester when the tester flag admitted it |
| AdminAccess.CheckTwice | main.py:381-395 | the caches only grow; an admitted admin is admitted again from the cache even when the row is gone; a tester whose row is gone is refused the second time |
| AdminAccess.MainMenu | main.py:397-412 | the five fixed rows always come first; the admin row is appended exactly when the user id is non-zero and its stored row has the admin handle (case-sensitive) or the tester flag |
| AdminAccess.AdminRowImpliesAccess | main.py:408-411 | when the admin handle is non-empty, anyone shown the admin row passes the access check |
| AdminAccess.AccessWithoutAdminRow | main.py:410 | a stored handle that differs from the admin handle only in case passes the access check but is not shown the admin row |
| AuditLog.AdminName | main.py:337-338 | the admin is named `@handle` exactly when the stored handle is non-empty, and `ID:<id>` otherwise |
| AuditLog.AuditLineLayout | main.py:339-343 | the line starts with the header; a non-empty target follows the header at once; non-empty details end the line; an empty target and empty details leave just the header |
| AuditLog.BuildLine | main.py:339-343 | the successive `+=` build exactly the audit-line format |
| AuditLog.AdminLogger.constructor | main.py:332-333 | the logger starts from the existing file contents |
| AuditLog.AdminLogger.LogAction | main.py:335-348 | a successful write appends the line and a newline; a failed write leaves the file unchanged |
| Promotions.PromoTable.constructor | main.py:171-173 | every row is stored under its own code |
| Promotions.PromoTable.Insert | main.py:444-445 | the row is added under its fresh code and the table stays keyed by code |
| Promotions.PromoTable.CreateSmartPromo | main.py:428-446 | on success it inserts exactly one row under a fresh code, with the inferred amount, limit and expiry (from the bot's clock), the admin, and `created_at` from the database clock; it logs `create_smart_promo` with those details; the code is the first free template when there is one, otherwise the first free random code; it is None, and nothing changes, only when every supplied draw collides |
| Storage.SettingValues | main.py:216-230 | there are thirteen default values; the currency value is the configured one; the support contact is `@` and the stripped admin handle |
| Storage.DefaultSettings | main.py:216-230 | there are thirteen seeds in key order; the currency seed carries the configured currency; the support-contact seed carries `@` and the stripped admin handle |
| Storage.InsertOrIgnoreSound | main.py:210-213 | one INSERT OR IGNORE keeps every row and leaves the seed's id or name present; a seed whose id or name is present changes nothing, any other adds an active row with the seed's name and position under its id |
| Storage.SeedCategoriesSound | main.py:198-213 | seeding keeps every existing row; every added row is an active category with the name and position of a seed, under that seed's id; afterwards every seed's id or name is present |
| Storage.SeedCoveredIsNoop | main.py:209-213 | when every seed's id or name is already present, seeding changes nothing |
| Storage.SeedCategoriesIdempotent | main.py:198-213 | seeding twice gives the same categories as seeding once |
| Storage.SettingsSeeded | main.py:231-235 | every seeded key holds its last seed's value and description with a fresh timestamp; other keys are untouched |
| Storage.RestartResetsCurrency | main.py:216-235 | after start-up the currency setting is the configured currency, whatever was stored before |
| Storage.SupportContactIsAdminHandle | main.py:216-235 | after start-up the support contact is `@` followed by the admin handle with the same `lstrip('@')` the access check uses |
| Storage.AddMissingSound | main.py:243-253 | migration keeps the existing columns in place, adds every wanted column and nothing else, and never duplicates a column |
| Storage.AddMissingPresentIsNoop | main.py:247-252 | when every wanted column is present, migration changes nothing |
| Storage.MigrationIdempotent | main.py:239-255 | migrating twice gives the same columns as migrating once |
| Storage.FreshSchemaNeedsNoMigration | main.py:104-124 | a freshly created `users` table needs no column added |
| Storage.Database.constructor | main.py:92-95 | the categories are seeded, the settings seeded and the columns migrated; a missing `users` table is created with the full schema first |
| Storage.Database.InitDb | main.py:197-236 | categories and settings become their seeded values; the columns are unchanged |
| Storage.Database.SeedDefaultCategories | main.py:209-213 | the loop computes the category seeding and touches nothing else |
| Storage.Database.SeedDefaultSettings | main.py:231-235 | the loop computes the settings seeding and touches nothing else |
| Storage.Database.MigrateDb | main.py:239-255 | the loop adds the missing columns, re-reading the columns each time, and touches nothing else |
| Storage.FirstFatal | main.py:294-320 | the first query that raises outside the inner `testers_count` try; every earlier query either answered or is `testers_count` |
| Storage.StatKeysDistinct | main.py:322-324 | the fourteen statistics keys are distinct |
| Storage.SetDefaultZero | main.py:322-325 | `setdefault(k, 0)` keeps every present value and adds 0 for each missing key |
| Storage.CollectStats | main.py:293-325 | every key is present; keys before the first failing query hold their answers, with NULL read as 0; every later key is 0 |
| Storage.GetStats | main.py:292-326 | all fourteen keys are present, with the values `CollectStats` states |

## Left out

- Database failures outside a `try`: the queries and writes of `log_action`, `generate_promo_code`, `generate_smart_promo_code`, `check_admin_access`, `get_main_menu` and `create_smart_promo` (main.py:337, 358, 387, 409, 424, 431, 436, 444) are assumed to answer, while the source lets the exception propagate. Only the failures that `format_price` and `get_stats` catch are modelled.
- Promotions.PromoTable.CreateSmartPromo: always pairs the new row with its audit line. In the source, when the admin lookup in `log_action` (main.py:337) fails after the INSERT at main.py:444 has committed, the promo row stays stored and no audit line is written.
- SQL and DDL in general: tables are maps, `CREATE INDEX` (main.py:257-271) is not modelled, and connections and commits are implicit.
- The Telegram handlers, the admin panels, the stub handlers and message texts, including the reply text of `create_smart_promo` (main.py:447-451).
- Redemption, purchases and referral payouts. The core does not implement them.
- `generate_referral_code`: six unchecked random characters, with no property to state.
- Charts, `format_datetime`, `.env` loading and the `logger.info`/`logger.error` calls.
- `expires_at` as an ISO-8601 string: it is modelled as seconds since an epoch. The two clocks are separate inputs: `expires_at` comes from the bot's local time and `created_at` from SQLite's UTC `CURRENT_TIMESTAMP`.
- The average order amount is an exact real: floating-point rounding is not modelled.
- A failing `ALTER TABLE` in the migration: its exception is swallowed and the model assumes the ALTER succeeds.
- A NULL answer from a plain `COUNT(*)` in `get_stats`: the model reads every NULL as 0.
- Storage.GetStats: takes one answer cell per key, so it also admits failure patterns the source cannot produce; in the source the three `today_*` values come from one query and the two referral values from another, and each group fails together.
- The `days` argument of `get_stats` is not modelled. The source never reads it.
- The unused `user_ids` column of `promocodes` and the `TESTER_USERNAME` constant, which are never read.
- `TESTER_IDS` is modelled as the tester cache, but no code path reads it.
- PromoCodes.GeneratePromoCode: the source draws until a code is free; the model takes a finite list of draws and returns None when all of them collide.
- PromoCodes.GenerateSmartPromoCode: the same finite-draws weakening for its fallback.
- Promotions.PromoTable.CreateSmartPromo: inherits the finite-draws weakening; the None case has no counterpart in the source.
- Promotions.PromoTable.CreateSmartPromo: the model always inserts and logs. The source raises `OverflowError` first, and then inserts and logs nothing, in two cases: when the amount or the usage limit does not fit SQLite's signed 64-bit integer, and when the expiry date falls after year 9999.
- SmartPromo.ExpiresAt: integer seconds are unbounded, so the `OverflowError` that `datetime` raises for an expiry after year 9999 (about 2.9 million days) is not modelled.
- Text.Lower: folds ASCII letters only, not the full Unicode `str.lower`. Telegram handles are ASCII.
- AdminAccess.AccessCache.CheckAdminAccess: the `async` scheduling is not modelled; each call runs to completion.
