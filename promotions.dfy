/** The `promocodes` table and `create_smart_promo`: infer the missing
    parameters, pick a fresh code, insert the row and write the audit line. */
module Promotions {
  import opened Common
  import opened Text
  import opened SmartPromo
  import opened PromoCodes
  import opened AuditLog

  /** A `promocodes` row (times in seconds; `user_ids` is never read and is left out). */
  datatype Promo = Promo(
    code: string,
    amount: int,
    discountPercent: int,
    minOrder: int,
    maxUses: int,
    usedCount: int,
    isActive: bool,
    expiresAt: Option<int>,
    createdBy: int,
    createdAt: int)

  /** The row `create_smart_promo` inserts: the given columns, the table's
      defaults for the rest (no discount, no minimum order, unused, active, and
      `created_at` from the database clock `dbNow`). */
  function NewPromo(code: string, p: PromoParams, createdBy: int, dbNow: int): Promo {
    Promo(code, p.amount, 0, 0, p.maxUses, 0, true, p.expiresAt, createdBy, dbNow)
  }

  /** The audit details `create_smart_promo` writes. */
  function CreationDetails(p: PromoParams): string {
    "amount:" + IntToDecimal(p.amount) + ", uses:" + IntToDecimal(p.maxUses)
      + ", expires:" + IntToDecimal(p.expiryDays) + "d"
  }

  class PromoTable {
    /** The rows, keyed by their UNIQUE `code` column. */
    var rows: map<string, Promo>

    ghost predicate Valid()
      reads this
    {
      forall c :: c in rows ==> rows[c].code == c
    }

    constructor (existing: map<string, Promo>)
      requires forall c :: c in existing ==> existing[c].code == c
      ensures Valid() && rows == existing
    {
      rows := existing;
    }

    /** `create_smart_promo(amount, uses, expires_days)` run by admin `adminId`.
        `avg` and `active` are the statistics queries' answers; `now` is the bot's
        local clock, from which `expires_at` is computed, and `dbNow` the
        database's UTC clock, which stamps `created_at`. `draws` and `attempts`
        are the random values and `ts` the log timestamp text.
        The code is the first free template, else the first free random code;
        it is None only when every supplied random draw collided. */
    method CreateSmartPromo(logger: AdminLogger, adminId: int,
                            amount: Option<int>, uses: Option<int>, expiresDays: Option<int>,
                            avg: Option<real>, active: nat, now: int, dbNow: int,
                            draws: SmartDraws, attempts: seq<seq<nat>>,
                            ts: string, users: map<int, UserRow>, writeSucceeds: bool)
      returns (code: Option<string>)
      requires Valid()
      requires ValidSmartDraws(draws)
      requires forall a :: a in attempts ==> |a| == DefaultCodeLength && ValidDraws(a)
      modifies this, logger
      ensures Valid()
      ensures code.None? ==> rows == old(rows) && logger.contents == old(logger.contents)
      ensures code.Some? ==>
                var p := InferParams(amount, uses, expiresDays, avg, active, now);
                && code.value !in old(rows)
                && rows == old(rows)[code.value := NewPromo(code.value, p, adminId, dbNow)]
                && logger.contents == old(logger.contents)
                   + Appended(adminId, "create_smart_promo", code.value, CreationDetails(p),
                              ts, users, writeSucceeds)
      ensures code == if FirstUnused(SmartCandidates(draws), old(rows).Keys).Some?
                      then FirstUnused(SmartCandidates(draws), old(rows).Keys)
                      else FirstUnused(Renders(attempts), old(rows).Keys)
    {
      var p := InferParams(amount, uses, expiresDays, avg, active, now);
      code := GenerateSmartPromoCode(rows.Keys, draws, attempts);
      if code.Some? {
        Insert(NewPromo(code.value, p, adminId, dbNow));
        logger.LogAction(adminId, "create_smart_promo", code.value, CreationDetails(p),
                         ts, users, writeSucceeds);
      }
    }

    /** `INSERT INTO promocodes`: the code column is UNIQUE, so the code must be new. */
    method Insert(row: Promo)
      requires Valid() && row.code !in rows
      modifies this
      ensures Valid() && rows == old(rows)[row.code := row]
    {
      rows := rows[row.code := row];
    }
  }
}
