/** The `bans` table, keyed by (network, user), reduced to the three queries
    app.py issues against it: the upsert of `!ban`, the delete of `!unban`
    and the select of `check-ban`. */
module Bans {

  datatype BanKey = BanKey(network: string, userId: int)

  datatype BanRecord = BanRecord(reason: string, moderator: string, bannedAt: int)

  type Ledger = map<BanKey, BanRecord>

  /** The answer of `check-ban`: `{"banned": True, "reason": ...}` or
      `{"banned": False}`. */
  datatype BanStatus = NotBanned | Banned(reason: string)

  /** `select reason from bans where network_id = .. and user_id = ..`. */
  function Check(bans: Ledger, key: BanKey): (r: BanStatus)
    ensures r.Banned? <==> key in bans
    ensures r.Banned? ==> r.reason == bans[key].reason
  {
    if key in bans then Banned(bans[key].reason) else NotBanned
  }

  /** `INSERT .. ON CONFLICT (network_id, user_id) DO UPDATE SET
      reason = excluded.reason, banned_at = now()`: a new row takes all three
      values (the table's default for `banned_at` is taken to be the time of
      the insert), while an existing row keeps its moderator. */
  function Upsert(bans: Ledger, key: BanKey, reason: string, moderator: string, now: int): (r: Ledger)
    ensures r.Keys == bans.Keys + {key}
    ensures Check(r, key) == Banned(reason)
    ensures r[key].bannedAt == now
    ensures r[key].moderator == if key in bans then bans[key].moderator else moderator
    ensures forall k :: k in bans && k != key ==> r[k] == bans[k]
  {
    var moderatorKept := if key in bans then bans[key].moderator else moderator;
    bans[key := BanRecord(reason, moderatorKept, now)]
  }

  /** `DELETE FROM bans WHERE network_id = .. AND user_id = ..`: deleting a
      row that is not there is not an error and changes nothing. */
  function Delete(bans: Ledger, key: BanKey): (r: Ledger)
    ensures Check(r, key) == NotBanned
    ensures r.Keys == bans.Keys - {key}
    ensures key !in bans ==> r == bans
    ensures forall k :: k in r ==> r[k] == bans[k]
  {
    bans - {key}
  }

  /** A second ban replaces reason and time but keeps the first moderator. */
  lemma RepeatBan(bans: Ledger, key: BanKey, r1: string, m1: string, t1: int, r2: string, m2: string, t2: int)
    ensures Upsert(Upsert(bans, key, r1, m1, t1), key, r2, m2, t2)[key]
         == BanRecord(r2, Upsert(bans, key, r1, m1, t1)[key].moderator, t2)
    ensures Upsert(Upsert(bans, key, r1, m1, t1), key, r2, m2, t2).Keys == bans.Keys + {key}
  {
  }

  /** Banning twice with the same reason and moderator at the same time is the
      same as banning once. */
  lemma UpsertIdempotent(bans: Ledger, key: BanKey, reason: string, moderator: string, now: int)
    ensures Upsert(Upsert(bans, key, reason, moderator, now), key, reason, moderator, now)
         == Upsert(bans, key, reason, moderator, now)
  {
  }

  /** Unbanning twice is the same as unbanning once. */
  lemma DeleteIdempotent(bans: Ledger, key: BanKey)
    ensures Delete(Delete(bans, key), key) == Delete(bans, key)
  {
  }
}
