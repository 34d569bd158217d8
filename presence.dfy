/** Presence and join counting: `user_to_server` and `join_counts` in app.py,
    and what one `register-server` report does to them. */
module Presence {

  /** The value stored in `user_to_server[u]`. */
  datatype Presence = Presence(serverId: string, lastSeen: int)

  /** One element of the reported `players` list. */
  datatype Player = Player(userId: int, username: string)

  function PlayerIds(players: seq<Player>): (ids: seq<int>)
    ensures |ids| == |players|
    ensures forall i :: 0 <= i < |players| ==> ids[i] == players[i].userId
  {
    seq(|players|, i requires 0 <= i < |players| => players[i].userId)
  }

  /** `user_to_server` after the report loop has written
      `{serverId, lastSeen}` for each of `ids`, one after the other. */
  function Registered(m: map<int, Presence>, serverId: string, now: int, ids: seq<int>): map<int, Presence> {
    if ids == [] then m
    else Registered(m, serverId, now, ids[..|ids| - 1])[ids[|ids| - 1] := Presence(serverId, now)]
  }

  /** Every reported user now points at the reporting server, whatever it
      pointed at before (the last write wins); every other user's entry, or
      its absence, is untouched. */
  lemma {:induction false} RegisteredEffect(m: map<int, Presence>, serverId: string, now: int, ids: seq<int>, u: int)
    ensures u in ids ==> u in Registered(m, serverId, now, ids) && Registered(m, serverId, now, ids)[u] == Presence(serverId, now)
    ensures u !in ids ==> (u in Registered(m, serverId, now, ids) <==> u in m)
    ensures u !in ids && u in m ==> Registered(m, serverId, now, ids)[u] == m[u]
  {
    if ids != [] {
      var init := ids[..|ids| - 1];
      assert ids == init + [ids[|ids| - 1]];
      RegisteredEffect(m, serverId, now, init, u);
    }
  }

  /** Two reports that both list `u`: the later one decides where `u` is. */
  lemma LastReportWins(m: map<int, Presence>, d1: string, t1: int, a: seq<int>, d2: string, t2: int, b: seq<int>, u: int)
    requires u in a && u in b
    ensures var r := Registered(Registered(m, d1, t1, a), d2, t2, b); u in r && r[u] == Presence(d2, t2)
  {
    RegisteredEffect(Registered(m, d1, t1, a), d2, t2, b, u);
  }

  /** How often `u` occurs in `ids`. */
  function Occurrences(ids: seq<int>, u: int): nat {
    if ids == [] then 0
    else Occurrences(ids[..|ids| - 1], u) + (if ids[|ids| - 1] == u then 1 else 0)
  }

  lemma {:induction false} OccurrencesAppend(a: seq<int>, b: seq<int>, u: int)
    ensures Occurrences(a + b, u) == Occurrences(a, u) + Occurrences(b, u)
  {
    if b == [] {
      assert a + b == a;
    } else {
      var init := b[..|b| - 1];
      assert (a + b)[..|a + b| - 1] == a + init;
      OccurrencesAppend(a, init, u);
    }
  }

  lemma {:induction false} OccurrencesPositive(ids: seq<int>, u: int)
    ensures u in ids <==> Occurrences(ids, u) > 0
  {
    if ids != [] {
      var init := ids[..|ids| - 1];
      assert ids == init + [ids[|ids| - 1]];
      OccurrencesPositive(init, u);
    }
  }

  function CountOf(counts: map<int, int>, u: int): int {
    if u in counts then counts[u] else 0
  }

  /** `join_counts` after `join_counts[u] = join_counts.get(u, 0) + 1` has run
      for each of `ids`, one after the other. */
  function Bumped(counts: map<int, int>, ids: seq<int>): map<int, int> {
    if ids == [] then counts
    else
      var c := Bumped(counts, ids[..|ids| - 1]);
      var u := ids[|ids| - 1];
      c[u := CountOf(c, u) + 1]
  }

  /** Each reported user's count rises by the number of times the report
      lists them; nobody else's count changes or appears. */
  lemma {:induction false} BumpedEffect(counts: map<int, int>, ids: seq<int>, u: int)
    ensures u in Bumped(counts, ids) <==> u in counts || u in ids
    ensures CountOf(Bumped(counts, ids), u) == CountOf(counts, u) + Occurrences(ids, u)
  {
    if ids != [] {
      var init := ids[..|ids| - 1];
      assert ids == init + [ids[|ids| - 1]];
      BumpedEffect(counts, init, u);
    }
  }

  /** Two reports count the same as one report listing both. */
  lemma BumpedTwice(counts: map<int, int>, a: seq<int>, b: seq<int>)
    ensures Bumped(Bumped(counts, a), b) == Bumped(counts, a + b)
  {
    var l, r := Bumped(Bumped(counts, a), b), Bumped(counts, a + b);
    forall u ensures (u in l <==> u in r) && (u in l ==> l[u] == r[u]) {
      BumpedEffect(Bumped(counts, a), b, u);
      BumpedEffect(counts, a, u);
      BumpedEffect(counts, a + b, u);
      OccurrencesAppend(a, b, u);
      assert u in a + b <==> u in a || u in b;
    }
  }

  /** Counts start at one and only grow, so every recorded count is positive. */
  lemma BumpedPositive(counts: map<int, int>, ids: seq<int>, u: int)
    requires forall v :: v in counts ==> counts[v] >= 1
    requires u in Bumped(counts, ids)
    ensures Bumped(counts, ids)[u] >= 1
  {
    BumpedEffect(counts, ids, u);
    OccurrencesPositive(ids, u);
  }
}
