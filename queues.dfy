/** The per-server command queues (`server_queues` in app.py). Each queue is a
    dictionary from command id to command, which Python keeps in insertion
    order; it is modelled as the sequence of its values, with the class
    invariant that no two of them share an id. */
module Queues {

  datatype Action = Warn | Unwarn | Kick | ForceTeleport | Ban

  /** The payload after the user id: a reason, or for `forceteleport` the
      place to send the user to. */
  datatype Detail = Reason(text: string) | Place(placeId: int)

  datatype Command = Command(id: string, action: Action, userId: int, detail: Detail)

  type Queue = seq<Command>

  type Queues = map<string, Queue>

  function Ids(q: Queue): seq<string> {
    seq(|q|, i requires 0 <= i < |q| => q[i].id)
  }

  /** The dictionary's keys are its commands' ids, so no id occurs twice. */
  predicate UniqueIds(q: Queue) {
    forall i, j :: 0 <= i < j < |q| ==> q[i].id != q[j].id
  }

  lemma IdsCons(c: Command, q: Queue)
    ensures Ids([c] + q) == [c.id] + Ids(q)
  {
  }

  lemma UniqueCons(c: Command, q: Queue)
    ensures UniqueIds([c] + q) <==> c.id !in Ids(q) && UniqueIds(q)
  {
    var r := [c] + q;
    if UniqueIds(r) {
      forall j | 0 <= j < |q| ensures Ids(q)[j] != c.id {
        assert r[0].id != r[j + 1].id;
      }
      forall i, j | 0 <= i < j < |q| ensures q[i].id != q[j].id {
        assert r[i + 1] == q[i] && r[j + 1] == q[j];
      }
    }
    if c.id !in Ids(q) && UniqueIds(q) {
      forall i, j | 0 <= i < j < |r| ensures r[i].id != r[j].id {
        if i == 0 {
          assert Ids(q)[j - 1] == r[j].id;
        } else {
          assert r[i] == q[i - 1] && r[j] == q[j - 1];
        }
      }
    }
  }

  /** `queue[c.id] = c`: a command with a new id goes to the end; one whose
      id is already present replaces that entry where it stands. */
  function Insert(q: Queue, c: Command): Queue {
    if q == [] then [c]
    else if q[0].id == c.id then [c] + q[1..]
    else [q[0]] + Insert(q[1..], c)
  }

  lemma {:induction false} InsertFresh(q: Queue, c: Command)
    requires c.id !in Ids(q)
    ensures Insert(q, c) == q + [c]
  {
    if q != [] {
      IdsCons(q[0], q[1..]);
      assert q == [q[0]] + q[1..];
      InsertFresh(q[1..], c);
    }
  }

  lemma {:induction false} InsertExisting(q: Queue, c: Command, k: nat)
    requires UniqueIds(q)
    requires k < |q| && q[k].id == c.id
    ensures Insert(q, c) == q[k := c]
  {
    assert q == [q[0]] + q[1..];
    UniqueCons(q[0], q[1..]);
    if k > 0 {
      assert q[0].id != q[k].id;
      InsertExisting(q[1..], c, k - 1);
    }
  }

  /** Inserting keeps the ids unique, and afterwards the command is the one
      stored under its id. */
  lemma InsertKeepsUnique(q: Queue, c: Command)
    requires UniqueIds(q)
    ensures UniqueIds(Insert(q, c))
    ensures c in Insert(q, c)
  {
    if c.id in Ids(q) {
      var k :| 0 <= k < |q| && Ids(q)[k] == c.id;
      InsertExisting(q, c, k);
      assert Insert(q, c)[k] == c;
      var r := q[k := c];
      forall i, j | 0 <= i < j < |r| ensures r[i].id != r[j].id {
        assert r[i].id == q[i].id && r[j].id == q[j].id;
      }
    } else {
      InsertFresh(q, c);
      var r := q + [c];
      assert r[|q|] == c;
      forall i, j | 0 <= i < j < |r| ensures r[i].id != r[j].id {
        if j == |q| {
          assert Ids(q)[i] == q[i].id;
        }
      }
    }
  }

  /** The commands of `q` whose ids are not in `acked`, in their order: what
      is left after `q.pop(cid, None)` for every `cid` in `acked`. */
  function KeepUnacked(q: Queue, acked: seq<string>): (r: Queue)
    ensures |r| <= |q|
  {
    if q == [] then []
    else if q[0].id in acked then KeepUnacked(q[1..], acked)
    else [q[0]] + KeepUnacked(q[1..], acked)
  }

  /** `q.pop(cid, None)` on a queue with unique ids. */
  function Pop(q: Queue, cid: string): Queue {
    KeepUnacked(q, [cid])
  }

  /** Popping one more id after a batch is the same as acknowledging the
      longer batch at once. */
  lemma {:induction false} PopAfterKeep(q: Queue, acked: seq<string>, cid: string)
    ensures Pop(KeepUnacked(q, acked), cid) == KeepUnacked(q, acked + [cid])
  {
    if q != [] {
      PopAfterKeep(q[1..], acked, cid);
      if q[0].id !in acked {
        var rest := KeepUnacked(q[1..], acked);
        assert ([q[0]] + rest)[1..] == rest;
      }
    }
  }

  /** A command survives acknowledgement exactly when it was queued and its id
      was not acknowledged. */
  lemma {:induction false} KeepUnackedMembers(q: Queue, acked: seq<string>, c: Command)
    ensures c in KeepUnacked(q, acked) <==> c in q && c.id !in acked
  {
    if q != [] {
      KeepUnackedMembers(q[1..], acked, c);
      assert q == [q[0]] + q[1..];
    }
  }

  lemma {:induction false} KeepUnackedIds(q: Queue, acked: seq<string>, id: string)
    ensures id in Ids(KeepUnacked(q, acked)) ==> id in Ids(q)
  {
    if q != [] {
      KeepUnackedIds(q[1..], acked, id);
      IdsCons(q[0], q[1..]);
      assert q == [q[0]] + q[1..];
      if q[0].id !in acked {
        IdsCons(q[0], KeepUnacked(q[1..], acked));
      }
    }
  }

  lemma {:induction false} KeepUnackedKeepsUnique(q: Queue, acked: seq<string>)
    requires UniqueIds(q)
    ensures UniqueIds(KeepUnacked(q, acked))
  {
    if q != [] {
      assert q == [q[0]] + q[1..];
      UniqueCons(q[0], q[1..]);
      KeepUnackedKeepsUnique(q[1..], acked);
      if q[0].id !in acked {
        KeepUnackedIds(q[1..], acked, q[0].id);
        UniqueCons(q[0], KeepUnacked(q[1..], acked));
      }
    }
  }

  /** Acknowledging the same ids twice is the same as acknowledging them once. */
  lemma {:induction false} KeepUnackedIdempotent(q: Queue, acked: seq<string>)
    ensures KeepUnacked(KeepUnacked(q, acked), acked) == KeepUnacked(q, acked)
  {
    if q != [] {
      KeepUnackedIdempotent(q[1..], acked);
      if q[0].id !in acked {
        var rest := KeepUnacked(q[1..], acked);
        assert ([q[0]] + rest)[1..] == rest;
      }
    }
  }

  /** Ids that name no queued command are ignored. */
  lemma {:induction false} KeepUnackedUnknown(q: Queue, acked: seq<string>)
    requires forall i :: 0 <= i < |acked| ==> acked[i] !in Ids(q)
    ensures KeepUnacked(q, acked) == q
  {
    if q != [] {
      IdsCons(q[0], q[1..]);
      assert q == [q[0]] + q[1..];
      forall i | 0 <= i < |acked| ensures acked[i] != q[0].id {
        assert Ids(q)[0] == q[0].id;
      }
      KeepUnackedUnknown(q[1..], acked);
    }
  }

  lemma {:induction false} KeepUnackedConcat(p: Queue, q: Queue, acked: seq<string>)
    ensures KeepUnacked(p + q, acked) == KeepUnacked(p, acked) + KeepUnacked(q, acked)
  {
    if p == [] {
      assert p + q == q;
    } else {
      assert (p + q)[0] == p[0] && (p + q)[1..] == p[1..] + q;
      KeepUnackedConcat(p[1..], q, acked);
    }
  }

  /** A server that acknowledges everything one poll returned keeps exactly the
      commands that were queued after that poll. */
  lemma AckPolledKeepsNewer(polled: Queue, newer: Queue)
    requires UniqueIds(polled + newer)
    ensures KeepUnacked(polled + newer, Ids(polled)) == newer
  {
    var all := polled + newer;
    KeepUnackedConcat(polled, newer, Ids(polled));
    forall i | 0 <= i < |polled| ensures polled[i].id in Ids(polled) {
      assert Ids(polled)[i] == polled[i].id;
    }
    AckedAllOfItself(polled, Ids(polled));
    forall i | 0 <= i < |Ids(polled)| ensures Ids(polled)[i] !in Ids(newer) {
      forall j | 0 <= j < |newer| ensures Ids(newer)[j] != Ids(polled)[i] {
        assert all[i] == polled[i] && all[|polled| + j] == newer[j];
        assert all[i].id != all[|polled| + j].id;
      }
    }
    KeepUnackedUnknown(newer, Ids(polled));
  }

  lemma {:induction false} AckedAllOfItself(q: Queue, acked: seq<string>)
    requires forall i :: 0 <= i < |q| ==> q[i].id in acked
    ensures KeepUnacked(q, acked) == []
  {
    if q != [] {
      assert q[0].id in acked;
      AckedAllOfItself(q[1..], acked);
    }
  }

  /** The table after `get_queue(s)`: an empty queue is added for an unknown
      server, and nothing else changes. */
  function EnsureQueue(qs: Queues, s: string): (r: Queues)
    ensures s in r && r.Keys == qs.Keys + {s}
    ensures forall t :: t in qs ==> r[t] == qs[t]
    ensures s !in qs ==> r[s] == []
  {
    if s in qs then qs else qs[s := []]
  }

  /** The queue `get_queue(s)` returns: the existing one, or a new empty one. */
  function Pending(qs: Queues, s: string): (q: Queue)
    ensures q == EnsureQueue(qs, s)[s]
  {
    if s in qs then qs[s] else []
  }

  /** Creating a queue happens once: a second `get_queue(s)` changes nothing
      and returns the same commands as the first. */
  lemma RepeatedGetQueue(qs: Queues, s: string)
    ensures EnsureQueue(EnsureQueue(qs, s), s) == EnsureQueue(qs, s)
    ensures Pending(EnsureQueue(qs, s), s) == Pending(qs, s)
  {
  }

  /** `get_queue(s)[c.id] = c`. */
  function EnqueueOn(qs: Queues, s: string, c: Command): Queues {
    var t := EnsureQueue(qs, s);
    t[s := Insert(t[s], c)]
  }

  /** With a fresh id, exactly one command is appended, to that server's queue
      only; the only queue that can appear is that server's. */
  lemma EnqueueOnFresh(qs: Queues, s: string, c: Command)
    requires c.id !in Ids(Pending(qs, s))
    ensures EnqueueOn(qs, s, c).Keys == qs.Keys + {s}
    ensures EnqueueOn(qs, s, c)[s] == Pending(qs, s) + [c]
    ensures forall t :: t in qs && t != s ==> EnqueueOn(qs, s, c)[t] == qs[t]
  {
    InsertFresh(Pending(qs, s), c);
  }

  /** What `ack` leaves: the server's queue (created if unknown) without
      the acknowledged ids. */
  function AckOn(qs: Queues, s: string, ids: seq<string>): Queues {
    EnsureQueue(qs, s)[s := KeepUnacked(Pending(qs, s), ids)]
  }

  lemma AckOnTwice(qs: Queues, s: string, ids: seq<string>)
    ensures AckOn(AckOn(qs, s, ids), s, ids) == AckOn(qs, s, ids)
  {
    KeepUnackedIdempotent(Pending(qs, s), ids);
  }

  /** Acknowledging only ids the server's queue does not hold removes nothing. */
  lemma AckOnUnknown(qs: Queues, s: string, ids: seq<string>)
    requires forall i :: 0 <= i < |ids| ==> ids[i] !in Ids(Pending(qs, s))
    ensures AckOn(qs, s, ids) == EnsureQueue(qs, s)
  {
    KeepUnackedUnknown(Pending(qs, s), ids);
  }

  function BanCommand(id: string, userId: int, reason: string): Command {
    Command(id, Ban, userId, Reason(reason))
  }

  /** The ban fan-out: one `ban` command, with the id `idFor(s)`, inserted into
      every queue that already exists. */
  function BanEverywhere(qs: Queues, idFor: string -> string, userId: int, reason: string): Queues {
    map s | s in qs :: Insert(qs[s], BanCommand(idFor(s), userId, reason))
  }

  lemma BanEverywhereKeepsUnique(qs: Queues, idFor: string -> string, userId: int, reason: string)
    requires forall s :: s in qs ==> UniqueIds(qs[s])
    ensures forall s :: s in BanEverywhere(qs, idFor, userId, reason) ==> UniqueIds(BanEverywhere(qs, idFor, userId, reason)[s])
  {
    forall s | s in qs {
      InsertKeepsUnique(qs[s], BanCommand(idFor(s), userId, reason));
    }
  }

  /** The fan-out creates no queue, and with fresh ids appends exactly one ban
      for the user to each existing queue. */
  lemma BanEverywhereFresh(qs: Queues, idFor: string -> string, userId: int, reason: string)
    requires forall s :: s in qs ==> idFor(s) !in Ids(qs[s])
    ensures BanEverywhere(qs, idFor, userId, reason).Keys == qs.Keys
    ensures |BanEverywhere(qs, idFor, userId, reason)| == |qs|
    ensures forall s :: s in qs ==>
      BanEverywhere(qs, idFor, userId, reason)[s] == qs[s] + [BanCommand(idFor(s), userId, reason)]
  {
    var r := BanEverywhere(qs, idFor, userId, reason);
    assert r.Keys == qs.Keys;
    forall s | s in qs
      ensures r[s] == qs[s] + [BanCommand(idFor(s), userId, reason)]
    {
      InsertFresh(qs[s], BanCommand(idFor(s), userId, reason));
    }
  }
}
