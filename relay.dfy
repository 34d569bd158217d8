/** The relay process: its three in-memory dictionaries and the ban table,
    what each endpoint does to them, and how a parsed prefix command is
    routed. */
module Relay {
  import opened Queues
  import opened Presence
  import opened Bans
  import BotCommands
  import Text

  datatype RelayState = RelayState(
    userToServer: map<int, Presence>,
    serverQueues: Queues,
    joinCounts: map<int, int>,
    bans: Ledger)

  /** What the bot answers. */
  datatype Reply =
    | NoReply
    | HelpMenu
    | Refused(why: BotCommands.Rejection)
    | NotInActiveServer                     // "User not in any active server."
    | TeleportSent(userId: int, placeId: int)
    | CommandSent(action: Action)
    | BanDatabaseError                      // "Database error while banning."
    | GloballyBanned(userId: int)
    | Unbanned(userId: int)

  /** What the handler takes from outside the relay state: the author's name
      (the moderator), the database clock, the `uuid4()` of a single command,
      the `uuid4()` drawn for each server during the ban fan-out, and whether
      the ban upsert and its commit succeed. */
  datatype Environment = Environment(
    author: string,
    now: int,
    commandId: string,
    banIdFor: string -> string,
    banStored: bool)

  datatype Outcome = Outcome(state: RelayState, reply: Reply)

  /** A parsed prefix command applied to the relay state. */
  function Route(st: RelayState, network: string, req: BotCommands.Request, env: Environment): (r: Outcome)
    ensures r.state.userToServer == st.userToServer && r.state.joinCounts == st.joinCounts
    ensures req.Ignored? || req.ShowHelp? || req.Rejected? ==> r.state == st
    ensures r.state.bans != st.bans ==> req.GlobalBan? || req.GlobalUnban?
    ensures st.serverQueues.Keys <= r.state.serverQueues.Keys
    ensures r.state.serverQueues.Keys != st.serverQueues.Keys ==>
      && (req.Teleport? || req.SessionAction?) && req.userId in st.userToServer
      && r.state.serverQueues.Keys == st.serverQueues.Keys + {st.userToServer[req.userId].serverId}
  {
    match req
    case Ignored => Outcome(st, NoReply)
    case ShowHelp => Outcome(st, HelpMenu)
    case Rejected(why) => Outcome(st, Refused(why))
    case Teleport(u, place) =>
      if u !in st.userToServer then Outcome(st, NotInActiveServer)
      else
        var cmd := Command(env.commandId, ForceTeleport, u, Place(place));
        Outcome(st.(serverQueues := EnqueueOn(st.serverQueues, st.userToServer[u].serverId, cmd)),
                TeleportSent(u, place))
    case SessionAction(action, u, reason) =>
      if u !in st.userToServer then Outcome(st, NotInActiveServer)
      else
        var cmd := Command(env.commandId, action, u, Reason(reason));
        Outcome(st.(serverQueues := EnqueueOn(st.serverQueues, st.userToServer[u].serverId, cmd)),
                CommandSent(action))
    case GlobalBan(u, reason) =>
      if !env.banStored then Outcome(st, BanDatabaseError)
      else
        Outcome(st.(bans := Upsert(st.bans, BanKey(network, u), reason, env.author, env.now),
                    serverQueues := BanEverywhere(st.serverQueues, env.banIdFor, u, reason)),
                GloballyBanned(u))
    case GlobalUnban(u) =>
      Outcome(st.(bans := Delete(st.bans, BanKey(network, u))), Unbanned(u))
  }

  /** A request that needs a live session goes nowhere when the user has no
      entry, and the state stays as it was. */
  lemma UnmappedUserRejected(st: RelayState, network: string, req: BotCommands.Request, env: Environment)
    requires req.Teleport? || req.SessionAction?
    requires req.userId !in st.userToServer
    ensures Route(st, network, req, env) == Outcome(st, NotInActiveServer)
  {
  }

  /** With an entry for the user, exactly one command carrying the action,
      the user and the reason or place goes to the end of the mapped server's
      queue, and to no other; presence, counts and bans stay as they were. */
  lemma MappedUserGetsOneCommand(st: RelayState, network: string, req: BotCommands.Request, env: Environment)
    requires req.Teleport? || req.SessionAction?
    requires req.userId in st.userToServer
    requires env.commandId !in Ids(Pending(st.serverQueues, st.userToServer[req.userId].serverId))
    ensures var s := st.userToServer[req.userId].serverId;
            var after := Route(st, network, req, env).state;
            var cmd := if req.Teleport? then Command(env.commandId, ForceTeleport, req.userId, Place(req.placeId))
                       else Command(env.commandId, req.action, req.userId, Reason(req.reason));
            && after.serverQueues.Keys == st.serverQueues.Keys + {s}
            && after.serverQueues[s] == Pending(st.serverQueues, s) + [cmd]
            && (forall t :: t in st.serverQueues && t != s ==> after.serverQueues[t] == st.serverQueues[t])
            && after.(serverQueues := st.serverQueues) == st
  {
    var s := st.userToServer[req.userId].serverId;
    if req.Teleport? {
      EnqueueOnFresh(st.serverQueues, s, Command(env.commandId, ForceTeleport, req.userId, Place(req.placeId)));
    } else {
      EnqueueOnFresh(st.serverQueues, s, Command(env.commandId, req.action, req.userId, Reason(req.reason)));
    }
  }

  /** A ban whose upsert fails enqueues nothing and stores nothing. */
  lemma FailedBanChangesNothing(st: RelayState, network: string, u: int, reason: string, env: Environment)
    requires !env.banStored
    ensures Route(st, network, BotCommands.GlobalBan(u, reason), env) == Outcome(st, BanDatabaseError)
  {
  }

  /** A stored ban leaves the user banned with that reason, and puts exactly one
      `ban` command for the user at the end of every queue that existed
      before; no queue is created. */
  lemma StoredBanFansOut(st: RelayState, network: string, u: int, reason: string, env: Environment)
    requires env.banStored
    requires forall s :: s in st.serverQueues ==> env.banIdFor(s) !in Ids(st.serverQueues[s])
    ensures var after := Route(st, network, BotCommands.GlobalBan(u, reason), env).state;
            && Check(after.bans, BanKey(network, u)) == Banned(reason)
            && after.serverQueues.Keys == st.serverQueues.Keys
            && |after.serverQueues| == |st.serverQueues|
            && (forall s :: s in st.serverQueues ==>
                  after.serverQueues[s] == st.serverQueues[s] + [BanCommand(env.banIdFor(s), u, reason)])
            && after.userToServer == st.userToServer && after.joinCounts == st.joinCounts
  {
    BanEverywhereFresh(st.serverQueues, env.banIdFor, u, reason);
  }

  /** Unbanning leaves the user not banned, touches no queue, and unbanning a
      user who is not banned changes nothing. */
  lemma UnbanClears(st: RelayState, network: string, u: int, env: Environment)
    ensures var out := Route(st, network, BotCommands.GlobalUnban(u), env);
            && Check(out.state.bans, BanKey(network, u)) == NotBanned
            && out.state.serverQueues == st.serverQueues
            && (BanKey(network, u) !in st.bans ==> out.state == st)
            && out.reply == Unbanned(u)
  {
  }

  /** A message whose user id is no integer is answered "Invalid user ID." and
      changes nothing. */
  lemma NonIntegerIdChangesNothing(st: RelayState, network: string, parts: seq<string>, env: Environment)
    requires |parts| >= 2 && Text.Lower(parts[0]) != "help"
    requires Text.ParseInt(BotCommands.NormalizeMention(parts[1])) == Text.None
    ensures Route(st, network, BotCommands.ParseParts(parts), env)
         == Outcome(st, Refused(BotCommands.InvalidUserId))
  {
    BotCommands.NonIntegerIdRejected(parts);
  }

  /** The relay process. The fields are the module-level dictionaries of
      app.py and the `bans` table of the database it is connected to. */
  class App {
    const networkId: string
    var userToServer: map<int, Presence>
    var serverQueues: Queues
    var joinCounts: map<int, int>
    var bans: Ledger

    /** No queue holds two commands with one id (they are dictionary keys),
        and every recorded join count is at least one. */
    ghost predicate Valid()
      reads this
    {
      && (forall s :: s in serverQueues ==> UniqueIds(serverQueues[s]))
      && (forall u :: u in joinCounts ==> joinCounts[u] >= 1)
    }

    ghost function State(): RelayState
      reads this
    {
      RelayState(userToServer, serverQueues, joinCounts, bans)
    }

    /** A fresh process: empty dictionaries, and the ban table as the database
        holds it. */
    constructor (networkId: string, ledger: Ledger)
      ensures Valid()
      ensures this.networkId == networkId
      ensures State() == RelayState(map[], map[], map[], ledger)
    {
      this.networkId := networkId;
      userToServer := map[];
      serverQueues := map[];
      joinCounts := map[];
      bans := ledger;
    }

    /** `get_queue(serverId)`. */
    method GetQueue(serverId: string) returns (q: Queue)
      requires Valid()
      modifies this
      ensures Valid()
      ensures serverQueues == EnsureQueue(old(serverQueues), serverId)
      ensures q == Pending(old(serverQueues), serverId) && q == serverQueues[serverId]
      ensures userToServer == old(userToServer) && joinCounts == old(joinCounts) && bans == old(bans)
    {
      if serverId !in serverQueues {
        serverQueues := serverQueues[serverId := []];
      }
      q := serverQueues[serverId];
    }

    /** `register-server`: every listed player is mapped to the reporting
        server and has its join count raised by one per listing. */
    method Register(serverId: string, players: seq<Player>, now: int)
      requires Valid()
      modifies this
      ensures Valid()
      ensures userToServer == Registered(old(userToServer), serverId, now, PlayerIds(players))
      ensures joinCounts == Bumped(old(joinCounts), PlayerIds(players))
      ensures serverQueues == old(serverQueues) && bans == old(bans)
    {
      ghost var ids := PlayerIds(players);
      // The model writes into copies of the two dictionaries and stores them
      // once the loop is done.
      var presence, counts := userToServer, joinCounts;
      var i := 0;
      while i < |players|
        invariant 0 <= i <= |players|
        invariant presence == Registered(old(userToServer), serverId, now, ids[..i])
        invariant counts == Bumped(old(joinCounts), ids[..i])
        modifies {}
      {
        var u := players[i].userId;
        assert ids[..i + 1][..i] == ids[..i] && ids[..i + 1][i] == u;
        presence := presence[u := Presence(serverId, now)];
        counts := counts[u := (if u in counts then counts[u] else 0) + 1];
        i := i + 1;
      }
      assert ids[..|players|] == ids;
      forall u | u in counts ensures counts[u] >= 1 {
        BumpedPositive(old(joinCounts), ids, u);
      }
      userToServer, joinCounts := presence, counts;
    }

    /** `poll-commands`: every queued command, in insertion order; the queue is
        created if the server is new, and nothing is removed. */
    method PollCommands(serverId: string) returns (commands: seq<Command>)
      requires Valid()
      modifies this
      ensures Valid()
      ensures commands == Pending(old(serverQueues), serverId)
      ensures serverQueues == EnsureQueue(old(serverQueues), serverId)
      ensures userToServer == old(userToServer) && joinCounts == old(joinCounts) && bans == old(bans)
    {
      commands := GetQueue(serverId);
    }

    /** `ack`: each listed id is popped from the server's queue if it is there;
        the queue is created if the server is new. */
    method Ack(serverId: string, ids: seq<string>)
      requires Valid()
      modifies this
      ensures Valid()
      ensures serverQueues == AckOn(old(serverQueues), serverId, ids)
      ensures userToServer == old(userToServer) && joinCounts == old(joinCounts) && bans == old(bans)
    {
      var q := GetQueue(serverId);
      ghost var start := q;
      KeepUnackedUnknown(start, []);
      // `q` is the dictionary stored for the server, popped in place; the
      // model pops a copy and stores it once the loop is done.
      var i := 0;
      while i < |ids|
        invariant 0 <= i <= |ids|
        invariant q == KeepUnacked(start, ids[..i])
        modifies {}
      {
        PopAfterKeep(start, ids[..i], ids[i]);
        assert ids[..i] + [ids[i]] == ids[..i + 1];
        q := Pop(q, ids[i]);
        i := i + 1;
      }
      assert ids[..|ids|] == ids;
      KeepUnackedKeepsUnique(start, ids);
      serverQueues := serverQueues[serverId := q];
    }

    /** `player-left`: the user's entry goes, whichever server reported the
        departure; a user without an entry is ignored. */
    method PlayerLeft(userId: int)
      requires Valid()
      modifies this
      ensures Valid()
      ensures userToServer == old(userToServer) - {userId}
      ensures serverQueues == old(serverQueues) && joinCounts == old(joinCounts) && bans == old(bans)
    {
      userToServer := userToServer - {userId};
    }

    /** `check-ban`: the ban row of this network for the user, if any. */
    method CheckBan(userId: int) returns (status: BanStatus)
      ensures status == Check(bans, BanKey(networkId, userId))
    {
      status := Check(bans, BanKey(networkId, userId));
    }

    /** The fan-out loop of `!ban`: every queue that exists receives one `ban`
        command under the id drawn for it. */
    method FanOutBan(userId: int, reason: string, idFor: string -> string) returns (enqueued: nat)
      requires Valid()
      modifies this
      ensures Valid()
      ensures serverQueues == BanEverywhere(old(serverQueues), idFor, userId, reason)
      ensures enqueued == |old(serverQueues)|
      ensures userToServer == old(userToServer) && joinCounts == old(joinCounts) && bans == old(bans)
    {
      ghost var before := serverQueues;
      ghost var after := BanEverywhere(before, idFor, userId, reason);
      // The queues are updated in place in the table; the model updates a
      // copy of the table and stores it once the loop is done.
      var qs := serverQueues;
      var remaining := qs.Keys;
      enqueued := 0;
      while remaining != {}
        invariant remaining <= before.Keys
        invariant qs.Keys == before.Keys
        invariant forall s :: s in qs ==> qs[s] == if s in remaining then before[s] else after[s]
        invariant enqueued + |remaining| == |before.Keys|
        modifies {}
        decreases remaining
      {
        var s :| s in remaining;
        // get_queue(s) only looks up here: every key of the snapshot exists.
        var q := qs[s];
        qs := qs[s := Insert(q, BanCommand(idFor(s), userId, reason))];
        enqueued := enqueued + 1;
        remaining := remaining - {s};
      }
      assert |before.Keys| == |before|;
      assert qs == after;
      BanEverywhereKeepsUnique(before, idFor, userId, reason);
      serverQueues := qs;
    }

    /** `on_message`: the message is parsed, then routed against the state. */
    method OnMessage(content: string, fromBot: bool, env: Environment) returns (reply: Reply)
      requires Valid()
      requires BotCommands.Parsable(content, fromBot)
      modifies this
      ensures Valid()
      ensures Outcome(State(), reply)
           == Route(old(State()), networkId, BotCommands.Parse(content, fromBot), env)
    {
      var req := BotCommands.Parse(content, fromBot);
      match req {
        case Ignored =>
          reply := NoReply;
        case ShowHelp =>
          reply := HelpMenu;
        case Rejected(why) =>
          reply := Refused(why);
        case Teleport(u, place) =>
          if u !in userToServer {
            reply := NotInActiveServer;
          } else {
            var entry := userToServer[u];
            var q := GetQueue(entry.serverId);
            var cmd := Command(env.commandId, ForceTeleport, u, Place(place));
            InsertKeepsUnique(q, cmd);
            serverQueues := serverQueues[entry.serverId := Insert(q, cmd)];
            reply := TeleportSent(u, place);
          }
        case SessionAction(action, u, reason) =>
          if u !in userToServer {
            reply := NotInActiveServer;
          } else {
            var entry := userToServer[u];
            var q := GetQueue(entry.serverId);
            var cmd := Command(env.commandId, action, u, Reason(reason));
            InsertKeepsUnique(q, cmd);
            serverQueues := serverQueues[entry.serverId := Insert(q, cmd)];
            reply := CommandSent(action);
          }
        case GlobalBan(u, reason) =>
          if !env.banStored {
            reply := BanDatabaseError;
          } else {
            bans := Upsert(bans, BanKey(networkId, u), reason, env.author, env.now);
            var _ := FanOutBan(u, reason, env.banIdFor);
            reply := GloballyBanned(u);
          }
        case GlobalUnban(u) =>
          bans := Delete(bans, BanKey(networkId, u));
          reply := Unbanned(u);
      }
    }
  }
}
