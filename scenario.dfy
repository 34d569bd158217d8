/** A client of the relay: what a caller can conclude from the contracts
    alone, along the path a warning takes from the moderator to the game
    server and back. */
module Scenario {
  import opened Queues
  import opened Presence
  import opened Relay
  import BotCommands
  import Text

  /** A server reports two players; a moderator warns the first by mention;
      the server polls twice and receives the warning both times,
      acknowledges it and then polls an empty queue. */
  method WarningLifecycle(server: string, u: nat, other: nat, reasonWords: seq<string>, id: string, now: int)
    requires Text.AllWords(reasonWords)
  {
    var relay := new App("global", map[]);
    var players := [Player(u, "alice"), Player(other, "bob")];
    relay.Register(server, players, now);
    RegisteredEffect(map[], server, now, PlayerIds(players), u);
    assert PlayerIds(players)[0] == u;
    assert relay.userToServer[u] == Presence(server, now);

    var warning := WarnReported(relay, server, u, reasonWords, id, now);
    DeliveredUntilAcked(relay, server, warning);
  }

  /** A moderator's `!warn <@u> ..` for a user the server reported puts the
      warning, and nothing else, into that server's queue. */
  method WarnReported(relay: App, server: string, u: nat, reasonWords: seq<string>, id: string, now: int)
      returns (warning: Command)
    requires Text.AllWords(reasonWords)
    requires relay.Valid() && relay.serverQueues == map[]
    requires u in relay.userToServer && relay.userToServer[u].serverId == server
    modifies relay
    ensures relay.Valid() && relay.serverQueues == map[server := [warning]]
    ensures warning == Command(id, Warn, u, Reason(BotCommands.ReasonOf(reasonWords)))
  {
    var env := Environment("moderator", now, id, s => id + s, true);
    BotCommands.TypedWarnByMention(u, reasonWords);
    var reply := relay.OnMessage(BotCommands.WarnMessage(u, reasonWords), false, env);
    assert reply == CommandSent(Warn);
    warning := Command(id, Warn, u, Reason(BotCommands.ReasonOf(reasonWords)));
  }

  /** A server whose queue holds one command receives it on every poll until
      it acknowledges it, and then polls an empty queue. */
  method DeliveredUntilAcked(relay: App, server: string, c: Command)
    requires relay.Valid() && relay.serverQueues == map[server := [c]]
    modifies relay
  {
    var polled := relay.PollCommands(server);
    assert polled == [c];
    var again := relay.PollCommands(server);
    assert again == polled;

    relay.Ack(server, [c.id]);
    var afterAck := relay.PollCommands(server);
    assert afterAck == [];
  }

  /** A warning for a user whom no server reported is refused, and the queue
      of the server that did report stays empty. */
  method UnreportedUserRefused(server: string, u: nat, other: nat, stranger: nat, id: string, now: int)
    requires stranger != u && stranger != other
  {
    var relay := new App("global", map[]);
    var players := [Player(u, "alice"), Player(other, "bob")];
    relay.Register(server, players, now);
    var q := relay.GetQueue(server);
    assert q == [];
    RegisteredEffect(map[], server, now, PlayerIds(players), stranger);
    assert PlayerIds(players) == [u, other];

    var env := Environment("moderator", now, id, s => id + s, true);
    BotCommands.TypedWarnByMention(stranger, []);
    var refused := relay.OnMessage(BotCommands.WarnMessage(stranger, []), false, env);
    assert refused == NotInActiveServer;
    var polled := relay.PollCommands(server);
    assert polled == [];
  }
}
