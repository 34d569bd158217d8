# Moderation relay: a Dafny model

This project models the core of a moderation relay for a network of game
servers, written in Python as one FastAPI application with a chat bot
attached (`app.py`). The relay keeps three dictionaries in memory:

- `user_to_server` says where each player was last reported.
- `server_queues` holds one command queue per game server.
- `join_counts` counts how often each player was reported.

It also reads and writes a `bans` table in a database. Game servers call
HTTP endpoints to do four things: report their players (`register-server`),
fetch their queued commands (`poll-commands`), acknowledge commands they
have carried out (`ack`), and report departures (`player-left`). They also
ask whether a joining player is banned (`check-ban`). Moderators type prefix
commands in the chat (`!warn`, `!unwarn`, `!kick`, `!forceteleport`, `!ban`,
`!unban`, `!help`). The bot parses each command and routes it to a server's
queue, to the ban table, or to both.

The model has seven modules:

- `Text` covers what the parser needs from Python strings: `str.split()`,
  `" ".join`, `str.lower()`, `str.replace(p, "")` and `int()`.
- `Queues` models a command queue. A queue is a Python dictionary from
  command id to command, kept in insertion order. The model holds it as the
  sequence of its values, and an invariant says that no two values share an
  id. This module also covers `get_queue`, polling, acknowledgement and the
  fan-out of a ban to every queue.
- `Presence` covers what a `register-server` report does to `user_to_server`
  and `join_counts`.
- `Bans` models the three SQL statements as operations on a map keyed by
  (network, user).
- `BotCommands` covers `on_message` up to the point where it reads or writes
  state: the words of the message, the id argument (a mention is unwrapped),
  the reason, and the order of the checks.
- `Relay` holds two things:
  - `Route`, which applies a parsed request to the whole state;
  - the class `App`, whose fields are the dictionaries and the ban table and
    whose methods are the endpoints and `on_message`. Each method is proved
    against the functions of the modules above.
- `Scenario` is a client of `App`. It shows, from the contracts alone, that
  on a fresh relay where one server reported two user ids, for any reason
  words and any command id, a warning of the first user is returned by
  repeated polls and is gone after its id is acknowledged. It also shows that
  a warning for a third user, whom nobody reported, is refused.

Some inputs come from outside the relay. The model takes each of them as a
parameter:

- the result of `uuid.uuid4()`: one id for a single command, and a function
  from server to id for the ban fan-out;
- the result of `time.time()`: one integer for the whole report;
- the author of the message;
- the database clock;
- whether the ban upsert succeeded.

Where the code and its design description disagree, the model follows the
code:

- `poll-commands` and `ack` call `get_queue`, so both create an empty queue
  for a server they have not seen (`Relay.App.PollCommands`,
  `Relay.App.Ack`). The design calls polling read-only. Creating the queue
  matters: a later `!ban` fans out to that queue too.
- Polling returns the whole queue. The design mentions a page size of 25;
  the code has no cap.
- A repeat `!ban` updates only `reason` and `banned_at`, because that is what
  the SQL `ON CONFLICT … DO UPDATE` sets. The moderator of the first ban is
  kept (`Bans.RepeatBan`). The design says the moderator is overwritten.
- There is no freshness threshold on presence and no store for actions
  against offline users. A command for an unreported user is refused. After
  a `player-left` the user has no entry, whichever server sent it.
- `!unban` deletes the row and enqueues nothing.

## Model

| member | source | states |
|---|---|---|
| `Relay.App.constructor` | app.py:42-44 | the process starts with empty dictionaries and the ban table the database holds |
| `Relay.App.GetQueue` | app.py:78-81 | the returned queue is the server's existing queue, or a new empty one that is now stored; no other entry and no other dictionary changes |
| `Relay.App.Register` | app.py:269-282 | after the report every listed player maps to the server with the report's time; each count rises by the number of listings; queues and bans are untouched; counts stay at least one |
| `Relay.App.PollCommands` | app.py:312-320 | the result is every pending command of the server in insertion order; nothing is removed; an unknown server gets an empty queue |
| `Relay.App.Ack` | app.py:323-335 | the server's queue loses exactly the commands whose ids were listed, and keeps its order; other queues and dictionaries are untouched |
| `Relay.App.PlayerLeft` | app.py:370-378 | the user's entry is removed, or nothing happens without one; nothing else changes |
| `Relay.App.CheckBan` | app.py:354-367 | the answer is `Bans.Check` of this network's key, which is banned exactly when there is a row for the user, with that row's reason |
| `Relay.App.FanOutBan` | app.py:228-238 | every existing queue receives one ban command under the id drawn for it; the count returned equals the number of queues; ids stay unique |
| `Relay.App.OnMessage` | app.py:104-263 | the new state and the reply are what `Route` gives for the parsed message; the class invariant is kept |
| `Relay.Route` | app.py:104-263 | presence and join counts never change; ignored, help and rejected messages change nothing; only ban and unban touch the ban table; a queue is created only for the mapped server of a teleport or session command |
| `Relay.UnmappedUserRejected` | app.py:163-192 | a teleport, warn, unwarn or kick for a user without an entry is refused and changes nothing |
| `Relay.MappedUserGetsOneCommand` | app.py:168-205 | for a user with an entry, exactly one command with the action, user and reason or place is appended to the mapped server's queue and to no other; nothing else changes |
| `Relay.FailedBanChangesNothing` | app.py:211-226 | a ban whose database write fails is answered with the error and changes nothing |
| `Relay.StoredBanFansOut` | app.py:210-241 | a stored ban makes the user banned with that reason and appends one ban command to every queue that existed before; no queue is created; presence and counts are untouched |
| `Relay.UnbanClears` | app.py:246-254 | after unban the user is not banned and no queue changed; unbanning a user who is not banned changes nothing |
| `Relay.NonIntegerIdChangesNothing` | app.py:140-144 | a command whose id argument is not an integer is answered "Invalid user ID." and changes nothing |
| `BotCommands.Parse` | app.py:105-110 | a message is ignored exactly when it comes from a bot or lacks the prefix |
| `BotCommands.ParseParts` | app.py:109-263 | help is chosen exactly when the first word lower-cases to `help`; every state-changing request carries the parsed id; teleports carry the parsed place; warn, unwarn, kick and ban carry the joined reason; only warn, unwarn and kick become session actions |
| `BotCommands.CommandDecided` | app.py:129-263 | the other direction: without arguments the answer is "Missing arguments."; an unreadable id gives "Invalid user ID."; with a readable id `u`, `warn`, `unwarn` and `kick` give that session action for `u` with the joined reason, `ban` a global ban with it, `unban` a global unban, `forceteleport` the usage message, "Invalid place ID." or a teleport to the parsed place, and any other word "Unknown command." |
| `BotCommands.CommandWordCaseInsensitive` | app.py:109 | a message is decided as if its command word had been typed in lower case |
| `BotCommands.NormalizeMention` | app.py:136-138 | unwraps `<@…>` mentions by erasing `<@`, `>` and `!`; `BotCommands.MentionOfUser` and `BotCommands.MentionNormalised` state what it yields |
| `BotCommands.ReasonOf` | app.py:146 | `" ".join(args[1:]) or "Rule violation"` on the words after the id; `BotCommands.ReasonIsRestOfArgs` states what it yields |
| `BotCommands.Parsable` | app.py:108-109 | the messages whose handling does not stop at `parts[0]` with an `IndexError`; `BotCommands.Parse` and `Relay.App.OnMessage` require it |
| `BotCommands.ReasonIsRestOfArgs` | app.py:146 | the reason is the default when no word follows the id; otherwise it is those words joined by single spaces, and splitting it gives them back |
| `BotCommands.MentionOfUser` | app.py:136-141 | both `<@n>` and `<@!n>` normalise to the decimal digits of `n` |
| `BotCommands.MentionNormalised` | app.py:137-138 | after unwrapping a mention no `>` or `!` is left and every remaining character comes from the argument; a non-mention is used as it is |
| `BotCommands.NonIntegerIdRejected` | app.py:140-144 | an id argument that `int()` rejects stops every command but help |
| `BotCommands.WarnByMention` | app.py:136-146 | `warn <@n> w1 .. wk` warns user `n` with the reason `BotCommands.ReasonOf` gives for `w1 .. wk`: the words, or the default when there are none |
| `BotCommands.ParseOfTypedWords` | app.py:105-110 | the prefix followed by words joined with single spaces is decided on exactly those words |
| `BotCommands.TypedWarnByMention` | app.py:105-146 | the typed message `!warn <@n> w1 .. wk` can be taken apart and warns user `n` with the reason `BotCommands.ReasonOf` gives for `w1 .. wk` |
| `Queues.Insert` | app.py:176-202 | `queue[c.id] = c`: `Queues.InsertFresh`, `Queues.InsertExisting` and `Queues.InsertKeepsUnique` state that a new id is appended, a present one replaced where it stands, and ids stay unique |
| `Queues.KeepUnacked` | app.py:332-333 | the queue after popping every listed id; the `Queues.KeepUnacked…` lemmas state which commands survive, in which order, and that it is idempotent |
| `Queues.Pop` | app.py:333 | `q.pop(cid, None)`; `Queues.PopAfterKeep` states that popping the ids one at a time equals `Queues.KeepUnacked` of the whole list |
| `Queues.EnqueueOn` | app.py:175-176 | `get_queue(s)[c.id] = c` on the table; `Queues.EnqueueOnFresh` states that with a fresh id exactly one command is appended to that queue only |
| `Queues.AckOn` | app.py:330-333 | the table after `ack`; `Queues.AckOnTwice` and `Queues.AckOnUnknown` state its idempotence and that unknown ids remove nothing |
| `Queues.BanEverywhere` | app.py:228-237 | the table after the ban fan-out; `Queues.BanEverywhereFresh` and `Queues.BanEverywhereKeepsUnique` state that every queue gets one ban command and no queue is created |
| `Queues.BanCommand` | app.py:231-236 | the command literal of the ban fan-out: action `ban`, the user and the reason under the drawn id; `Queues.BanEverywhereFresh` states that each queue receives exactly this command |
| `Queues.InsertFresh` | app.py:202 | storing a command under a new id appends it at the end |
| `Queues.InsertExisting` | app.py:202 | storing a command under an id that is present replaces that entry where it stands |
| `Queues.InsertKeepsUnique` | app.py:176 | storing a command keeps the ids unique, and the command is then in the queue |
| `Queues.PopAfterKeep` | app.py:332-333 | popping one more id after a batch equals acknowledging the longer batch |
| `Queues.KeepUnackedMembers` | app.py:332-333 | a command survives acknowledgement exactly when it was queued and its id was not listed |
| `Queues.KeepUnackedKeepsUnique` | app.py:332-333 | popping ids keeps them unique |
| `Queues.KeepUnackedIdempotent` | app.py:332-333 | acknowledging the same ids twice is the same as once |
| `Queues.KeepUnackedUnknown` | app.py:332-333 | ids that name no queued command remove nothing |
| `Queues.KeepUnackedConcat` | app.py:332-333 | acknowledgement works on each part of a queue separately, keeping order |
| `Queues.AckPolledKeepsNewer` | app.py:312-335 | acknowledging everything one poll returned leaves exactly the commands enqueued after that poll |
| `Queues.AckedAllOfItself` | app.py:332-333 | acknowledging every id of a queue empties it |
| `Queues.EnsureQueue` | app.py:78-81 | `get_queue` adds only the asked-for server, with an empty queue when it is new, and keeps every existing queue |
| `Queues.Pending` | app.py:78-81 | the returned queue is the one stored for the server afterwards |
| `Queues.RepeatedGetQueue` | app.py:78-81 | a second `get_queue` for the same server changes nothing and returns the same queue |
| `Queues.EnqueueOnFresh` | app.py:201-202 | enqueueing under a fresh id appends exactly one command to that server's queue and leaves the others alone |
| `Queues.AckOnTwice` | app.py:330-333 | a repeated `ack` with the same ids changes nothing more |
| `Queues.AckOnUnknown` | app.py:330-333 | an `ack` with only unknown ids removes nothing, though it may create the queue |
| `Queues.BanEverywhereKeepsUnique` | app.py:228-237 | the ban fan-out keeps every queue's ids unique |
| `Queues.BanEverywhereFresh` | app.py:228-237 | the fan-out creates no queue and, with fresh ids, appends exactly one ban command to each |
| `Presence.PlayerIds` | app.py:274-275 | the ids are those of the listed players, in order |
| `Presence.Registered` | app.py:274-278 | `user_to_server` after the report loop; `Presence.RegisteredEffect` and `Presence.LastReportWins` state where each user then is |
| `Presence.Bumped` | app.py:280 | `join_counts` after the report loop; `Presence.BumpedEffect`, `Presence.BumpedTwice` and `Presence.BumpedPositive` state how the counts rise |
| `Presence.CountOf` | app.py:280 | `join_counts.get(u, 0)`; `Presence.BumpedEffect` states the counts in its terms |
| `Presence.RegisteredEffect` | app.py:274-278 | every listed user points at the reporting server whatever it pointed at before; everyone else's entry or its absence is untouched |
| `Presence.LastReportWins` | app.py:274-278 | of two reports that list a user, the later one decides where the user is |
| `Presence.OccurrencesAppend` | app.py:274-280 | listings of a user in two reports add up |
| `Presence.OccurrencesPositive` | app.py:274-280 | a user is listed exactly when the number of listings is positive |
| `Presence.BumpedEffect` | app.py:280 | a count rises by the number of times the report lists the user; no other count changes or appears |
| `Presence.BumpedTwice` | app.py:280 | two reports count the same as one report listing both |
| `Presence.BumpedPositive` | app.py:280 | every recorded count stays at least one |
| `Bans.Check` | app.py:357-367 | banned exactly when the key has a row, with that row's reason |
| `Bans.Upsert` | app.py:213-222 | afterwards the user is banned with the new reason at the new time; a new row takes the author as moderator, an existing row keeps its moderator; other rows are untouched |
| `Bans.Delete` | app.py:248-253 | afterwards the user is not banned; deleting an absent row changes nothing; other rows are untouched |
| `Bans.RepeatBan` | app.py:213-222 | a second ban replaces reason and time and keeps the first moderator |
| `Bans.UpsertIdempotent` | app.py:213-222 | banning twice with identical values is the same as once |
| `Bans.DeleteIdempotent` | app.py:248-253 | unbanning twice is the same as once |
| `Text.WordLength` | app.py:108 | the length of the first run of non-whitespace characters, ended by whitespace or the end of the text |
| `Text.WordsAreWords` | app.py:108 | `split()` yields only non-empty words without whitespace |
| `Text.WordsOfJoin` | app.py:108 | splitting words joined with single spaces gives back those words |
| `Text.JoinOfWordsNonEmpty` | app.py:146 | joining words is empty exactly when there are none, so the default reason applies exactly then |
| `Text.LowerOfLower` | app.py:109 | lower-casing leaves lower-case words alone and is idempotent, which makes the command word case-insensitive (`BotCommands.CommandWordCaseInsensitive`) |
| `Text.IsSpace` | app.py:108 | the characters Python's `str.isspace()` accepts, which `split()` separates on; the `strip()` at app.py:136 uses the same set and has nothing to remove from a split word |
| `Text.StartsWith` | app.py:105-137 | `str.startswith`: the prefix test of the message and of a mention |
| `Text.EndsWith` | app.py:137 | `str.endswith`: the closing `>` test of a mention |
| `Text.Words` | app.py:108 | `str.split()`: `Text.WordsAreWords` and `Text.WordsOfJoin` state that it yields words without whitespace and undoes a single-space join |
| `Text.Join` | app.py:146 | `" ".join`: `Text.WordsOfJoin` and `Text.JoinOfWordsNonEmpty` state that splitting gives the words back and that it is empty only for no words |
| `Text.Lower` | app.py:109 | `str.lower()` on `A`-`Z` and the Kelvin sign; `Text.LowerOfLower` states its fixed points and idempotence |
| `Text.Erase` | app.py:138 | `str.replace(p, "")`: the `Text.Erase…` lemmas state that it only removes characters, leaves no single-character pattern behind and skips prefixes that cannot hold the pattern |
| `Text.ParseInt` | app.py:141 | `int()` on a split word: `Text.ParseIntString` and `Text.NonNumericRejected` state that it reads back every `str(i)` and rejects texts with foreign characters |
| `Text.EraseKeepsOnlyOriginals` | app.py:138 | `replace(p, "")` only removes characters |
| `Text.EraseSingleRemovesAll` | app.py:138 | `replace(c, "")` leaves no `c` |
| `Text.EraseSkipsPrefix` | app.py:138 | no occurrence can start in a prefix that lacks the pattern's first character |
| `Text.EraseAbsent` | app.py:138 | a text without the pattern's first character is left as it is |
| `Text.DecimalIsDigits` | app.py:141 | `str(n)` is a non-empty digit string whose value is `n` |
| `Text.ParseIntString` | app.py:141 | `int(str(i)) == i` for every integer |
| `Text.NonNumericRejected` | app.py:141 | a text holding a character that is not a digit, sign or underscore is rejected by `int()` |

## Left out

- The Discord client itself is not modelled: connecting, `on_ready`, the reply texts and embeds, webhooks and `make_embed`, and the join-count colour threshold. These are I/O; the bot's answer is the `Reply` value.
- The `chat`, `teleport-attempt`, `health` and startup endpoints and the request-logging middleware are not modelled. They only log, forward to webhooks or report liveness, and change none of the modelled state.
- `verify` (the shared-secret header check) is not modelled. It can only refuse a request before any state is touched.
- Missing JSON keys raise `KeyError` and are not modelled. For `ack`, `player-left` and the top level of `register-server` this happens before any change. Inside the `register-server` loop, `p["userId"]` (app.py:275) and `p["username"]` (app.py:288) are read after the earlier players, and for `username` this player too, were mapped and counted; such a failure leaves a partly applied report, which the model does not represent. The `userId`s in bodies are taken to be integers, as the dictionaries' types say.
- The `IndexError` raised when nothing but whitespace follows the prefix is not modelled. `BotCommands.Parsable` excludes such messages, and `Relay.App.OnMessage` requires it.
- Database failures are modelled only on the `!ban` path (`banStored`). A failed `!unban` delete or commit is caught (app.py:255-257), answered with "Database error while unbanning." and leaves the table as it was; the model has no such outcome, and `Relay.Route` always deletes the row. A failed `check-ban` query raises out of the handler (app.py:357-362) and is not modelled either.
- The default of the `banned_at` column is not part of this model. A newly inserted row is taken to be stamped with the same clock as an update.
- `uuid.uuid4()` and `time.time()` are parameters. The model does not assume that ids are fresh. A clashing id replaces the queued command, as the dictionary would (`Queues.InsertExisting`); the lemmas that speak of appending require fresh ids.
- `time.time()` is a float and is read again for every player (app.py:277), so the source stamps the players of one report with slightly different times. The model uses one integer clock value for the whole report.
- Interleaving at `await` points is not modelled. Each handler's effect on the dictionaries is one atomic step.
- `Text.Lower` maps only `A`-`Z` and the Kelvin sign. Python's full Unicode lower-casing of other letters is not modelled. Only the ASCII command names are compared, and among characters outside ASCII only the Kelvin sign lower-cases to one of their letters.
- `Text.ParseInt` accepts only ASCII digits with an optional sign and single underscores, which is what the arguments seen here contain. Python's `int()` also accepts other Unicode decimal digits. Whitespace is excluded, because split words hold none.
- `Text.IsSpace` lists Python's whitespace characters, as `str.split()` uses them.
- `Relay.App.FanOutBan` reads each queue directly. In the source it calls `get_queue`, which cannot create a queue here because every server in the snapshot already has one.
- `Relay.App.Register` is weaker than the source in three ways. It gives every listed player one shared time where the source reads the clock per player. It treats the report as one step, although the source awaits a webhook after each player (app.py:282-295), so other handlers can run between players. And a webhook that raises, or a malformed player entry, leaves only the first players registered and counted in the source, which the model does not represent. Its loop also writes into local copies of the two dictionaries, which are stored once the loop ends.
- `Relay.App.Ack` and `Relay.App.FanOutBan` do not update the table in place inside their loops. Their loops write into a local copy, which is stored once the loop ends. These loops contain no `await`, so no other handler runs in between and the resulting state is the same.
