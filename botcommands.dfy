/** The text side of the chat bot's `on_message` handler: how a message such
    as `!warn <@123> spamming` becomes a request, before any state is read or
    written. */
module BotCommands {
  import opened Text
  import Queues

  const Prefix: string := "!"

  const DefaultReason: string := "Rule violation"

  /** The replies that end a message before it reaches the relay state. */
  datatype Rejection =
    | MissingArguments   // "Missing arguments."
    | InvalidUserId      // "Invalid user ID."
    | TeleportUsage      // "Usage: !forceteleport <userid> <placeid>"
    | InvalidPlaceId     // "Invalid place ID."
    | UnknownCommand     // "Unknown command. ..."

  datatype Request =
    | Ignored                                              // from a bot, or no prefix
    | ShowHelp
    | Rejected(why: Rejection)
    | Teleport(userId: int, placeId: int)
    | SessionAction(action: Queues.Action, userId: int, reason: string)  // warn, unwarn, kick
    | GlobalBan(userId: int, reason: string)
    | GlobalUnban(userId: int)

  /** The user-id argument with a mention wrapper taken apart: when it starts
      with `<@` and ends with `>`, every `<@`, every `>` and every `!` in it
      is removed. */
  function NormalizeMention(raw: string): string {
    if StartsWith(raw, "<@") && EndsWith(raw, ">") then
      Erase(Erase(Erase(raw, "<@"), ">"), "!")
    else raw
  }

  /** `" ".join(args[1:]) or "Rule violation"`, given the words `args[1:]`
      that follow the user id. */
  function ReasonOf(rest: seq<string>): string {
    var text := Join(rest);
    if text == "" then DefaultReason else text
  }

  /** The command words the handler knows. */
  const CommandWords: set<string> := {"help", "forceteleport", "warn", "unwarn", "kick", "ban", "unban"}

  /** Messages the handler can take apart: `parts[0]` raises `IndexError` when
      nothing but whitespace follows the prefix, so such messages are
      excluded. */
  predicate Parsable(content: string, fromBot: bool) {
    fromBot || !StartsWith(content, Prefix) || Words(content[|Prefix|..]) != []
  }

  /** The decision made on the words after the prefix; the checks come in the
      order the handler makes them. */
  function ParseParts(parts: seq<string>): (r: Request)
    requires parts != []
    ensures r != Ignored
    ensures r == ShowHelp <==> Lower(parts[0]) == "help"
    ensures r.Teleport? || r.SessionAction? || r.GlobalBan? || r.GlobalUnban? ==>
      |parts| >= 2 && ParseInt(NormalizeMention(parts[1])) == Some(r.userId)
    ensures r.Teleport? ==> |parts| >= 3 && ParseInt(parts[2]) == Some(r.placeId)
    ensures |parts| >= 2 && (r.SessionAction? || r.GlobalBan?) ==> r.reason == ReasonOf(parts[2..])
    ensures r.SessionAction? ==> r.action in {Queues.Warn, Queues.Unwarn, Queues.Kick}
  {
    var cmd := Lower(parts[0]);
    var args := parts[1..];
    if cmd == "help" then ShowHelp
    else if args == [] then Rejected(MissingArguments)
    else
      match ParseInt(NormalizeMention(args[0]))
      case None => Rejected(InvalidUserId)
      case Some(userId) =>
        var reason := ReasonOf(args[1..]);
        if cmd == "forceteleport" then
          if |args| < 2 then Rejected(TeleportUsage)
          else
            match ParseInt(args[1])
            case None => Rejected(InvalidPlaceId)
            case Some(placeId) => Teleport(userId, placeId)
        else if cmd == "warn" then SessionAction(Queues.Warn, userId, reason)
        else if cmd == "unwarn" then SessionAction(Queues.Unwarn, userId, reason)
        else if cmd == "kick" then SessionAction(Queues.Kick, userId, reason)
        else if cmd == "ban" then GlobalBan(userId, reason)
        else if cmd == "unban" then GlobalUnban(userId)
        else Rejected(UnknownCommand)
  }

  /** Which request each command produces, in the order the handler checks:
      missing arguments, then the user id, then the command word. */
  lemma CommandDecided(parts: seq<string>)
    requires parts != []
    ensures Lower(parts[0]) != "help" && |parts| == 1 ==> ParseParts(parts) == Rejected(MissingArguments)
    ensures Lower(parts[0]) != "help" && |parts| >= 2 && ParseInt(NormalizeMention(parts[1])) == None ==>
      ParseParts(parts) == Rejected(InvalidUserId)
    ensures Lower(parts[0]) != "help" && |parts| >= 2 && ParseInt(NormalizeMention(parts[1])).Some? ==>
      var w, u, reason := Lower(parts[0]), ParseInt(NormalizeMention(parts[1])).value, ReasonOf(parts[2..]);
      && (w == "warn" ==> ParseParts(parts) == SessionAction(Queues.Warn, u, reason))
      && (w == "unwarn" ==> ParseParts(parts) == SessionAction(Queues.Unwarn, u, reason))
      && (w == "kick" ==> ParseParts(parts) == SessionAction(Queues.Kick, u, reason))
      && (w == "ban" ==> ParseParts(parts) == GlobalBan(u, reason))
      && (w == "unban" ==> ParseParts(parts) == GlobalUnban(u))
      && (w == "forceteleport" && |parts| == 2 ==> ParseParts(parts) == Rejected(TeleportUsage))
      && (w == "forceteleport" && |parts| >= 3 && ParseInt(parts[2]) == None ==> ParseParts(parts) == Rejected(InvalidPlaceId))
      && (w == "forceteleport" && |parts| >= 3 && ParseInt(parts[2]).Some? ==> ParseParts(parts) == Teleport(u, ParseInt(parts[2]).value))
      && (w !in CommandWords ==> ParseParts(parts) == Rejected(UnknownCommand))
  {
  }

  /** `on_message` up to the point where it reads or writes state. */
  function Parse(content: string, fromBot: bool): (r: Request)
    requires Parsable(content, fromBot)
    ensures r == Ignored <==> fromBot || !StartsWith(content, Prefix)
  {
    if fromBot || !StartsWith(content, Prefix) then Ignored
    else ParseParts(Words(content[|Prefix|..]))
  }

  /** The reason is the default when no word follows the user id, and
      otherwise those words joined by single spaces; splitting it again gives
      back those words. */
  lemma ReasonIsRestOfArgs(rest: seq<string>)
    requires AllWords(rest)
    ensures rest == [] ==> ReasonOf(rest) == DefaultReason
    ensures rest != [] ==> ReasonOf(rest) == Join(rest) && Words(ReasonOf(rest)) == rest
  {
    JoinOfWordsNonEmpty(rest);
    if rest != [] {
      WordsOfJoin(rest);
    }
  }

  /** The command word is read case-insensitively: a message is decided as if
      its first word had been typed in lower case. */
  lemma CommandWordCaseInsensitive(parts: seq<string>)
    requires parts != []
    ensures ParseParts(parts) == ParseParts([Lower(parts[0])] + parts[1..])
  {
    var lowered := [Lower(parts[0])] + parts[1..];
    LowerOfLower(parts[0]);
    assert lowered[0] == Lower(parts[0]) && lowered[1..] == parts[1..];
  }

  /** Taking `<@` and then `>` out of `<@inner>` leaves `inner` when `inner`
      holds neither bracket. */
  lemma UnwrapMention(inner: string)
    requires '<' !in inner && '>' !in inner
    ensures var w := "<@" + inner + ">"; StartsWith(w, "<@") && EndsWith(w, ">")
    ensures Erase(Erase("<@" + inner + ">", "<@"), ">") == inner
  {
    var w := "<@" + inner + ">";
    assert w[..2] == "<@" && w[|w| - 1..] == ">";
    assert Erase(w, "<@") == inner + ">" by {
      assert StartsWith(w, "<@") && w[2..] == inner + ">";
      EraseAbsent(inner + ">", "<@");
    }
    EraseSkipsPrefix(inner, ">", ">");
    assert Erase(">", ">") == Erase([], ">");
    assert inner + [] == inner;
  }

  /** A mention of user `n`, `<@n>` or `<@!n>`, normalises to `n`'s digits. */
  lemma MentionOfUser(n: nat)
    ensures NormalizeMention("<@" + Decimal(n) + ">") == Decimal(n)
    ensures NormalizeMention("<@!" + Decimal(n) + ">") == Decimal(n)
  {
    var d := Decimal(n);
    DecimalIsDigits(n);
    assert '<' !in d && '>' !in d && '!' !in d;
    UnwrapMention(d);
    EraseAbsent(d, "!");
    var bang := "!" + d;
    assert "<@!" + d + ">" == "<@" + bang + ">";
    UnwrapMention(bang);
    assert Erase(bang, "!") == d by {
      assert StartsWith(bang, "!") && bang[1..] == d;
    }
  }

  /** After normalisation of a mention no `>` and no `!` is left and every
      character left comes from the argument; an argument that is no mention
      is used as it is. */
  lemma MentionNormalised(raw: string, c: char)
    ensures StartsWith(raw, "<@") && EndsWith(raw, ">") ==>
      '>' !in NormalizeMention(raw) && '!' !in NormalizeMention(raw)
      && (c in NormalizeMention(raw) ==> c in raw)
    ensures !(StartsWith(raw, "<@") && EndsWith(raw, ">")) ==> NormalizeMention(raw) == raw
  {
    if StartsWith(raw, "<@") && EndsWith(raw, ">") {
      var a := Erase(raw, "<@");
      var b := Erase(a, ">");
      var r := Erase(b, "!");
      EraseSingleRemovesAll(a, '>');
      EraseSingleRemovesAll(b, '!');
      if '>' in r {
        EraseKeepsOnlyOriginals(b, "!", '>');
      }
      if c in r {
        EraseKeepsOnlyOriginals(b, "!", c);
        EraseKeepsOnlyOriginals(a, ">", c);
        EraseKeepsOnlyOriginals(raw, "<@", c);
      }
    }
  }

  /** An id the handler cannot read as an integer stops every command but
      `help` with "Invalid user ID.". */
  lemma NonIntegerIdRejected(parts: seq<string>)
    requires |parts| >= 2 && Lower(parts[0]) != "help"
    requires ParseInt(NormalizeMention(parts[1])) == None
    ensures ParseParts(parts) == Rejected(InvalidUserId)
  {
  }

  /** `!warn <@n> w1 .. wk` warns user `n` with the reason `w1 .. wk`. */
  lemma WarnByMention(n: nat, reasonWords: seq<string>)
    requires AllWords(reasonWords)
    ensures ParseParts(["warn", "<@" + Decimal(n) + ">"] + reasonWords)
         == SessionAction(Queues.Warn, n, ReasonOf(reasonWords))
  {
    var parts := ["warn", "<@" + Decimal(n) + ">"] + reasonWords;
    assert Lower("warn") == "warn";
    MentionOfUser(n);
    ParseIntString(n);
    assert IntString(n) == Decimal(n);
    assert parts[2..] == reasonWords;
  }

  /** A message typed as the prefix followed by words with single spaces is
      decided on exactly those words. */
  lemma ParseOfTypedWords(parts: seq<string>)
    requires parts != [] && AllWords(parts)
    ensures Parsable(Prefix + Join(parts), false)
    ensures Parse(Prefix + Join(parts), false) == ParseParts(parts)
  {
    var content := Prefix + Join(parts);
    assert StartsWith(content, Prefix) && content[|Prefix|..] == Join(parts);
    WordsOfJoin(parts);
  }

  /** `!warn <@n> w1 .. wk` as a moderator types it. */
  function WarnMessage(n: nat, reasonWords: seq<string>): string {
    Prefix + Join(["warn", "<@" + Decimal(n) + ">"] + reasonWords)
  }

  /** The typed message `!warn <@n> w1 .. wk` can be taken apart, and it warns
      user `n` with the reason `w1 .. wk`, or the default reason without
      words. */
  lemma TypedWarnByMention(n: nat, reasonWords: seq<string>)
    requires AllWords(reasonWords)
    ensures Parsable(WarnMessage(n, reasonWords), false)
    ensures Parse(WarnMessage(n, reasonWords), false) == SessionAction(Queues.Warn, n, ReasonOf(reasonWords))
  {
    var d := Decimal(n);
    var mention := "<@" + d + ">";
    DecimalIsDigits(n);
    assert IsWord(mention) by {
      forall i | 0 <= i < |mention| ensures !IsSpace(mention[i]) {
        if 2 <= i < |mention| - 1 {
          assert mention[i] == d[i - 2];
        }
      }
    }
    var parts := ["warn", mention] + reasonWords;
    assert AllWords(parts) by {
      forall i | 0 <= i < |parts| ensures IsWord(parts[i]) {
        if i >= 2 {
          assert parts[i] == reasonWords[i - 2];
        }
      }
    }
    ParseOfTypedWords(parts);
    WarnByMention(n, reasonWords);
  }
}
