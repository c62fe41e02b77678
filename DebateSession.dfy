/** One debate in one Discord thread: its lock, its history and its counters. */
module DebateSession {
  import opened JavaStrings

  const UserTag := "USER: "
  const BotTag := "BOT: "
  const ContextSeparator := "\n"

  /** A history entry: a message tagged with who said it. */
  predicate IsEntry(entry: string) {
    StartsWith(entry, UserTag) || StartsWith(entry, BotTag)
  }

  /** Every history entry has exactly one speaker: the two tags cannot both head it. */
  lemma OneSpeakerPerEntry(entry: string)
    requires IsEntry(entry)
    ensures StartsWith(entry, UserTag) != StartsWith(entry, BotTag)
  {
    assert StartsWith(entry, UserTag) ==> entry[0] == 'U';
    assert StartsWith(entry, BotTag) ==> entry[0] == 'B';
  }

  /**
   * `history.subList(Math.max(0, size - n), size)`: the newest `n` entries,
   * or all of them when there are fewer.
   */
  function Window(history: seq<string>, n: nat): (w: seq<string>)
    ensures |w| == if n < |history| then n else |history|
    ensures w == history[|history| - |w|..]
  {
    var from := if |history| - n > 0 then |history| - n else 0;
    history[from..]
  }

  /** `getContext(n)`: the newest `n` entries joined by newlines. */
  function Context(history: seq<string>, n: nat): string {
    Join(ContextSeparator, Window(history, n))
  }

  /** An empty history or an empty window gives the empty context. */
  lemma EmptyContext(history: seq<string>, n: nat)
    requires history == [] || n == 0
    ensures Context(history, n) == ""
  {
  }

  /** A window at least as large as the history shows all of it. */
  lemma WholeHistoryContext(history: seq<string>, n: nat)
    requires n >= |history|
    ensures Context(history, n) == Join(ContextSeparator, history)
  {
    assert history[0..] == history;
  }

  /**
   * How the context moves as an entry is added: the new entry comes last,
   * after the newest `n - 1` older entries (when there are any).
   */
  lemma {:induction false} ContextAfterAppend(history: seq<string>, entry: string, n: nat)
    requires n > 0
    ensures Context(history + [entry], n) ==
              if history == [] || n == 1 then entry
              else Context(history, n - 1) + ContextSeparator + entry
  {
    var h := history + [entry];
    var w := Window(h, n);
    var older := Window(history, n - 1);
    assert w == older + [entry];
    if older != [] {
      JoinAppend(ContextSeparator, older, [entry]);
    }
  }

  class Session {
    const threadId: int
    const topic: string
    const leaderUserId: string
    var history: seq<string>
    var isLocked: bool
    var isBotTurn: bool
    /** Milliseconds since the epoch of the last message added. */
    var lastActivity: nat
    /** Java `int` counters; see README for overflow. */
    var botWins: nat
    var userWins: nat

    /** Every history entry is tagged with its speaker. */
    ghost predicate Valid()
      reads this
    {
      forall i :: 0 <= i < |history| ==> IsEntry(history[i])
    }

    constructor (threadId: int, topic: string, leaderUserId: string, now: nat)
      ensures this.threadId == threadId && this.topic == topic && this.leaderUserId == leaderUserId
      ensures history == [] && !isLocked && isBotTurn && lastActivity == now
      ensures botWins == 0 && userWins == 0
      ensures Valid()
    {
      this.threadId := threadId;
      this.topic := topic;
      this.leaderUserId := leaderUserId;
      history := [];
      isLocked := false;
      isBotTurn := true;
      lastActivity := now;
      botWins := 0;
      userWins := 0;
    }

    /** Takes the lock only when it is free; the result says whether it did. */
    method TryLock() returns (acquired: bool)
      modifies this`isLocked
      ensures acquired <==> !old(isLocked)
      ensures isLocked
    {
      if isLocked {
        return false;
      }
      isLocked := true;
      return true;
    }

    method Unlock()
      modifies this`isLocked
      ensures !isLocked
    {
      isLocked := false;
    }

    method AddUserMessage(content: string, now: nat)
      requires Valid()
      modifies this`history, this`lastActivity
      ensures history == old(history) + [UserTag + content]
      ensures lastActivity == now
      ensures Valid()
    {
      history := history + [UserTag + content];
      lastActivity := now;
    }

    method AddBotMessage(content: string, now: nat)
      requires Valid()
      modifies this`history, this`lastActivity, this`isBotTurn
      ensures history == old(history) + [BotTag + content]
      ensures lastActivity == now && !isBotTurn
      ensures Valid()
    {
      history := history + [BotTag + content];
      lastActivity := now;
      isBotTurn := false;
    }

    /** `setBotWins(getBotWins() + 1)`. */
    method RecordBotWin()
      modifies this`botWins
      ensures botWins == old(botWins) + 1
    {
      botWins := botWins + 1;
    }

    /**
     * The newest `maxMessages` entries joined by newlines: empty when there
     * is nothing to show, otherwise ending with the newest entry, and the
     * whole history when the window covers it.
     */
    function GetContext(maxMessages: nat): (context: string)
      reads this
      ensures history == [] || maxMessages == 0 ==> context == ""
      ensures history != [] && maxMessages > 0 ==> EndsWith(context, history[|history| - 1])
      ensures maxMessages >= |history| ==> context == Join(ContextSeparator, history)
      ensures context == Join(ContextSeparator, history[|history| - (if maxMessages < |history| then maxMessages else |history|)..])
    {
      if history == [] || maxMessages == 0 then
        EmptyContext(history, maxMessages); ""
      else
        ContextEndsWithNewest(history, maxMessages);
        if maxMessages >= |history| then
          WholeHistoryContext(history, maxMessages); Context(history, maxMessages)
        else
          Context(history, maxMessages)
    }
  }

  /** In a well-formed session every history entry has exactly one speaker. */
  lemma HistorySpeakers(s: Session)
    requires s.Valid()
    ensures forall i :: 0 <= i < |s.history| ==>
              StartsWith(s.history[i], UserTag) != StartsWith(s.history[i], BotTag)
  {
    forall i | 0 <= i < |s.history|
      ensures StartsWith(s.history[i], UserTag) != StartsWith(s.history[i], BotTag)
    {
      OneSpeakerPerEntry(s.history[i]);
    }
  }

  /** The context of a non-empty window ends with the newest entry. */
  lemma ContextEndsWithNewest(history: seq<string>, n: nat)
    requires history != [] && n > 0
    ensures EndsWith(Context(history, n), history[|history| - 1])
  {
    var newest := history[|history| - 1];
    var older := history[..|history| - 1];
    assert history == older + [newest];
    ContextAfterAppend(older, newest, n);
    if older == [] || n == 1 {
      assert Context(history, n) == newest;
    } else {
      var front := Context(older, n - 1) + ContextSeparator;
      assert Context(history, n) == front + newest;
      assert Context(history, n)[|front|..] == newest;
    }
  }
}
