/**
 * The debate logic: starting a debate in a new thread, answering a human's
 * message there, accumulating the streamed reply into message edits, and
 * dropping debates that have been idle too long.
 */
module DebateManager {
  import opened JavaStrings
  import opened Http
  import opened DebateSession
  import GroqClient

  /** The channel a command or message arrived in. */
  datatype Channel = TextChannel | ThreadChannel(id: int) | OtherChannel

  /** What `handleMessage` did with one message. */
  datatype Outcome =
    | Ignored        // written by a bot, or not in a thread
    | StillThinking  // no debate in this thread, or a reply is still being written
    | HumanConceded  // the message concedes: the bot scores a win
    | SendFailed     // a send into the thread threw: the handler only unlocks
    | Replying       // a reply is being streamed into the placeholder

  /** The two kinds of bot turn: they differ in prompt and in how edits look. */
  datatype Phase = Opening | Reply

  /** The prompts handed to `streamResponse`. */
  datatype Request = Request(systemPrompt: string, userPrompt: string)

  /** A progress edit of the reply message: when it was made (milliseconds) and the text shown. */
  datatype Edit = Edit(at: int, text: string)

  const EditInterval := 800
  const ContextSize := 8
  const HourMillis := 3600000
  const OpeningUserPrompt := "Start the debate."

  // ----- Concession -----

  /** `containsConcede`: the lower-cased message contains one of four phrases, anywhere. */
  predicate ContainsConcede(message: string) {
    var lower := ToLower(message);
    Contains(lower, "concede") || Contains(lower, "you win") ||
    Contains(lower, "gg") || Contains(lower, "good game")
  }

  /** Surrounding text never hides a concession. */
  lemma ConcedeInContext(before: string, message: string, after: string)
    requires ContainsConcede(message)
    ensures ContainsConcede(before + message + after)
  {
    ToLowerConcat(before, message);
    ToLowerConcat(before + message, after);
    var lower := ToLower(message);
    forall p | p in ["concede", "you win", "gg", "good game"] && Contains(lower, p)
      ensures Contains(ToLower(before + message + after), p)
    {
      ContainsInContext(ToLower(before), lower, ToLower(after), p);
    }
  }

  /** Capital letters make no difference. */
  lemma ConcedeIgnoresCase(message: string)
    ensures ContainsConcede(ToUpper(message)) <==> ContainsConcede(message)
  {
    ToLowerOfUpper(message);
  }

  /**
   * The phrases are matched as substrings, not words: "gg" inside an
   * ordinary word already concedes.
   */
  lemma ConcedeInsideWord()
    ensures ContainsConcede("I suggest you reconsider")
  {
    var lower := ToLower("I suggest you reconsider");
    assert lower[4..6] == [lower[4], lower[5]] == "gg";
    assert OccursAt(lower, "gg", 4);
    ContainsIff(lower, "gg");
  }

  /** Every phrase has at least two letters, so a shorter message never concedes. */
  lemma ShortMessageNoConcession(message: string)
    requires |message| < 2
    ensures !ContainsConcede(message)
  {
    var lower := ToLower(message);
    ContainsIff(lower, "concede");
    ContainsIff(lower, "you win");
    ContainsIff(lower, "gg");
    ContainsIff(lower, "good game");
  }

  // ----- Idle sweep -----

  /** `ChronoUnit.HOURS.between(from, to)` on millisecond instants: whole hours, truncated toward zero. */
  function HoursBetween(from: int, to: int): (h: int)
    ensures from <= to ==> 0 <= h && h * HourMillis <= to - from < (h + 1) * HourMillis
    ensures to < from ==> h <= 0 && (h - 1) * HourMillis < to - from <= h * HourMillis
  {
    var d := to - from;
    if d >= 0 then d / HourMillis else -((-d) / HourMillis)
  }

  /** The sweep's test: more than one whole hour since the last activity. */
  predicate Expired(lastActivity: int, now: int) {
    HoursBetween(lastActivity, now) > 1
  }

  /**
   * Because the hours are truncated, "more than one hour" means two full
   * hours of idleness; a clock that went backwards never expires anything.
   */
  lemma ExpiredIff(lastActivity: int, now: int)
    ensures Expired(lastActivity, now) <==> now - lastActivity >= 2 * HourMillis
  {
    var d := now - lastActivity;
    if d >= 0 {
      assert d / HourMillis > 1 <==> d >= 2 * HourMillis;
    } else {
      assert (-d) / HourMillis >= 0;
    }
  }

  // ----- Prompts and message texts -----

  /** The system prompt of the opening statement. */
  function OpeningPrompt(topic: string): string {
    "You are a sharp, aggressive debater starting the debate on: " + topic + "\n" +
    "Make a BOLD opening statement (2-3 sentences).\n" +
    "End with a direct challenge to the human.\n" +
    "Keep it SHORT and punchy. No fluff.\n"
  }

  /** The system prompt of a reply, carrying the recent debate. */
  function ReplyPrompt(topic: string, context: string): string {
    "Topic: " + topic + "\nRecent debate:\n" + context + "\n\n" +
    "Your sharp reply (2-4 sentences max). Be aggressive, make bold claims.\n" +
    "End with direct question/challenge. Keep SHORT.\n"
  }

  /** The text a progress edit shows: the trimmed reply so far, framed by phase. */
  function ProgressText(phase: Phase, shown: string): string {
    match phase
    case Opening => "**AI: " + shown + "**"
    case Reply => "AI: " + shown
  }

  /** The text of the last edit, when the reply is not blank. */
  function FinalText(phase: Phase, text: string): string {
    match phase
    case Opening => "**AI: " + text + "**\n\n**Your turn!**"
    case Reply => "AI: " + text
  }

  /**
   * The user prompt of a reply is the tagged history entry, and the client
   * tags it again: the model reads the human's words after "USER: USER: ".
   */
  lemma ReplyUserPromptTaggedTwice(systemPrompt: string, content: string)
    ensures EndsWith(GroqClient.FullPrompt(systemPrompt, UserTag + content), "\n\nUSER: USER: " + content)
  {
    assert GroqClient.UserSeparator + (UserTag + content) == "\n\nUSER: USER: " + content;
  }

  // ----- Streaming accumulator -----

  /** The `StringBuilder` after appending every token in order. */
  function Concat(tokens: seq<string>): string {
    if tokens == [] then "" else Concat(tokens[..|tokens| - 1]) + tokens[|tokens| - 1]
  }

  /** Appending two runs of tokens appends their texts. */
  lemma {:induction false} ConcatAppend(a: seq<string>, b: seq<string>)
    ensures Concat(a + b) == Concat(a) + Concat(b)
    decreases |b|
  {
    if b == [] {
      assert a + b == a;
    } else {
      var front := b[..|b| - 1];
      assert (a + b)[..|a + b| - 1] == a + front;
      ConcatAppend(a, front);
    }
  }

  /** The tokens one streaming call passes to `onToken`. */
  function Received(reply: StreamReply<string>, parse: string -> GroqClient.Chunk): seq<string> {
    if reply.Successful? then GroqClient.Tokens(reply.lines, parse) else []
  }

  /**
   * The throttle's guarantee: the first edit comes more than 800 ms after
   * the start, and each later one more than 800 ms after the previous.
   */
  predicate Spaced(edits: seq<Edit>, start: int) {
    (edits != [] ==> edits[0].at > start + EditInterval) &&
    forall i :: 0 < i < |edits| ==> edits[i].at > edits[i - 1].at + EditInterval
  }

  /** Hence `n` progress edits take at least `801 * n` ms: at most one edit per 800 ms. */
  lemma {:induction false} SpacedSpan(edits: seq<Edit>, start: int)
    requires Spaced(edits, start) && edits != []
    ensures edits[|edits| - 1].at >= start + (EditInterval + 1) * |edits|
    decreases |edits|
  {
    if |edits| > 1 {
      var front := edits[..|edits| - 1];
      assert forall i :: 0 <= i < |front| ==> front[i] == edits[i];
      SpacedSpan(front, start);
    }
  }

  /**
   * The state of one bot turn while its reply streams in: the text so far
   * (`fullResponse`), the time of the last edit (`startTime`), and the edits
   * sent to the reply message.
   */
  class Turn {
    const session: Session
    const phase: Phase
    const request: Request
    ghost const startedAt: int
    var fullResponse: string
    var startTime: int
    var progress: seq<Edit>
    var closing: seq<string>

    /** The edits so far kept the 800 ms rhythm, timed from the last one. */
    ghost predicate Paced()
      reads this`progress, this`startTime
    {
      Spaced(progress, startedAt) &&
      startTime == if progress == [] then startedAt else progress[|progress| - 1].at
    }

    constructor (session: Session, phase: Phase, request: Request, now: nat)
      ensures this.session == session && this.phase == phase && this.request == request
      ensures fullResponse == "" && startTime == now && progress == [] && closing == []
      ensures Paced()
    {
      this.session := session;
      this.phase := phase;
      this.request := request;
      startedAt := now;
      fullResponse := "";
      startTime := now;
      progress := [];
      closing := [];
    }

    /** The `onToken` callback: append, and edit the message when more than 800 ms have passed. */
    method OnToken(token: string, now: nat)
      requires Paced()
      modifies this`fullResponse, this`startTime, this`progress
      ensures fullResponse == old(fullResponse) + token
      ensures now - old(startTime) > EditInterval ==>
                progress == old(progress) + [Edit(now, ProgressText(phase, Trim(fullResponse)))] &&
                startTime == now
      ensures now - old(startTime) <= EditInterval ==>
                progress == old(progress) && startTime == old(startTime)
      ensures Paced()
    {
      fullResponse := fullResponse + token;
      var elapsed := now - startTime;
      if elapsed > EditInterval {
        var edit := Edit(now, ProgressText(phase, Trim(fullResponse)));
        assert progress != [] ==> edit.at > progress[|progress| - 1].at + EditInterval;
        progress := progress + [edit];
        startTime := now;
      }
    }

    /**
     * The `onComplete` callback: a non-blank trimmed reply becomes the last
     * edit and the bot's history entry; the debate is unlocked either way.
     */
    method OnComplete(now: nat)
      requires session.Valid()
      modifies this`closing, session`history, session`lastActivity, session`isBotTurn, session`isLocked
      ensures var text := Trim(fullResponse);
              if text != "" then
                closing == old(closing) + [FinalText(phase, text)] &&
                session.history == old(session.history) + [BotTag + text] &&
                session.lastActivity == now && !session.isBotTurn
              else
                closing == old(closing) && session.history == old(session.history) &&
                session.lastActivity == old(session.lastActivity) &&
                session.isBotTurn == old(session.isBotTurn)
      ensures !session.isLocked && session.Valid()
    {
      var text := Trim(fullResponse);
      if text != "" {
        closing := closing + [FinalText(phase, text)];
        session.AddBotMessage(text, now);
      }
      session.Unlock();
    }

    /** Every token of one call, in order: the `i`-th arrives at `clock(i)`. */
    method Feed(tokens: seq<string>, clock: nat -> nat)
      requires Paced() && fullResponse == ""
      modifies this`fullResponse, this`startTime, this`progress
      ensures fullResponse == Concat(tokens) && Paced()
    {
      var i := 0;
      while i < |tokens|
        invariant 0 <= i <= |tokens|
        invariant fullResponse == Concat(tokens[..i])
        invariant Paced()
      {
        assert tokens[..i + 1][..i] == tokens[..i];
        OnToken(tokens[i], clock(i));
        i := i + 1;
      }
      assert tokens[..i] == tokens;
    }

    /**
     * `onComplete` run `times` times. A second run can only add nothing: the
     * client runs it twice only after a call that yielded no text.
     */
    method Finish(times: nat, now: nat)
      requires times > 0 && session.Valid()
      requires times > 1 ==> Trim(fullResponse) == ""
      modifies this`closing, session`history, session`lastActivity, session`isBotTurn, session`isLocked
      ensures var text := Trim(fullResponse);
              session.history == old(session.history) + (if text == "" then [] else [BotTag + text]) &&
              closing == old(closing) + (if text == "" then [] else [FinalText(phase, text)])
      ensures !session.isLocked && session.Valid()
    {
      var text := Trim(fullResponse);
      var k := 0;
      while k < times
        invariant 0 <= k <= times
        invariant session.history == old(session.history) + (if k == 0 || text == "" then [] else [BotTag + text])
        invariant closing == old(closing) + (if k == 0 || text == "" then [] else [FinalText(phase, text)])
        invariant k > 0 ==> !session.isLocked
        invariant session.Valid()
      {
        OnComplete(now);
        k := k + 1;
      }
    }

    /**
     * One whole Groq `streamResponse` call as this turn sees it: the tokens
     * the client yields go to `OnToken`, then `OnComplete` runs as many
     * times as the client runs it. Even when it runs twice, the debate
     * gains at most one bot entry and the lock is released.
     */
    method Stream(reply: StreamReply<string>, parse: string -> GroqClient.Chunk, clock: nat -> nat, doneAt: nat)
      requires Paced() && fullResponse == "" && session.Valid()
      modifies this`fullResponse, this`startTime, this`progress, this`closing
      modifies session`history, session`lastActivity, session`isBotTurn, session`isLocked
      ensures fullResponse == Concat(Received(reply, parse))
      ensures var text := Trim(fullResponse);
              session.history == old(session.history) + (if text == "" then [] else [BotTag + text]) &&
              closing == old(closing) + (if text == "" then [] else [FinalText(phase, text)])
      ensures !session.isLocked && session.Valid() && Paced()
    {
      var tokens, completions := GroqClient.StreamResponse(reply, parse);
      Feed(tokens, clock);
      ghost var paced := progress;
      Finish(completions, doneAt);
      assert progress == paced;
    }
  }

  // ----- Sessions -----

  /** The debates by thread id. */
  class Manager {
    var sessions: map<int, Session>

    /** Each debate is filed under its own thread and keeps a tagged history. */
    ghost predicate Valid()
      reads this, sessions.Values
    {
      forall id :: id in sessions ==> sessions[id].threadId == id && sessions[id].Valid()
    }

    constructor ()
      ensures sessions == map[] && Valid()
    {
      sessions := map[];
    }

    /** The debate a message in `channel` belongs to, if any. */
    function Target(channel: Channel): set<Session>
      reads this
    {
      if channel.ThreadChannel? && channel.id in sessions then {sessions[channel.id]} else {}
    }

    /**
     * `startDebate`: only in a text channel; a new debate is filed under the
     * new thread's id (replacing any entry there) and its opening turn starts.
     */
    method StartDebate(channel: Channel, newThread: int, topic: string, leaderUserId: string, now: nat)
      returns (turn: Turn?)
      requires Valid()
      modifies this`sessions
      ensures Valid()
      ensures !channel.TextChannel? ==> turn == null && sessions == old(sessions)
      ensures channel.TextChannel? ==>
                turn != null && fresh(turn) && fresh(turn.session) &&
                sessions == old(sessions)[newThread := turn.session] &&
                turn.session.threadId == newThread && turn.session.topic == topic &&
                turn.session.leaderUserId == leaderUserId && turn.session.history == [] &&
                turn.session.isLocked && turn.session.isBotTurn && turn.session.lastActivity == now &&
                turn.session.botWins == 0 && turn.session.userWins == 0 &&
                turn.phase == Opening &&
                turn.request == Request(OpeningPrompt(topic), OpeningUserPrompt) &&
                turn.fullResponse == "" && turn.progress == [] && turn.closing == [] &&
                turn.startTime == now && turn.Paced()
    {
      if !channel.TextChannel? {
        return null;
      }
      var session := new Session(newThread, topic, leaderUserId, now);
      sessions := sessions[newThread := session];
      turn := GenerateFirstResponse(session, now);
    }

    /** `generateFirstResponse`: nothing when the debate is locked, else an opening turn holding the lock. */
    static method GenerateFirstResponse(session: Session, now: nat) returns (turn: Turn?)
      modifies session`isLocked
      ensures session.isLocked
      ensures old(session.isLocked) <==> turn == null
      ensures turn != null ==>
                fresh(turn) && turn.session == session && turn.phase == Opening &&
                turn.request == Request(OpeningPrompt(session.topic), OpeningUserPrompt) &&
                turn.fullResponse == "" && turn.progress == [] && turn.closing == [] &&
                turn.startTime == now && turn.Paced()
    {
      var acquired := session.TryLock();
      if !acquired {
        return null;
      }
      turn := new Turn(session, Opening, Request(OpeningPrompt(session.topic), OpeningUserPrompt), now);
    }

    /**
     * `handleMessage`. `canSend` says whether the bot may send into the
     * thread: when it may not, the first send of the handler (the
     * concession announcement, or the typing indicator and "AI thinking..."
     * placeholder of a reply) throws, and the handler only unlocks.
     */
    method HandleMessage(authorIsBot: bool, channel: Channel, content: string, canSend: bool, now: nat)
      returns (outcome: Outcome, turn: Turn?)
      requires Valid()
      modifies Target(channel)
      ensures Valid() && sessions == old(sessions)
      ensures turn != null <==> outcome == Replying
      ensures authorIsBot || !channel.ThreadChannel? ==> outcome == Ignored
      ensures authorIsBot && channel.ThreadChannel? && channel.id in sessions ==> unchanged(sessions[channel.id])
      ensures channel.ThreadChannel? && channel.id in sessions ==>
                sessions[channel.id].userWins == old(sessions[channel.id].userWins)
      ensures !authorIsBot && channel.ThreadChannel? && channel.id !in sessions ==> outcome == StillThinking
      ensures !authorIsBot && channel.ThreadChannel? && channel.id in sessions ==>
                var s := sessions[channel.id];
                if old(s.isLocked) then
                  outcome == StillThinking && unchanged(s)
                else
                  s.history == old(s.history) + [UserTag + content] && s.lastActivity == now &&
                  s.isBotTurn == old(s.isBotTurn) &&
                  if !canSend then
                    outcome == SendFailed && s.botWins == old(s.botWins) && !s.isLocked
                  else if ContainsConcede(content) then
                    outcome == HumanConceded && s.botWins == old(s.botWins) + 1 && !s.isLocked
                  else
                    outcome == Replying && s.botWins == old(s.botWins) && s.isLocked &&
                    fresh(turn) && turn.session == s && turn.phase == Reply &&
                    turn.request == Request(ReplyPrompt(s.topic, Context(s.history, ContextSize)),
                                            UserTag + content) &&
                    turn.fullResponse == "" && turn.progress == [] && turn.closing == [] &&
                    turn.startTime == now && turn.Paced()
    {
      if authorIsBot || !channel.ThreadChannel? {
        return Ignored, null;
      }
      if channel.id !in sessions {
        return StillThinking, null;
      }
      var session := sessions[channel.id];
      var acquired := session.TryLock();
      if !acquired {
        return StillThinking, null;
      }
      session.AddUserMessage(content, now);
      if !canSend {
        session.Unlock();
        return SendFailed, null;
      }
      if ContainsConcede(content) {
        session.RecordBotWin();
        session.Unlock();
        return HumanConceded, null;
      }
      var context := session.GetContext(ContextSize);
      var request := Request(ReplyPrompt(session.topic, context), session.history[|session.history| - 1]);
      turn := new Turn(session, Reply, request, now);
      outcome := Replying;
    }

    /** One run of the periodic sweep: debates idle for more than one whole hour are dropped. */
    method CleanupOldSessions(now: nat)
      requires Valid()
      modifies this`sessions
      ensures Valid()
      ensures forall id :: id in sessions <==> id in old(sessions) && !Expired(old(sessions)[id].lastActivity, now)
      ensures forall id :: id in sessions ==> sessions[id] == old(sessions)[id]
    {
      sessions := map id | id in sessions && !Expired(sessions[id].lastActivity, now) :: sessions[id];
    }
  }
}
