/**
 * The Groq chat-completions client: the prompt it sends and the loop that
 * turns the server-sent-event body into `onToken` calls.
 */
module GroqClient {
  import opened JavaStrings
  import opened Http

  const DataPrefix := "data: "
  const DoneMarker := "[DONE]"
  const UserSeparator := "\n\nUSER: "

  /**
   * The JSON payload of one `data: ` line, as far as the loop looks at it:
   * every `continue` of the parse is one case, `Unparseable` stands for a
   * payload whose parsing or field access throws, and `Content` carries
   * `choices[0].delta.content`.
   */
  datatype Chunk =
    | Unparseable
    | NotAnObject
    | NoChoices
    | EmptyChoices
    | NoDelta
    | NoContent
    | Content(text: string)

  /** The single user message sent: the system prompt, a blank line, then the tagged user prompt. */
  function FullPrompt(systemPrompt: string, userPrompt: string): (prompt: string)
    ensures StartsWith(prompt, systemPrompt)
    ensures EndsWith(prompt, UserSeparator + userPrompt)
    ensures |prompt| == |systemPrompt| + |UserSeparator| + |userPrompt|
  {
    systemPrompt + UserSeparator + userPrompt
  }

  predicate IsData(line: string) {
    StartsWith(line, DataPrefix)
  }

  function Payload(line: string): string
    requires IsData(line)
  {
    line[|DataPrefix|..]
  }

  /** The line that ends the stream: `data: [DONE]`. */
  predicate IsDone(line: string) {
    IsData(line) && Payload(line) == DoneMarker
  }

  /** What one line other than the end marker forwards: nothing, or one non-empty token. */
  function LineTokens(line: string, parse: string -> Chunk): (r: seq<string>)
  {
    if IsData(line) && !IsDone(line) && parse(Payload(line)).Content? && parse(Payload(line)).text != ""
    then [parse(Payload(line)).text]
    else []
  }

  /** The tokens forwarded for a body: line by line, up to the first end marker. */
  function Tokens(lines: seq<string>, parse: string -> Chunk): (r: seq<string>)
    ensures forall k :: 0 <= k < |r| ==> r[k] != ""
  {
    if lines == [] || IsDone(lines[0]) then []
    else LineTokens(lines[0], parse) + Tokens(lines[1..], parse)
  }

  predicate NoDone(lines: seq<string>) {
    forall k :: 0 <= k < |lines| ==> !IsDone(lines[k])
  }

  /** Before the end marker, the body is processed line by line: tokens of a concatenation concatenate. */
  lemma {:induction false} TokensAppend(a: seq<string>, b: seq<string>, parse: string -> Chunk)
    requires NoDone(a)
    ensures Tokens(a + b, parse) == Tokens(a, parse) + Tokens(b, parse)
    decreases |a|
  {
    if a != [] {
      assert !IsDone(a[0]);
      assert NoDone(a[1..]) by {
        forall k | 0 <= k < |a[1..]| ensures !IsDone(a[1..][k]) {
          assert a[1..][k] == a[k + 1];
        }
      }
      assert (a + b)[0] == a[0];
      assert (a + b)[1..] == a[1..] + b;
      TokensAppend(a[1..], b, parse);
    } else {
      assert a + b == b;
    }
  }

  /** Nothing after the first `data: [DONE]` line is forwarded. */
  lemma TokensStopAtDone(a: seq<string>, done: string, b: seq<string>, parse: string -> Chunk)
    requires NoDone(a) && IsDone(done)
    ensures Tokens(a + [done] + b, parse) == Tokens(a, parse)
  {
    assert a + [done] + b == a + ([done] + b);
    TokensAppend(a, [done] + b, parse);
  }

  /**
   * A line that forwards nothing and is not the end marker (no `data: `
   * prefix, an unparseable payload, a chunk missing `choices`, `delta` or
   * `content`, an empty token) can be dropped anywhere without changing
   * the tokens.
   */
  lemma SilentLineIgnored(a: seq<string>, line: string, b: seq<string>, parse: string -> Chunk)
    requires NoDone(a) && !IsDone(line) && LineTokens(line, parse) == []
    ensures Tokens(a + [line] + b, parse) == Tokens(a + b, parse)
  {
    var tail := [line] + b;
    assert a + [line] + b == a + tail;
    assert tail[0] == line && tail[1..] == b;
    TokensCons(tail, parse);
    TokensAppend(a, tail, parse);
    TokensAppend(a, b, parse);
  }

  /** A line without the `data: ` prefix forwards nothing and does not stop the stream. */
  lemma NonDataLineSilent(line: string, parse: string -> Chunk)
    requires !IsData(line)
    ensures !IsDone(line) && LineTokens(line, parse) == []
  {
  }

  /** Reading the next line: nothing at the end marker, otherwise that line's token and the rest. */
  lemma TokensCons(unread: seq<string>, parse: string -> Chunk)
    requires unread != []
    ensures Tokens(unread, parse) ==
            if IsDone(unread[0]) then [] else LineTokens(unread[0], parse) + Tokens(unread[1..], parse)
  {
  }

  /** The reading loop over a successful body: the tokens passed to `onToken`, in order. */
  method ReadLines(lines: seq<string>, parse: string -> Chunk) returns (tokens: seq<string>)
    ensures tokens == Tokens(lines, parse)
  {
    tokens := [];
    var unread := lines;
    while unread != []
      invariant tokens + Tokens(unread, parse) == Tokens(lines, parse)
      decreases |unread|
    {
      var line := unread[0];
      TokensCons(unread, parse);
      unread := unread[1..];
      if !StartsWith(line, DataPrefix) {
        assert !IsDone(line) && LineTokens(line, parse) == [];
        continue;
      }
      var data := line[|DataPrefix|..];
      if data == DoneMarker {
        assert IsDone(line);
        break;
      }
      var chunk := parse(data);
      if chunk.Content? && chunk.text != "" {
        assert LineTokens(line, parse) == [chunk.text];
        tokens := tokens + [chunk.text];
      } else {
        assert LineTokens(line, parse) == [];
      }
    }
  }

  /**
   * `streamResponse` over one call's reply: the tokens passed to `onToken`
   * in order, and how many times `onComplete` ran.
   */
  method StreamResponse(reply: StreamReply<string>, parse: string -> Chunk)
    returns (tokens: seq<string>, completions: nat)
    ensures tokens == if reply.Successful? then Tokens(reply.lines, parse) else []
    ensures reply.NotSuccessful? && reply.errorBodyRead ==> completions == 2
    ensures !(reply.NotSuccessful? && reply.errorBodyRead) ==> completions == 1
  {
    tokens := [];
    completions := 0;
    match reply {
      case ConnectFailed =>
      case NotSuccessful(errorBodyRead) =>
        // reading the error body for the log comes first; when it throws, the early completion is skipped
        if errorBodyRead {
          completions := completions + 1;
        }
      case Successful(lines) =>
        tokens := ReadLines(lines, parse);
    }
    completions := completions + 1;
  }
}
