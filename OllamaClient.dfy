/**
 * The Ollama client: base-URL normalisation in the constructor, the prompt
 * and request URL of a call, and the loop that turns the newline-delimited
 * JSON body into `onToken` calls.
 */
module OllamaClient {
  import opened JavaStrings
  import opened Http

  const Localhost := "localhost"
  const Loopback := "127.0.0.1"
  const GeneratePath := "api/generate"

  /**
   * The URL stored by the constructor: every `localhost` becomes
   * `127.0.0.1`, and a `/` is added unless the result already ends in one.
   */
  function NormalizeBaseUrl(baseUrl: string): (url: string)
    ensures EndsWith(url, "/")
    ensures !Contains(url, Localhost)
    ensures var replaced := ReplaceAll(baseUrl, Localhost, Loopback);
            url == (if EndsWith(replaced, "/") then replaced else replaced + "/")
  {
    var replaced := ReplaceAll(baseUrl, Localhost, Loopback);
    LoopbackSharesNothing();
    ReplaceAllRemovesTarget(baseUrl, Localhost, Loopback);
    if EndsWith(replaced, "/") then replaced
    else
      NoLocalhostAfterSlash(replaced);
      replaced + "/"
  }

  lemma LoopbackSharesNothing()
    ensures Disjoint(Localhost, Loopback)
  {
  }

  /** Appending a `/` cannot create an occurrence of `localhost`. */
  lemma NoLocalhostAfterSlash(s: string)
    requires !Contains(s, Localhost)
    ensures !Contains(s + "/", Localhost)
  {
    ContainsIff(s, Localhost);
    ContainsIff(s + "/", Localhost);
    forall i | 0 <= i && i + |Localhost| <= |s + "/"| ensures !OccursAt(s + "/", Localhost, i) {
      if i + |Localhost| <= |s| {
        assert (s + "/")[i..i + |Localhost|] == s[i..i + |Localhost|];
        assert !OccursAt(s, Localhost, i);
      } else {
        assert (s + "/")[i..i + |Localhost|][|Localhost| - 1] == '/';
      }
    }
  }

  /** A URL that is already normalised is left as it is. */
  lemma NormalizeIdempotent(baseUrl: string)
    ensures NormalizeBaseUrl(NormalizeBaseUrl(baseUrl)) == NormalizeBaseUrl(baseUrl)
  {
    var url := NormalizeBaseUrl(baseUrl);
    ReplaceAllAbsent(url, Localhost, Loopback);
  }

  /** An existing trailing `/` is not doubled: a base URL with no `localhost` ending in `/` is kept verbatim. */
  lemma NormalizeKeepsCleanUrl(baseUrl: string)
    requires !Contains(baseUrl, Localhost) && EndsWith(baseUrl, "/")
    ensures NormalizeBaseUrl(baseUrl) == baseUrl
  {
    ReplaceAllAbsent(baseUrl, Localhost, Loopback);
  }

  /** The generate endpoint under a base URL. */
  function RequestUrl(baseUrl: string): (url: string)
    ensures StartsWith(url, baseUrl) && EndsWith(url, GeneratePath)
    ensures |url| == |baseUrl| + |GeneratePath|
  {
    baseUrl + GeneratePath
  }

  /** With a stored base URL, the endpoint path always follows a `/`. */
  lemma RequestUrlHasSlash(baseUrl: string)
    ensures EndsWith(RequestUrl(NormalizeBaseUrl(baseUrl)), "/" + GeneratePath)
  {
    var url := NormalizeBaseUrl(baseUrl);
    assert RequestUrl(url)[|url| - 1] == '/';
  }

  /** The single prompt sent: the system prompt, a blank line, the user prompt. */
  function FullPrompt(systemPrompt: string, userPrompt: string): (prompt: string)
    ensures StartsWith(prompt, systemPrompt)
    ensures EndsWith(prompt, "\n\n" + userPrompt)
    ensures |prompt| == |systemPrompt| + 2 + |userPrompt|
  {
    systemPrompt + "\n\n" + userPrompt
  }

  /** A JSON member as the loop reads it: missing, present but of the wrong kind (the getter throws), or a value. */
  datatype Field<T> = Absent | Invalid | Present(value: T)

  /** One body line: not a JSON object, or an object with its `response` and `done` members. */
  datatype Line =
    | Unparseable
    | Object(response: Field<string>, done: Field<bool>)

  /** The token a line forwards: its non-empty `response`, if any. */
  function LineTokens(line: Line): seq<string>
  {
    if line.Object? && line.response.Present? && line.response.value != ""
    then [line.response.value]
    else []
  }

  /**
   * A line that ends the loop: `done` is true, and reading `response`
   * before it did not throw (a throwing getter skips the rest of the line).
   */
  predicate Stops(line: Line) {
    line.Object? && !line.response.Invalid? && line.done == Present(true)
  }

  /** The tokens forwarded for a body: each line's token, up to and including the first stopping line. */
  function Tokens(lines: seq<Line>): (r: seq<string>)
    ensures forall k :: 0 <= k < |r| ==> r[k] != ""
  {
    if lines == [] then []
    else LineTokens(lines[0]) + (if Stops(lines[0]) then [] else Tokens(lines[1..]))
  }

  predicate NoStop(lines: seq<Line>) {
    forall k :: 0 <= k < |lines| ==> !Stops(lines[k])
  }

  /** Before a stopping line, tokens of a concatenation concatenate. */
  lemma {:induction false} TokensAppend(a: seq<Line>, b: seq<Line>)
    requires NoStop(a)
    ensures Tokens(a + b) == Tokens(a) + Tokens(b)
    decreases |a|
  {
    if a != [] {
      assert !Stops(a[0]);
      assert NoStop(a[1..]) by {
        forall k | 0 <= k < |a[1..]| ensures !Stops(a[1..][k]) {
          assert a[1..][k] == a[k + 1];
        }
      }
      assert (a + b)[0] == a[0];
      assert (a + b)[1..] == a[1..] + b;
      TokensAppend(a[1..], b);
    } else {
      assert a + b == b;
    }
  }

  /** The stopping line still forwards its own token; nothing after it does. */
  lemma StopLineLast(a: seq<Line>, stop: Line, b: seq<Line>)
    requires NoStop(a) && Stops(stop)
    ensures Tokens(a + [stop] + b) == Tokens(a) + LineTokens(stop)
  {
    assert a + [stop] + b == a + ([stop] + b);
    TokensAppend(a, [stop] + b);
  }

  /** An unparseable line is skipped wherever it occurs and the loop goes on. */
  lemma UnparseableIgnored(a: seq<Line>, b: seq<Line>)
    requires NoStop(a)
    ensures Tokens(a + [Unparseable] + b) == Tokens(a + b)
  {
    var tail := [Unparseable] + b;
    assert a + [Unparseable] + b == a + tail;
    assert tail[0] == Unparseable && tail[1..] == b;
    TokensCons(tail);
    TokensAppend(a, tail);
    TokensAppend(a, b);
  }

  /** Reading the next line: its token, then the rest unless it stops the loop. */
  lemma TokensCons(unread: seq<Line>)
    requires unread != []
    ensures Tokens(unread) == LineTokens(unread[0]) + (if Stops(unread[0]) then [] else Tokens(unread[1..]))
  {
  }

  /** The reading loop over a successful body: the tokens passed to `onToken`, in order. */
  method ReadLines(lines: seq<Line>) returns (tokens: seq<string>)
    ensures tokens == Tokens(lines)
  {
    tokens := [];
    var unread := lines;
    while unread != []
      invariant tokens + Tokens(unread) == Tokens(lines)
      decreases |unread|
    {
      var line := unread[0];
      TokensCons(unread);
      unread := unread[1..];
      // a line that does not parse, or whose `response` getter throws, is skipped
      if line.Object? && !line.response.Invalid? {
        if line.response.Present? && line.response.value != "" {
          tokens := tokens + [line.response.value];
        }
        if line.done == Present(true) {
          break;
        }
      } else {
        assert LineTokens(line) == [] && !Stops(line);
      }
    }
  }

  /**
   * `streamResponse` over one call's reply: the tokens passed to `onToken`
   * in order, and how many times `onComplete` ran.
   */
  method StreamResponse(reply: StreamReply<Line>) returns (tokens: seq<string>, completions: nat)
    ensures tokens == if reply.Successful? then Tokens(reply.lines) else []
    ensures reply.NotSuccessful? && reply.errorBodyRead ==> completions == 2
    ensures !(reply.NotSuccessful? && reply.errorBodyRead) ==> completions == 1
  {
    tokens := [];
    completions := 0;
    match reply {
      case ConnectFailed =>
      case NotSuccessful(errorBodyRead) =>
        // reading the error body for the log comes first; when it throws, the early completion is skipped
        if errorBodyRead {
          completions := completions + 1;
        }
      case Successful(lines) =>
        tokens := ReadLines(lines);
    }
    completions := completions + 1;
  }
}
