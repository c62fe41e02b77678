/** The start-up checks of the bot's entry point. */
module DebateBot {
  import opened Wrappers
  import opened JavaStrings
  import opened ConfigManager

  const TokenPrefix := "MT"
  const MinTokenLength := 51

  /** `isValidToken`: present, not blank, starting with `MT` and longer than 50 characters. */
  predicate IsValidToken(token: Option<string>) {
    token.Some? && Trim(token.value) != "" &&
    StartsWith(token.value, TokenPrefix) && |token.value| >= MinTokenLength
  }

  /** The blank check is implied by the other two: validity is exactly the prefix and the length. */
  lemma ValidTokenIff(token: string)
    ensures IsValidToken(Some(token)) <==> StartsWith(token, TokenPrefix) && |token| > 50
  {
    TrimShape(token);
    if StartsWith(token, TokenPrefix) {
      assert token[0] == 'M' && !IsTrimmable(token[0]);
    }
  }

  lemma NullTokenInvalid()
    ensures !IsValidToken(None)
  {
  }

  /** A token that trims to nothing is never valid. */
  lemma BlankTokenInvalid(token: string)
    requires forall i :: 0 <= i < |token| ==> IsTrimmable(token[i])
    ensures !IsValidToken(Some(token))
  {
    TrimShape(token);
  }

  /** A `String` field as Java reads it: `null` or its text. */
  function StringValue(v: Value): Option<string> {
    if v.Str? then Some(v.s) else None
  }

  /**
   * The test on line 30 of the entry point, with its null cases: the bot
   * stops when the token is invalid, or when the API type is Groq and the
   * API key is empty. A `null` key with Groq throws inside the test, which
   * the surrounding handler also turns into a stop.
   */
  predicate StartupAborts(config: Config)
    requires WellTyped(config)
  {
    !IsValidToken(StringValue(config[TokenField])) ||
    (config[ApiTypeField] == Api(GROQ) &&
     (config[ApiKeyField].Null? || config[ApiKeyField].s == ""))
  }

  /**
   * After `register`, no field is `null`: the bot starts exactly when the
   * token is valid and, for Groq, the key is not empty.
   */
  lemma StartupAfterRegister(loaded: Option<Config>)
    requires loaded.Some? ==> WellTyped(loaded.value)
    ensures var c := Registered(loaded);
            WellTyped(c) && c[TokenField].Str? && c[ApiTypeField].Api? && c[ApiKeyField].Str? &&
            (StartupAborts(c) <==>
               !(StartsWith(c[TokenField].s, TokenPrefix) && |c[TokenField].s| > 50) ||
               (c[ApiTypeField].t == GROQ && c[ApiKeyField].s == ""))
  {
    var c := Registered(loaded);
    if loaded.Some? {
      MergeWellTyped(loaded.value, CreateDefault());
    }
    assert c[TokenField].Str?;
    ValidTokenIff(c[TokenField].s);
  }

  /** Ollama needs no key: a valid token with an empty key passes. */
  lemma OllamaWithoutKeyStarts(config: Config)
    requires WellTyped(config)
    requires IsValidToken(StringValue(config[TokenField]))
    requires config[ApiTypeField] == Api(OLLAMA) && config[ApiKeyField] == Str("")
    ensures !StartupAborts(config)
  {
  }

  /** Groq with an empty key stops, whatever the token. */
  lemma GroqWithoutKeyAborts(config: Config)
    requires WellTyped(config)
    requires config[ApiTypeField] == Api(GROQ) && config[ApiKeyField] == Str("")
    ensures StartupAborts(config)
  {
  }

  /** Without a configuration file the defaults are written and the bot stops: their token is empty. */
  lemma FirstRunAborts()
    ensures WellTyped(CreateDefault()) && StartupAborts(Registered(None))
  {
  }
}
