/**
 * The configuration record and the merge performed by `ConfigManager`.
 * A configuration is the sequence of its field values in declaration
 * order; reading and writing `config.json` happens outside the model, and
 * the loaded file arrives as an `Option` (absent, unreadable or `null`
 * content all give `None`; malformed JSON makes `register` throw, which
 * is not modelled).
 */
module ConfigManager {
  import opened Wrappers

  datatype ApiType = GROQ | OLLAMA

  /** A field value as reflection sees it: `null`, a `String`, a `long`/`int`, or an `ApiType` constant. */
  datatype Value = Null | Str(s: string) | Num(n: int) | Api(t: ApiType)

  type Config = seq<Value>

  // Field positions, in the declaration order of the configuration class.
  const TokenField := 0
  const ApiTypeField := 1
  const ApiKeyField := 2
  const ApiModelField := 3
  const ApiBaseUrlField := 4
  const DebateChannelIdField := 5
  const MaxTokensField := 6
  const OpeningPromptField := 7
  const ReplyPromptField := 8
  const FieldCount := 9

  datatype Kind = StringKind | NumberKind | ApiTypeKind

  const Kinds: seq<Kind> := [StringKind, ApiTypeKind, StringKind, StringKind, StringKind,
                             NumberKind, NumberKind, StringKind, StringKind]

  /** A value a field of this kind can hold: object fields may be `null`, primitive ones may not. */
  predicate Fits(v: Value, k: Kind) {
    match k
    case StringKind => v.Null? || v.Str?
    case ApiTypeKind => v.Null? || v.Api?
    case NumberKind => v.Num?
  }

  predicate WellTyped(c: Config) {
    |c| == FieldCount && forall i :: 0 <= i < FieldCount ==> Fits(c[i], Kinds[i])
  }

  const DefaultOpeningPrompt :=
    "Topic: %s. Make **BOLD** 1 sentence opening. End with challenge. SHORT.\n" +
    "To concede use \"you win\" or \"i lose\" or \"i concede\"\n"

  const DefaultReplyPrompt :=
    "Topic: %s\nRecent: %s\nReply with 1 sentence. Aggressive. End with question. SHORT.\n" +
    "To concede use \"you win\" or \"i lose\" or \"i concede\"\n"

  /**
   * `createDefault`: a fresh configuration with the field initialisers of
   * the configuration class. Every field has a value of its declared kind;
   * none is `null`.
   */
  function CreateDefault(): (c: Config)
    ensures WellTyped(c)
    ensures forall i :: 0 <= i < |c| ==> !c[i].Null?
  {
    [Str(""), Api(GROQ), Str(""), Str("llama-3.1-8b-instant"), Str(""),
     Num(0), Num(300), Str(DefaultOpeningPrompt), Str(DefaultReplyPrompt)]
  }

  /** The merge test: `null`, or a `String` that is empty. */
  predicate IsMissing(v: Value) {
    v.Null? || v == Str("")
  }

  /** Field by field: a missing value takes the default's value, any other value stays. */
  function Merged(target: Config, defaults: Config): (r: Config)
    requires |target| == |defaults|
  {
    seq(|target|, i requires 0 <= i < |target| => if IsMissing(target[i]) then defaults[i] else target[i])
  }

  /** Every missing field is replaced by the default's value for that field. */
  lemma MergeFillsMissing(target: Config, defaults: Config, i: int)
    requires |target| == |defaults| && 0 <= i < |target|
    requires IsMissing(target[i])
    ensures Merged(target, defaults)[i] == defaults[i]
  {
  }

  /** A field that is neither `null` nor an empty string, a number 0 included, is kept. */
  lemma MergeKeepsPresent(target: Config, defaults: Config, i: int)
    requires |target| == |defaults| && 0 <= i < |target|
    requires !IsMissing(target[i])
    ensures Merged(target, defaults)[i] == target[i]
  {
  }

  /** Merging again with the same defaults changes nothing. */
  lemma MergeIdempotent(target: Config, defaults: Config)
    requires |target| == |defaults|
    ensures Merged(Merged(target, defaults), defaults) == Merged(target, defaults)
  {
  }

  /** Merging a well-typed configuration with well-typed defaults stays well typed. */
  lemma MergeWellTyped(target: Config, defaults: Config)
    requires WellTyped(target) && WellTyped(defaults)
    ensures WellTyped(Merged(target, defaults))
  {
  }

  /** `mergeMissingFields`: walks the fields and overwrites the missing ones of `target` in place. */
  method MergeMissingFields(target: array<Value>, defaults: Config)
    requires target.Length == |defaults|
    modifies target
    ensures target[..] == Merged(old(target[..]), defaults)
  {
    for i := 0 to target.Length
      invariant forall k :: 0 <= k < i ==> target[k] == Merged(old(target[..]), defaults)[k]
      invariant forall k :: i <= k < target.Length ==> target[k] == old(target[k])
    {
      if IsMissing(target[i]) {
        target[i] := defaults[i];
      }
    }
  }

  /** What `register` returns for a loaded file, or for none. */
  function Registered(loaded: Option<Config>): (c: Config)
    requires loaded.Some? ==> |loaded.value| == FieldCount
  {
    if loaded.Some? then Merged(loaded.value, CreateDefault()) else CreateDefault()
  }

  /**
   * `register`: a loaded configuration is merged with the defaults, and
   * without one the defaults are used. The configuration handed back has
   * no `null` field, and one loaded without missing fields comes back as
   * it was.
   */
  method Register(loaded: Option<Config>) returns (config: Config)
    requires loaded.Some? ==> WellTyped(loaded.value)
    ensures config == Registered(loaded)
    ensures WellTyped(config)
    ensures forall i :: 0 <= i < |config| ==> !config[i].Null?
    ensures loaded.Some? && (forall i :: 0 <= i < FieldCount ==> !IsMissing(loaded.value[i])) ==>
              config == loaded.value
    ensures loaded.None? ==> config == CreateDefault()
  {
    if loaded.Some? {
      var target := new Value[FieldCount](i requires 0 <= i < FieldCount => loaded.value[i]);
      assert target[..] == loaded.value;
      MergeMissingFields(target, CreateDefault());
      config := target[..];
      MergeWellTyped(loaded.value, CreateDefault());
    } else {
      config := CreateDefault();
    }
  }
}
