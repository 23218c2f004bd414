/** The generic generation request (`ServeRequest`) and the VQGAN encode and
    decode carriers. None of them bounds a value: the request only fills in
    defaults, and the carriers only require their one field. */
module Generation {
  import opened Wrappers
  import opened Errors
  import Base64

  /** `ServeRequest`. `content` is the raw content-sequence mapping, expanded
      downstream; its values are opaque here, hence the type parameter. */
  datatype ServeRequest<V> = ServeRequest(
    content: map<string, V>,
    maxNewTokens: int,
    topP: real,
    repetitionPenalty: real,
    temperature: real,
    streaming: bool,
    numSamples: int,
    earlyStopThreshold: real)

  /** The mapping handed to the constructor; `None` is an absent key. */
  datatype ServeRequestInput<V> = ServeRequestInput(
    content: Option<map<string, V>>,
    maxNewTokens: Option<int>,
    topP: Option<real>,
    repetitionPenalty: Option<real>,
    temperature: Option<real>,
    streaming: Option<bool>,
    numSamples: Option<int>,
    earlyStopThreshold: Option<real>)

  const DefaultMaxNewTokens: int := 600
  const DefaultTopP: real := 0.7
  const DefaultRepetitionPenalty: real := 1.2
  const DefaultTemperature: real := 0.7
  const DefaultStreaming: bool := false
  const DefaultNumSamples: int := 1
  const DefaultEarlyStopThreshold: real := 1.0

  /** `ServeRequest(**input)`: `content` is required, every other field takes
      its default when absent, and no value is range-checked. */
  function ValidateServeRequest<V>(input: ServeRequestInput<V>): (r: Result<ServeRequest<V>, seq<FieldError>>)
    ensures r.Success? <==> input.content.Some?
    ensures r.Failure? ==> r.error == [FieldError([Field("content")], Missing)]
    ensures r.Success? ==> r.value.content == input.content.value
    ensures r.Success? ==>
      && r.value.maxNewTokens == input.maxNewTokens.ValueOr(DefaultMaxNewTokens)
      && r.value.topP == input.topP.ValueOr(DefaultTopP)
      && r.value.repetitionPenalty == input.repetitionPenalty.ValueOr(DefaultRepetitionPenalty)
      && r.value.temperature == input.temperature.ValueOr(DefaultTemperature)
      && r.value.streaming == input.streaming.ValueOr(DefaultStreaming)
      && r.value.numSamples == input.numSamples.ValueOr(DefaultNumSamples)
      && r.value.earlyStopThreshold == input.earlyStopThreshold.ValueOr(DefaultEarlyStopThreshold)
  {
    match Require([Field("content")], input.content)
    case Failure(e) => Failure([e])
    case Success(content) =>
      Success(ServeRequest(
        content,
        input.maxNewTokens.ValueOr(DefaultMaxNewTokens),
        input.topP.ValueOr(DefaultTopP),
        input.repetitionPenalty.ValueOr(DefaultRepetitionPenalty),
        input.temperature.ValueOr(DefaultTemperature),
        input.streaming.ValueOr(DefaultStreaming),
        input.numSamples.ValueOr(DefaultNumSamples),
        input.earlyStopThreshold.ValueOr(DefaultEarlyStopThreshold)))
  }

  /** The request as a mapping again (`model_dump`). */
  function DumpServeRequest<V>(req: ServeRequest<V>): ServeRequestInput<V> {
    ServeRequestInput(
      Some(req.content), Some(req.maxNewTokens), Some(req.topP), Some(req.repetitionPenalty),
      Some(req.temperature), Some(req.streaming), Some(req.numSamples), Some(req.earlyStopThreshold))
  }

  /** Every request, whatever its numbers (a negative token budget, zero
      samples, a top-p above one), survives a dump and re-construction: the
      constructor imposes no bounds. */
  lemma ValidateDumpServeRequest<V>(req: ServeRequest<V>)
    ensures ValidateServeRequest(DumpServeRequest(req)) == Success(req)
  {
  }

  /** A request given only its content takes every default. */
  lemma ServeRequestDefaults<V>(content: map<string, V>)
    ensures ValidateServeRequest(ServeRequestInput(Some(content), None, None, None, None, None, None, None))
         == Success(ServeRequest(content, 600, 0.7, 1.2, 0.7, false, 1, 1.0))
  {
  }

  /* ------------------------- VQGAN carriers ------------------------- */

  /** Token codes per audio: (audio, codebook, time). The shape is not
      checked (`SkipValidation`). */
  type Tokens = seq<seq<seq<int>>>

  /** Audio files to encode (wav, mp3, ...). */
  datatype EncodeRequest = EncodeRequest(audios: seq<seq<Base64.byte>>)

  datatype EncodeResponse = EncodeResponse(tokens: Tokens)

  datatype DecodeRequest = DecodeRequest(tokens: Tokens)

  /** Decoded audio, PCM float16 samples. */
  datatype DecodeResponse = DecodeResponse(audios: seq<seq<Base64.byte>>)

  /** The one required field, reported as missing under `name` when absent. */
  function Carry<T>(name: string, v: Option<T>): (r: Result<T, seq<FieldError>>)
    ensures r.Success? <==> v.Some?
    ensures r.Success? ==> r.value == v.value
    ensures r.Failure? ==> r.error == [FieldError([Field(name)], Missing)]
  {
    match Require([Field(name)], v)
    case Success(x) => Success(x)
    case Failure(e) => Failure([e])
  }

  /** `ServeVQGANEncodeRequest(**input)`: the audio files, as given. */
  function ValidateEncodeRequest(audios: Option<seq<seq<Base64.byte>>>): (r: Result<EncodeRequest, seq<FieldError>>)
    ensures r.Success? <==> audios.Some?
    ensures r.Success? ==> r.value.audios == audios.value
    ensures r.Failure? ==> r.error == [FieldError([Field("audios")], Missing)]
  {
    match Carry("audios", audios)
    case Success(a) => Success(EncodeRequest(a))
    case Failure(e) => Failure(e)
  }

  /** `ServeVQGANEncodeResponse(**input)`: the tokens, shape unchecked. */
  function ValidateEncodeResponse(tokens: Option<Tokens>): (r: Result<EncodeResponse, seq<FieldError>>)
    ensures r.Success? <==> tokens.Some?
    ensures r.Success? ==> r.value.tokens == tokens.value
    ensures r.Failure? ==> r.error == [FieldError([Field("tokens")], Missing)]
  {
    match Carry("tokens", tokens)
    case Success(t) => Success(EncodeResponse(t))
    case Failure(e) => Failure(e)
  }

  /** `ServeVQGANDecodeRequest(**input)`: the tokens, shape unchecked. */
  function ValidateDecodeRequest(tokens: Option<Tokens>): (r: Result<DecodeRequest, seq<FieldError>>)
    ensures r.Success? <==> tokens.Some?
    ensures r.Success? ==> r.value.tokens == tokens.value
    ensures r.Failure? ==> r.error == [FieldError([Field("tokens")], Missing)]
  {
    match Carry("tokens", tokens)
    case Success(t) => Success(DecodeRequest(t))
    case Failure(e) => Failure(e)
  }

  /** `ServeVQGANDecodeResponse(**input)`: the decoded audios, as given. */
  function ValidateDecodeResponse(audios: Option<seq<seq<Base64.byte>>>): (r: Result<DecodeResponse, seq<FieldError>>)
    ensures r.Success? <==> audios.Some?
    ensures r.Success? ==> r.value.audios == audios.value
    ensures r.Failure? ==> r.error == [FieldError([Field("audios")], Missing)]
  {
    match Carry("audios", audios)
    case Success(a) => Success(DecodeResponse(a))
    case Failure(e) => Failure(e)
  }

  /** The carriers accept exactly the present values and carry them verbatim:
      no shape, length or positional check relates tokens to audios. */
  lemma CarriersAreTransparent(audios: seq<seq<Base64.byte>>, tokens: Tokens)
    ensures ValidateEncodeRequest(Some(audios)) == Success(EncodeRequest(audios))
    ensures ValidateEncodeResponse(Some(tokens)) == Success(EncodeResponse(tokens))
    ensures ValidateDecodeRequest(Some(tokens)) == Success(DecodeRequest(tokens))
    ensures ValidateDecodeResponse(Some(audios)) == Success(DecodeResponse(audios))
    ensures ValidateEncodeRequest(None).Failure? && ValidateEncodeResponse(None).Failure?
    ensures ValidateDecodeRequest(None).Failure? && ValidateDecodeResponse(None).Failure?
  {
  }
}
