/** The text-to-speech request (`ServeTTSRequest`): one all-or-nothing
    constructor that fills in defaults, checks inclusive bounds on
    `chunk_length`, `top_p`, `repetition_penalty` and `temperature`, checks
    the `format` and `use_memory_cache` literals, and builds the reference
    records. Floats are compared as reals. */
module Tts {
  import opened Wrappers
  import opened Errors
  import Reference

  datatype AudioFormat = Wav | Pcm | Mp3

  datatype CacheMode = CacheOn | CacheOff

  const FormatNames: seq<string> := ["wav", "pcm", "mp3"]
  const CacheNames: seq<string> := ["on", "off"]

  function FormatName(f: AudioFormat): string {
    match f
    case Wav => "wav"
    case Pcm => "pcm"
    case Mp3 => "mp3"
  }

  function CacheName(m: CacheMode): string {
    match m
    case CacheOn => "on"
    case CacheOff => "off"
  }

  /** The `format` literal: exactly the three names, each read back as the
      format it names. */
  function ParseFormat(s: string): (r: Option<AudioFormat>)
    ensures r.Some? <==> s in FormatNames
    ensures r.Some? ==> FormatName(r.value) == s
  {
    if s == "wav" then Some(Wav)
    else if s == "pcm" then Some(Pcm)
    else if s == "mp3" then Some(Mp3)
    else None
  }

  /** The `use_memory_cache` literal. */
  function ParseCache(s: string): (r: Option<CacheMode>)
    ensures r.Some? <==> s in CacheNames
    ensures r.Some? ==> CacheName(r.value) == s
  {
    if s == "on" then Some(CacheOn)
    else if s == "off" then Some(CacheOff)
    else None
  }

  lemma LiteralNamesRoundTrip(f: AudioFormat, m: CacheMode)
    ensures ParseFormat(FormatName(f)) == Some(f)
    ensures ParseCache(CacheName(m)) == Some(m)
  {
  }

  const MinChunkLength: int := 100
  const MaxChunkLength: int := 300
  const MinTopP: real := 0.1
  const MaxTopP: real := 1.0
  const MinRepetitionPenalty: real := 0.9
  const MaxRepetitionPenalty: real := 2.0
  const MinTemperature: real := 0.1
  const MaxTemperature: real := 1.0

  const DefaultChunkLength: int := 200
  const DefaultFormat: AudioFormat := Wav
  const DefaultCache: CacheMode := CacheOff
  const DefaultNormalize: bool := true
  const DefaultStreaming: bool := false
  const DefaultMaxNewTokens: int := 1024
  const DefaultTopP: real := 0.8
  const DefaultRepetitionPenalty: real := 1.1
  const DefaultTemperature: real := 0.8

  datatype TtsRequest = TtsRequest(
    text: string,
    chunkLength: int,
    format: AudioFormat,
    references: seq<Reference.ReferenceAudio>,
    referenceId: Option<string>,
    seed: Option<int>,
    useMemoryCache: CacheMode,
    normalize: bool,
    streaming: bool,
    maxNewTokens: int,
    topP: real,
    repetitionPenalty: real,
    temperature: real)

  /** An element of `references`: a mapping to construct from, or a record
      already constructed, which is taken as it is. */
  datatype ReferenceInput = Raw(raw: Reference.RawReference) | Built(audio: Reference.ReferenceAudio)

  /** The mapping handed to the constructor; `None` is an absent key (for
      `reference_id` and `seed`, also an explicit `None`). */
  datatype TtsInput = TtsInput(
    text: Option<string>,
    chunkLength: Option<int>,
    format: Option<string>,
    references: Option<seq<ReferenceInput>>,
    referenceId: Option<string>,
    seed: Option<int>,
    useMemoryCache: Option<string>,
    normalize: Option<bool>,
    streaming: Option<bool>,
    maxNewTokens: Option<int>,
    topP: Option<real>,
    repetitionPenalty: Option<real>,
    temperature: Option<real>)

  /* ----------------------------- the bounds ----------------------------- */

  predicate ChunkLengthOk(n: int) {
    MinChunkLength <= n <= MaxChunkLength
  }

  predicate TopPOk(x: real) {
    MinTopP <= x <= MaxTopP
  }

  predicate RepetitionPenaltyOk(x: real) {
    MinRepetitionPenalty <= x <= MaxRepetitionPenalty
  }

  predicate TemperatureOk(x: real) {
    MinTemperature <= x <= MaxTemperature
  }

  predicate ReferenceAdmissible(e: ReferenceInput) {
    e.Built? || Reference.Admissible(e.raw)
  }

  /** What the constructor accepts, field by field. */
  predicate Admissible(input: TtsInput) {
    && input.text.Some?
    && (input.chunkLength.None? || ChunkLengthOk(input.chunkLength.value))
    && (input.format.None? || input.format.value in FormatNames)
    && (input.references.None?
        || forall i :: 0 <= i < |input.references.value| ==> ReferenceAdmissible(input.references.value[i]))
    && (input.useMemoryCache.None? || input.useMemoryCache.value in CacheNames)
    && (input.topP.None? || TopPOk(input.topP.value))
    && (input.repetitionPenalty.None? || RepetitionPenaltyOk(input.repetitionPenalty.value))
    && (input.temperature.None? || TemperatureOk(input.temperature.value))
  }

  /** A request whose bounded fields are within their bounds. */
  predicate WellFormed(req: TtsRequest) {
    && ChunkLengthOk(req.chunkLength)
    && TopPOk(req.topP)
    && RepetitionPenaltyOk(req.repetitionPenalty)
    && TemperatureOk(req.temperature)
  }

  /* --------------------------- field checks --------------------------- */

  /** An inclusive integer range, checked lower bound first. */
  function IntField(name: string, v: Option<int>, lo: int, hi: int, default: int): Result<int, FieldError> {
    match v
    case None => Success(default)
    case Some(x) =>
      if x < lo then Failure(FieldError([Field(name)], TooSmall(lo as real, x as real)))
      else if x > hi then Failure(FieldError([Field(name)], TooLarge(hi as real, x as real)))
      else Success(x)
  }

  /** An inclusive real range, checked lower bound first. */
  function RealField(name: string, v: Option<real>, lo: real, hi: real, default: real): Result<real, FieldError> {
    match v
    case None => Success(default)
    case Some(x) =>
      if x < lo then Failure(FieldError([Field(name)], TooSmall(lo, x)))
      else if x > hi then Failure(FieldError([Field(name)], TooLarge(hi, x)))
      else Success(x)
  }

  function FormatField(v: Option<string>): Result<AudioFormat, FieldError> {
    match v
    case None => Success(DefaultFormat)
    case Some(s) =>
      match ParseFormat(s)
      case Some(f) => Success(f)
      case None => Failure(FieldError([Field("format")], NotAllowed(FormatNames, s)))
  }

  function CacheField(v: Option<string>): Result<CacheMode, FieldError> {
    match v
    case None => Success(DefaultCache)
    case Some(s) =>
      match ParseCache(s)
      case Some(m) => Success(m)
      case None => Failure(FieldError([Field("use_memory_cache")], NotAllowed(CacheNames, s)))
  }

  /** Where the `i`-th reference reports its errors. */
  function ReferenceLoc(i: nat): Loc {
    [Field("references"), Index(i)]
  }

  function ValidateReference(e: ReferenceInput, i: nat): Result<Reference.ReferenceAudio, seq<FieldError>> {
    match e
    case Built(a) => Success(a)
    case Raw(raw) => Reference.Validate(raw, ReferenceLoc(i))
  }

  /** The `references` list: every element is constructed, and the errors of
      all failing elements are reported, each under its own index. */
  function ValidateReferences(refs: seq<ReferenceInput>): (r: Result<seq<Reference.ReferenceAudio>, seq<FieldError>>)
    ensures r.Success? <==> forall i :: 0 <= i < |refs| ==> ReferenceAdmissible(refs[i])
    ensures r.Success? ==> |r.value| == |refs|
    ensures r.Success? ==> forall i :: 0 <= i < |refs| ==> ValidateReference(refs[i], i) == Success(r.value[i])
    ensures r.Failure? ==> |r.error| > 0 && AllUnder(r.error, [Field("references")])
    ensures r.Failure? ==> forall i :: 0 <= i < |r.error| ==> |r.error[i].loc| > 1
    decreases |refs|
  {
    if |refs| == 0 then Success([])
    else
      var n := |refs| - 1;
      var init := ValidateReferences(refs[..n]);
      var last := ValidateReference(refs[n], n);
      if init.Success? && last.Success? then Success(init.value + [last.value])
      else Failure(ErrorsOf(init) + ErrorsOf(last))
  }

  /** The outcome of every field check. */
  datatype Checks = Checks(
    text: Result<string, FieldError>,
    chunkLength: Result<int, FieldError>,
    format: Result<AudioFormat, FieldError>,
    references: Result<seq<Reference.ReferenceAudio>, seq<FieldError>>,
    useMemoryCache: Result<CacheMode, FieldError>,
    topP: Result<real, FieldError>,
    repetitionPenalty: Result<real, FieldError>,
    temperature: Result<real, FieldError>)
  {
    predicate Passed() {
      && text.Success? && chunkLength.Success? && format.Success? && references.Success?
      && useMemoryCache.Success? && topP.Success? && repetitionPenalty.Success? && temperature.Success?
    }

    /** Every error, in field order. */
    function Errors(): seq<FieldError> {
      ErrorOf(text) + ErrorOf(chunkLength) + ErrorOf(format) + ErrorsOf(references)
      + ErrorOf(useMemoryCache) + ErrorOf(topP) + ErrorOf(repetitionPenalty) + ErrorOf(temperature)
    }
  }

  /** Each field checked on its own; no check depends on another field. */
  function CheckFields(input: TtsInput): Checks {
    Checks(
      Require([Field("text")], input.text),
      IntField("chunk_length", input.chunkLength, MinChunkLength, MaxChunkLength, DefaultChunkLength),
      FormatField(input.format),
      if input.references.Some? then ValidateReferences(input.references.value) else Success([]),
      CacheField(input.useMemoryCache),
      RealField("top_p", input.topP, MinTopP, MaxTopP, DefaultTopP),
      RealField("repetition_penalty", input.repetitionPenalty,
                MinRepetitionPenalty, MaxRepetitionPenalty, DefaultRepetitionPenalty),
      RealField("temperature", input.temperature, MinTemperature, MaxTemperature, DefaultTemperature))
  }

  /** `ServeTTSRequest(**input)`: every field checked, every error reported
      in field order, and a request only when there is no error. */
  function ValidateTts(input: TtsInput): (r: Result<TtsRequest, seq<FieldError>>)
    ensures r.Success? <==> Admissible(input)
    ensures r.Success? ==> WellFormed(r.value)
    ensures r.Success? ==>
      && r.value.text == input.text.value
      && r.value.chunkLength == input.chunkLength.ValueOr(DefaultChunkLength)
      && (input.format.Some? ==> FormatName(r.value.format) == input.format.value)
      && (input.format.None? ==> r.value.format == DefaultFormat)
      && (input.useMemoryCache.Some? ==> CacheName(r.value.useMemoryCache) == input.useMemoryCache.value)
      && (input.useMemoryCache.None? ==> r.value.useMemoryCache == DefaultCache)
      && r.value.referenceId == input.referenceId
      && r.value.seed == input.seed
      && r.value.normalize == input.normalize.ValueOr(DefaultNormalize)
      && r.value.streaming == input.streaming.ValueOr(DefaultStreaming)
      && r.value.maxNewTokens == input.maxNewTokens.ValueOr(DefaultMaxNewTokens)
      && r.value.topP == input.topP.ValueOr(DefaultTopP)
      && r.value.repetitionPenalty == input.repetitionPenalty.ValueOr(DefaultRepetitionPenalty)
      && r.value.temperature == input.temperature.ValueOr(DefaultTemperature)
    ensures r.Success? && input.references.None? ==> r.value.references == []
    ensures r.Success? && input.references.Some? ==>
      && |r.value.references| == |input.references.value|
      && forall i :: 0 <= i < |input.references.value| ==>
           ValidateReference(input.references.value[i], i) == Success(r.value.references[i])
    ensures r.Failure? ==> |r.error| > 0
  {
    var c := CheckFields(input);
    if c.Passed() then
      Success(TtsRequest(
        c.text.value, c.chunkLength.value, c.format.value, c.references.value,
        input.referenceId, input.seed, c.useMemoryCache.value,
        input.normalize.ValueOr(DefaultNormalize), input.streaming.ValueOr(DefaultStreaming),
        input.maxNewTokens.ValueOr(DefaultMaxNewTokens),
        c.topP.value, c.repetitionPenalty.value, c.temperature.value))
    else
      Failure(c.Errors())
  }

  /* ------------------------------ properties ------------------------------ */

  /** A request that gives only its text. */
  function TextOnly(text: string): TtsInput {
    TtsInput(Some(text), None, None, None, None, None, None, None, None, None, None, None, None)
  }

  /** Every omitted field takes its default, and each default lies within
      its own bounds. */
  lemma TtsDefaults(text: string)
    ensures ValidateTts(TextOnly(text))
         == Success(TtsRequest(text, 200, Wav, [], None, None, CacheOff, true, false, 1024, 0.8, 1.1, 0.8))
    ensures WellFormed(ValidateTts(TextOnly(text)).value)
  {
  }

  /** Both ends of every range are inclusive: the bounds are accepted, the
      values just outside them are not. */
  lemma BoundsAreInclusive(text: string)
    ensures ValidateTts(TextOnly(text).(chunkLength := Some(100))).Success?
    ensures ValidateTts(TextOnly(text).(chunkLength := Some(300))).Success?
    ensures ValidateTts(TextOnly(text).(chunkLength := Some(99))).Failure?
    ensures ValidateTts(TextOnly(text).(chunkLength := Some(301))).Failure?
    ensures ValidateTts(TextOnly(text).(topP := Some(0.1))).Success?
    ensures ValidateTts(TextOnly(text).(topP := Some(1.0))).Success?
    ensures ValidateTts(TextOnly(text).(topP := Some(0.09))).Failure?
    ensures ValidateTts(TextOnly(text).(topP := Some(1.01))).Failure?
    ensures ValidateTts(TextOnly(text).(repetitionPenalty := Some(0.9))).Success?
    ensures ValidateTts(TextOnly(text).(repetitionPenalty := Some(2.0))).Success?
    ensures ValidateTts(TextOnly(text).(repetitionPenalty := Some(0.89))).Failure?
    ensures ValidateTts(TextOnly(text).(repetitionPenalty := Some(2.01))).Failure?
    ensures ValidateTts(TextOnly(text).(temperature := Some(0.1))).Success?
    ensures ValidateTts(TextOnly(text).(temperature := Some(1.0))).Success?
    ensures ValidateTts(TextOnly(text).(temperature := Some(0.09))).Failure?
    ensures ValidateTts(TextOnly(text).(temperature := Some(1.01))).Failure?
  {
  }

  /** The client offers `flac`; the request refuses it, naming the field and
      the allowed literals. */
  lemma FlacIsRefused(text: string)
    ensures ValidateTts(TextOnly(text).(format := Some("flac")))
         == Failure([FieldError([Field("format")], NotAllowed(["wav", "pcm", "mp3"], "flac"))])
  {
    var c := CheckFields(TextOnly(text).(format := Some("flac")));
    var e := FieldError([Field("format")], NotAllowed(["wav", "pcm", "mp3"], "flac"));
    assert ParseFormat("flac").None?;
    assert c.format == Failure(e);
    assert c.Errors() == [] + [] + [e] + [] + [] + [] + [] + [];
    assert c.Errors() == [e];
    assert ValidateTts(TextOnly(text).(format := Some("flac"))) == Failure(c.Errors());
  }

  /** The request as a mapping again (`model_dump`), references included. */
  function Dump(req: TtsRequest): TtsInput {
    TtsInput(
      Some(req.text), Some(req.chunkLength), Some(FormatName(req.format)),
      Some(seq(|req.references|, i requires 0 <= i < |req.references| => Raw(Reference.Dump(req.references[i])))),
      req.referenceId, req.seed, Some(CacheName(req.useMemoryCache)), Some(req.normalize),
      Some(req.streaming), Some(req.maxNewTokens), Some(req.topP), Some(req.repetitionPenalty),
      Some(req.temperature))
  }

  /** No reference holds base64 text the before-validator would decode. */
  predicate ReferencesSettled(req: TtsRequest) {
    forall i :: 0 <= i < |req.references| ==> Reference.Settled(req.references[i].audio)
  }

  /** A well-formed request survives a dump and re-construction unchanged. */
  lemma ValidateDump(req: TtsRequest)
    requires WellFormed(req) && ReferencesSettled(req)
    ensures ValidateTts(Dump(req)) == Success(req)
  {
    var refs := Dump(req).references.value;
    forall i | 0 <= i < |refs|
      ensures ValidateReference(refs[i], i) == Success(req.references[i])
    {
      Reference.ValidateDump(req.references[i], ReferenceLoc(i));
    }
    LiteralNamesRoundTrip(req.format, req.useMemoryCache);
    var r := ValidateTts(Dump(req));
    assert r.Success?;
    assert r.value.references == req.references;
  }

  /** The error sits exactly at the top-level field `name`. */
  predicate At(name: string, e: FieldError) {
    e.loc == [Field(name)]
  }

  /** The error sits inside the `references` list. */
  predicate InReferences(e: FieldError) {
    |e.loc| > 1 && e.loc[0] == Field("references")
  }

  /** Some error of `errs` sits at the top-level field `name`. */
  predicate ReportsAt(errs: seq<FieldError>, name: string) {
    exists e :: e in errs && At(name, e)
  }

  /** Some error of `errs` sits inside the `references` list. */
  predicate ReportsInReferences(errs: seq<FieldError>) {
    exists e :: e in errs && InReferences(e)
  }

  /** A rejection lists the errors of every check, in field order; an
      accepted request has none. */
  lemma RejectionListsEveryCheck(input: TtsInput)
    ensures ErrorsOf(ValidateTts(input)) == CheckFields(input).Errors()
  {
    var c := CheckFields(input);
    if c.Passed() {
      assert c.Errors() == [] + [] + [] + [] + [] + [] + [] + [];
    }
  }

  /** The errors of each check sit at the field it checks; those of the
      `references` list sit inside it, below an index. */
  lemma ChecksLocated(input: TtsInput)
    ensures forall e :: e in ErrorOf(CheckFields(input).text) ==> e.loc == [Field("text")]
    ensures forall e :: e in ErrorOf(CheckFields(input).chunkLength) ==> e.loc == [Field("chunk_length")]
    ensures forall e :: e in ErrorOf(CheckFields(input).format) ==> e.loc == [Field("format")]
    ensures forall e :: e in ErrorOf(CheckFields(input).useMemoryCache) ==> e.loc == [Field("use_memory_cache")]
    ensures forall e :: e in ErrorOf(CheckFields(input).topP) ==> e.loc == [Field("top_p")]
    ensures forall e :: e in ErrorOf(CheckFields(input).repetitionPenalty) ==> e.loc == [Field("repetition_penalty")]
    ensures forall e :: e in ErrorOf(CheckFields(input).temperature) ==> e.loc == [Field("temperature")]
    ensures forall e :: e in ErrorsOf(CheckFields(input).references) ==> InReferences(e)
  {
    var refs := CheckFields(input).references;
    forall e | e in ErrorsOf(refs) ensures InReferences(e) {
      var i :| 0 <= i < |refs.error| && refs.error[i] == e;
      assert [Field("references")] <= e.loc;
    }
  }

  /** An error at the top-level field `name` comes from that field's own check. */
  lemma ReportedAt(input: TtsInput, name: string)
    ensures var c := CheckFields(input);
      ReportsAt(c.Errors(), name) <==>
        || (name == "text" && c.text.Failure?)
        || (name == "chunk_length" && c.chunkLength.Failure?)
        || (name == "format" && c.format.Failure?)
        || (name == "use_memory_cache" && c.useMemoryCache.Failure?)
        || (name == "top_p" && c.topP.Failure?)
        || (name == "repetition_penalty" && c.repetitionPenalty.Failure?)
        || (name == "temperature" && c.temperature.Failure?)
  {
    var c := CheckFields(input);
    ChecksLocated(input);
    var errs := c.Errors();
    if ReportsAt(errs, name) {
      var e :| e in errs && At(name, e);
      assert !InReferences(e);
    }
    assert c.text.Failure? ==> c.text.error in errs;
    assert c.chunkLength.Failure? ==> c.chunkLength.error in errs;
    assert c.format.Failure? ==> c.format.error in errs;
    assert c.useMemoryCache.Failure? ==> c.useMemoryCache.error in errs;
    assert c.topP.Failure? ==> c.topP.error in errs;
    assert c.repetitionPenalty.Failure? ==> c.repetitionPenalty.error in errs;
    assert c.temperature.Failure? ==> c.temperature.error in errs;
  }

  /** An error inside the `references` list comes from the list's own check. */
  lemma ReportedInReferences(input: TtsInput)
    ensures var c := CheckFields(input);
      ReportsInReferences(c.Errors()) <==> c.references.Failure?
  {
    var c := CheckFields(input);
    ChecksLocated(input);
    var errs := c.Errors();
    if c.references.Failure? {
      assert c.references.error[0] in errs;
    }
  }

  /** A rejection names exactly the offending fields: each field is reported
      if and only if its value is missing (for `text`), outside its bounds,
      not one of its literals, or (for `references`) some element is not
      admissible. */
  lemma RejectionNamesOffendingFields(input: TtsInput)
    ensures var errs := ErrorsOf(ValidateTts(input));
      && (ReportsAt(errs, "text") <==> input.text.None?)
      && (ReportsAt(errs, "chunk_length") <==>
            input.chunkLength.Some? && !ChunkLengthOk(input.chunkLength.value))
      && (ReportsAt(errs, "format") <==> input.format.Some? && input.format.value !in FormatNames)
      && (ReportsAt(errs, "use_memory_cache") <==>
            input.useMemoryCache.Some? && input.useMemoryCache.value !in CacheNames)
      && (ReportsAt(errs, "top_p") <==> input.topP.Some? && !TopPOk(input.topP.value))
      && (ReportsAt(errs, "repetition_penalty") <==>
            input.repetitionPenalty.Some? && !RepetitionPenaltyOk(input.repetitionPenalty.value))
      && (ReportsAt(errs, "temperature") <==> input.temperature.Some? && !TemperatureOk(input.temperature.value))
      && (ReportsInReferences(errs) <==>
            input.references.Some? && exists i :: 0 <= i < |input.references.value|
                                                   && !ReferenceAdmissible(input.references.value[i]))
  {
    RejectionListsEveryCheck(input);
    ReportedAt(input, "text");
    ReportedAt(input, "chunk_length");
    ReportedAt(input, "format");
    ReportedAt(input, "use_memory_cache");
    ReportedAt(input, "top_p");
    ReportedAt(input, "repetition_penalty");
    ReportedAt(input, "temperature");
    ReportedInReferences(input);
  }
}
