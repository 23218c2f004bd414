/** A reference audio clip with its transcript (`ServeReferenceAudio`): the
    before-validator that turns long base64 strings into bytes, the validating
    constructor, the debug rendering, and the loader that builds one from a
    file's contents (`AudioExample.load_from_path`). */
module Reference {
  import opened Wrappers
  import opened Base64
  import opened Errors
  import Render

  /** Strings strictly longer than this are taken for base64-encoded audio;
      shorter ones are more likely identifiers or paths. */
  const Base64Threshold: nat := 255

  /** What a client may put in the `audio` field: text, bytes, or a value of
      some other type. */
  datatype AudioInput = AudioStr(s: string) | AudioBytes(bytes: seq<byte>) | AudioOther

  /** The mapping handed to the constructor; `None` is an absent key. */
  datatype RawReference = RawReference(audio: Option<AudioInput>, text: Option<string>)

  predicate IsBase64Candidate(audio: Option<AudioInput>) {
    audio.Some? && audio.value.AudioStr? && |audio.value.s| > Base64Threshold
  }

  /** The before-validator `decode_audio`: a string longer than the threshold
      is replaced by its base64 decoding; when decoding fails the failure is
      swallowed and the string kept. */
  function DecodeAudio(values: RawReference): (r: RawReference)
    ensures r.text == values.text
    ensures !IsBase64Candidate(values.audio) ==> r == values
    ensures IsBase64Candidate(values.audio) ==>
      match B64Decode(values.audio.value.s)
      case Some(decoded) => r.audio == Some(AudioBytes(decoded))
      case None => r == values
  {
    if IsBase64Candidate(values.audio) then
      match B64Decode(values.audio.value.s)
      case Some(decoded) => values.(audio := Some(AudioBytes(decoded)))
      case None => values
    else values
  }

  /** Base64 text of at least 190 bytes (256 characters or more) arrives as
      the bytes it encodes. */
  lemma DecodeAudioOfEncoded(b: seq<byte>, text: Option<string>)
    requires |b| >= 190
    ensures DecodeAudio(RawReference(Some(AudioStr(Encode(b))), text))
         == RawReference(Some(AudioBytes(b)), text)
  {
    DecodeEncode(b);
  }

  /** Base64 text of at most 189 bytes (at most 252 characters) is not
      decoded, although it is valid. */
  lemma ShortEncodedIsKept(b: seq<byte>, text: Option<string>)
    requires |b| <= 189
    ensures DecodeAudio(RawReference(Some(AudioStr(Encode(b))), text))
         == RawReference(Some(AudioStr(Encode(b))), text)
  {
  }

  /** A long string that does not decode (whole groups plus one dangling
      alphabet character) is neither an error nor altered: the decoding
      failure is swallowed and the string kept. */
  lemma UndecodableIsKept(b: seq<byte>, c: char, text: Option<string>)
    requires |b| % 3 == 0 && |b| >= 192 && CharSextet(c).Some?
    ensures DecodeAudio(RawReference(Some(AudioStr(Encode(b) + [c])), text))
         == RawReference(Some(AudioStr(Encode(b) + [c])), text)
  {
    DanglingCharacterFails(b, c);
  }

  /** Running the before-validator again changes nothing: decoded audio is
      bytes, and a string that failed to decode fails again. */
  lemma DecodeAudioIdempotent(values: RawReference)
    ensures DecodeAudio(DecodeAudio(values)) == DecodeAudio(values)
  {
  }

  /* ---------------------------- the record ---------------------------- */

  /** The stored audio. Pydantic's lax coercion would turn a kept string into
      its UTF-8 bytes; the model keeps it as text. */
  datatype AudioPayload = Bytes(bytes: seq<byte>) | Text(s: string)

  datatype ReferenceAudio = ReferenceAudio(audio: AudioPayload, text: string)

  /** What the constructor accepts: both fields present, the audio text or bytes. */
  predicate Admissible(raw: RawReference) {
    raw.audio.Some? && !raw.audio.value.AudioOther? && raw.text.Some?
  }

  /** No base64 the before-validator would decode is left in the payload. */
  predicate Settled(p: AudioPayload) {
    p.Text? ==> !(|p.s| > Base64Threshold && B64Decode(p.s).Some?)
  }

  function AudioField(loc: Loc, audio: Option<AudioInput>): (r: Result<AudioPayload, FieldError>) {
    match audio
    case None => Failure(FieldError(loc + [Field("audio")], Missing))
    case Some(AudioOther) => Failure(FieldError(loc + [Field("audio")], WrongType("bytes")))
    case Some(AudioStr(s)) => Success(Text(s))
    case Some(AudioBytes(b)) => Success(Bytes(b))
  }

  /** `ServeReferenceAudio(**raw)`: the before-validator, then the field checks.
      Errors are reported under `loc`, the record's place in an enclosing request. */
  function Validate(raw: RawReference, loc: Loc): (r: Result<ReferenceAudio, seq<FieldError>>)
    ensures r.Success? <==> Admissible(raw)
    ensures r.Success? ==> r.value.text == raw.text.value && Settled(r.value.audio)
    ensures r.Success? && raw.audio.value.AudioBytes? ==> r.value.audio == Bytes(raw.audio.value.bytes)
    ensures r.Success? ==> Dump(r.value) == DecodeAudio(raw)
    ensures r.Failure? ==> |r.error| > 0 && AllUnder(r.error, loc)
  {
    var v := DecodeAudio(raw);
    var audio := AudioField(loc, v.audio);
    var text := Require(loc + [Field("text")], v.text);
    if audio.Success? && text.Success? then Success(ReferenceAudio(audio.value, text.value))
    else Failure(ErrorOf(audio) + ErrorOf(text))
  }

  /** The record as a mapping again (`model_dump`). */
  function Dump(a: ReferenceAudio): RawReference {
    var audio := match a.audio
      case Bytes(b) => AudioBytes(b)
      case Text(s) => AudioStr(s);
    RawReference(Some(audio), Some(a.text))
  }

  /** A settled record survives a dump and re-validation unchanged. */
  lemma ValidateDump(a: ReferenceAudio, loc: Loc)
    requires Settled(a.audio)
    ensures Validate(Dump(a), loc) == Success(a)
  {
  }

  /* ------------------------- debug rendering ------------------------- */

  /** The UTF-8 encoding of one scalar value (section 3 of RFC 3629): one
      byte below U+0080, else a lead byte marking the length followed by
      continuation bytes of six bits each. */
  function Utf8EncodeChar(c: char): seq<byte> {
    var v := c as int;
    if v < 0x80 then [v]
    else if v < 0x800 then [0xC0 + v / 0x40, 0x80 + v % 0x40]
    else if v < 0x10000 then [0xE0 + v / 0x1000, 0x80 + (v / 0x40) % 0x40, 0x80 + v % 0x40]
    else [0xF0 + v / 0x40000, 0x80 + (v / 0x1000) % 0x40, 0x80 + (v / 0x40) % 0x40, 0x80 + v % 0x40]
  }

  /** `s.encode("utf-8")`: the encodings of its characters, in order. */
  function Utf8Encode(s: string): seq<byte> {
    if |s| == 0 then [] else Utf8EncodeChar(s[0]) + Utf8Encode(s[1..])
  }

  /** The examples of section 7 of RFC 3629, covering every encoded length. */
  lemma Utf8TestVectors()
    ensures Utf8Encode("A\U{2262}\U{391}.") == [0x41, 0xE2, 0x89, 0xA2, 0xCE, 0x91, 0x2E]
    ensures Utf8Encode("\U{65E5}\U{672C}\U{8A9E}") == [0xE6, 0x97, 0xA5, 0xE6, 0x9C, 0xAC, 0xE8, 0xAA, 0x9E]
    ensures Utf8Encode("\U{FEFF}\U{233B4}") == [0xEF, 0xBB, 0xBF, 0xF0, 0xA3, 0x8E, 0xB4]
  {
  }

  /** Bytes in the UTF-8 encoding of `s`, the size a kept string would have
      once coerced to `bytes`, counted from each character's code point. */
  function Utf8Length(s: string): (n: nat)
    ensures n == |Utf8Encode(s)|
    ensures |s| <= n <= 4 * |s|
    ensures (forall i :: 0 <= i < |s| ==> IsAscii(s[i])) ==> n == |s|
    decreases |s|
  {
    if |s| == 0 then 0
    else
      var c := s[0] as int;
      (if c < 0x80 then 1 else if c < 0x800 then 2 else if c < 0x10000 then 3 else 4)
        + Utf8Length(s[1..])
  }

  /** `len(self.audio)` */
  function AudioSize(p: AudioPayload): nat {
    match p
    case Bytes(b) => |b|
    case Text(s) => Utf8Length(s)
  }

  const ReprHead: string := "ServeReferenceAudio(text="
  const ReprSizeLabel: string := ", audio_size="

  /** `__repr__`: the transcript and the audio's size, never its contents.
      The rendering reads back into exactly the transcript and the size. */
  function Repr(a: ReferenceAudio): (r: string)
    ensures ParseRepr(r) == Some((a.text, AudioSize(a.audio)))
  {
    ReprOfParts(a.text, AudioSize(a.audio));
    ReprHead + Render.StrRepr(a.text) + ReprSizeLabel + Render.Decimal(AudioSize(a.audio)) + ")"
  }

  /** Reads a rendering back into transcript and size. */
  function ParseRepr(r: string): Option<(string, nat)> {
    if |r| < |ReprHead| || r[..|ReprHead|] != ReprHead then None
    else
      match Render.ParseStrRepr(r[|ReprHead|..])
      case None => None
      case Some((text, after)) =>
        match ParseSizeTail(after)
        case None => None
        case Some(n) => Some((text, n))
  }

  /** Reads `, audio_size=<n>)` back into `n`. */
  function ParseSizeTail(after: string): Option<nat> {
    if |after| < |ReprSizeLabel| + 1 || after[..|ReprSizeLabel|] != ReprSizeLabel
       || after[|after| - 1] != ')'
    then None
    else Render.ParseDecimal(after[|ReprSizeLabel|..|after| - 1])
  }

  lemma ParseSizeTailOfTail(size: nat)
    ensures ParseSizeTail(ReprSizeLabel + Render.Decimal(size) + ")") == Some(size)
  {
    var digits := Render.Decimal(size);
    var tail := ReprSizeLabel + digits + ")";
    assert tail[..|ReprSizeLabel|] == ReprSizeLabel;
    assert tail[|ReprSizeLabel|..|tail| - 1] == digits;
    Render.ParseDecimalOfDecimal(size);
  }

  lemma ReprOfParts(text: string, size: nat)
    ensures ParseRepr(ReprHead + Render.StrRepr(text) + ReprSizeLabel + Render.Decimal(size) + ")")
         == Some((text, size))
  {
    var tail := ReprSizeLabel + Render.Decimal(size) + ")";
    var r := ReprHead + Render.StrRepr(text) + ReprSizeLabel + Render.Decimal(size) + ")";
    assert r == ReprHead + (Render.StrRepr(text) + tail);
    assert r[..|ReprHead|] == ReprHead;
    assert r[|ReprHead|..] == Render.StrRepr(text) + tail;
    Render.ParseStrReprOfStrRepr(text, tail);
    ParseSizeTailOfTail(size);
  }

  /** Two records render alike exactly when transcript and size agree: the
      audio bytes themselves never reach the rendering. */
  lemma ReprDeterminedByTextAndSize(a: ReferenceAudio, b: ReferenceAudio)
    ensures Repr(a) == Repr(b) <==> (a.text == b.text && AudioSize(a.audio) == AudioSize(b.audio))
  {
  }

  /* ------------------------------ loader ------------------------------ */

  /** Why loading failed: the file could not be read, or the record built
      from its contents was rejected. */
  datatype LoadCause = ReadFailed(reason: string) | Invalid(errors: seq<FieldError>)

  /** The `ValueError` the loader raises, naming the path and the cause. */
  datatype LoadError = LoadError(path: string, cause: LoadCause)

  /** `AudioExample.load_from_path`, with the file read supplied as `read`
      (its contents, or the reason it failed). Every failure inside the
      `try` comes out as a `LoadError` naming the path. */
  function LoadFromPath(path: string, text: string, read: Result<seq<byte>, string>): (r: Result<ReferenceAudio, LoadError>)
    ensures r.Success? <==> read.Success?
    ensures r.Success? ==> r.value == ReferenceAudio(Bytes(read.value), text)
    ensures r.Failure? ==> r.error == LoadError(path, ReadFailed(read.error))
  {
    match read
    case Failure(reason) => Failure(LoadError(path, ReadFailed(reason)))
    case Success(contents) =>
      match Validate(RawReference(Some(AudioBytes(contents)), Some(text)), [])
      case Success(a) => Success(a)
      case Failure(errs) => Failure(LoadError(path, Invalid(errs)))
  }
}
