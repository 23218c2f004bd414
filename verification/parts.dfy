/** The three content parts (`ServeVQPart`, `ServeTextPart`, `ServeAudioPart`)
    as one tagged sum. Each class fixes its `type` literal; the codes of a VQ
    part are carried through without validation (`SkipValidation`). */
module ContentParts {
  import opened Wrappers
  import opened Errors
  import Base64

  datatype ContentPart =
    | VQPart(codes: seq<seq<int>>)
    | TextPart(text: string)
    | AudioPart(audio: seq<Base64.byte>)

  /** Which of the three classes is being constructed. */
  datatype PartKind = VQKind | TextKind | AudioKind

  /** The `type` literal each class carries. */
  function KindTag(k: PartKind): string {
    match k
    case VQKind => "vq"
    case TextKind => "text"
    case AudioKind => "audio"
  }

  function KindOf(p: ContentPart): PartKind {
    match p
    case VQPart(_) => VQKind
    case TextPart(_) => TextKind
    case AudioPart(_) => AudioKind
  }

  /** The part's `type` field. */
  function Tag(p: ContentPart): string {
    KindTag(KindOf(p))
  }

  /** The tag names the class: no two classes share one. */
  lemma TagDeterminesKind(p: ContentPart, q: ContentPart)
    ensures Tag(p) == Tag(q) <==> KindOf(p) == KindOf(q)
  {
  }

  /** The mapping handed to a part constructor; `None` is an absent key.
      Keys that do not belong to the class are ignored. */
  datatype RawPart = RawPart(
    kind: Option<string>,
    text: Option<string>,
    audio: Option<seq<Base64.byte>>,
    codes: Option<seq<seq<int>>>)

  /** The payload field of class `k` is present. */
  predicate HasPayload(k: PartKind, raw: RawPart) {
    match k
    case VQKind => raw.codes.Some?
    case TextKind => raw.text.Some?
    case AudioKind => raw.audio.Some?
  }

  function TagField(k: PartKind, kind: Option<string>): Result<(), FieldError> {
    match kind
    case None => Success(())
    case Some(t) =>
      if t == KindTag(k) then Success(())
      else Failure(FieldError([Field("type")], NotAllowed([KindTag(k)], t)))
  }

  function PayloadField(k: PartKind, raw: RawPart): Result<ContentPart, FieldError> {
    match k
    case VQKind =>
      if raw.codes.Some? then Success(VQPart(raw.codes.value))
      else Failure(FieldError([Field("codes")], Missing))
    case TextKind =>
      if raw.text.Some? then Success(TextPart(raw.text.value))
      else Failure(FieldError([Field("text")], Missing))
    case AudioKind =>
      if raw.audio.Some? then Success(AudioPart(raw.audio.value))
      else Failure(FieldError([Field("audio")], Missing))
  }

  /** Constructing the class `k` from `raw`: the `type` key, when given, must
      be the class's own literal; the payload key must be present. */
  function ValidatePart(k: PartKind, raw: RawPart): (r: Result<ContentPart, seq<FieldError>>)
    ensures r.Success? <==> (raw.kind.None? || raw.kind.value == KindTag(k)) && HasPayload(k, raw)
    ensures r.Success? ==> KindOf(r.value) == k && Tag(r.value) == KindTag(k)
    ensures r.Success? && k == VQKind ==> r.value.codes == raw.codes.value
    ensures r.Success? && k == TextKind ==> r.value.text == raw.text.value
    ensures r.Success? && k == AudioKind ==> r.value.audio == raw.audio.value
    ensures r.Failure? ==> |r.error| > 0
  {
    var tag := TagField(k, raw.kind);
    var payload := PayloadField(k, raw);
    if tag.Success? && payload.Success? then Success(payload.value)
    else Failure(ErrorOf(tag) + ErrorOf(payload))
  }

  /** The part as a mapping again (`model_dump`), its tag included. */
  function Dump(p: ContentPart): RawPart {
    match p
    case VQPart(c) => RawPart(Some("vq"), None, None, Some(c))
    case TextPart(t) => RawPart(Some("text"), Some(t), None, None)
    case AudioPart(a) => RawPart(Some("audio"), None, Some(a), None)
  }

  /** Every part survives a dump and re-construction by its own class, codes
      of any shape included. */
  lemma ValidateDump(p: ContentPart)
    ensures ValidatePart(KindOf(p), Dump(p)) == Success(p)
  {
  }

  /** A dumped part is refused by every other class: the tag discriminates. */
  lemma DumpRefusedByOtherKinds(p: ContentPart, k: PartKind)
    requires k != KindOf(p)
    ensures ValidatePart(k, Dump(p)).Failure?
  {
  }

  /** Codes are taken as given, in order, ragged or not. */
  lemma CodesKeptVerbatim()
    ensures ValidatePart(VQKind, RawPart(None, None, None, Some([[1, 2, 3], [4, 5, 6]])))
         == Success(VQPart([[1, 2, 3], [4, 5, 6]]))
    ensures ValidatePart(VQKind, RawPart(None, None, None, Some([[7], [], [-1, 8]])))
         == Success(VQPart([[7], [], [-1, 8]]))
  {
  }
}
