# fish-speech request schema, in Dafny

This project models the request and response schema layer of fish-speech
(`fish_speech/utils/schema.py`). That layer sits between API clients and the
generation engine. The model covers:

- the three content parts (`ServeVQPart`, `ServeTextPart`, `ServeAudioPart`)
  as one tagged sum whose tag is fixed per variant (`parts.dfy`);
- the generic generation request `ServeRequest`, which fills in defaults and
  checks no bounds, and the four VQGAN encode/decode carriers, whose token
  tensors pass through unvalidated (`generation.dfy`);
- the reference clip `ServeReferenceAudio` (`reference.dfy`):
  - its before-validator `decode_audio`, which base64-decodes strings longer
    than 255 characters and keeps the string when decoding fails;
  - its validating constructor;
  - its `__repr__`, which shows the transcript and the audio size but never
    the audio;
  - the loader `AudioExample.load_from_path`;
- the text-to-speech request `ServeTTSRequest` (`tts.dfy`). It is one
  all-or-nothing constructor that fills in defaults and checks:
  - the inclusive bounds on `chunk_length`, `top_p`, `repetition_penalty` and
    `temperature`;
  - the `format` and `use_memory_cache` literals;
  - every element of `references`.

Supporting modules:

- `base64.dfy`: `base64.b64decode` as CPython's non-strict decoder.
  - A `str` argument must be ASCII.
  - Characters outside the alphabet are skipped.
  - A padding character that completes a group ends decoding.
  - A group left incomplete is an error.
  - The partner is the encoder of section 4 of RFC 4648, and the round trip
    is proved.
- `render.dfy`: Python's `repr` of a `str` and decimal rendering of an `int`,
  each with a parser and a round-trip proof.
- `errors.dfy`: the error report. Like pydantic's `ValidationError`, a
  rejection lists every offending field, in field order, with its location.
- `wrappers.dfy`: `Option` and `Result`.

A constructor takes a record of `Option` fields: `None` is an omitted key.
Floats are `real`, compared only. Bytes are integers in `[0, 256)`.

Behaviour of the code worth knowing, each proved:

- **No bounds on the generation request.** `ServeRequest` declares plain
  `int`, `float` and `bool` fields. A negative token budget, zero samples
  or a `top_p` above one are all accepted (`Generation.ValidateDumpServeRequest`).
- **Base64 can survive construction.** A long string that fails to decode
  stays a string (`Reference.UndecodableIsKept`). So does valid base64 of
  at most 252 characters (`Reference.ShortEncodedIsKept`).
- **Carriers are unrelated.** Nothing relates the encode and decode carriers
  positionally or by shape (`Generation.CarriersAreTransparent`).
- **The `type` key is optional.** Each content part defaults its `type`
  literal, so a part whose `type` key is absent is accepted
  (`ContentParts.ValidatePart`).

The command-line client offers `--format flac` (`tools/api_client.py:69`).
`ServeTTSRequest` refuses that value (`Tts.FlacIsRefused`).

## Model

| member | source | states |
|---|---|---|
| ContentParts.TagDeterminesKind | fish_speech/utils/schema.py:16-28 | Two parts have the same `type` tag exactly when they are of the same class. |
| ContentParts.ValidatePart | fish_speech/utils/schema.py:16-28 | A part is built exactly when its `type` key is absent or equals the class literal and its payload key is present. The result has the class's tag and the payload verbatim. A refusal reports at least one error. |
| ContentParts.ValidateDump | fish_speech/utils/schema.py:16-28 | Every part, with codes of any shape, survives dump and reconstruction by its own class. |
| ContentParts.DumpRefusedByOtherKinds | fish_speech/utils/schema.py:17-27 | A dumped part is refused by each of the other two classes, because the fixed tag discriminates. |
| ContentParts.CodesKeptVerbatim | fish_speech/utils/schema.py:18 | VQ codes are not validated: ragged and negative codes are kept exactly. |
| Generation.ValidateServeRequest | fish_speech/utils/schema.py:31-40 | A generation request is built exactly when `content` is present, otherwise the only error is `content` missing. Every other field takes its value or its default. |
| Generation.ValidateDumpServeRequest | fish_speech/utils/schema.py:31-40 | Every request survives dump and reconstruction, whatever its numbers, because no bound is imposed. |
| Generation.ServeRequestDefaults | fish_speech/utils/schema.py:34-40 | With only `content` given, the defaults are 600, 0.7, 1.2, 0.7, false, 1 and 1.0. |
| Generation.Carry | fish_speech/utils/schema.py:43-58 | A carrier's one field is accepted exactly when present, and its value is kept. |
| Generation.ValidateEncodeRequest | fish_speech/utils/schema.py:43-45 | An encode request is built exactly when `audios` is present, and it keeps the audios as given. Otherwise the only error is `audios` missing. |
| Generation.ValidateEncodeResponse | fish_speech/utils/schema.py:48-49 | An encode response is built exactly when `tokens` is present, and it keeps the tokens of any shape. Otherwise the only error is `tokens` missing. |
| Generation.ValidateDecodeRequest | fish_speech/utils/schema.py:52-53 | A decode request is built exactly when `tokens` is present, and it keeps the tokens of any shape. Otherwise the only error is `tokens` missing. |
| Generation.ValidateDecodeResponse | fish_speech/utils/schema.py:56-58 | A decode response is built exactly when `audios` is present, and it keeps the audios as given. Otherwise the only error is `audios` missing. |
| Generation.CarriersAreTransparent | fish_speech/utils/schema.py:43-58 | The encode and decode carriers accept any tokens and audios unchanged and refuse only an absent field. No shape or positional check relates them. |
| Base64.Encode | fish_speech/utils/schema.py:105 | The reference encoder produces four characters per started group of three bytes. |
| Base64.EncodeTestVectors | fish_speech/utils/schema.py:105 | The encoder reproduces the seven test vectors of RFC 4648 section 10, from the empty string to "foobar". |
| Base64.B64Decode | fish_speech/utils/schema.py:105 | A string with a non-ASCII character does not decode. |
| Base64.DecodeEncode | fish_speech/utils/schema.py:105 | Decoding the encoding of any byte string gives back that byte string. |
| Base64.DecodeIgnoresNoise | fish_speech/utils/schema.py:105 | On ASCII input, characters outside the alphabet and padding are skipped: decoding equals decoding of the significant characters alone. |
| Base64.DecodeIgnoresTrailer | fish_speech/utils/schema.py:105 | When the encoding ends in padding, any ASCII text after it is ignored. |
| Base64.DanglingCharacterFails | fish_speech/utils/schema.py:105-108 | Whole groups followed by one alphabet character fail to decode. |
| Reference.DecodeAudio | fish_speech/utils/schema.py:98-109 | The before-validator never changes `text`. It leaves bytes, other values and strings of at most 255 characters unchanged. A longer string becomes its decoding when decoding succeeds and is kept when it fails. |
| Reference.DecodeAudioOfEncoded | fish_speech/utils/schema.py:101-105 | The base64 text of at least 190 bytes arrives as those bytes. |
| Reference.ShortEncodedIsKept | fish_speech/utils/schema.py:101-103 | The valid base64 text of at most 189 bytes is not decoded. |
| Reference.UndecodableIsKept | fish_speech/utils/schema.py:104-109 | A long string that fails to decode is neither an error nor altered. |
| Reference.DecodeAudioIdempotent | fish_speech/utils/schema.py:98-109 | Applying the before-validator twice equals applying it once. |
| Reference.Validate | fish_speech/utils/schema.py:94-109 | A reference is built exactly when audio is text or bytes and text is present. The stored record is exactly what the before-validator produced: decoded bytes for a long decodable string, the input unchanged otherwise. It holds no base64 the before-validator would decode. Errors sit under the record's location. |
| Reference.ValidateDump | fish_speech/utils/schema.py:94-109 | A settled record survives dump and revalidation unchanged. |
| Reference.Utf8Length | fish_speech/utils/schema.py:112 | The size of a kept string is the length of its UTF-8 encoding. It lies between its length and four times its length, and equals its length for ASCII. |
| Reference.Utf8TestVectors | fish_speech/utils/schema.py:112 | The UTF-8 encoder reproduces the examples of RFC 3629 section 7, covering one- to four-byte characters. |
| Reference.Repr | fish_speech/utils/schema.py:111-112 | The rendering shows the transcript via `repr` and the audio size via `len`, never the contents. It reads back into exactly the transcript and the audio size. |
| Reference.ReprDeterminedByTextAndSize | fish_speech/utils/schema.py:111-112 | Two records render alike if and only if their transcripts and audio sizes agree. The audio contents never reach the rendering. |
| Reference.LoadFromPath | fish_speech/utils/schema.py:74-91 | Loading succeeds exactly when the read does, with the file's bytes and the given text. A read failure becomes a `ValueError` naming the path and the cause. |
| Render.Decimal | fish_speech/utils/schema.py:112 | An integer renders as digits with no leading zero. |
| Render.ParseDecimalOfDecimal | fish_speech/utils/schema.py:112 | Parsing the decimal rendering of `n` gives back `n`. |
| Render.StrRepr | fish_speech/utils/schema.py:112 | `repr` of a string is quoted with the quote Python chooses. |
| Render.ParseStrReprOfStrRepr | fish_speech/utils/schema.py:112 | Unescaping `repr(s)` followed by any text gives back `s` and that text. |
| Tts.ParseFormat | fish_speech/utils/schema.py:119 | A format is read exactly from one of `wav`, `pcm`, `mp3`, and it names itself. |
| Tts.ParseCache | fish_speech/utils/schema.py:127 | A cache mode is read exactly from `on` or `off`, and it names itself. |
| Tts.LiteralNamesRoundTrip | fish_speech/utils/schema.py:119-127 | Every format and cache mode reads back from its own name. |
| Tts.ValidateReferences | fish_speech/utils/schema.py:121 | The list is built exactly when every element is admissible. Each element is built in place and at its index. Errors sit inside `references`, below an index. |
| Tts.ValidateTts | fish_speech/utils/schema.py:115-135 | A request is built exactly when text is present and every given bounded or literal field is in range. The result is within all bounds. Each field is its given value or its default. A refusal is nonempty. |
| Tts.TtsDefaults | fish_speech/utils/schema.py:117-135 | With only `text` given, the defaults are 200, wav, [], None, None, off, true, false, 1024, 0.8, 1.1 and 0.8. The result is well formed. |
| Tts.BoundsAreInclusive | fish_speech/utils/schema.py:117-135 | Both ends of every range are accepted. The values just outside them are refused. |
| Tts.FlacIsRefused | fish_speech/utils/schema.py:119 | `format="flac"` is refused with exactly one error at `format`, listing the allowed literals. |
| Tts.ValidateDump | fish_speech/utils/schema.py:115-135 | A well-formed request with settled references survives dump and reconstruction unchanged. |
| Tts.RejectionListsEveryCheck | fish_speech/utils/schema.py:115-135 | The reported errors are those of every field check, in field order. |
| Tts.ChecksLocated | fish_speech/utils/schema.py:115-135 | Each field check reports at its own field. Reference errors sit inside `references`. |
| Tts.ReportedAt | fish_speech/utils/schema.py:115-135 | An error is reported at a top-level field exactly when that field's own check failed. |
| Tts.ReportedInReferences | fish_speech/utils/schema.py:121 | An error is reported inside `references` exactly when the list check failed. |
| Tts.RejectionNamesOffendingFields | fish_speech/utils/schema.py:115-135 | A rejection names each field if and only if that field is offending: missing text, out of range, not a literal, or an inadmissible reference. |

## Left out

- `tools/api_client.py`: argument parsing, HTTP, msgpack, playback and file output are all I/O.
- Reference.LoadFromPath: the file read is a parameter, either the contents or the reason it failed. The default arguments are omitted, and so is the file handle.
- Pydantic's lax coercion of a kept `str` into `bytes` is not modelled. The payload stays `Text`. Its `audio_size` is its UTF-8 length, which is what `len` of the coerced bytes would be.
- Type checking of fields is not modelled, apart from the reference `audio` field. Inputs are typed, so strict-mode `int`/`float` acceptance and wrong-type errors cannot arise. The `audio` field is a small sum (text, bytes, other) because the before-validator branches on it.
- Tts.ValidateTts: the `chunk_length` bound is modelled as declared (`conint(ge=100, le=300, strict=True)`, schema.py:117). Pydantic may not apply a `conint` nested as `Annotated` metadata. If it does not, 99 and 301 are accepted and `Tts.BoundsAreInclusive` overstates the check for that field. The float bounds use `Field(...)` and are not affected.
- Error messages are not formatted. An error is its location and kind.
- Render.StrRepr: escapes only C0 controls, DEL, U+0080 to U+00A0 and U+00AD with `\xhh`. Other characters Python's `isprintable` rejects are written literally, because the Unicode character database is not modelled.
- Base64.B64Decode: models `str` input only. Bytes input to `b64decode` does not occur, because the before-validator decodes only strings.
- Floats are `real`: no IEEE rounding, NaN or infinities.
- The contents of `ServeRequest.content` are not modelled. They are an opaque mapping expanded by `ContentSequence`, and `fish_speech/content_sequence.py` is not part of this model.
- Shapes inside VQ codes and VQGAN token tensors are not modelled, because they are `SkipValidation`.
- Reference.DecodeAudio: returns a new record. In the code, `decode_audio` assigns the decoded bytes into the mapping it is given. A dict passed to `model_validate`, or a dict inside `references`, therefore comes back with its `audio` replaced. `ServeReferenceAudio(**d)` validates a fresh keyword mapping and leaves `d` unchanged. The in-place assignment is not modelled.
- Reference records are not revalidated when passed already built inside `references`. Pydantic's default is `revalidate_instances='never'`.
- The `torch`, `queue` and `dataclass` imports are unused by the schema and not modelled.
