/** Field types, field values and the per-type extractors that turn a message into a value. */
module Extractors {
  import opened Wrappers
  import opened Telegram

  /** A field type is a string tag, as it is persisted. */
  type FieldType = string

  const Auto: FieldType := "<auto>"
  const Text: FieldType := "text"
  const Sticker: FieldType := "sticker"
  const Image: FieldType := "image"
  const Voice: FieldType := "voice"
  const Audio: FieldType := "audio"
  const Video: FieldType := "video"
  const VideoNote: FieldType := "video_note"
  const Gif: FieldType := "gif"
  const Document: FieldType := "document"
  const Location: FieldType := "location"

  /** The attachment kinds in the order in which type detection looks for them. */
  const DetectionOrder: seq<FieldType> := [Sticker, Image, Voice, Audio, Video, VideoNote, Gif, Document]

  /** A cached file reference. */
  datatype File = File(id: string, uniqueId: string)

  /** The value of a field: nil until resolved, then a text or a file. */
  datatype FieldValue = Nil | Txt(value: string) | FileRef(file: File)

  /** The extraction functions; one per concrete type, plus the one that never yields a value. */
  datatype Extractor =
    | NilExtractor
    | TextExtractor
    | StickerExtractor
    | ImageExtractor
    | VoiceExtractor
    | AudioExtractor
    | VideoExtractor
    | VideoNoteExtractor
    | GifExtractor
    | DocumentExtractor

  /** Does the message carry an attachment of kind `t`? (A non-nil photo list counts, even if empty.) */
  predicate HasKind(m: Message, t: FieldType) {
    if t == Sticker then m.sticker.Some?
    else if t == Image then m.photo.Some?
    else if t == Voice then m.voice.Some?
    else if t == Audio then m.audio.Some?
    else if t == Video then m.video.Some?
    else if t == VideoNote then m.videoNote.Some?
    else if t == Gif then m.animation.Some?
    else if t == Document then m.document.Some?
    else false
  }

  function FileOf(a: Option<Attachment>): (v: FieldValue)
    ensures v != Nil <==> a.Some?
    ensures a.Some? ==> v == FileRef(File(a.value.fileId, a.value.fileUniqueId))
  {
    match a
    case None => Nil
    case Some(x) => FileRef(File(x.fileId, x.fileUniqueId))
  }

  /** The image extractor: the last (largest) photo size, nil for an absent or empty list. */
  function LastPhoto(m: Message): (a: Option<Attachment>)
    ensures a.Some? <==> m.photo.Some? && |m.photo.value| > 0
    ensures a.Some? ==> a.value == m.photo.value[|m.photo.value| - 1]
  {
    if m.photo.None? || |m.photo.value| == 0 then None
    else Some(m.photo.value[|m.photo.value| - 1])
  }

  /** Run extractor `e` on message `m`. */
  function Extract(e: Extractor, m: Message): (v: FieldValue)
    ensures e == NilExtractor ==> v == Nil
    ensures e == TextExtractor ==> v == Txt(m.text)
    ensures e == ImageExtractor ==> (v != Nil <==> m.photo.Some? && |m.photo.value| > 0)
    ensures e == StickerExtractor ==> (v != Nil <==> m.sticker.Some?)
    ensures e == DocumentExtractor ==> (v != Nil <==> m.document.Some?)
    ensures v.Txt? ==> e == TextExtractor
  {
    match e
    case NilExtractor => Nil
    case TextExtractor => Txt(m.text)
    case StickerExtractor => FileOf(m.sticker)
    case ImageExtractor => FileOf(LastPhoto(m))
    case VoiceExtractor => FileOf(m.voice)
    case AudioExtractor => FileOf(m.audio)
    case VideoExtractor => FileOf(m.video)
    case VideoNoteExtractor => FileOf(m.videoNote)
    case GifExtractor => FileOf(m.animation)
    case DocumentExtractor => FileOf(m.document)
  }

  /** The message kind, checked in a fixed priority order; text when no attachment is present.
      It never answers `Location` or `Auto`. */
  function DetermineMessageType(m: Message): (t: FieldType)
    ensures t != Auto && t != Location
    ensures t == Text || t in DetectionOrder
  {
    if m.sticker.Some? then Sticker
    else if m.photo.Some? then Image
    else if m.voice.Some? then Voice
    else if m.audio.Some? then Audio
    else if m.video.Some? then Video
    else if m.videoNote.Some? then VideoNote
    else if m.animation.Some? then Gif
    else if m.document.Some? then Document
    else Text
  }

  /** Position of a detectable kind in the detection order. */
  function Rank(t: FieldType): (k: nat)
    requires t in DetectionOrder
    ensures k < |DetectionOrder| && DetectionOrder[k] == t
  {
    if t == Sticker then 0 else if t == Image then 1 else if t == Voice then 2
    else if t == Audio then 3 else if t == Video then 4 else if t == VideoNote then 5
    else if t == Gif then 6 else 7
  }

  /** Detection picks the first kind of `DetectionOrder` that the message carries, and text
      exactly when it carries none of them. */
  lemma DetectionFollowsPriority(m: Message)
    ensures DetermineMessageType(m) == Text <==>
              forall k :: 0 <= k < |DetectionOrder| ==> !HasKind(m, DetectionOrder[k])
    ensures DetermineMessageType(m) != Text ==>
              var k := Rank(DetermineMessageType(m));
              HasKind(m, DetectionOrder[k]) && forall j :: 0 <= j < k ==> !HasKind(m, DetectionOrder[j])
  {
    var t := DetermineMessageType(m);
    if t == Text {
      forall k | 0 <= k < |DetectionOrder| ensures !HasKind(m, DetectionOrder[k]) {
        assert k in {0, 1, 2, 3, 4, 5, 6, 7};
      }
    } else {
      var k := Rank(t);
      forall j | 0 <= j < k ensures !HasKind(m, DetectionOrder[j]) {
        assert j in {0, 1, 2, 3, 4, 5, 6};
      }
    }
  }

  /** The extractor a declared concrete type selects; any other type (location, the empty type of
      prefilled fields, an unknown tag) selects the nil extractor. */
  function ExtractorFor(t: FieldType): (e: Extractor)
    ensures e == NilExtractor <==> t !in DetectionOrder + [Text]
    ensures e == TextExtractor <==> t == Text
  {
    if t == Text then TextExtractor
    else if t == Sticker then StickerExtractor
    else if t == Image then ImageExtractor
    else if t == Voice then VoiceExtractor
    else if t == Audio then AudioExtractor
    else if t == Video then VideoExtractor
    else if t == VideoNote then VideoNoteExtractor
    else if t == Gif then GifExtractor
    else if t == Document then DocumentExtractor
    else NilExtractor
  }

  /** Each concrete type has an extractor of its own: the choice depends on the declared type only,
      and two different concrete types never share an extractor. */
  lemma ExtractorForInjective(s: FieldType, t: FieldType)
    requires s in DetectionOrder + [Text] && t in DetectionOrder + [Text]
    requires ExtractorFor(s) == ExtractorFor(t)
    ensures s == t
  {
    assert s in [Sticker, Image, Voice, Audio, Video, VideoNote, Gif, Document, Text];
  }

  /** Every file extractor returns a file exactly when its attachment is present (for images: a
      non-empty photo list). */
  lemma FileExtractorMatchesKind(t: FieldType, m: Message)
    requires t in DetectionOrder
    ensures Extract(ExtractorFor(t), m) != Nil <==> HasKind(m, t) && (t == Image ==> |m.photo.value| > 0)
    ensures Extract(ExtractorFor(t), m).Nil? || Extract(ExtractorFor(t), m).FileRef?
  {
  }

  /** A type chosen by detection extracts a value from the very message it was detected on,
      unless that message carries an empty (but non-nil) photo list. */
  lemma DetectedTypeExtracts(m: Message)
    requires m.photo.Some? ==> |m.photo.value| > 0
    ensures Extract(ExtractorFor(DetermineMessageType(m)), m) != Nil
  {
    var t := DetermineMessageType(m);
    if t != Text {
      FileExtractorMatchesKind(t, m);
    }
  }

  /** The empty photo list is the one message kind detection accepts but extraction rejects. */
  lemma EmptyPhotoListDetectedButRejected(m: Message)
    requires m.sticker.None? && m.photo == Some([])
    ensures DetermineMessageType(m) == Image
    ensures Extract(ExtractorFor(DetermineMessageType(m)), m) == Nil
  {
  }
}
