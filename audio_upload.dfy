/** The checks `handleAudioUpload` makes on the chosen file before it is
    saved: the MIME type first, then the size. */
module AudioUpload {
  import opened Wrappers

  /** The two properties of a browser `File` the checks read. */
  datatype File = File(mimeType: string, size: int)

  /** The outcome of the checks: no file chosen, one of the two alerts, or acceptance. */
  datatype UploadCheck = NoFile | NotAudio | TooLarge | Accepted

  /** 5 MB, the largest accepted file, in bytes. */
  const MaxAudioBytes: int := 5 * 1024 * 1024

  const AudioPrefix: string := "audio/"

  /** `s.startsWith(prefix)`: the prefix fits and agrees with `s` character by character. */
  function StartsWith(s: string, prefix: string): (b: bool)
    ensures b <==> |prefix| <= |s| && forall i :: 0 <= i < |prefix| ==> s[i] == prefix[i]
  {
    |prefix| <= |s| && s[..|prefix|] == prefix
  }

  function CheckUpload(file: Option<File>): (r: UploadCheck)
    ensures r == Accepted <==>
      file.Some? && StartsWith(file.value.mimeType, AudioPrefix) && file.value.size <= MaxAudioBytes
    ensures r == NotAudio <==> file.Some? && !StartsWith(file.value.mimeType, AudioPrefix)
    ensures r == TooLarge <==>
      file.Some? && StartsWith(file.value.mimeType, AudioPrefix) && file.value.size > MaxAudioBytes
    ensures r == NoFile <==> file.None?
  {
    match file
    case None => NoFile
    case Some(f) =>
      if !StartsWith(f.mimeType, AudioPrefix) then NotAudio
      else if f.size > MaxAudioBytes then TooLarge
      else Accepted
  }

  /** The alert shown when one of the two checks rejects the file; none otherwise. */
  function Alert(r: UploadCheck): (message: Option<string>)
    ensures message.Some? <==> r == NotAudio || r == TooLarge
  {
    match r
    case NotAudio => Some("Please select an audio file (MP3, WAV, OGG, etc.)")
    case TooLarge => Some("File size must be less than 5MB")
    case _ => None
  }

  /** The type is checked first: a non-audio file is refused for its type
      whatever its size. */
  lemma TypeCheckedBeforeSize(mimeType: string, size1: int, size2: int)
    requires !StartsWith(mimeType, AudioPrefix)
    ensures CheckUpload(Some(File(mimeType, size1))) == CheckUpload(Some(File(mimeType, size2))) == NotAudio
  {
  }

  /** Any type beginning with `audio/` passes the type check, whatever follows it. */
  lemma AudioSubtypesPass(subtype: string, size: int)
    ensures CheckUpload(Some(File(AudioPrefix + subtype, size))) != NotAudio
  {
    assert (AudioPrefix + subtype)[..|AudioPrefix|] == AudioPrefix;
  }

  /** A file of exactly 5 MB is accepted, one byte more is not, although
      the alert speaks of "less than 5MB". */
  lemma SizeLimitIsInclusive()
    ensures CheckUpload(Some(File("audio/mpeg", MaxAudioBytes))) == Accepted
    ensures CheckUpload(Some(File("audio/mpeg", MaxAudioBytes + 1))) == TooLarge
  {
    AudioSubtypesPass("mpeg", MaxAudioBytes);
    AudioSubtypesPass("mpeg", MaxAudioBytes + 1);
  }

  /** Acceptance is preserved by a smaller file of the same type. */
  lemma SmallerStillAccepted(mimeType: string, size: int, smaller: int)
    requires CheckUpload(Some(File(mimeType, size))) == Accepted
    requires smaller <= size
    ensures CheckUpload(Some(File(mimeType, smaller))) == Accepted
  {
  }
}
