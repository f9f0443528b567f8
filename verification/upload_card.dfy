/**
 * The upload card (music-frontend/src/components/upload/UploadCard.tsx): which files it
 * accepts, what a drop or a file-input change does, and the drag highlight. Handing the
 * file on to the caller is the `selected` part of each result.
 */
module UploadCard {
  import opened Wrappers
  import Text

  datatype File = File(mimeType: string, name: string)

  const AcceptedTypes: seq<string> := ["audio/mpeg", "audio/wav", "audio/flac", "audio/ogg"]

  /** The endings `/\.(mp3|wav|flac|ogg)$/i` matches, in lower case. */
  const AudioExtensions: seq<string> := [".mp3", ".wav", ".flac", ".ogg"]

  const FormatError: string := "Unsupported format. Use MP3, WAV, FLAC, or OGG."

  /** The name ends in an audio extension, ignoring the case of ASCII letters. */
  predicate HasAudioExtension(name: string) {
    exists k :: 0 <= k < |AudioExtensions| && Text.EndsWith(Text.LowerAscii(name), AudioExtensions[k])
  }

  predicate Accepts(f: File) {
    f.mimeType in AcceptedTypes || HasAudioExtension(f.name)
  }

  datatype CardState = CardState(isDragging: bool, error: Option<string>)

  const InitialCard := CardState(false, None)

  /** `handleFile`: a rejected file sets the format error; an accepted one clears it and is handed on. */
  function HandleFile(st: CardState, f: File): (r: (CardState, Option<File>))
    ensures !Accepts(f) <==> r.1.None?
    ensures !Accepts(f) ==> r.0 == st.(error := Some(FormatError))
    ensures Accepts(f) ==> r == (st.(error := None), Some(f))
  {
    if !Accepts(f) then (st.(error := Some(FormatError)), None) else (st.(error := None), Some(f))
  }

  /** `onDrop`: the highlight goes off, then the first dropped file (if any) is handled. */
  function OnDrop(st: CardState, files: seq<File>): (r: (CardState, Option<File>))
    ensures !r.0.isDragging
    ensures files == [] ==> r == (st.(isDragging := false), None)
    ensures files != [] ==> r == HandleFile(st.(isDragging := false), files[0])
  {
    var st1 := st.(isDragging := false);
    if files == [] then (st1, None) else HandleFile(st1, files[0])
  }

  /** `onFileChange`: the first chosen file (if any) is handled. */
  function OnFileChange(st: CardState, files: seq<File>): (r: (CardState, Option<File>))
    ensures files == [] ==> r == (st, None)
    ensures files != [] ==> r == HandleFile(st, files[0])
  {
    if files == [] then (st, None) else HandleFile(st, files[0])
  }

  function OnDragOver(st: CardState): (r: CardState)
    ensures r.isDragging && r.error == st.error
  {
    st.(isDragging := true)
  }

  function OnDragLeave(st: CardState): (r: CardState)
    ensures !r.isDragging && r.error == st.error
  {
    st.(isDragging := false)
  }

  /**
   * Of a drop or a selection only the first file matters: it is handed on exactly when it is
   * accepted, and the error shows exactly when it is not.
   */
  lemma FirstFileDecides(st: CardState, files: seq<File>)
    requires files != []
    ensures var r := OnFileChange(st, files);
      && (r.1 == Some(files[0]) <==> Accepts(files[0]))
      && (r.1.None? <==> r.0.error == Some(FormatError))
      && OnFileChange(st, files) == OnFileChange(st, files[..1])
      && OnDrop(st, files).1 == OnFileChange(st, files).1
  {
    assert files[..1][0] == files[0];
  }

  lemma LowerAsciiAppend(a: string, b: string)
    ensures Text.LowerAscii(a + b) == Text.LowerAscii(a) + Text.LowerAscii(b)
  {
    var l, r := Text.LowerAscii(a + b), Text.LowerAscii(a) + Text.LowerAscii(b);
    assert forall i :: 0 <= i < |l| ==> l[i] == r[i];
  }

  /** Only the lower-cased name matters: names differing in ASCII case are treated alike. */
  lemma CaseInsensitive(mimeType: string, a: string, b: string)
    requires Text.LowerAscii(a) == Text.LowerAscii(b)
    ensures Accepts(File(mimeType, a)) <==> Accepts(File(mimeType, b))
  {
  }

  /** Any name ending in `.MP3` is accepted, whatever its MIME type says. */
  lemma UpperCaseExtensionAccepted(mimeType: string, stem: string)
    ensures Accepts(File(mimeType, stem + ".MP3"))
  {
    LowerAsciiAppend(stem, ".MP3");
    var l := Text.LowerAscii(stem + ".MP3");
    assert Text.LowerAscii(".MP3") == ".mp3";
    assert l[|l| - 4..] == ".mp3";
    assert Text.EndsWith(l, AudioExtensions[0]);
  }

  /** A WAV MIME type is accepted whatever the name, and an unknown type needs the extension. */
  lemma MimeTypeOrExtension(name: string)
    ensures Accepts(File("audio/wav", name))
    ensures !HasAudioExtension(name) ==> !Accepts(File("video/mp4", name))
  {
    assert AcceptedTypes[1] == "audio/wav";
  }
}
