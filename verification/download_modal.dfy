/**
 * The DAW's download dialog (music-frontend/src/components/daw/DownloadModal.tsx): the rows it
 * lists and the link each button builds. Creating and clicking the anchor is left out; a
 * download is the link's URL and file name.
 */
module DownloadModal {
  import opened Wrappers
  import opened Analysis
  import Js
  import Text
  import FileUrls
  import Server

  /** `stemOrder`. */
  const StemOrder: seq<Track> :=
    [Master, Stem(Vocals), Stem(Drums), Stem(Bass), Stem(Guitar), Stem(Piano), Stem(Other)]

  function TrackName(t: Track): string {
    match t
    case Master => "master"
    case Stem(s) =>
      match s
      case Vocals => "vocals"
      case Drums => "drums"
      case Bass => "bass"
      case Piano => "piano"
      case Guitar => "guitar"
      case Other => "other"
  }

  const LyricsName: string := "lyrics-chords"

  datatype Row = Row(name: string, path: string)

  /** The stem rows: every stem of `order` with a non-empty path, in that order. */
  function StemRows(stems: StemsMap, order: seq<Track>): (rows: seq<Row>)
    ensures |rows| <= |order|
    ensures forall k :: 0 <= k < |rows| ==> rows[k].path != ""
  {
    if order == [] then []
    else
      var rest := StemRows(stems, order[1..]);
      var t := order[0];
      if Listed(stems, t) then [Row(TrackName(t), stems[t])] + rest else rest
  }

  /** The rows of an open dialog: the lyrics sheet first when it has a path, then the stems. */
  function Rows(isOpen: bool, stems: StemsMap, lyricsDocPath: Option<string>): (r: Option<seq<Row>>)
    ensures !isOpen <==> r.None?
    ensures r.Some? && Js.TruthyString(lyricsDocPath) ==>
      r.value == [Row(LyricsName, lyricsDocPath.value)] + StemRows(stems, StemOrder)
    ensures r.Some? && !Js.TruthyString(lyricsDocPath) ==> r.value == StemRows(stems, StemOrder)
  {
    if !isOpen then None
    else if Js.TruthyString(lyricsDocPath) then Some([Row(LyricsName, lyricsDocPath.value)] + StemRows(stems, StemOrder))
    else Some(StemRows(stems, StemOrder))
  }

  /** The row a stem with a non-empty path gets. */
  predicate Listed(stems: StemsMap, t: Track) {
    t in stems && stems[t] != ""
  }

  /**
   * A stem of `order` has a row exactly when its path is non-empty, carrying that path, and
   * every row comes from such a stem.
   */
  lemma {:induction false} StemRowsExact(stems: StemsMap, order: seq<Track>)
    ensures forall t :: t in order && Listed(stems, t) ==> Row(TrackName(t), stems[t]) in StemRows(stems, order)
    ensures forall r :: r in StemRows(stems, order) ==>
      exists t :: t in order && Listed(stems, t) && r == Row(TrackName(t), stems[t])
  {
    if order != [] {
      StemRowsExact(stems, order[1..]);
      var rest := StemRows(stems, order[1..]);
      var rows := StemRows(stems, order);
      assert forall t :: t in order[1..] ==> t in order;
      assert forall t :: t in order ==> t == order[0] || t in order[1..];
      assert forall r :: r in rows ==> r in rest || (Listed(stems, order[0]) && r == Row(TrackName(order[0]), stems[order[0]]));
    }
  }

  /**
   * The rows follow `order`: listing two runs of stems one after the other lists their rows one
   * after the other, and a single stem gives its row or nothing.
   */
  lemma {:induction false} StemRowsOrder(stems: StemsMap, a: seq<Track>, b: seq<Track>)
    ensures StemRows(stems, a + b) == StemRows(stems, a) + StemRows(stems, b)
    ensures forall t :: StemRows(stems, [t]) == if Listed(stems, t) then [Row(TrackName(t), stems[t])] else []
  {
    StemRowsAppend(stems, a, b);
    forall t ensures StemRows(stems, [t]) == if Listed(stems, t) then [Row(TrackName(t), stems[t])] else [] {
      assert [t][1..] == [];
    }
  }

  lemma {:induction false} StemRowsAppend(stems: StemsMap, a: seq<Track>, b: seq<Track>)
    ensures StemRows(stems, a + b) == StemRows(stems, a) + StemRows(stems, b)
  {
    if a != [] {
      assert (a + b)[1..] == a[1..] + b;
      StemRowsAppend(stems, a[1..], b);
    } else {
      assert a + b == b;
    }
  }

  /** With no stem paths at all the open dialog lists only the lyrics row, if any. */
  lemma NoStemsNoRows(lyricsDocPath: Option<string>)
    ensures Rows(true, map[], lyricsDocPath) ==
      Some(if Js.TruthyString(lyricsDocPath) then [Row(LyricsName, lyricsDocPath.value)] else [])
  {
    EmptyStemRows(StemOrder);
    if Js.TruthyString(lyricsDocPath) {
      assert [Row(LyricsName, lyricsDocPath.value)] + [] == [Row(LyricsName, lyricsDocPath.value)];
    }
  }

  lemma {:induction false} EmptyStemRows(order: seq<Track>)
    ensures StemRows(map[], order) == []
  {
    if order != [] {
      EmptyStemRows(order[1..]);
    }
  }

  /** `stemPath.split('.').pop() || 'wav'`. */
  function Extension(path: string): (ext: string)
    ensures ext != [] && '.' !in ext
    ensures Text.AfterLast(path, '.') != [] ==> ext == Text.AfterLast(path, '.')
    ensures '.' !in path && path != [] ==> ext == path
    ensures path != [] && path[|path| - 1] == '.' ==> ext == "wav"
  {
    var last := Text.AfterLast(path, '.');
    if last != [] then last else "wav"
  }

  datatype Link = Link(url: string, fileName: string)

  /** `handleDownload`: the file URL with `?download=true`, saved as `<songId>-<name>.<ext>`. */
  function Download(base: string, songId: string, row: Row): (r: Option<Link>)
    ensures r.None? <==> FileUrls.GetFileUrl(base, Some(row.path)).None?
    ensures r.Some? ==> r.value.url == FileUrls.GetFileUrl(base, Some(row.path)).value + "?download=true"
    ensures r.Some? ==> r.value.fileName == songId + "-" + row.name + "." + Extension(row.path)
  {
    match FileUrls.GetFileUrl(base, Some(row.path))
    case None => None
    case Some(u) => Some(Link(u + "?download=true", songId + "-" + row.name + "." + Extension(row.path)))
  }

  /** Every listed row downloads: rows only exist for non-empty paths. */
  lemma EveryRowDownloads(base: string, songId: string, isOpen: bool, stems: StemsMap,
                          lyricsDocPath: Option<string>, k: nat)
    requires Rows(isOpen, stems, lyricsDocPath).Some? && k < |Rows(isOpen, stems, lyricsDocPath).value|
    ensures Download(base, songId, Rows(isOpen, stems, lyricsDocPath).value[k]).Some?
  {
  }

  /**
   * A stem's result path downloads through `<base>/files/<path>?download=true`, and the file
   * route serves that path as an attachment.
   */
  lemma StemDownloadServed(base: string, songId: string, row: Row)
    requires Text.StartsWith(row.path, "results/") && '\\' !in row.path && !Text.IsJsSpace(row.path[|row.path| - 1])
    ensures var link := Download(base, songId, row);
      && link.Some?
      && link.value.url == base + "/" + (FileUrls.FilesPrefix + row.path) + "?download=true"
      && Server.ServeFile(row.path, Some("true")) == Server.Sent(row.path, true)
  {
    Server.ResultUrlServed(base, row.path);
    Server.ServedFolders(row.path, Some("true"));
  }
}
