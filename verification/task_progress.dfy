/**
 * The analysis task (music-backend/tasks.py) and the pure parts of the analyser it drives
 * (music-backend/analyzer.py, `separate_stems` and `analyze_notes_for_stems`): the metadata
 * updates it reports while running, where it puts the stems, which stems get notes, and the
 * result it returns. The analyses themselves (metadata, Demucs, Basic Pitch, chords) are given
 * as their outputs.
 */
module Tasks {
  import opened Wrappers
  import opened Analysis
  import Text
  import Server

  /** `original_filename.split('.')[0]`. */
  function SongId(originalFilename: string): (id: string)
    ensures Text.StartsWith(originalFilename, id) && '.' !in id
  {
    Text.BeforeFirst(originalFilename, '.')
  }

  /** `os.path.join("results", song_id)`. */
  function OutputDir(songId: string): string {
    Server.JoinPath("results", songId)
  }

  const DemucsModel: string := "htdemucs_6s"

  /** `os.path.basename`: the text after the last '/'. */
  function BaseName(path: string): string {
    Text.AfterLast(path, '/')
  }

  const SeparatedStems: seq<StemName> := [Vocals, Bass, Drums, Piano, Guitar, Other]

  function StemFileName(s: StemName): string {
    match s
    case Vocals => "vocals.wav"
    case Bass => "bass.wav"
    case Drums => "drums.wav"
    case Piano => "piano.wav"
    case Guitar => "guitar.wav"
    case Other => "other.wav"
  }

  /** The stem dictionary `separate_stems` returns; running Demucs itself is not modelled. */
  function StemPaths(filePath: string, outputDir: string): (stems: StemsMap)
    ensures stems.Keys == set s | s in SeparatedStems :: Stem(s)
    ensures Master !in stems
  {
    map s | s in SeparatedStems :: Stem(s) := Server.JoinPath(StemDir(filePath, outputDir), StemFileName(s))
  }

  /** `os.path.join(output_dir, "htdemucs_6s", filename_base)`. */
  function StemDir(filePath: string, outputDir: string): string {
    Server.JoinPath(Server.JoinPath(outputDir, DemucsModel), Text.BeforeFirst(BaseName(filePath), '.'))
  }

  /** A path segment that neither starts nor ends with '/' (it may be empty). */
  predicate Segment(x: string) {
    x == [] || (x[0] != '/' && x[|x| - 1] != '/')
  }

  /** A segment as a folder prefix: nothing when empty, else followed by '/'. */
  function Dir(x: string): (d: string)
    ensures d == [] <==> x == []
  {
    if x == [] then [] else x + "/"
  }

  /** The base name of a join is the joined name, when the name has no '/'. */
  lemma BaseNameOfJoin(folder: string, name: string)
    requires '/' !in name
    ensures BaseName(Server.JoinPath(folder, name)) == name
  {
    var p := Server.Slashed(folder);
    var s := p + name;
    assert Server.JoinPath(folder, name) == s by {
      if name != [] { assert name[0] in name; }
    }
    var r := BaseName(s);
    assert r == s[|s| - |r|..] == name;
  }

  /** Joining a segment onto a folder ending in '/' appends it. */
  lemma JoinAfterSlash(q: string, x: string)
    requires q != [] && q[|q| - 1] == '/' && Segment(x)
    ensures Server.JoinPath(q, x) == q + x
  {
  }

  /** Joining a name onto `q + x`, `q` ending in '/': the segment becomes a folder if non-empty. */
  lemma JoinAfterSegment(q: string, x: string, name: string)
    requires q != [] && q[|q| - 1] == '/' && Segment(x) && name != [] && name[0] != '/'
    ensures Server.JoinPath(q + x, name) == q + Dir(x) + name
  {
    NoLeadingSlash(name);
    var p := q + x;
    if x == [] {
      assert p == q;
    } else {
      assert p[|p| - 1] == x[|x| - 1];
      assert Server.Slashed(p) == q + x + "/";
    }
  }

  /** Joining a segment onto a folder not ending in '/' puts one '/' in between. */
  lemma JoinAfterName(q: string, x: string)
    requires q != [] && q[|q| - 1] != '/' && Segment(x)
    ensures Server.JoinPath(q, x) == q + "/" + x
  {
  }

  lemma NoLeadingSlash(name: string)
    requires name != [] && name[0] != '/'
    ensures !Text.StartsWith(name, "/")
  {
  }

  lemma StemPathsAt(filePath: string, outputDir: string, s: StemName)
    ensures StemPaths(filePath, outputDir)[Stem(s)]
      == Server.JoinPath(StemDir(filePath, outputDir), StemFileName(s))
  {
    assert s in SeparatedStems;
  }

  /**
   * The stem path is `results/<id>/htdemucs_6s/<base>/<stem>.wav`, where `<base>` is the
   * upload's base name up to its first dot and an empty id or base adds no folder.
   */
  lemma StemPathShape(filePath: string, id: string, s: StemName)
    requires Segment(id) && Segment(Text.BeforeFirst(BaseName(filePath), '.'))
    ensures StemPaths(filePath, OutputDir(id))[Stem(s)]
      == "results/" + Dir(id) + DemucsModel + "/" + Dir(Text.BeforeFirst(BaseName(filePath), '.')) + StemFileName(s)
  {
    var base := Text.BeforeFirst(BaseName(filePath), '.');
    var out := OutputDir(id);
    var d1 := Server.JoinPath(out, DemucsModel);
    ModelDirShape(id);
    JoinAfterName(d1, base);
    var file := StemFileName(s);
    FileNameStart(s);
    JoinAfterSegment(d1 + "/", base, file);
    StemPathsAt(filePath, out, s);
  }

  /** `results/<id>/htdemucs_6s`, or `results/htdemucs_6s` for an empty id. */
  lemma ModelDirShape(id: string)
    requires Segment(id)
    ensures var d := Server.JoinPath(OutputDir(id), DemucsModel);
      d == "results/" + Dir(id) + DemucsModel && d != [] && d[|d| - 1] != '/'
  {
    JoinAfterName("results", id);
    assert "results" + "/" == "results/";
    JoinAfterSegment("results/", id, DemucsModel);
  }

  lemma FileNameStart(s: StemName)
    ensures StemFileName(s) != [] && StemFileName(s)[0] != '/'
  {
  }

  /**
   * A plain uploaded name (no '/') puts every stem under
   * `results/<song_id>/htdemucs_6s/<song_id>/`, a folder the file route serves; an empty
   * song id (an upload named `.mp3`) puts it directly under `results/htdemucs_6s/`.
   */
  lemma StemsUnderResults(originalFilename: string, s: StemName)
    requires '/' !in originalFilename
    ensures var id := SongId(originalFilename);
      var stems := StemPaths(Server.JoinPath("uploads", originalFilename), OutputDir(id));
      && stems[Stem(s)] == "results/" + Dir(id) + DemucsModel + "/" + Dir(id) + StemFileName(s)
      && Server.ServeFile(stems[Stem(s)], None).Sent?
  {
    var id := SongId(originalFilename);
    assert Segment(id) by {
      if id != [] {
        assert id[0] == originalFilename[0] && originalFilename[0] in originalFilename;
        assert id[|id| - 1] == originalFilename[|id| - 1] && originalFilename[|id| - 1] in originalFilename;
      }
    }
    var up := Server.JoinPath("uploads", originalFilename);
    BaseNameOfJoin("uploads", originalFilename);
    StemPathShape(up, id, s);
    UnderResults(Dir(id), DemucsModel, Dir(id), StemFileName(s));
    Server.ServedFolders("results/" + Dir(id) + DemucsModel + "/" + Dir(id) + StemFileName(s), None);
  }

  lemma UnderResults(a: string, b: string, c: string, d: string)
    ensures Text.StartsWith("results/" + a + b + "/" + c + d, "results/")
  {
    var r := "results/";
    assert Text.StartsWith(r, r);
    PrefixOfAppend(r, r, a);
    PrefixOfAppend(r, r + a, b);
    PrefixOfAppend(r, r + a + b, "/");
    PrefixOfAppend(r, r + a + b + "/", c);
    PrefixOfAppend(r, r + a + b + "/" + c, d);
  }

  /** An upload named `.mp3` has an empty song id; its vocals land in `results/htdemucs_6s/`. */
  lemma EmptySongIdStem()
    ensures SongId(".mp3") == ""
    ensures StemPaths(Server.JoinPath("uploads", ".mp3"), OutputDir(SongId(".mp3")))[Stem(Vocals)]
      == "results/htdemucs_6s/vocals.wav"
  {
    var name := ".mp3";
    Mp3Name(name);
    EmptyIdStem(name, Vocals);
    VocalsPath();
  }

  lemma EmptyIdStem(name: string, s: StemName)
    requires '/' !in name && SongId(name) == ""
    ensures StemPaths(Server.JoinPath("uploads", name), OutputDir(SongId(name)))[Stem(s)]
      == "results/" + DemucsModel + "/" + StemFileName(s)
  {
    StemsUnderResults(name, s);
    DropEmpty("results/", DemucsModel, StemFileName(s));
  }

  lemma DropEmpty(a: string, b: string, c: string)
    ensures a + Dir("") + b + "/" + Dir("") + c == a + b + "/" + c
  {
    assert Dir("") == [];
  }

  lemma Mp3Name(name: string)
    requires name == ".mp3"
    ensures '/' !in name && SongId(name) == "" && Dir(SongId(name)) == ""
  {
  }

  lemma VocalsPath()
    ensures "results/" + DemucsModel + "/" + StemFileName(Vocals) == "results/htdemucs_6s/vocals.wav"
  {
  }

  lemma FileNamePlain(s: StemName)
    ensures '/' !in StemFileName(s)
  {
  }

  /** With segments free of `//`, no stem path contains `//`. */
  lemma StemPathNoDoubleSlash(filePath: string, id: string, s: StemName)
    requires Server.NoDoubleSlash(id) && Server.NoDoubleSlash(Text.BeforeFirst(BaseName(filePath), '.'))
    ensures Server.NoDoubleSlash(StemPaths(filePath, OutputDir(id))[Stem(s)])
  {
    var base := Text.BeforeFirst(BaseName(filePath), '.');
    var out := OutputDir(id);
    Server.JoinNoDoubleSlash("results", id);
    Server.JoinNoDoubleSlash(out, DemucsModel);
    Server.JoinNoDoubleSlash(Server.JoinPath(out, DemucsModel), base);
    FileNamePlain(s);
    NoSlashNoDoubleSlash(StemFileName(s));
    Server.JoinNoDoubleSlash(StemDir(filePath, out), StemFileName(s));
    StemPathsAt(filePath, out, s);
  }

  lemma NoSlashNoDoubleSlash(x: string)
    requires '/' !in x
    ensures Server.NoDoubleSlash(x)
  {
    forall i | 0 <= i < |x| - 1 ensures x[i] != '/' {
      assert x[i] in x;
    }
  }

  lemma PrefixOfAppend(p: string, x: string, y: string)
    requires Text.StartsWith(x, p)
    ensures Text.StartsWith(x + y, p)
  {
    assert (x + y)[..|p|] == x[..|p|];
  }

  /** The stems that get note detection, in order; drums never do. */
  const NoteStems: seq<StemName> := [Vocals, Bass, Piano, Guitar, Other]

  /** The notes of one stem: detected when its path is listed and the file exists, else none. */
  function StemNotes(stems: StemsMap, fileExists: string -> bool, detect: string -> seq<NoteEvent>, s: StemName): seq<NoteEvent> {
    if Stem(s) in stems && fileExists(stems[Stem(s)]) then detect(stems[Stem(s)]) else []
  }

  /** The loop of `analyze_notes_for_stems` over the stems left in `order`. */
  function NotesLoop(stems: StemsMap, fileExists: string -> bool, detect: string -> seq<NoteEvent>,
                     order: seq<StemName>, acc: NotesByTrack): (r: NotesByTrack)
    decreases |order|
  {
    if order == [] then acc
    else NotesLoop(stems, fileExists, detect, order[1..],
                   acc[Stem(order[0]) := StemNotes(stems, fileExists, detect, order[0])])
  }

  /** `analyze_notes_for_stems`, with Basic Pitch and the file check as parameters. */
  function NotesForStems(stems: StemsMap, fileExists: string -> bool, detect: string -> seq<NoteEvent>): NotesByTrack {
    NotesLoop(stems, fileExists, detect, NoteStems, map[])
  }

  lemma {:induction false} NotesLoopShape(stems: StemsMap, fileExists: string -> bool, detect: string -> seq<NoteEvent>,
                                          order: seq<StemName>, acc: NotesByTrack)
    ensures var r := NotesLoop(stems, fileExists, detect, order, acc);
      && r.Keys == acc.Keys + (set s | s in order :: Stem(s))
      && (forall s :: s in order ==> r[Stem(s)] == StemNotes(stems, fileExists, detect, s))
      && (forall t :: t in acc && (t.Master? || t.stem !in order) ==> r[t] == acc[t])
    decreases |order|
  {
    if order != [] {
      var acc1 := acc[Stem(order[0]) := StemNotes(stems, fileExists, detect, order[0])];
      NotesLoopShape(stems, fileExists, detect, order[1..], acc1);
      var r := NotesLoop(stems, fileExists, detect, order, acc);
      assert forall s :: s in order <==> s == order[0] || s in order[1..];
      forall s | s in order ensures r[Stem(s)] == StemNotes(stems, fileExists, detect, s) {
        if s !in order[1..] {
          assert s == order[0];
        }
      }
    }
  }

  /**
   * The note dictionary has exactly the keys vocals, bass, piano, guitar and other, never
   * drums or the mix; a stem whose path is missing or whose file does not exist gets no notes.
   */
  lemma NotesForStemsShape(stems: StemsMap, fileExists: string -> bool, detect: string -> seq<NoteEvent>)
    ensures var r := NotesForStems(stems, fileExists, detect);
      && r.Keys == {Stem(Vocals), Stem(Bass), Stem(Piano), Stem(Guitar), Stem(Other)}
      && Stem(Drums) !in r && Master !in r
      && (forall s :: Stem(s) in r ==>
            r[Stem(s)] == (if Stem(s) in stems && fileExists(stems[Stem(s)]) then detect(stems[Stem(s)]) else []))
  {
    NotesLoopShape(stems, fileExists, detect, NoteStems, map[]);
    var ks := set s | s in NoteStems :: Stem(s);
    assert ks == {Stem(Vocals), Stem(Bass), Stem(Piano), Stem(Guitar), Stem(Other)} by {
      assert Vocals in NoteStems && Bass in NoteStems && Piano in NoteStems;
      assert Guitar in NoteStems && Other in NoteStems;
    }
  }

  /** What the analyses produced, in the order the task runs them. */
  datatype Outputs = Outputs(metadata: TrackMetadata, stems: StemsMap, notes: NotesByTrack, chords: seq<ChordEvent>)

  function Progress(status: string, step: string, progress: real, partial: Option<PartialResult>): Server.Meta {
    Server.Meta(Some(status), Some(step), Some(progress), partial)
  }

  /** The eight `update_state` calls of `analyze_audio_task`, in order. */
  function Updates(o: Outputs): (us: seq<Server.Meta>)
    ensures |us| == 8
  {
    [ Progress("Analyzing BPM and Key...", "Analyzing metadata", 10.0, None),
      Progress("Metadata complete", "Metadata analyzed", 15.0, Some(PartialResult(Some(o.metadata), None, None, None))),
      Progress("Separating Stems (This takes a while)...", "Separating stems", 25.0, None),
      Progress("Stems separated", "Stems extracted", 50.0, Some(PartialResult(Some(o.metadata), Some(o.stems), None, None))),
      Progress("Analyzing individual stems...", "Detecting notes", 65.0, None),
      Progress("Notes detected", "Detecting notes", 75.0,
               Some(PartialResult(Some(o.metadata), Some(o.stems), Some(o.notes), None))),
      Progress("Detecting chords...", "Detecting chords", 85.0, None),
      Progress("Chords detected", "Finalizing", 95.0,
               Some(PartialResult(Some(o.metadata), Some(o.stems), Some(o.notes), Some(o.chords)))) ]
  }

  /** The task's return value. */
  function TaskResult(o: Outputs, songId: string): (r: AnalysisResult)
    ensures r.notes == Some(o.notes)
  {
    AnalysisResult(o.metadata, o.chords, o.stems, songId, Some(o.notes))
  }

  /** Every update carries a status, a step and a progress strictly between 0 and 100, rising. */
  lemma ProgressRises(o: Outputs, i: nat, j: nat)
    requires i < j < 8
    ensures var us := Updates(o);
      && us[i].status.Some? && us[i].step.Some? && us[i].progress.Some? && us[j].progress.Some?
      && 0.0 < us[i].progress.value < us[j].progress.value < 100.0
  {
  }

  /** An optional field that is set in `a` is set to the same value in `b`. */
  predicate Kept<T(==)>(a: Option<T>, b: Option<T>) {
    a.Some? ==> b == a
  }

  predicate Extends(a: PartialResult, b: PartialResult) {
    Kept(a.metadata, b.metadata) && Kept(a.stems, b.stems) && Kept(a.notes, b.notes) && Kept(a.chords, b.chords)
  }

  /**
   * The partial results only grow: a later one holds every field of an earlier one unchanged,
   * and the last agrees with the returned result on all four fields. A client that replaces its
   * partial with the newest one therefore loses nothing.
   */
  lemma PartialsGrow(o: Outputs, songId: string, i: nat, j: nat)
    requires i <= j < 8
    ensures var us := Updates(o);
      && (us[i].partial.Some? && us[j].partial.Some? ==> Extends(us[i].partial.value, us[j].partial.value))
      && (us[i].partial.Some? <==> i % 2 == 1)
    ensures var last := Updates(o)[7].partial.value; var r := TaskResult(o, songId);
      last == PartialResult(Some(r.metadata), Some(r.stems), r.notes, Some(r.chords))
  {
  }

  /**
   * While the task runs, the status route reports each update's own message and its step,
   * progress and partial result.
   */
  lemma UpdatesReported(o: Outputs, taskId: string, infoText: string, i: nat)
    requires i < 8
    ensures var u := Updates(o)[i];
      var r := Server.GetStatus(taskId, Server.CeleryTask(Processing, Some(u), infoText));
      && r.status == u.status
      && r.info == Some(StatusInfo(None, u.step, u.progress, u.partial, None))
  {
  }
}
