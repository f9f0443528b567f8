/**
 * The shapes shared by the front end and the back end (music-frontend/src/types/analysis.ts):
 * chord and note events, stem names, task states, and the status/result payloads.
 * Times are seconds as exact reals.
 */
module Analysis {
  import opened Wrappers

  /**
   * A labelled time span. Chord events are the spans labelled by a chord name; the back end
   * also emits entries that carry an `error`. The label type is a parameter so that facts
   * about runs of equal labels are stated for any label with equality.
   */
  datatype Span<L> = Span(startTime: real, endTime: real, chordName: L, error: Option<string>)

  type ChordEvent = Span<string>

  /** One detected note: MIDI pitch, seconds, velocity in [0,1]. */
  datatype NoteEvent = NoteEvent(start: real, end: real, pitch: int, velocity: real)

  datatype StemName = Vocals | Drums | Bass | Piano | Guitar | Other

  /** A playable source: the full mix or one separated stem (`StemName | 'master'`). */
  datatype Track = Master | Stem(stem: StemName)

  /** Celery task states; the front end's union names the first four, the back end also
      reports REVOKED and passes any other Celery state through. */
  datatype TaskState = Pending | Processing | Success | Failure | Revoked | OtherState(name: string)

  datatype TrackMetadata = TrackMetadata(
    bpm: real, durationSeconds: real, estimatedKey: string, loudnessRms: real, brightness: real)

  /** File path per track; an absent key is `undefined`. */
  type StemsMap = map<Track, string>

  type NotesByTrack = map<Track, seq<NoteEvent>>

  datatype AnalysisResult = AnalysisResult(
    metadata: TrackMetadata,
    chords: seq<ChordEvent>,
    stems: StemsMap,
    songId: string,
    notes: Option<NotesByTrack>)

  /** `Partial<AnalysisResult>` as the task reports it while running. */
  datatype PartialResult = PartialResult(
    metadata: Option<TrackMetadata>,
    stems: Option<StemsMap>,
    notes: Option<NotesByTrack>,
    chords: Option<seq<ChordEvent>>)

  /**
   * The `info` object of a status response. The back end fills `step`, `progress` and
   * `partial`; the front end also reads `status` and `error` from it. `progress` is `Some`
   * exactly when the field holds a number.
   */
  datatype StatusInfo = StatusInfo(
    status: Option<string>,
    step: Option<string>,
    progress: Option<real>,
    partial: Option<PartialResult>,
    error: Option<string>)

  /** The status route's JSON body: `status` and `error` sit at the top level. */
  datatype StatusResponse = StatusResponse(
    taskId: string,
    state: TaskState,
    status: Option<string>,
    info: Option<StatusInfo>,
    error: Option<string>)
}
