# Audioanalyzer core in Dafny

Audioanalyzer is a music analysis app.

- **Back end** (Flask plus Celery). It takes an uploaded song and runs one background task. The task:
  - reads the tempo and key;
  - separates six stems with Demucs;
  - detects notes on five of those stems;
  - detects chords by matching chroma frames against 84 chord templates.

  The task reports its progress through `update_state`. It serves the files it produced under `/files/`.
- **Front end** (React).
  - It uploads the file and polls the task with a back-off.
  - It turns file paths into URLs.
  - It draws static waveforms.
  - It condenses the chord timeline. It shows the chord and lyric line playing now, a note badge, the transport clock and the download dialog.

This project models that core as pure functions and small step functions over immutable data, and proves what each promises.

**Conventions.**
- JavaScript numbers are `real`. Where truthiness or `Number.isFinite` matters they are `Js.Number`: finite, `NaN` or an infinity.
- Strings are `seq<char>`.
- Chord events are generic in their label (`Span<L>`), so the timeline lemmas hold for any label type. `ChordEvent` is `Span<string>`.

**One file per source area:**

| file | models |
|---|---|
| `chords.dfy`, `timeline.dfy` | `condenseChords`, `getDistinctChordNames`, the half-open "active at t" lookup |
| `chord_panels.dfy`, `lyrics.dfy` | the big chord panel, ChordNow, the lyrics panel |
| `notes.dfy` | `detectNoteFromAnalysis` |
| `file_urls.dfy`, `text.dfy` | both `getFileUrl` helpers; the string built-ins they use |
| `waveform.dfy` | the static waveform hook |
| `analyser.dfy` | the analyser registry hook |
| `players.dfy`, `clock.dfy` | the master card and the DAW view: duration, seek, active chord, volumes, note badge, the clock, speed and duration labels |
| `upload_poll.dfy`, `upload_card.dfy` | the upload-and-poll hook as a reducer; the file picker |
| `download_modal.dfy` | the download dialog |
| `server.dfy` | the Flask routes |
| `task_progress.dfy` | the Celery task: progress updates, song id, stem paths, notes per stem |
| `chord_templates.dfy`, `chord_segments.dfy` | template table, frame labels, grouping, minimum-duration merge |

**Effects become parameters.**
- **Network.** A status reply is a `StatusResponse` value. A request that throws is `Threw`.
- **Timers.** The elapsed time is a number, and "schedule another poll" is a result.
- **Web Audio.** A frame's time-domain buffer is a sequence.
- **Things with no exact real-number counterpart:**
  - `Math.log2`: the semitone step `Math.round(12 * log2(f / 440))` is a function parameter.
  - numpy's Euclidean norm is a function parameter.
  - librosa's chroma and argmax become a list of per-frame best scores and indices with their times.
- **Demucs and Basic Pitch.** Demucs is not run: its output paths are modelled. Basic Pitch is a function from a path to notes, together with a file-exists predicate.

## Model

Source paths are relative to the repository root.

| member | source | states |
|---|---|---|
| Chords.Condense | music-frontend/src/utils/chords.ts:3-15 | The condensed list is never longer than the input and is empty exactly when the input is |
| Chords.CondenseLast | music-frontend/src/utils/chords.ts:6-12 | The last condensed entry has the last event's chord name and end time |
| Chords.CondenseNoAdjacentRepeats | music-frontend/src/utils/chords.ts:7-12 | No two neighbouring condensed entries share a chord name |
| Chords.CondenseSnoc | music-frontend/src/utils/chords.ts:6-12 | One more event either extends the last entry's end (same name) or appends a copy of the event |
| Chords.CondenseLength | music-frontend/src/utils/chords.ts:6-12 | There is exactly one condensed entry per maximal run of equal names |
| Chords.CondenseRuns | music-frontend/src/utils/chords.ts:6-12 | Every event lands in its run's entry, which carries its name; the entry's start and error come from the run's first event and its end from the run's last |
| Chords.NonAdjacentRepeatsSeparate | music-frontend/src/utils/chords.ts:8 | Two events with the same name and a different name between them end up in different entries: only neighbouring repeats merge |
| Chords.OwnersMonotone | music-frontend/src/utils/chords.ts:6-12 | Later events never belong to earlier entries, and events in the same entry share a name |
| Chords.Distinct | music-frontend/src/utils/chords.ts:17-21 | The distinct names hold every input name, only input names, and each name once |
| Chords.DistinctFirstSeenOrder | music-frontend/src/utils/chords.ts:17-21 | The distinct names are in the order of their first occurrence, as a JavaScript `Set` iterates |
| Chords.DistinctSnoc | music-frontend/src/utils/chords.ts:18-19 | Adding a name leaves the list unchanged when it is already present and appends it otherwise |
| Chords.DistinctOfCondensed | music-frontend/src/components/analysis/MasterPlater.tsx:32-36 | The distinct names of the condensed list equal those of the raw chord list |
| Timeline.FindActive | music-frontend/src/components/daw/BigChordsPanel.tsx:26-29 | The first event whose half-open interval contains t, or none exactly when no event does |
| Timeline.ActiveName | music-frontend/src/components/daw/DawAnalysisView.tsx:102-108 | The "Now" label is the first active event's name, or `--` when none is active |
| Timeline.SortedOrder | music-backend/analyzer.py:136-157 | In a sorted event list every earlier event ends before a later one starts |
| Timeline.CondensedCovers | music-frontend/src/utils/chords.ts:6-12 | An event's condensed entry spans at least the event's own interval |
| Timeline.ActiveAfterCondense | music-frontend/src/components/daw/DawAnalysisView.tsx:59-108 | On a sorted list, condensing turns the active event into the active condensed entry, with the same name |
| Timeline.ActiveNameAfterCondense | music-frontend/src/components/daw/DawAnalysisView.tsx:59-108 | On a sorted list, the "Now" label over the condensed list equals the one over the raw list whenever a chord is playing |
| Timeline.GapInsideRunIsFilled | music-frontend/src/utils/chords.ts:8-9 | Two equal chords with a gap between them merge, so the condensed entry is active inside the gap where no raw event is |
| ChordPanels.UniqueChords | music-frontend/src/components/daw/BigChordsPanel.tsx:16-23 | The button list is never longer than the chord list |
| ChordPanels.UniqueChordsNames | music-frontend/src/components/daw/BigChordsPanel.tsx:16-23 | The buttons carry exactly the distinct chord names, in first-seen order |
| ChordPanels.UniqueChordsFirst | music-frontend/src/components/daw/BigChordsPanel.tsx:16-23 | Each button is the first event carrying its name |
| ChordPanels.Highlights | music-frontend/src/components/daw/BigChordsPanel.tsx:59-67 | A button is highlighted exactly when its name equals the "Now" label |
| ChordPanels.BigPanelHighlight | music-frontend/src/components/daw/BigChordsPanel.tsx:26-67 | At most one button is lit, and one is lit whenever a chord is playing |
| ChordPanels.ClickSeeksToFirstOccurrence | music-frontend/src/components/daw/BigChordsPanel.tsx:62 | A click seeks to the start of the earliest event with the button's name |
| ChordPanels.Current | music-frontend/src/components/analysis/ChordNow.tsx:13-24 | No centre label exactly for an empty list; otherwise a listed name: the active chord when it is a non-empty listed name, and the first name in every other case |
| ChordPanels.Pills | music-frontend/src/components/analysis/ChordNow.tsx:41-42 | A pill is active exactly when its name equals the centre label |
| ChordPanels.ExactlyOnePill | music-frontend/src/components/analysis/ChordNow.tsx:21-42 | Over a list of distinct names exactly one pill is active |
| Lyrics.ActiveLineIndex | music-frontend/src/components/daw/LyricsPanel.tsx:18-34 | The index is the first line that is active and not `[Instrumental]` after trimming, or -1 exactly when there is none |
| Lyrics.ChordLabel | music-frontend/src/components/daw/LyricsPanel.tsx:102-106 | A chord label is shown exactly when the line has a non-empty chord other than `N` |
| Lyrics.Render | music-frontend/src/components/daw/LyricsPanel.tsx:36-110 | Loading and "no lyrics" views in that order; otherwise one view per line carrying that line's text, instrumental lines muted, and a line highlighted exactly when it is the first active non-instrumental one, whether or not auto-scroll is on; auto-scroll targets exactly that line when it is enabled |
| Lyrics.ActiveIsFirst | music-frontend/src/components/daw/LyricsPanel.tsx:36-110 | The index the panel's loop finds is the one and only first active non-instrumental line |
| Lyrics.LineViews | music-frontend/src/components/daw/LyricsPanel.tsx:82-110 | One view per line with its text and chord label, muted exactly for instrumental lines, and highlighted exactly at the given index unless that line is instrumental |
| Notes.PeakUnique | music-frontend/src/utils/notes.ts:12-18 | At most one bin is the first strict running maximum above zero |
| Notes.PeakBin | music-frontend/src/utils/notes.ts:9-20 | The peak bin from index 1 on, or -1 exactly when no such bin is positive |
| Notes.BestBin | music-frontend/src/utils/notes.ts:9-18 | The scan's running maximum from 0 with strict comparison ends at the peak bin |
| Notes.BinFrequency | music-frontend/src/utils/notes.ts:22-23 | The bin frequency is finite exactly when the sample rate is |
| Notes.NoteName | music-frontend/src/utils/notes.ts:3-32 | The name of a MIDI number in 0..127 is 2 to 4 characters |
| Notes.NoteNameRoundTrip | music-frontend/src/utils/notes.ts:3-32 | Every name the detector can print reads back to its MIDI number |
| Notes.NoteNameInjective | music-frontend/src/utils/notes.ts:30-32 | Different MIDI numbers get different names |
| Notes.NoteNameExamples | music-frontend/src/utils/notes.ts:30-32 | MIDI 69 is `A4`, 60 is `C4`, 0 is `C-1` and 127 is `G9` |
| Notes.NoteForHz | music-frontend/src/utils/notes.ts:23-32 | No note from NaN or an infinite frequency; from a finite one, a note exactly when it is above 20 Hz and its MIDI number lies in 0..127, and then that number's name |
| Notes.NoteForBin | music-frontend/src/utils/notes.ts:20-23 | A note comes only from a bin of index at least 1 and a finite sample rate |
| Notes.Detect | music-frontend/src/utils/notes.ts:5-33 | No note without a spectrum or a truthy sample rate, or when no bin from 1 on is positive; a note always comes from the peak bin |
| Notes.DetectNote | music-frontend/src/utils/notes.ts:5-33 | The detector with its loop gives the note of the peak bin |
| Notes.DetectedNameParses | music-frontend/src/utils/notes.ts:5-33 | Every detected note is the name of a MIDI number in range and reads back to it |
| Notes.DetectFromAnalyzerState | music-frontend/src/utils/notes.ts:6-7 | Given the analyser hook's state, which has no spectrum and no sample rate, the detector never finds a note |
| Notes.DetectAtPeak | music-frontend/src/utils/notes.ts:20-32 | At a truthy rate the detector's result is the note of the peak bin, and nothing for a bin below 1 or a rate that is not a finite non-zero number |
| Notes.DetectFromFrame | music-frontend/src/utils/notes.ts:5-33 | Given the spectrum and the sample rate, a note is found exactly when the rate is finite and non-zero, some bin from 1 on is positive, the peak bin's frequency is above 20 Hz and its MIDI number is in 0..127; the note is that number's name |
| Notes.FrameDetectsA4 | music-frontend/src/hooks/useAudioAnalyzer.ts:3-8 | A spectrum peaking at 440 Hz is detected as `A4` when handed over, and never from the hook's state |
| Text.Trim | music-frontend/src/lib/api.ts:45 | The trimmed string is no longer than the input and has no ECMAScript white space at either end |
| Text.TrimIsSlice | music-frontend/src/lib/api.ts:45 | The trimmed string is the slice of the input that starts after its leading white space, and everything after that slice is white space |
| Text.ReplaceBackslashes | music-frontend/src/lib/api.ts:45 | Every backslash becomes a slash and every other character stays |
| Text.NatToStringValue | music-frontend/src/components/daw/Transporter.tsx:31-33 | The decimal digits of a number read back to the number |
| Text.ZeroPadValue | music-frontend/src/components/daw/Transporter.tsx:31-33 | Padding digits with `0` does not change the number they denote |
| Text.LowerAscii | music-frontend/src/components/analysis/MasterPlater.tsx:88-90 | ASCII capitals map to lower case and every other character is kept |
| Text.BeforeFirst | music-backend/tasks.py:27 | The text before the first separator: a prefix of the input without the separator, followed by the separator when shorter |
| Text.AfterLast | music-frontend/src/components/daw/DownloadModal.tsx:28 | The text after the last separator: a suffix without the separator, preceded by the separator when shorter |
| FileUrls.ApiBaseUrl | music-frontend/src/lib/api.ts:8-9 | The configured base when it is non-empty, else `http://localhost:5000` |
| FileUrls.NormaliseShape | music-frontend/src/lib/api.ts:45 | A normalised path has no backslash and no white space at either end |
| FileUrls.DropSlash | music-frontend/src/lib/api.ts:53 | One leading slash is removed, if present |
| FileUrls.UnderFiles | music-frontend/src/lib/api.ts:56-58 | The result always starts with `files/`, and `files/` is added only when missing |
| FileUrls.GetFileUrl | music-frontend/src/lib/api.ts:41-61 | No URL exactly for a missing or empty path; an absolute URL after normalising comes back as it is; anything else is the base, a slash and the relative tail |
| FileUrls.RelativeTailShape | music-frontend/src/lib/api.ts:52-58 | The relative tail starts with `files/` and holds no backslash |
| FileUrls.GetFileUrlIdempotent | music-frontend/src/lib/api.ts:41-61 | Feeding the tail of a relative URL back in gives the same URL |
| FileUrls.SameUrlForms | music-frontend/src/lib/api.ts:52-60 | The forms `x`, `files/x` and `/x` of a clean path give the same URL `<base>/files/x` |
| FileUrls.AbsoluteKept | music-frontend/src/lib/api.ts:47-50 | A clean `https://` URL is returned without the base |
| FileUrls.WhitespaceOnlyPath | music-frontend/src/lib/api.ts:42-60 | A non-empty all-white-space path is truthy and names the `files/` directory itself |
| FileUrls.GetFileUrlPlain | music-frontend/src/lib/realApi.ts:38-41 | No URL exactly for a missing or empty path; otherwise the base, a slash and the path with backslashes replaced |
| FileUrls.HelpersDifferRelative | music-frontend/src/lib/realApi.ts:38-41 | On a clean relative path the two helpers differ: only the api.ts one inserts `files/` |
| FileUrls.HelpersDifferAbsolute | music-frontend/src/lib/realApi.ts:38-41 | On an absolute URL the api.ts helper keeps it and the realApi.ts one prefixes the base |
| Clock.ClockFields | music-frontend/src/components/daw/Transporter.tsx:28-30 | Minutes are non-negative, seconds lie in 0..59 and tenths in 0..9 |
| Clock.ClockFieldsValue | music-frontend/src/components/daw/Transporter.tsx:28-30 | The fields denote t cut down to the tenth of a second |
| Clock.Format | music-frontend/src/components/daw/Transporter.tsx:26-34 | A non-finite time shows `00:00.0` |
| Clock.FormatRoundTrip | music-frontend/src/components/daw/Transporter.tsx:26-34 | Every finite label reads back to the minutes, seconds and tenths it was printed from |
| Clock.MinutesNotTruncated | music-frontend/src/components/daw/Transporter.tsx:31 | Minutes are padded to two digits but never cut, so the label's length follows the minutes' digit count |
| Clock.SpeedHighlights | music-frontend/src/components/daw/Transporter.tsx:36-84 | A speed button is highlighted exactly when its option equals the playback rate |
| Clock.OneSpeedHighlighted | music-frontend/src/components/daw/Transporter.tsx:36-84 | At most one button is lit, and one is lit exactly when the rate is an option |
| Clock.FixedUnits | music-frontend/src/components/daw/Transporter.tsx:89 | `toFixed` rounds to the nearest unit, halves up |
| Clock.ToFixedRoundTrip | music-frontend/src/components/daw/Transporter.tsx:89 | A `toFixed` string reads back to its rounded units |
| Clock.SpeedLabel | music-frontend/src/components/daw/Transporter.tsx:89 | Normal speed shows no decimals and every other speed two |
| Clock.SpeedLabelsExact | music-frontend/src/components/daw/Transporter.tsx:36-89 | Every speed option's label reads back to the option exactly |
| Clock.NormalSpeedLabel | music-frontend/src/components/daw/Transporter.tsx:89 | Speed 1 is labelled `1x` |
| Clock.HalfSpeedLabel | music-frontend/src/components/daw/Transporter.tsx:89 | Speed 0.5 is labelled `0.50x` |
| Clock.DurationFields | music-frontend/src/components/analysis/MetaHeader.tsx:26-29 | As written, the seconds field can reach 60 |
| Clock.DurationFieldsTotal | music-frontend/src/components/analysis/MetaHeader.tsx:26-29 | The fields as written still total the duration rounded to a whole second |
| Clock.DurationLabelSixty | music-frontend/src/components/analysis/MetaHeader.tsx:26-37 | A duration of 119.6 s is labelled `1:60` |
| Clock.DurationFieldsCarried | music-frontend/src/components/analysis/MetaHeader.tsx:26-29 | Corrected: seconds in 0..59 and the same rounded total |
| Clock.CarriedAgrees | music-frontend/src/components/analysis/MetaHeader.tsx:26-29 | The corrected fields equal the fields as written whenever the latter's seconds are below 60 |
| Clock.DurationLabelCarriedExample | music-frontend/src/components/analysis/MetaHeader.tsx:26-29 | Corrected, 119.6 s gives 2 minutes 0 seconds |
| Waveform.BucketPeakIsMax | music-frontend/src/hooks/useStaticWaveform.ts:41-45 | A bucket's peak is at least every absolute sample in it and equals one of them, or is 0 for an empty bucket |
| Waveform.Step | music-frontend/src/hooks/useStaticWaveform.ts:35 | The bucket size is at least 1, and exactly 1 when there are fewer samples than bars |
| Waveform.StepBounds | music-frontend/src/hooks/useStaticWaveform.ts:35 | With at least as many samples as bars, the bucket size is the floor of their ratio |
| Waveform.BucketMax | music-frontend/src/hooks/useStaticWaveform.ts:41-45 | The inner loop computes the peak of the bucket's existing samples |
| Waveform.BuildBars | music-frontend/src/hooks/useStaticWaveform.ts:38-47 | The outer loop with its early `break` produces exactly the bars, each the peak of its bucket |
| Waveform.BarsExit | music-frontend/src/hooks/useStaticWaveform.ts:38-40 | The loop stops after exactly the bar total, whether through the bound or the `break` |
| Waveform.BarIsBucketMax | music-frontend/src/hooks/useStaticWaveform.ts:38-47 | Bar i is the largest absolute sample of bucket i, and one of those samples |
| Waveform.FullBarCount | music-frontend/src/hooks/useStaticWaveform.ts:35-40 | With at least as many samples as bars, exactly `barCount` bars are drawn |
| Waveform.ShortChannel | music-frontend/src/hooks/useStaticWaveform.ts:35-47 | With fewer samples than bars, each sample becomes its own bar |
| Waveform.DroppedTail | music-frontend/src/hooks/useStaticWaveform.ts:35-47 | With at least as many samples as bars, the samples past `barCount * step` belong to no bar |
| Waveform.PeakOf | music-frontend/src/hooks/useStaticWaveform.ts:49 | The reduce gives at least 0.0001 and every bar, and is either 0.0001 or one of the bars |
| Waveform.Normalise | music-frontend/src/hooks/useStaticWaveform.ts:50 | Every bar is divided by the maximum |
| Waveform.NormaliseRange | music-frontend/src/hooks/useStaticWaveform.ts:49-50 | Normalised non-negative bars lie in [0, 1], keep their order, and the largest becomes 1 when above the seed |
| Waveform.SamplesInRange | music-frontend/src/hooks/useStaticWaveform.ts:5-50 | The samples the hook produces lie between 0 and 1 |
| Waveform.Start | music-frontend/src/hooks/useStaticWaveform.ts:15-18 | A missing or empty URL clears the samples, and otherwise they are kept until the fetch settles |
| Waveform.Settle | music-frontend/src/hooks/useStaticWaveform.ts:31-54 | As written, a failure clears the samples even after cleanup, and a cancelled decode keeps them |
| Waveform.StaleFailureErases | music-frontend/src/hooks/useStaticWaveform.ts:31-60 | A stale run that fails erases the samples a newer run has shown, and the guarded version keeps them |
| Waveform.SettleGuarded | music-frontend/src/hooks/useStaticWaveform.ts:20-60 | Corrected: a cancelled run never changes the samples, and a live run settles as written |
| Waveform.GuardedAgreesWhenLive | music-frontend/src/hooks/useStaticWaveform.ts:31-54 | The guard changes nothing for a live run |
| AudioAnalyser.Attach | music-frontend/src/hooks/useAudioAnalyzer.ts:34-51 | A known element gets its stored bundle back unchanged; a new element gets a bundle with a fresh context and the 4096-point FFT |
| AudioAnalyser.AttachValid | music-frontend/src/hooks/useAudioAnalyzer.ts:34-51 | Attaching keeps the registry's invariant, stores the returned bundle and keeps every other element's bundle |
| AudioAnalyser.AttachIdempotent | music-frontend/src/hooks/useAudioAnalyzer.ts:36-37 | A second mount on the same element changes nothing |
| AudioAnalyser.AttachAllValid | music-frontend/src/hooks/useAudioAnalyzer.ts:10-51 | Mounting on any sequence of elements keeps the registry's invariant |
| AudioAnalyser.AttachAllGrows | music-frontend/src/hooks/useAudioAnalyzer.ts:34-51 | Mounting only adds elements, and keeps the bundles of those already registered |
| AudioAnalyser.OneContextPerElement | music-frontend/src/hooks/useAudioAnalyzer.ts:10-51 | From an empty registry, each distinct element gets exactly one bundle and one context |
| AudioAnalyser.Tick | music-frontend/src/hooks/useAudioAnalyzer.ts:57-65 | A frame copies a buffer of the FFT size, the element's time and duration or 0 when falsy, and `isPlaying` as not paused |
| AudioAnalyser.OnPlay | music-frontend/src/hooks/useAudioAnalyzer.ts:70-72 | A suspended context is resumed and any other state is left alone |
| AudioAnalyser.Mount | music-frontend/src/hooks/useAudioAnalyzer.ts:30-75 | Without an element nothing is attached; with one the element's stored bundle is reused, or a bundle with a fresh context is created, and the listener and a frame request are attached |
| AudioAnalyser.Unmount | music-frontend/src/hooks/useAudioAnalyzer.ts:77-81 | Cleanup removes the listener and cancels a truthy frame request, and keeps the registry, so no context is closed |
| AudioAnalyser.RemountAfterCleanup | music-frontend/src/hooks/useAudioAnalyzer.ts:30-81 | Mounting again after a cleanup reuses the same bundle and creates no second context |
| AudioAnalyser.CleanupStops | music-frontend/src/hooks/useAudioAnalyzer.ts:74-81 | After a mount and its cleanup no listener is attached and no frame is pending |
| Players.Duration | music-frontend/src/components/analysis/MasterPlater.tsx:38-42 | The element's truthy duration, else the last condensed end, else 0 |
| Players.SeekTo | music-frontend/src/components/analysis/MasterPlater.tsx:55-60 | No seek without an element or a truthy duration; otherwise the request clamped to [0, duration] (`max(0, min(time, duration))`), equal to the request when it is inside |
| Players.SeekIdempotent | music-frontend/src/components/daw/DawAnalysisView.tsx:117-122 | Seeking to where a seek landed lands there again |
| Players.ActiveChordIndex | music-frontend/src/components/analysis/MasterPlater.tsx:44-50 | -1 without chords or a duration; otherwise the first active condensed entry, -1 exactly when none is active |
| Players.ActiveChordName | music-frontend/src/components/analysis/MasterPlater.tsx:52-53 | A name exactly when an entry is active, and that entry's name |
| Players.ChordNowFollowsPlayback | music-frontend/src/components/analysis/MasterPlater.tsx:44-203 | While the card has a duration, ChordNow always shows a name, and shows the playing chord when it has a non-empty name |
| Players.SelectChord | music-frontend/src/components/analysis/MasterPlater.tsx:204-207 | A name not in the list does nothing; otherwise the card seeks to the first condensed entry with that name |
| Players.SelectedChordBecomesActive | music-frontend/src/components/analysis/MasterPlater.tsx:44-207 | On a sorted list, selecting a name within the duration lands on its first entry and makes it active |
| Players.NoteSourceKey | music-frontend/src/components/analysis/MasterPlater.tsx:88-90 | `master` for the master card, else the lower-cased stem label |
| Players.BadgeSources | music-frontend/src/components/analysis/MasterPlater.tsx:88-97 | The master card shows a badge; guitar and drums in any ASCII case never do; an unlabelled stem card never does |
| Players.NoteTick | music-frontend/src/components/analysis/MasterPlater.tsx:99-106 | Nothing changes unless shown, playing and in a new second; then the second is recorded, and the note changes only to a truthy detection |
| Players.OneDetectionPerSecond | music-frontend/src/components/analysis/MasterPlater.tsx:101-103 | A second render within the same second changes nothing |
| Players.SilentDetectorKeepsNote | music-frontend/src/components/analysis/MasterPlater.tsx:105-106 | When the detector never finds a note the badge keeps the note it had |
| Players.BadgeStaysEmpty | music-frontend/src/components/analysis/MasterPlater.tsx:105 | Fed the analyser hook's state, the badge shows no note from the start, whatever is played |
| Players.BadgeShowsFrameNote | music-frontend/src/components/analysis/MasterPlater.tsx:99-106 | Fed a spectrum and a sample rate, an A4 peak reaches the badge |
| Players.MasterPath | music-frontend/src/components/daw/DawAnalysisView.tsx:64-65 | The master, vocals or other path, whichever is first non-empty, or none exactly when all three are empty or missing |
| Players.PathForStem | music-frontend/src/components/daw/DawAnalysisView.tsx:68-69 | Master follows the fallback chain; a stem has a path exactly when its own is non-empty |
| Players.PathFromStems | music-frontend/src/components/daw/DawAnalysisView.tsx:64-69 | Every playable path is a non-empty value of the stems map |
| Players.SetTrackVolume | music-frontend/src/components/daw/DawAnalysisView.tsx:157-165 | One track's volume is set and every other track keeps its own |
| Players.ElementVolume | music-frontend/src/components/daw/DawAnalysisView.tsx:136-141 | The master slider times the active track's volume, or the master alone when unset |
| Players.AllTracksHaveVolume | music-frontend/src/components/daw/DawAnalysisView.tsx:48-140 | Every track starts at volume 1, so the `?? 1` default is never used |
| Players.OtherSliderNoEffect | music-frontend/src/components/daw/DawAnalysisView.tsx:136-165 | Moving another track's slider leaves the element's volume unchanged |
| Players.NotesForSource | music-frontend/src/components/daw/DawAnalysisView.tsx:144-147 | The active track's notes when present (even an empty list), else the master's, else none |
| Players.DawTogglePlay | music-frontend/src/components/daw/DawAnalysisView.tsx:124-133 | No element does nothing; otherwise the pause state flips and the chosen rate is applied |
| Players.CardTogglePlay | music-frontend/src/components/analysis/MasterPlater.tsx:62-70 | No element does nothing; otherwise the card flips the pause state and leaves the rate alone |
| Players.CardToggleTwice | music-frontend/src/components/analysis/MasterPlater.tsx:62-70 | Two card toggles restore the element exactly |
| Players.CardIsDawAtOwnRate | music-frontend/src/components/analysis/MasterPlater.tsx:62-70 | The card toggle is the DAW toggle applied with the element's own rate |
| Players.CardTogglesKeepRate | music-frontend/src/components/analysis/MasterPlater.tsx:62-70 | However often the card toggles, the rate stays and the pause state alternates |
| Players.DawToggleTwice | music-frontend/src/components/daw/DawAnalysisView.tsx:124-133 | Two toggles restore the pause state and keep the chosen rate applied |
| UploadPoll.Delay | music-frontend/src/hooks/useUploadAndAnalyze.ts:30-114 | Every delay lies between 1 s and 5 s |
| UploadPoll.DelaySchedule | music-frontend/src/hooks/useUploadAndAnalyze.ts:113-114 | The delays are 1.5 s, 2.25 s and 3.375 s, then 5 s from the fourth reschedule on |
| UploadPoll.DelayNondecreasing | music-frontend/src/hooks/useUploadAndAnalyze.ts:113-114 | Polls never come closer together as attempts grow |
| UploadPoll.InfoOrEmpty | music-frontend/src/hooks/useUploadAndAnalyze.ts:64 | A missing `info` reads as an empty status with nothing else |
| UploadPoll.FailureMessage | music-frontend/src/hooks/useUploadAndAnalyze.ts:95 | A non-empty error is shown, else the fallback message |
| UploadPoll.Absorb | music-frontend/src/hooks/useUploadAndAnalyze.ts:64-81 | A present `partial` or `progress` replaces the old one; processing is on unless SUCCESS or FAILURE; a present status replaces the analysis status; nothing else changes |
| UploadPoll.PollWith | music-frontend/src/hooks/useUploadAndAnalyze.ts:58-126 | A throw stops with the network error; SUCCESS stops with the result and progress 100, or the network error when the result request throws; FAILURE stops with the failure message; otherwise past 20 minutes it stops with the timeout, and before that it polls again after the next delay |
| UploadPoll.ProcessingIffScheduled | music-frontend/src/hooks/useUploadAndAnalyze.ts:77-124 | After every poll the hook is processing exactly when another poll is scheduled, and it stops exactly on a throw, SUCCESS, FAILURE or the timeout |
| UploadPoll.PartialAndProgress | music-frontend/src/hooks/useUploadAndAnalyze.ts:64-86 | A present partial replaces the old one wholesale, progress changes only to a number, and SUCCESS ends at progress 100 with the result |
| UploadPoll.RevokedKeepsPolling | music-frontend/src/hooks/useUploadAndAnalyze.ts:79-115 | A revoked task is not terminal: the hook keeps polling until the timeout |
| UploadPoll.FailureShowsFallback | music-frontend/src/hooks/useUploadAndAnalyze.ts:64-98 | Against the status route as written, a failed task always shows the fallback message and an empty analysis status |
| UploadPoll.BackendStatusNotShown | music-frontend/src/hooks/useUploadAndAnalyze.ts:64-80 | The route's status text never reaches the state: the hook keeps its old status or sets an empty one |
| UploadPoll.TopLevelShowsBackendError | music-frontend/src/hooks/useUploadAndAnalyze.ts:90-98 | Corrected: reading the top-level fields, a failed task shows the back end's error text and status |
| UploadPoll.PollTopLevel | music-frontend/src/hooks/useUploadAndAnalyze.ts:58-126 | Corrected poll: the same reducer, reading status and error where the route puts them |
| UploadPoll.UploadStart | music-frontend/src/hooks/useUploadAndAnalyze.ts:134-141 | A new upload replaces the whole state: only `isUploading` is set |
| UploadPoll.UploadSettled | music-frontend/src/hooks/useUploadAndAnalyze.ts:143-164 | A successful upload starts processing with the task id and polling; a failed one stops with the upload error |
| UploadPoll.UploadForgetsPreviousRun | music-frontend/src/hooks/useUploadAndAnalyze.ts:132-164 | An upload's outcome does not depend on what the previous run left, and a successful one carries no old error |
| UploadCard.HandleFile | music-frontend/src/components/upload/UploadCard.tsx:18-25 | A file is rejected exactly when neither its type is accepted nor its name has an audio extension; a rejected file sets the format error and an accepted one clears it and is handed on |
| UploadCard.OnDrop | music-frontend/src/components/upload/UploadCard.tsx:27-33 | A drop always ends the drag highlight and handles only the first file, if any |
| UploadCard.OnFileChange | music-frontend/src/components/upload/UploadCard.tsx:47-50 | Choosing files handles only the first, and choosing none changes nothing |
| UploadCard.OnDragOver | music-frontend/src/components/upload/UploadCard.tsx:35-39 | Dragging over turns the highlight on and keeps the error |
| UploadCard.OnDragLeave | music-frontend/src/components/upload/UploadCard.tsx:41-45 | Leaving turns the highlight off and keeps the error |
| UploadCard.FirstFileDecides | music-frontend/src/components/upload/UploadCard.tsx:47-50 | With several files chosen, acceptance depends on the first alone |
| UploadCard.CaseInsensitive | music-frontend/src/components/upload/UploadCard.tsx:19 | Names differing only in ASCII letter case are treated alike |
| UploadCard.UpperCaseExtensionAccepted | music-frontend/src/components/upload/UploadCard.tsx:19 | A name ending in `.MP3` is accepted whatever its type |
| UploadCard.MimeTypeOrExtension | music-frontend/src/components/upload/UploadCard.tsx:10-19 | A WAV type is accepted whatever the name, and an unknown type needs the extension |
| DownloadModal.StemRows | music-frontend/src/components/daw/DownloadModal.tsx:73-90 | Stem rows are at most one per listed stem, and every row has a non-empty path |
| DownloadModal.Rows | music-frontend/src/components/daw/DownloadModal.tsx:15-90 | A closed dialog has no rows; an open one lists the lyrics sheet first when its path is non-empty, then the stem rows |
| DownloadModal.StemRowsExact | music-frontend/src/components/daw/DownloadModal.tsx:13-75 | A stem has a row exactly when it is in the order and has a non-empty path, and the row carries its name and path |
| DownloadModal.StemRowsOrder | music-frontend/src/components/daw/DownloadModal.tsx:13-73 | Rows follow the stem order: the rows of a concatenation are the concatenated rows |
| DownloadModal.NoStemsNoRows | music-frontend/src/components/daw/DownloadModal.tsx:54-75 | With no stem paths the open dialog lists only the lyrics row, if any |
| DownloadModal.Extension | music-frontend/src/components/daw/DownloadModal.tsx:28 | The extension is non-empty and has no dot; it is the text after the last dot, or `wav` when that is empty, and the whole path when there is no dot |
| DownloadModal.Download | music-frontend/src/components/daw/DownloadModal.tsx:20-33 | The link is the file URL with `?download=true`, saved as `<songId>-<name>.<extension>`, and there is none exactly when there is no file URL |
| DownloadModal.EveryRowDownloads | music-frontend/src/components/daw/DownloadModal.tsx:20-90 | Every listed row produces a link |
| DownloadModal.StemDownloadServed | music-frontend/src/components/daw/DownloadModal.tsx:20-24 | A `results/` path downloads from `<base>/files/<path>?download=true`, which the file route sends as an attachment |
| Server.ProcessingInfo | music-backend/app.py:57-65 | `info` carries only the step, progress and partial keys that are present, and is omitted when none is |
| Server.GetStatus | music-backend/app.py:34-76 | Every reply carries the task id, state and a status text; the per-state status texts, `info` of progress 100 on SUCCESS, and `error = str(info)` on FAILURE and unknown states |
| Server.StatusMessagesTopLevel | music-backend/app.py:37-74 | `info` never holds a status or error: those are top-level fields, and an error is reported exactly for failed or unknown states |
| Server.GetResult | music-backend/app.py:78-84 | The result with 200 exactly on SUCCESS, else 400 |
| Server.JoinPath | music-backend/app.py:26 | POSIX `os.path.join`: a name starting with `/` replaces the folder; otherwise the result starts with the folder and ends with the name, with one `/` added only when the folder is non-empty and does not already end in `/` |
| Server.JoinNoDoubleSlash | music-backend/app.py:26 | Joining never creates a `//` that neither part had |
| Server.UploadFile | music-backend/app.py:16-32 | 400 without a file part or with an empty name; otherwise 202 with the new task id and the file saved under `uploads` |
| Server.ServeFile | music-backend/app.py:120-140 | Refusals are 403; a sent file is the requested path, as an attachment exactly when `download` is `true` |
| Server.ServedFolders | music-backend/app.py:126-129 | A file is sent exactly when its path starts with `results/` or `uploads/` |
| Server.PrefixOnly | music-backend/app.py:128 | The check looks at the prefix only: whatever follows `results/` is passed on |
| Server.ResultUrlServed | music-backend/app.py:120-129 | A result path becomes the URL `<base>/files/<path>`, and the route serves that path |
| Tasks.SongId | music-backend/tasks.py:27 | The song id is a prefix of the file name without a dot |
| Tasks.StemPaths | music-backend/analyzer.py:277-296 | The stem map has exactly the six separated stems and no master |
| Tasks.StemPathShape | music-backend/analyzer.py:277-296 | Each stem path is `results/<id>/htdemucs_6s/<base>/<stem>.wav`, where `<base>` is the base name up to its first dot and an empty id or base adds no folder and no `/` |
| Tasks.BaseNameOfJoin | music-backend/analyzer.py:277 | The base name of a joined path is the joined name when it has no `/` |
| Tasks.StemPathNoDoubleSlash | music-backend/analyzer.py:277-296 | When the id and the base have no `//`, no stem path has one |
| Tasks.StemsUnderResults | music-backend/tasks.py:27-31 | For an upload name without `/`, every stem path is `results/<id>/htdemucs_6s/<id>/<stem>.wav`, or `results/htdemucs_6s/<stem>.wav` when the id is empty, and the file route serves it |
| Tasks.EmptySongIdStem | music-backend/tasks.py:27-31 | An upload named `.mp3` has an empty song id and its vocals go to `results/htdemucs_6s/vocals.wav` |
| Tasks.NotesForStemsShape | music-backend/analyzer.py:228-248 | Notes are keyed by exactly vocals, bass, piano, guitar and other, never drums or master; a stem is detected when its path is listed and exists, else it gets an empty list |
| Tasks.Updates | music-backend/tasks.py:19-44 | The task makes exactly eight progress updates |
| Tasks.ProgressRises | music-backend/tasks.py:19-44 | Every update has a status, a step and a progress strictly between 0 and 100, and progress strictly rises |
| Tasks.PartialsGrow | music-backend/tasks.py:22-53 | Each later partial keeps every field of an earlier one, and the last equals the result's fields |
| Tasks.TaskResult | music-backend/tasks.py:47-53 | The result carries the metadata, chords, notes and stems the task computed, and the song id |
| Tasks.UpdatesReported | music-backend/tasks.py:19-44 | Each update, read through the status route, reports its status text and its present step, progress and partial |
| ChordTemplates.Qualities | music-backend/analyzer.py:28-37 | Seven distinct qualities with sevenths and four without; dominant 7 is built exactly with sevenths |
| ChordTemplates.SetBinsAt | music-backend/analyzer.py:19-23 | A bin the loop touches is 1 and every other bin keeps its value |
| ChordTemplates.TplAt | music-backend/analyzer.py:19-23 | The raw template is 1 on the chord's pitch classes and 0 elsewhere |
| ChordTemplates.Normalise | music-backend/analyzer.py:39-43 | Normalising keeps zeros zero and equal entries equal |
| ChordTemplates.NormaliseAt | music-backend/analyzer.py:41-43 | Each entry is divided by a positive norm, and the vector is unchanged otherwise |
| ChordTemplates.Templates | music-backend/analyzer.py:25-37 | There are twelve templates per quality |
| ChordTemplates.TemplateCount | music-backend/analyzer.py:25-48 | 84 templates with sevenths and 48 without |
| ChordTemplates.NameRoundTrip | music-backend/analyzer.py:10-37 | A template name reads back to the root and quality it was built from |
| ChordTemplates.TemplateName | music-backend/analyzer.py:25-37 | Entry k is named after root `k / n` and quality `k % n`, with n the number of qualities |
| ChordTemplates.DistinctNames | music-backend/analyzer.py:25-37 | No two templates share a name, so the dictionary keeps every one of them |
| ChordTemplates.NameShape | music-backend/analyzer.py:26-37 | Every name is a note name followed by the suffix of one of the qualities built |
| ChordTemplates.VectorSupport | music-backend/analyzer.py:19-43 | A chord's vector is 0 off its pitch classes and equal on them, and positive on them for a proper norm |
| ChordTemplates.TemplateSupport | music-backend/analyzer.py:25-43 | Table entry k has the support of its root and quality |
| ChordTemplates.RootIsHit | music-backend/analyzer.py:29-37 | The root's own bin is always set |
| ChordSegments.FrameLabels | music-backend/analyzer.py:121-126 | One label per frame, in order: label f is `N` when frame f's best score is below the threshold, and otherwise the name of the template that scored best |
| ChordSegments.NoChordIsNoTemplate | music-backend/analyzer.py:10-124 | No template is called `N` |
| ChordSegments.LabelIsNoChordIff | music-backend/analyzer.py:111-126 | A frame is labelled `N` exactly when its best score is below the threshold, and otherwise with its best template's name |
| ChordSegments.RunEndIsMaximal | music-backend/analyzer.py:141-150 | Every label in a run equals its first, and the label after the run differs |
| ChordSegments.Group | music-backend/analyzer.py:136-157 | The grouping loop produces the reference segments: one per maximal run not labelled `N`, from the run's first frame time to the next change's time (or the last frame's) |
| ChordSegments.SegmentsLabelled | music-backend/analyzer.py:143-157 | No segment is labelled `N`, each carries a frame's label, and none has an error |
| ChordSegments.SegmentsSorted | music-backend/analyzer.py:136-157 | With frame times in order the segments are in order without overlap |
| ChordSegments.SegmentsTile | music-backend/analyzer.py:136-157 | Without `N` frames the segments tile the frames from the first time to the last, and neighbours differ |
| ChordSegments.EnforceMinDuration | music-backend/analyzer.py:50-56 | The merged list is empty exactly when the input is |
| ChordSegments.MinDurationKeeps | music-backend/analyzer.py:50-69 | The first segment and every segment at least the minimum long stay, in order; every kept segment after the first is long enough; the list never grows |
| ChordSegments.MinDurationSorted | music-backend/analyzer.py:58-69 | Merging keeps a sorted list sorted and keeps its last end time |
| ChordSegments.AnalyzeChords | music-backend/analyzer.py:85-106 | The three error cases in order: missing file, empty audio, no chroma frames |
| ChordSegments.DetectedChords | music-backend/analyzer.py:85-162 | Otherwise every chord has no error, is not `N` and carries some frame's label, and with ordered frame times the chords are sorted |

## Left out

- **Network, timers, Web Audio and the DOM.** Axios requests, `setTimeout`, `requestAnimationFrame`, `AudioContext` creation, `decodeAudioData` and `scrollIntoView` are not modelled: they are parameters or results of the step functions.
- **Lyrics polling effect.** The lyrics effect of music-frontend/src/components/daw/DawAnalysisView.tsx:170-217 is asynchronous plumbing around a request.
- **`getNoteAtTime` and `midiToNoteName`.** They are imported by music-frontend/src/components/daw/DawAnalysisView.tsx:6 but are not defined in notes.ts. They are not part of this model.
- **Back-end signal processing.** Demucs, Basic Pitch, librosa's loading, HPSS, chroma, similarity and argmax, and `analyze_meta`'s key estimation (music-backend/analyzer.py:170-222) become inputs.
- **Chord detection failures.** The exception handler of `analyze_chords` (music-backend/analyzer.py:164-168) and Basic Pitch's empty list on an exception are left out, because exceptions come from the libraries.
- **Cancel route.** The cancel route (music-backend/app.py:86-118) is Celery control, not modelled logic.
- **File serving.** `send_from_directory`'s own path checks and the CORS headers are not modelled.
- **Floating point.** Real arithmetic replaces IEEE doubles throughout, so rounding and overflow are not modelled.
- AudioAnalyser.Mount: every frame requests the next one and stores its id, so the hook holds the latest id. The model keeps one id, given as a parameter. `requestAnimationFrame` never returns 0, so the cleanup's truthiness test on the id always passes in practice. The model keeps that test as written.
- Notes.NoteForHz: the semitone step `Math.round(12 * Math.log2(hz / 440))` is a function parameter, because the logarithm has no exact real counterpart. Only its range check and the naming are proved.
- ChordTemplates.Normalise: numpy's Euclidean norm is a function parameter. Positivity on non-zero vectors is an assumption (`PositiveNorm`) where needed, because square roots of reals are not available.
- Text.LowerAscii: `toLowerCase` is modelled for ASCII letters only. Other letters are kept unchanged.
- Waveform.Bars: a non-integer `barCount` is not modelled; bar counts are integers, as every caller passes one.
- Players.DawTogglePlay: a `play()` that rejects is not modelled. A toggle flips the pause state.
- Players.CardTogglePlay: a `play()` that rejects is not modelled, because the element's playback is outside the model. A toggle flips the pause state, although a rejected `play()` would leave the element paused.
- UploadPoll.UploadSettled: the upload message is modelled as the intended ellipsis. The source file holds its mis-encoded bytes.
- **Hook API mismatch.** `pollTask`, which music-frontend/src/pages/AnalysisPage.tsx:11 takes from the hook, is never returned by it. Only the hook's own `upload` and poll are modelled.
- ChordSegments.MergeInto: Python's in-place update of the previous segment's dictionary is modelled as replacing the merged list's last entry. The merged list holds the same dictionaries as the input list (music-backend/analyzer.py:58-66), so the update also changes the input list's entry. Nothing observes that: the loop only reads segments after the one it updates, each segment is a separate dictionary, and the caller rebinds `chords` to the merged list (music-backend/analyzer.py:160).
- ChordSegments.ErrorEntry: an error entry's other fields are absent in the JSON. Here they are 0 and the empty name, and only `error` is stated.
- **Presentation components.** MetaHeader's other cards, the waveform and timeline drawing, and the remaining presentation components hold only geometry.

## Findings

| source | as written | input that shows it | evidently intended | confidence | as-written member | corrected member |
|---|---|---|---|---|---|---|
| music-frontend/src/utils/notes.ts:6-7 with music-frontend/src/hooks/useAudioAnalyzer.ts:3-8 | The detector reads `frequency` and `sampleRate` from the analyser hook's state, which has neither, so it always returns null | Any playing frame, e.g. a spectrum peaking at 440 Hz | The detector gets the spectrum and sample rate and names the peak (`A4`) | not executed | Notes.DetectFromAnalyzerState, Players.BadgeStaysEmpty | Notes.DetectFromFrame, Notes.FrameDetectsA4, Players.BadgeShowsFrameNote |
| music-frontend/src/components/analysis/MetaHeader.tsx:26-29 | Minutes are floored and the remaining seconds rounded separately | A duration of 119.6 s shows `1:60` | Round the whole duration, then carry: `2:00` | not executed | Clock.DurationFields, Clock.DurationLabelSixty | Clock.DurationFieldsCarried, Clock.CarriedAgrees |
| music-frontend/src/hooks/useStaticWaveform.ts:31,51-54 | The `cancelled` flag is checked only after a successful decode, so a stale run that fails still clears the samples | The URL changes; the old fetch then fails after the new run drew its waveform | A cancelled run never touches the samples | not executed | Waveform.Settle, Waveform.StaleFailureErases | Waveform.SettleGuarded, Waveform.GuardedAgreesWhenLive |
| music-frontend/src/hooks/useUploadAndAnalyze.ts:80,95 with music-backend/app.py:44-74 | The hook reads `info.status` and `info.error`, but the status route puts `status` and `error` at the top level | A FAILURE with the error text `boom` | The error `boom` and the route's status text are shown | not executed | UploadPoll.FailureShowsFallback, UploadPoll.BackendStatusNotShown | UploadPoll.TopLevelShowsBackendError, UploadPoll.PollTopLevel |
