# video-cutter, modelled in Dafny

video-cutter is a set of Python scripts that turn a video and its subtitles
into language-learning material. This project models their deterministic core
and proves what each script does with its inputs.

- **`split_audio`** opens an audio file once. For each subtitle entry it cuts
  one clip from `start` to `start + duration` and writes it to
  `segment_NNN.mp3`, where NNN is the entry's 1-based position zero-filled to
  three digits. It then closes the audio.
- **`split_video`** derives the path of a temporary `.mp3` from the video
  path. Inside the `ensure_file_removal` scope it exports the video's audio
  there and runs `split_audio` on it. Leaving the scope always attempts to
  remove the `.mp3` and logs how that went.
- **`download_from_youtube`** picks the video id from the parsed query
  (`get_youtube_video_id`). It strips one `.mp4` suffix from the video's file
  name and writes one JSON file per transcript. Manual and generated
  transcripts get different names.
- **`export_to_anki`** reads the course description and builds one note model
  and one deck. It walks the lessons in course order and their phrases in
  phrase order, adding one note `[target, source, audio]` per phrase.

## Layout

The Dafny modules are:

- **`Text`** (`text.dfy`): decimal rendering, zero filling, prefix and suffix
  tests, and lexicographic order.
- **`PosixPath`** (`posix_path.dfy`): the parts of Python's `os.path` that the
  scripts use (`splitext`, `join`, `dirname`), as the POSIX flavour defines
  them, with the last-component and `rstrip` helpers they rest on.
- **`FileSystem`** (`file_system.dfy`): a class holding the files and a trace
  of every write, removal and log record, in order. Which writes and removals
  fail is fixed when the file system is created, in the sets `unwritable` and
  `unremovable`.
- **`SplitAudio`**, **`SplitVideo`**, **`DownloadFromYoutube`** and
  **`ExportToAnki`**: one module per script.

How the scripts are modelled:

- **Specification functions.** `split_audio`, `split_video` and
  `download_subtitles` are `method`s on that file system, each proved equal
  to a function of the initial state (`Run`, `WriteEach`). The export script
  takes the parsed description files as maps and grows a `Deck` object; it
  is proved to build the notes `NotesOf` gives for the lessons `LoadLessons`
  reads. The lemmas state the scripts' promises about those functions.
- **Objects changed in place.** The audio handle (`AudioFileClip`) and the
  deck (`Deck`) are classes.
- **Times** are `real`. The only claim about them is `end == start + duration`.

## Model

| member | source | states |
|---|---|---|
| SplitAudio.SplitAudio | split_audio.py:10-36 | The final trace and files are those of `Run`: nothing is written when the audio is missing, otherwise the segment writes up to the first that raises. The handle exists exactly when the audio file does. When the loop ends normally it is closed exactly once; when a write raises it is left open. |
| SplitAudio.AudioFileClip.Subclip | split_audio.py:25 | The clip comes from the opened source and has exactly the requested bounds; the handle must be open. |
| SplitAudio.AudioFileClip.Close | split_audio.py:36 | The handle is closed and its close count goes up by one. |
| SplitAudio.Plan | split_audio.py:19-28 | The clips the loop cuts, in subtitle order. `PlanLength` and `PlanAt` state one clip per entry, clip `i` named after position `i + 1` and spanning `start` to `start + duration`. |
| SplitAudio.Run | split_audio.py:10-36 | The effects of one call: nothing and `FileNotFoundError` when the audio is missing, otherwise the writes of the plan up to the first that raises. `RunWritesEachEntryInOrder` states this entry by entry. |
| SplitAudio.PlanLength | split_audio.py:19 | One planned clip per subtitle entry. |
| SplitAudio.PlanAt | split_audio.py:19-28 | Entry `i` becomes clip `i`, named after position `i + 1`, spanning exactly `start` to `start + duration`, with no buffer and no clamp. |
| SplitAudio.RunWritesEachEntryInOrder | split_audio.py:19-31 | With the audio present, the run writes entry after entry in list order. Each clip is written to its entry's name with that entry's bounds. It returns normally iff every entry was written. Otherwise it raises for the name of the first unwritable segment. |
| SplitAudio.SegmentFileName | split_audio.py:28 | `segment_{index+1:03d}.mp3`. `SegmentFileNameMeaning` states what the name says, and the lemmas below state that names are distinct and sortable up to 999. |
| SplitAudio.SegmentFileNameMeaning | split_audio.py:28 | The name starts with "segment_" and ends with ".mp3". Between them stand at least three decimal digits whose value is the 1-based position. A leading '0' only appears as filling up to three digits. |
| SplitAudio.SegmentFileNamesDistinct | split_audio.py:28 | Different positions never share a name, for any list length. |
| SplitAudio.SegmentFileNameLength | split_audio.py:28 | Up to the 999th entry every name has 15 characters. |
| SplitAudio.SegmentFileNamesSortInOrder | split_audio.py:28 | Up to the 999th entry, one name sorts before another iff its entry comes first (both directions). |
| SplitAudio.NamesBelowLimitAscend | split_audio.py:28 | Below the limit, earlier entries have lexicographically smaller names. |
| SplitAudio.SegmentFileNameWidensPastLimit | split_audio.py:28 | From the 1000th entry on, names have at least 16 characters. |
| SplitAudio.SegmentFileNamesMisorderPastLimit | split_audio.py:28 | Entry 1000 is named "segment_1000.mp3" and sorts before entry 999's "segment_999.mp3", so name order stops following list order. |
| SplitAudio.PaddedThousand | split_audio.py:28 | The number 1000 zero-filled to width 3 is "1000". |
| SplitAudio.PaddedNineHundredNinetyNine | split_audio.py:28 | The number 999 zero-filled to width 3 is "999". |
| SplitAudio.PlanNamesSortable | create_course.py:23-26 | For at most 999 entries the planned names are all 15 characters and strictly ascending in string order, matching the segment_001…segment_999 layout. |
| SplitAudio.PlanNamesDistinct | split_audio.py:19-31 | For any list, the plan writes each file name at most once. |
| Text.Decimal | split_audio.py:28 | `str(n)`: at least one decimal digit, with no leading '0' for a positive number. `DecimalRoundTrip` states that the digits read back as `n`. |
| Text.ZeroPadded | split_audio.py:28 | The `03d` format: all decimal digits. `ZeroPaddedValue`, `ZeroPadded3Digits` and `DecimalLengthFrom1000` state its value and its length. |
| Text.DecimalRoundTrip | split_audio.py:28 | Reading back the decimal digits of `n` gives `n`. |
| Text.ZeroPaddedValue | split_audio.py:28 | Zero filling never changes the number the digits denote. |
| Text.ZeroPaddedInjective | split_audio.py:28 | Equal zero-filled strings come from equal numbers. |
| Text.ZeroPadded3Digits | split_audio.py:28 | Up to 999, the width-3 rendering is exactly the hundreds, tens and units digits. |
| Text.ZeroPadded3Order | split_audio.py:28 | Up to 999, a smaller number has a lexicographically smaller width-3 rendering. |
| Text.DecimalLengthFrom1000 | split_audio.py:28 | From 1000 on, the width-3 rendering has at least four characters. |
| Text.LexLess | split_audio.py:28 | Python's `<` on strings, the order in which segment files sort. The `LexLess…` lemmas state that it is a strict order compatible with prefixes and suffixes. |
| Text.LexLessIrreflexive | split_audio.py:28 | No name sorts before itself. |
| Text.LexLessAsymmetric | split_audio.py:28 | Two names never sort before each other. |
| Text.LexLessCommonPrefix | split_audio.py:28 | A shared prefix such as "segment_" does not change the order. |
| Text.LexLessAppend | split_audio.py:28 | Appending the same suffix such as ".mp3" to two equal-length strings keeps their order. |
| Text.RFindUnique | split_video.py:42 | The last position of a character is the one with no later occurrence. |
| FileSystem.FileSystem.Write | split_audio.py:31 | An unwritable path raises and changes nothing; otherwise the file gets the content and the write is appended to the trace. |
| FileSystem.FileSystem.Remove | split_video.py:22 | A missing file raises `FileNotFoundError`; an unremovable file raises another `OSError`; otherwise the file is gone and the removal is traced. |
| FileSystem.FileSystem.Log | split_video.py:23-28 | The record is appended to the trace; files are unchanged. |
| FileSystem.FileSystem.WriteNext | download_from_youtube.py:83-84 | One write as a loop step: success extends the completed prefix by one write; failure leaves exactly the state `WriteEach` describes. |
| FileSystem.FileSystem.WroteEvery | download_from_youtube.py:71-84 | A loop that completed every write has done what `WriteEach` does and ends normally. |
| FileSystem.WriteEach | split_audio.py:19-31 | Writes performed one after the other until one raises. `WriteEachStopsAtFirstFailure` states which writes happen and what is raised. |
| FileSystem.WriteEachStopsAtFirstFailure | split_audio.py:19-31 | Writing in sequence performs exactly the writes before the first unwritable path, then raises `OSError` for that path, or ends normally when there is none. |
| FileSystem.WriteEachStopsAt | split_audio.py:19-31 | A loop that stopped at `k`, because it ran out of writes or met an unwritable path, has done exactly what `WriteEach` does. |
| FileSystem.FirstUnwritable | split_audio.py:31 | The result is the index of the first unwritable path, or the number of writes. |
| FileSystem.ReplayConcat | split_video.py:50-54 | Replaying two stretches of effects one after the other equals replaying them together. |
| FileSystem.WroteAllAppend | split_audio.py:31 | One more successful write extends the trace by that write and updates exactly that file. |
| SplitVideo.SplitVideo | split_video.py:47-54 | The final trace and files are those of `Run` (body, then cleanup on the files the body left), and the outcome is the body's. |
| SplitVideo.CleanupEvents | split_video.py:20-28 | What the `finally` block leaves for each removal result. `EnsureFileRemovalExit` performs it, and `TemporaryAudioRemoved` and `CleanupEndsEveryRun` state its effect. |
| SplitVideo.ScopeBody | split_video.py:50-54 | The effects of the `with` body: decode, export, then split. `BodyErrorsPropagate` and `AudioRemovedAfterSplitting` state its failures and its successful trace. |
| SplitVideo.Run | split_video.py:47-54 | The body followed by the cleanup, with the body's outcome. `CleanupNeverChangesOutcome` states that the outcome is the body's. |
| SplitVideo.EnsureFileRemovalExit | split_video.py:15-28 | After the body, however it ended, the removal is attempted. Success is followed by an info record, a missing file by a warning, any other failure by an error record. The body's outcome is passed on unchanged. |
| SplitVideo.RemoveFileExtension | split_video.py:31-44 | The root is a prefix of the name; when something was removed, it began with '.'. |
| SplitVideo.RemoveFileExtensionKeepsNamesWithoutExtension | split_video.py:42-44 | The name comes back unchanged iff its last component has no extension dot past its leading dots (both directions). |
| SplitVideo.Mp3Path | split_video.py:48 | The root of the video path followed by ".mp3". `Mp3PathReplacesExtension` and `Mp3PathOfMp3Input` state the replacement. |
| SplitVideo.Mp3PathReplacesExtension | split_video.py:48 | The audio path is the video path's root plus ".mp3". When that root's last component is not empty or all dots, `splitext` of the audio path gives back the same root and ".mp3". |
| SplitVideo.Mp3PathOfMp3Input | split_video.py:48 | A video whose extension is already ".mp3" maps to its own path. |
| SplitVideo.CleanupEndsEveryRun | split_video.py:17-22 | Every run, normal or raising, ends with the cleanup's log record for the audio path. |
| SplitVideo.TemporaryAudioRemoved | split_video.py:19-23 | After the run the temporary audio file is absent unless it was unremovable. |
| SplitVideo.CleanupNeverChangesOutcome | split_video.py:25-28 | The run's outcome is the body's, whatever the removal does: a failed removal is only logged, never raised. |
| SplitVideo.BodyErrorsPropagate | split_video.py:17-19 | A missing video still raises `FileNotFoundError` for the video after cleanup, and a failed export still raises for the audio path. |
| SplitVideo.AudioRemovedAfterSplitting | split_video.py:50-54 | On a successful run the trace is the export, then every segment write of `split_audio` (one per entry), and only then the removal and its info record. |
| SplitVideo.StillPresentAfterWrites | split_video.py:51-54 | Writes never remove a file, so the exported audio is still there for the cleanup. |
| PosixPath.Basename | split_video.py:42 | The last component, which `splitext` searches, contains no '/' and ends the path. |
| PosixPath.BasenameIsLastComponent | split_video.py:42 | The last component is the whole path or follows a '/', so it is the longest '/'-free end of the path. |
| PosixPath.SplitExt | split_video.py:42 | root + ext == path. The extension is empty, or it is a '.' followed by characters that are neither '.' nor '/'. |
| PosixPath.LeadingDots | split_video.py:42 | Counts the dots at the start of a name, stopping at the first other character. |
| PosixPath.RStrip | export_to_anki.py:55 | The result is a prefix of the input, does not end with the stripped character, and everything removed is that character: exactly the trailing run is stripped. |
| PosixPath.SplitExtFindsExtension | split_video.py:42 | `splitext` finds an extension iff there is a '.' in the last component past its leading dots (both directions). |
| PosixPath.SplitExtWithoutExtension | split_video.py:42-44 | A name with no extension splits into itself and "". |
| PosixPath.SplitExtStaysInBasename | split_video.py:42 | The extension never reaches outside the last component. |
| PosixPath.SplitExtOfAddedExtension | split_video.py:48 | Appending a '.'-led extension to a root whose last component is not all dots splits back into that root and extension. |
| PosixPath.Join | download_from_youtube.py:77 | Two-argument `os.path.join`. `JoinShape` states where the name and the directory end up. |
| PosixPath.JoinShape | download_from_youtube.py:77 | The joined path ends with the name. It begins with the directory unless the name is absolute. Exactly one '/' is inserted after a non-empty directory without a trailing '/'. |
| PosixPath.Dirname | export_to_anki.py:55 | `os.path.dirname`. `DirnameOfJoin` states that it undoes a join with a plain name. |
| PosixPath.DirnameOfJoin | export_to_anki.py:55 | `dirname` of a directory joined with a plain name gives the directory back, when the directory has no trailing '/'. |
| DownloadFromYoutube.QueryDict | download_from_youtube.py:29 | Every name in the parsed dictionary maps to a non-empty list of values. |
| DownloadFromYoutube.QueryDictGroupsValues | download_from_youtube.py:29 | The dictionary has a key exactly for the names that occur (both directions), and its list holds all of that name's values in query order. |
| DownloadFromYoutube.ValuesOfAppend | download_from_youtube.py:29 | One more pair adds its value to its own name's values only. |
| DownloadFromYoutube.FirstValueIsFirstOfValues | download_from_youtube.py:32 | The first value of a name is the head of its list of values, or none when the list is empty. |
| DownloadFromYoutube.NoValuesIffNameAbsent | download_from_youtube.py:32 | A name has no values iff no pair carries it. |
| DownloadFromYoutube.GetYoutubeVideoId | download_from_youtube.py:32 | `query_params['v'][0]` or none. `VideoIdIsFirstV` states that this is the first value bound to "v". |
| DownloadFromYoutube.VideoIdIsFirstV | download_from_youtube.py:15-32 | The video id is the first value bound to "v". There is none iff no pair is named "v" (both directions). |
| DownloadFromYoutube.RemoveMp4Suffix | download_from_youtube.py:35-38 | For a name ending in ".mp4", result + ".mp4" == name; any other name is returned unchanged. |
| DownloadFromYoutube.RemoveMp4SuffixTwice | download_from_youtube.py:36-37 | A second strip changes nothing iff the once-stripped name no longer ends in ".mp4"; the function is not idempotent in general. |
| DownloadFromYoutube.RemoveMp4SuffixStripsOnce | download_from_youtube.py:36-37 | "a.mp4.mp4" becomes "a.mp4", and only a second call gives "a". |
| DownloadFromYoutube.TranscriptFileName | download_from_youtube.py:73-75 | The manual and generated names. `TranscriptFileNamesDiffer` and `TranscriptFileNameInjective` state that they differ and that a name determines its transcript. |
| DownloadFromYoutube.TranscriptFileNamesDiffer | download_from_youtube.py:73-75 | Manual and generated names both end in ".json" and differ for the same video and language. |
| DownloadFromYoutube.GeneratedSuffixNeverManual | download_from_youtube.py:73-75 | A generated name never equals a manual name whose language code has no ','. |
| DownloadFromYoutube.TranscriptFileNameInjective | download_from_youtube.py:72-75 | For language codes without ',', the file name determines the language and whether the transcript was generated. |
| DownloadFromYoutube.NameTranscriptFile | download_from_youtube.py:72-75 | The loop's name-then-reassign step gives " (lang).json" for a manual transcript and " (lang, gen).json" for a generated one. |
| DownloadFromYoutube.TranscriptPath | download_from_youtube.py:77 | The transcript's name joined onto the output directory. `JoinShape` and `TranscriptWriteAt` state where each transcript goes. |
| DownloadFromYoutube.TranscriptWrites | download_from_youtube.py:71 | One write per transcript. |
| DownloadFromYoutube.TranscriptWriteAt | download_from_youtube.py:71-84 | Write `i` goes to `os.path.join(path, name of transcript i)` and holds transcript `i`'s JSON. |
| DownloadFromYoutube.DownloadSubtitles | download_from_youtube.py:66-86 | The final trace and files are those of `WriteEach` over the transcript writes, with the video name stripped of ".mp4". The outcome is the first write failure, if any. |
| DownloadFromYoutube.SubtitlesWrittenInOrder | download_from_youtube.py:71-84 | Transcripts are written once each, in list order, each to its own path under `path`. The run ends normally iff all were written. Otherwise it raises for the first unwritable path. |
| ExportToAnki.BuildModel | export_to_anki.py:25-45 | The model id is the course's model id; the model has three fields and one card template. |
| ExportToAnki.QuestionFormat | export_to_anki.py:41 | The question template. `QuestionNamesEnglishAndAudio` states which fields it shows. |
| ExportToAnki.AnswerFormat | export_to_anki.py:42 | The answer template. `AnswerNamesTargetLanguage` states which fields it shows. |
| ExportToAnki.TemplateShowsModelFields | export_to_anki.py:33-42 | The fields are English, the target language and Audio. The question shows fields 1 and 3 ("{{English}}<br>{{Audio}}"). The answer shows the front side, the rule and field 2 ("{{FrontSide}}<hr id=\"answer\">{{" + target language + "}}"). |
| ExportToAnki.QuestionNamesEnglishAndAudio | export_to_anki.py:41 | The question template references the English field, then the Audio field. |
| ExportToAnki.AnswerNamesTargetLanguage | export_to_anki.py:42 | The answer template is the front side, the rule, then a reference to the target-language field. |
| ExportToAnki.AudioField | export_to_anki.py:68 | The field is empty iff the phrase has no audio. Otherwise it starts with "[sound:" and ends with "]". |
| ExportToAnki.AudioFieldNamesAudio | export_to_anki.py:68 | Reading the file name back from the audio field gives the phrase's audio file. |
| ExportToAnki.NoteFields | export_to_anki.py:65-69 | A note has three fields. |
| ExportToAnki.NoteFieldsMatchModel | export_to_anki.py:65-69 | The note's fields line up with the model's: target under English, source under the target language, the phrase's audio under Audio. |
| ExportToAnki.LessonNotes | export_to_anki.py:62-71 | One note per phrase of a lesson. |
| ExportToAnki.LessonNoteAt | export_to_anki.py:62-70 | Phrase `p` of a lesson becomes its `p`-th note, with fields `[target, source, audio]`. |
| ExportToAnki.NotesOf | export_to_anki.py:54-71 | The notes of several lessons, lesson after lesson. `NoteCount` and `NoteOrder` state their number and order. |
| ExportToAnki.NoteCount | export_to_anki.py:54-71 | The number of notes equals the sum of the lessons' phrase counts. |
| ExportToAnki.NoteOrder | export_to_anki.py:54-71 | Phrase `p` of lesson `l` becomes note number (phrases of earlier lessons) + `p`, so notes are ordered by lesson, then by phrase. |
| ExportToAnki.PhraseCountPrefix | export_to_anki.py:54-62 | The earlier lessons' phrases plus lesson `l`'s never exceed the total. |
| ExportToAnki.LessonInfoPath | export_to_anki.py:55 | The three-part join for a lesson's description. `LessonInfoPathUnderCourse` states where it lies. |
| ExportToAnki.LessonInfoPathUnderCourse | export_to_anki.py:19-55 | For a course directory ending in at most one '/', each lesson's description lies at course directory / lesson path / "lesson-info.json". |
| ExportToAnki.FirstMissing | export_to_anki.py:58 | The result is the index of the first lesson whose description is missing, or the number of lessons. |
| ExportToAnki.LoadLessons | export_to_anki.py:54-59 | The lesson descriptions read in order. `LoadLessonsStopsAtFirstMissing` states where reading stops. |
| ExportToAnki.LoadLessonsStopsAtFirstMissing | export_to_anki.py:54-59 | Lessons are read in course order up to the first missing description, which raises `FileNotFoundError` for its path. |
| ExportToAnki.Deck.constructor | export_to_anki.py:48-51 | The deck takes its id and name from the course and starts empty. |
| ExportToAnki.Deck.AddNote | export_to_anki.py:71 | The note is appended to the deck. |
| ExportToAnki.AddLessonNotes | export_to_anki.py:62-71 | The inner loop appends exactly the lesson's notes, in phrase order. |
| ExportToAnki.ExportToAnki | export_to_anki.py:19-71 | A missing course description raises before any deck exists. Otherwise the fresh deck has the course's deck id and name and holds the notes of the lessons read, in lesson and phrase order. The outcome is the first missing lesson description, if any. |

## Left out

- Network and platform access is not modelled: downloading the stream, listing and fetching transcripts, and `get_video_name` (download_from_youtube.py:41-63, 67-69, 80). The transcripts and the video name are parameters of `DownloadSubtitles`.
- URL and query parsing (`urlparse`, `parse_qs`) is not modelled. The query is given as its decoded (name, value) pairs, so percent-decoding and the dropping of blank values are outside the model.
- Audio decoding, encoding and cutting (pydub, moviepy) are abstract. A written file records where its audio came from (`AudioClip`, `ExtractedAudio`). Codec errors are represented only as writes that fail.
- Reading and writing JSON is not modelled. The parsed files are maps from path to content. Only a missing file is an error; malformed JSON and missing keys are not.
- The `genanki` package: writing `output_deck.apkg` (export_to_anki.py:74-76) and the internals of its Model, Deck and Note objects are not modelled.
- Floating-point arithmetic: times are `real`, and no rounding is modelled.
- Log message text, `print` output and the argparse `main` functions are not modelled. So is `args.mp3` at split_audio.py:51, which reads an option declared as `--audio`.
- create_course.py and import_lesson.py are not modelled. Their only relevance is the segment_001… layout in create_course.py:23-26, which `PlanNamesSortable` states.
- The code has no trailing buffer, no clamping to the track length, no rounding, no translator and no lazy generator, and does not close the audio after a failed write; the model follows the code: clips are exactly `start` to `start + duration`, and a failed write leaves the audio handle open.
- ExportToAnki.LessonInfoPathUnderCourse: stated for course paths ending in at most one '/'. Paths ending in two or more are not covered: `dirname` strips every trailing '/', so for "a//" the lesson lies under "a/" and not under "a//".
- ExportToAnki.ExportToAnki: on a missing lesson description the script aborts; the model returns the deck built so far together with the `FileNotFoundError`, so what was added before the failure can be stated.
- SplitAudio.SplitAudio: the subtitle list is passed in already loaded; opening and parsing the subtitle file is not modelled.
