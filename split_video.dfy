/**
  `split_video`: derive the `.mp3` path from the video path, and inside the
  `ensure_file_removal` scope export the video's audio to it and run
  `split_audio` on it. Leaving the scope, by returning or by raising, always
  attempts to remove the `.mp3`; what that removal does is only logged and
  never replaces how the scope ended.
*/
module SplitVideo {
  import opened Text
  import opened PosixPath
  import opened FileSystem
  import SplitAudio

  const Mp3Extension: string := "mp3"

  /** `remove_file_extension`: the root `os.path.splitext` returns. */
  function RemoveFileExtension(filename: string): (root: string)
    ensures StartsWith(filename, root)
    ensures |root| < |filename| ==> filename[|root|] == ExtSep
  {
    SplitExt(filename).0
  }

  /** `f'{remove_file_extension(path_to_video)}.{MP3_EXTENSION}'` */
  function Mp3Path(pathToVideo: string): string {
    RemoveFileExtension(pathToVideo) + "." + Mp3Extension
  }

  /** What the `finally` block of `ensure_file_removal` leaves in the trace for
      each result of `os.remove`: an info record after a removal, a warning
      when the file was already gone, an error record for any other failure. */
  function CleanupEvents(path: string, removal: Outcome): seq<Event> {
    match removal
    case Ok => [Removed(path), Logged(Info(path))]
    case Raised(FileNotFound(_)) => [Logged(Warning(path))]
    case Raised(e) => [Logged(ErrorLog(e))]
  }

  /** The effects of the body of the `with` block: decoding the video (which
      raises when it is missing), exporting its audio to the `.mp3`, then
      `split_audio` on that file. */
  function ScopeBody(files: Files, unwritable: set<string>, pathToVideo: string, subtitles: seq<SplitAudio.Subtitle>)
    : (seq<Event>, Outcome)
  {
    var mp3 := Mp3Path(pathToVideo);
    if pathToVideo !in files then ([], Raised(FileNotFound(pathToVideo)))
    else if mp3 in unwritable then ([], Raised(OsError(mp3)))
    else
      var exported := Wrote(mp3, ExtractedAudio(pathToVideo));
      var split := SplitAudio.Run(Apply(files, exported), unwritable, mp3, subtitles);
      ([exported] + split.0, split.1)
  }

  /** The effects of one `split_video` call: the body, then the cleanup run on
      the files the body left, with the body's outcome propagated. */
  function Run(files: Files, unwritable: set<string>, unremovable: set<string>,
               pathToVideo: string, subtitles: seq<SplitAudio.Subtitle>): (seq<Event>, Outcome)
  {
    var body := ScopeBody(files, unwritable, pathToVideo, subtitles);
    var mp3 := Mp3Path(pathToVideo);
    var removal := RemoveResult(Replay(files, body.0), unremovable, mp3);
    (body.0 + CleanupEvents(mp3, removal), body.1)
  }

  /** The exit half of `ensure_file_removal(file_path)`: it runs after the body
      however the body ended (`body`), attempts the removal, logs its result and
      then lets the body's outcome go on. */
  method EnsureFileRemovalExit(fs: FileSystem, filePath: string, body: Outcome) returns (propagated: Outcome)
    modifies fs
    ensures propagated == body
    ensures var removal := RemoveResult(old(fs.files), fs.unremovable, filePath);
            fs.trace == old(fs.trace) + CleanupEvents(filePath, removal)
            && fs.files == Replay(old(fs.files), CleanupEvents(filePath, removal))
  {
    ghost var files0 := fs.files;
    var removal := fs.Remove(filePath);
    if removal == Ok {
      fs.Log(Info(filePath));
    } else if removal.error.FileNotFound? {
      fs.Log(Warning(filePath));
    } else {
      fs.Log(ErrorLog(removal.error));
    }
    assert Replay(files0, [Removed(filePath)]) == Apply(files0, Removed(filePath)) by {
      assert [Removed(filePath)][..0] == [];
    }
    ReplayAppend(files0, [Removed(filePath)], Logged(Info(filePath)));
    assert Replay(files0, [Logged(Warning(filePath))]) == files0 by {
      assert [Logged(Warning(filePath))][..0] == [];
    }
    if removal.Raised? {
      assert Replay(files0, [Logged(ErrorLog(removal.error))]) == files0 by {
        assert [Logged(ErrorLog(removal.error))][..0] == [];
      }
    }
    propagated := body;
  }

  /** `split_video(path_to_video, path_to_subtitles)`, with the subtitle list
      passed in already loaded. */
  method SplitVideo(fs: FileSystem, pathToVideo: string, subtitles: seq<SplitAudio.Subtitle>) returns (outcome: Outcome)
    modifies fs
    ensures var run := Run(old(fs.files), fs.unwritable, fs.unremovable, pathToVideo, subtitles);
            fs.trace == old(fs.trace) + run.0 && fs.files == Replay(old(fs.files), run.0) && outcome == run.1
  {
    ghost var files0, trace0 := fs.files, fs.trace;
    var mp3File := Mp3Path(pathToVideo);
    var body: Outcome;
    ghost var bodyEvents: seq<Event> := [];
    if pathToVideo !in fs.files {
      body := Raised(FileNotFound(pathToVideo));
    } else {
      body := fs.Write(mp3File, ExtractedAudio(pathToVideo));
      if body == Ok {
        ghost var exported := Wrote(mp3File, ExtractedAudio(pathToVideo));
        assert fs.files == Apply(files0, exported);
        assert Replay(files0, [exported]) == fs.files by {
          assert [exported][..0] == [];
        }
        var clip;
        clip, body := SplitAudio.SplitAudio(fs, mp3File, subtitles);
        ghost var split := SplitAudio.Run(Apply(files0, exported), fs.unwritable, mp3File, subtitles);
        ReplayConcat(files0, [exported], split.0);
        bodyEvents := [exported] + split.0;
      }
    }
    assert fs.trace == trace0 + bodyEvents;
    assert fs.files == Replay(files0, bodyEvents);
    assert (bodyEvents, body) == ScopeBody(files0, fs.unwritable, pathToVideo, subtitles);
    outcome := EnsureFileRemovalExit(fs, mp3File, body);
    ReplayConcat(files0, bodyEvents, CleanupEvents(mp3File, RemoveResult(Replay(files0, bodyEvents), fs.unremovable, mp3File)));
  }

  // ---------------------------------------------------------------------
  // Path derivation

  /** `remove_file_extension` returns its argument unchanged exactly when the
      name has no extension. */
  lemma RemoveFileExtensionKeepsNamesWithoutExtension(filename: string)
    ensures RemoveFileExtension(filename) == filename <==> !HasExtension(filename)
  {
    SplitExtFindsExtension(filename);
  }

  /** The audio path is the video path with its extension replaced by ".mp3";
      once there, `splitext` sees ".mp3" as the extension and the same root,
      unless the root's last component is empty or only dots. */
  lemma Mp3PathReplacesExtension(pathToVideo: string)
    ensures Mp3Path(pathToVideo) == SplitExt(pathToVideo).0 + ".mp3"
    ensures !AllChar(Basename(SplitExt(pathToVideo).0), ExtSep) ==>
              SplitExt(Mp3Path(pathToVideo)) == (SplitExt(pathToVideo).0, ".mp3")
  {
    var root := SplitExt(pathToVideo).0;
    if !AllChar(Basename(root), ExtSep) {
      SplitExtOfAddedExtension(root, ".mp3");
    }
  }

  /** A video path whose extension is already ".mp3" names the audio file
      itself, so the export overwrites the input and the cleanup removes it. */
  lemma Mp3PathOfMp3Input(pathToVideo: string)
    requires SplitExt(pathToVideo).1 == ".mp3"
    ensures Mp3Path(pathToVideo) == pathToVideo
  {
  }

  // ---------------------------------------------------------------------
  // The cleanup scope

  /** Removal is attempted on every exit: the run always ends with the log
      record of the cleanup, whether the body returned or raised. */
  lemma CleanupEndsEveryRun(files: Files, unwritable: set<string>, unremovable: set<string>,
                            pathToVideo: string, subtitles: seq<SplitAudio.Subtitle>)
    ensures var run := Run(files, unwritable, unremovable, pathToVideo, subtitles);
            var mp3 := Mp3Path(pathToVideo);
            && |run.0| > 0
            && run.0[|run.0| - 1] in {Logged(Info(mp3)), Logged(Warning(mp3)), Logged(ErrorLog(OsError(mp3)))}
  {
  }

  /** After the run the temporary audio file is gone, unless the file system
      refused to remove it. */
  lemma TemporaryAudioRemoved(files: Files, unwritable: set<string>, unremovable: set<string>,
                              pathToVideo: string, subtitles: seq<SplitAudio.Subtitle>)
    ensures var run := Run(files, unwritable, unremovable, pathToVideo, subtitles);
            var mp3 := Mp3Path(pathToVideo);
            mp3 in Replay(files, run.0) ==> mp3 in unremovable
  {
    var body := ScopeBody(files, unwritable, pathToVideo, subtitles);
    var mp3 := Mp3Path(pathToVideo);
    var left := Replay(files, body.0);
    var removal := RemoveResult(left, unremovable, mp3);
    var cleanup := CleanupEvents(mp3, removal);
    ReplayConcat(files, body.0, cleanup);
    if removal == Ok {
      ReplayAppend(left, [Removed(mp3)], Logged(Info(mp3)));
      assert [Removed(mp3)][..0] == [];
    } else {
      assert cleanup[..0] == [];
    }
  }

  /** Cleanup never replaces the scope's outcome: whatever removals fail, the
      run ends as its body did. */
  lemma CleanupNeverChangesOutcome(files: Files, unwritable: set<string>, unremovable1: set<string>,
                                   unremovable2: set<string>, pathToVideo: string,
                                   subtitles: seq<SplitAudio.Subtitle>)
    ensures Run(files, unwritable, unremovable1, pathToVideo, subtitles).1
         == Run(files, unwritable, unremovable2, pathToVideo, subtitles).1
    ensures Run(files, unwritable, unremovable1, pathToVideo, subtitles).1
         == ScopeBody(files, unwritable, pathToVideo, subtitles).1
  {
  }

  /** An exception from the body still propagates after cleanup: a missing
      video raises `FileNotFoundError` for the video, and a failed export
      raises for the audio path, whatever the removal does. */
  lemma BodyErrorsPropagate(files: Files, unwritable: set<string>, unremovable: set<string>,
                            pathToVideo: string, subtitles: seq<SplitAudio.Subtitle>)
    ensures pathToVideo !in files ==>
              Run(files, unwritable, unremovable, pathToVideo, subtitles).1 == Raised(FileNotFound(pathToVideo))
    ensures pathToVideo in files && Mp3Path(pathToVideo) in unwritable ==>
              Run(files, unwritable, unremovable, pathToVideo, subtitles).1 == Raised(OsError(Mp3Path(pathToVideo)))
  {
  }

  /** Export and splitting both run inside the scope: on a successful run the
      trace is the export, then every segment write of `split_audio`, and only
      then the removal of the audio file and its info record. */
  lemma AudioRemovedAfterSplitting(files: Files, unwritable: set<string>, unremovable: set<string>,
                                   pathToVideo: string, subtitles: seq<SplitAudio.Subtitle>)
    requires Run(files, unwritable, unremovable, pathToVideo, subtitles).1 == Ok
    requires Mp3Path(pathToVideo) !in unremovable
    ensures var mp3 := Mp3Path(pathToVideo);
            var exported := Wrote(mp3, ExtractedAudio(pathToVideo));
            var split := SplitAudio.Run(Apply(files, exported), unwritable, mp3, subtitles);
            && split.1 == Ok
            && |split.0| == |subtitles|
            && Run(files, unwritable, unremovable, pathToVideo, subtitles).0
               == [exported] + split.0 + [Removed(mp3), Logged(Info(mp3))]
  {
    var mp3 := Mp3Path(pathToVideo);
    var exported := Wrote(mp3, ExtractedAudio(pathToVideo));
    var body := ScopeBody(files, unwritable, pathToVideo, subtitles);
    assert pathToVideo in files && mp3 !in unwritable;
    var after := Apply(files, exported);
    assert mp3 in after;
    SplitAudio.RunWritesEachEntryInOrder(after, unwritable, mp3, subtitles);
    var split := SplitAudio.Run(after, unwritable, mp3, subtitles);
    // the audio file is still there when the cleanup runs
    StillPresentAfterWrites(after, split.0, mp3);
    ReplayConcat(files, [exported], split.0);
    assert Replay(files, [exported]) == after by {
      assert [exported][..0] == [];
    }
    assert body.0 == [exported] + split.0;
  }

  /** Writes never take a file away. */
  lemma {:induction false} StillPresentAfterWrites(files: Files, events: seq<Event>, path: string)
    requires path in files
    requires forall i :: 0 <= i < |events| ==> events[i].Wrote?
    ensures path in Replay(files, events)
    decreases |events|
  {
    if events != [] {
      StillPresentAfterWrites(files, events[..|events| - 1], path);
    }
  }
}
