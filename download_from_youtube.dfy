/**
  The naming logic of `download_from_youtube`: picking the video id out of
  the parsed query string, stripping ".mp4" from the video's file name, and
  naming one JSON file per transcript, with ", gen" for generated ones. The
  YouTube calls themselves (stream download, transcript listing and fetching)
  are inputs here: the video's file name and the transcripts arrive as
  parameters.
*/
module DownloadFromYoutube {
  import opened Text
  import opened PosixPath
  import opened FileSystem

  datatype Option<T> = None | Some(value: T)

  // ---------------------------------------------------------------------
  // get_youtube_video_id

  /** The query string as `parse_qs` has split and decoded it: its
      name/value pairs, in the order they appear. */
  type QueryPairs = seq<(string, string)>

  /** The values bound to `name`, in query order. */
  function ValuesOf(pairs: QueryPairs, name: string): seq<string>
    decreases |pairs|
  {
    if pairs == [] then []
    else (if pairs[0].0 == name then [pairs[0].1] else []) + ValuesOf(pairs[1..], name)
  }

  /** The dictionary `parse_qs` returns: each name maps to the list of its
      values, a name first seen creating its list and later ones appending. */
  function QueryDict(pairs: QueryPairs): (dict: map<string, seq<string>>)
    ensures forall name :: name in dict ==> |dict[name]| > 0
    decreases |pairs|
  {
    if pairs == [] then map[]
    else
      var dict := QueryDict(pairs[..|pairs| - 1]);
      var (name, value) := pairs[|pairs| - 1];
      if name in dict then dict[name := dict[name] + [value]] else dict[name := [value]]
  }

  /** `query_params['v'][0] if 'v' in query_params else None` */
  function GetYoutubeVideoId(pairs: QueryPairs): Option<string> {
    var dict := QueryDict(pairs);
    if "v" in dict then Some(dict["v"][0]) else None
  }

  /** Reference definition: the value of the first pair named `name`. */
  function FirstValue(pairs: QueryPairs, name: string): Option<string>
    decreases |pairs|
  {
    if pairs == [] then None
    else if pairs[0].0 == name then Some(pairs[0].1)
    else FirstValue(pairs[1..], name)
  }

  lemma {:induction false} ValuesOfAppend(pairs: QueryPairs, last: (string, string), name: string)
    ensures ValuesOf(pairs + [last], name) == ValuesOf(pairs, name) + (if last.0 == name then [last.1] else [])
    decreases |pairs|
  {
    if pairs == [] {
      assert ([] + [last])[1..] == [];
    } else {
      assert (pairs + [last])[1..] == pairs[1..] + [last];
      ValuesOfAppend(pairs[1..], last, name);
    }
  }

  /** `parse_qs` groups the values of each name, in order, and has a key
      exactly for the names that occur. */
  lemma {:induction false} QueryDictGroupsValues(pairs: QueryPairs, name: string)
    ensures name in QueryDict(pairs) <==> ValuesOf(pairs, name) != []
    ensures name in QueryDict(pairs) ==> QueryDict(pairs)[name] == ValuesOf(pairs, name)
    decreases |pairs|
  {
    if pairs != [] {
      var init := pairs[..|pairs| - 1];
      var last := pairs[|pairs| - 1];
      QueryDictGroupsValues(init, name);
      assert pairs == init + [last];
      ValuesOfAppend(init, last, name);
    }
  }

  lemma {:induction false} FirstValueIsFirstOfValues(pairs: QueryPairs, name: string)
    ensures FirstValue(pairs, name) == if ValuesOf(pairs, name) == [] then None else Some(ValuesOf(pairs, name)[0])
    decreases |pairs|
  {
    if pairs != [] && pairs[0].0 != name {
      FirstValueIsFirstOfValues(pairs[1..], name);
    }
  }

  /** The video id is the first value bound to "v", and there is none
      exactly when no pair is named "v". */
  lemma VideoIdIsFirstV(pairs: QueryPairs)
    ensures GetYoutubeVideoId(pairs) == FirstValue(pairs, "v")
    ensures GetYoutubeVideoId(pairs) == None <==> forall i :: 0 <= i < |pairs| ==> pairs[i].0 != "v"
  {
    QueryDictGroupsValues(pairs, "v");
    FirstValueIsFirstOfValues(pairs, "v");
    NoValuesIffNameAbsent(pairs, "v");
  }

  lemma {:induction false} NoValuesIffNameAbsent(pairs: QueryPairs, name: string)
    ensures ValuesOf(pairs, name) == [] <==> forall i :: 0 <= i < |pairs| ==> pairs[i].0 != name
    decreases |pairs|
  {
    if pairs != [] {
      NoValuesIffNameAbsent(pairs[1..], name);
      assert forall i :: 1 <= i < |pairs| ==> pairs[i] == pairs[1..][i - 1];
    }
  }

  // ---------------------------------------------------------------------
  // remove_mp4_suffix

  const Mp4Suffix: string := ".mp4"

  /** `remove_mp4_suffix`: drop one trailing ".mp4" if there is one. */
  function RemoveMp4Suffix(fileName: string): (r: string)
    ensures EndsWith(fileName, Mp4Suffix) ==> r + Mp4Suffix == fileName
    ensures !EndsWith(fileName, Mp4Suffix) ==> r == fileName
  {
    if EndsWith(fileName, Mp4Suffix) then fileName[..|fileName| - 4] else fileName
  }

  /** Stripping twice strips again exactly when the once-stripped name still
      ends in ".mp4": the function is not idempotent in general. */
  lemma RemoveMp4SuffixTwice(fileName: string)
    ensures RemoveMp4Suffix(RemoveMp4Suffix(fileName)) == RemoveMp4Suffix(fileName)
            <==> !EndsWith(RemoveMp4Suffix(fileName), Mp4Suffix)
  {
  }

  /** Only one suffix goes: "a.mp4.mp4" becomes "a.mp4", and "a" only on a
      second call. */
  lemma RemoveMp4SuffixStripsOnce()
    ensures RemoveMp4Suffix("a.mp4.mp4") == "a.mp4"
    ensures RemoveMp4Suffix(RemoveMp4Suffix("a.mp4.mp4")) == "a"
  {
    assert EndsWith("a.mp4.mp4", Mp4Suffix);
    assert EndsWith("a.mp4", Mp4Suffix);
  }

  // ---------------------------------------------------------------------
  // download_subtitles

  /** One transcript the API lists: its language, whether it was generated,
      and the JSON the formatter produced from its fetched lines. */
  datatype Transcript = Transcript(languageCode: string, isGenerated: bool, json: string)

  /** `f'{name} ({code}).json'`, or `f'{name} ({code}, gen).json'` for a
      generated transcript. */
  function TranscriptFileName(youtubeVideoName: string, languageCode: string, isGenerated: bool): string {
    if isGenerated then youtubeVideoName + " (" + languageCode + ", gen).json"
    else youtubeVideoName + " (" + languageCode + ").json"
  }

  /** Both kinds of name end in ".json", and for one video and language the
      generated and the manual name differ. */
  lemma TranscriptFileNamesDiffer(youtubeVideoName: string, languageCode: string)
    ensures EndsWith(TranscriptFileName(youtubeVideoName, languageCode, true), ".json")
    ensures EndsWith(TranscriptFileName(youtubeVideoName, languageCode, false), ".json")
    ensures TranscriptFileName(youtubeVideoName, languageCode, true)
         != TranscriptFileName(youtubeVideoName, languageCode, false)
  {
    assert |TranscriptFileName(youtubeVideoName, languageCode, true)|
        == |TranscriptFileName(youtubeVideoName, languageCode, false)| + 5;
  }

  lemma GeneratedSuffixNeverManual(generated: string, manual: string)
    requires ',' !in manual
    ensures generated + ", gen).json" != manual + ").json"
  {
    var g := generated + ", gen).json";
    var m := manual + ").json";
    if |g| == |m| {
      assert g[|generated|] == ',';
      assert m[|generated|] == manual[|generated|];
    }
  }

  /** For language codes without a ',' the name determines both the language
      and whether the transcript was generated, so distinct transcripts of one
      video never share a file. */
  lemma TranscriptFileNameInjective(youtubeVideoName: string, code1: string, generated1: bool,
                                    code2: string, generated2: bool)
    requires ',' !in code1 && ',' !in code2
    requires TranscriptFileName(youtubeVideoName, code1, generated1)
          == TranscriptFileName(youtubeVideoName, code2, generated2)
    ensures code1 == code2 && generated1 == generated2
  {
    var prefix := youtubeVideoName + " (";
    var n1 := TranscriptFileName(youtubeVideoName, code1, generated1);
    var s1 := if generated1 then ", gen).json" else ").json";
    var s2 := if generated2 then ", gen).json" else ").json";
    assert n1 == prefix + (code1 + s1);
    assert n1 == prefix + (code2 + s2);
    var r := n1[|prefix|..];
    assert r == code1 + s1 && r == code2 + s2;
    if generated1 == generated2 {
      assert |code1| == |code2|;
      assert code1 == r[..|code1|] == code2;
    } else if generated1 {
      GeneratedSuffixNeverManual(code1, code2);
    } else {
      GeneratedSuffixNeverManual(code2, code1);
    }
  }

  /** The loop body's naming step, which starts from the manual name and
      replaces it for a generated transcript. */
  method NameTranscriptFile(youtubeVideoName: string, transcript: Transcript) returns (fileName: string)
    ensures fileName == TranscriptFileName(youtubeVideoName, transcript.languageCode, transcript.isGenerated)
  {
    fileName := youtubeVideoName + " (" + transcript.languageCode + ").json";
    if transcript.isGenerated {
      fileName := youtubeVideoName + " (" + transcript.languageCode + ", gen).json";
    }
  }

  /** The file each transcript goes to: `os.path.join(path, file_name)`. */
  function TranscriptPath(path: string, youtubeVideoName: string, transcript: Transcript): string {
    Join(path, TranscriptFileName(youtubeVideoName, transcript.languageCode, transcript.isGenerated))
  }

  /** The writes `download_subtitles` attempts, one per transcript, in order. */
  function TranscriptWrites(path: string, youtubeVideoName: string, transcripts: seq<Transcript>): (writes: seq<(string, Content)>)
    ensures |writes| == |transcripts|
    decreases |transcripts|
  {
    if transcripts == [] then []
    else [(TranscriptPath(path, youtubeVideoName, transcripts[0]), TranscriptJson(transcripts[0].json))]
         + TranscriptWrites(path, youtubeVideoName, transcripts[1..])
  }

  lemma {:induction false} TranscriptWriteAt(path: string, youtubeVideoName: string, transcripts: seq<Transcript>, i: nat)
    requires i < |transcripts|
    ensures TranscriptWrites(path, youtubeVideoName, transcripts)[i]
         == (TranscriptPath(path, youtubeVideoName, transcripts[i]), TranscriptJson(transcripts[i].json))
    decreases i
  {
    var writes := TranscriptWrites(path, youtubeVideoName, transcripts);
    var rest := TranscriptWrites(path, youtubeVideoName, transcripts[1..]);
    assert writes == [(TranscriptPath(path, youtubeVideoName, transcripts[0]), TranscriptJson(transcripts[0].json))] + rest;
    if i > 0 {
      TranscriptWriteAt(path, youtubeVideoName, transcripts[1..], i - 1);
      assert transcripts[1..][i - 1] == transcripts[i];
      assert writes[i] == rest[i - 1];
    }
  }

  /**
    The loop of `download_subtitles(video_url, path)`: `videoName` is what
    `get_video_name` returned and `transcripts` what `list_transcripts`
    listed for the video id. One file is written per transcript, in list
    order, until a write raises.
  */
  method DownloadSubtitles(fs: FileSystem, path: string, videoName: string, transcripts: seq<Transcript>)
    returns (outcome: Outcome)
    modifies fs
    ensures var run := WriteEach(TranscriptWrites(path, RemoveMp4Suffix(videoName), transcripts), fs.unwritable);
            fs.trace == old(fs.trace) + run.0 && fs.files == Replay(old(fs.files), run.0) && outcome == run.1
  {
    ghost var writes := TranscriptWrites(path, RemoveMp4Suffix(videoName), transcripts);
    ghost var trace0, files0 := fs.trace, fs.files;
    var i := 0;
    assert WroteAll(writes[..i]) == [];
    while i < |transcripts|
      invariant 0 <= i <= |transcripts|
      invariant fs.WroteFirst(writes, i, trace0, files0)
    {
      var transcript := transcripts[i];
      var youtubeVideoName := RemoveMp4Suffix(videoName);
      var fileName := NameTranscriptFile(youtubeVideoName, transcript);
      var filePath := Join(path, fileName);
      TranscriptWriteAt(path, youtubeVideoName, transcripts, i);
      var result := fs.WriteNext(writes, i, trace0, files0, filePath, TranscriptJson(transcript.json));
      if result != Ok {
        return result;
      }
      i := i + 1;
    }
    fs.WroteEvery(writes, trace0, files0);
    outcome := Ok;
  }

  /** Each transcript is written once, in list order, to its own name under
      `path`, until the first path that cannot be written. */
  lemma SubtitlesWrittenInOrder(fs: set<string>, path: string, videoName: string, transcripts: seq<Transcript>)
    ensures var run := WriteEach(TranscriptWrites(path, RemoveMp4Suffix(videoName), transcripts), fs);
            var k := |run.0|;
            && k <= |transcripts|
            && (forall i :: 0 <= i < k ==>
                  run.0[i] == Wrote(TranscriptPath(path, RemoveMp4Suffix(videoName), transcripts[i]), TranscriptJson(transcripts[i].json)))
            && (run.1 == Ok <==> k == |transcripts|)
            && (run.1 != Ok ==> run.1 == Raised(OsError(TranscriptPath(path, RemoveMp4Suffix(videoName), transcripts[k]))))
  {
    var writes := TranscriptWrites(path, RemoveMp4Suffix(videoName), transcripts);
    WriteEachStopsAtFirstFailure(writes, fs);
    assert |WroteAll(writes[..FirstUnwritable(writes, fs)])| == FirstUnwritable(writes, fs);
  }
}
