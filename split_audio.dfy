/**
  `split_audio`: open the audio once, cut one clip per subtitle entry from
  `start` to `start + duration`, write it to `segment_NNN.mp3` (NNN the
  1-based position, zero-filled to at least three digits), then close the
  audio. There is no trailing buffer and no clamping to the track length, and
  no `try`/`finally`: a write that raises leaves the audio open.
*/
module SplitAudio {
  import opened Text
  import opened FileSystem

  /** One entry of the subtitle JSON list; `text` is carried but not used here. */
  datatype Subtitle = Subtitle(text: string, start: real, duration: real)

  /** One clip to cut: the file it goes to and its bounds in seconds. */
  datatype Segment = Segment(fileName: string, start: real, end: real)

  const SegmentPrefix: string := "segment_"
  const SegmentExtension: string := ".mp3"
  const IndexWidth: nat := 3

  /** `f'segment_{index+1:03d}.mp3'` */
  function SegmentFileName(index: nat): string {
    SegmentPrefix + ZeroPadded(index + 1, IndexWidth) + SegmentExtension
  }

  function ClipOf(index: nat, subtitle: Subtitle): Segment {
    Segment(SegmentFileName(index), subtitle.start, subtitle.start + subtitle.duration)
  }

  /** The clips the loop cuts, in subtitle order. */
  function Plan(subtitles: seq<Subtitle>): seq<Segment>
    decreases |subtitles|
  {
    if subtitles == [] then []
    else Plan(subtitles[..|subtitles| - 1]) + [ClipOf(|subtitles| - 1, subtitles[|subtitles| - 1])]
  }

  /** The writes the plan asks for, each a subclip of `source`. */
  function ClipWrites(source: string, plan: seq<Segment>): (writes: seq<(string, Content)>)
    ensures |writes| == |plan|
    ensures forall i :: 0 <= i < |plan| ==> writes[i] == (plan[i].fileName, AudioClip(source, plan[i].start, plan[i].end))
  {
    seq(|plan|, i requires 0 <= i < |plan| => (plan[i].fileName, AudioClip(source, plan[i].start, plan[i].end)))
  }

  /** The effects of one `split_audio` call on a file system: nothing when the
      audio file is missing, otherwise the segment writes up to the first one
      that raises. */
  function Run(files: Files, unwritable: set<string>, pathToMp3: string, subtitles: seq<Subtitle>): (seq<Event>, Outcome) {
    if pathToMp3 !in files then ([], Raised(FileNotFound(pathToMp3)))
    else WriteEach(ClipWrites(pathToMp3, Plan(subtitles)), unwritable)
  }

  /** The decoded audio handle (`AudioFileClip`): open from construction until
      `close()`. */
  class AudioFileClip {
    const source: string
    var isOpen: bool
    var closeCount: nat

    constructor (source: string)
      ensures this.source == source && isOpen && closeCount == 0
    {
      this.source := source;
      isOpen := true;
      closeCount := 0;
    }

    /** `subclip(start, end)`: the audio between the two times, unclamped. */
    method Subclip(start: real, end: real) returns (clip: Content)
      requires isOpen
      ensures clip.AudioClip? && clip.source == source
      ensures clip.start == start && clip.end == end
    {
      clip := AudioClip(source, start, end);
    }

    method Close()
      modifies this
      ensures !isOpen && closeCount == old(closeCount) + 1
    {
      isOpen := false;
      closeCount := closeCount + 1;
    }
  }

  /**
    `split_audio(path_to_mp3, subtitles)`. The subtitle list is passed in
    already loaded. On success every entry has been written and the handle is
    closed exactly once; when a write raises, the exception propagates and the
    handle is left open.
  */
  method SplitAudio(fs: FileSystem, pathToMp3: string, subtitles: seq<Subtitle>)
    returns (clip: AudioFileClip?, outcome: Outcome)
    modifies fs
    ensures var run := Run(old(fs.files), fs.unwritable, pathToMp3, subtitles);
            fs.trace == old(fs.trace) + run.0 && fs.files == Replay(old(fs.files), run.0) && outcome == run.1
    ensures clip == null <==> pathToMp3 !in old(fs.files)
    ensures clip != null ==> fresh(clip) && clip.source == pathToMp3
    ensures clip != null ==> clip.isOpen == (outcome != Ok) && clip.closeCount == (if outcome == Ok then 1 else 0)
  {
    if pathToMp3 !in fs.files {
      return null, Raised(FileNotFound(pathToMp3));
    }
    clip := new AudioFileClip(pathToMp3);
    ghost var writes := ClipWrites(pathToMp3, Plan(subtitles));
    ghost var trace0, files0 := fs.trace, fs.files;
    PlanLength(subtitles);
    var index := 0;
    assert WroteAll(writes[..index]) == [];
    while index < |subtitles|
      invariant 0 <= index <= |subtitles|
      invariant clip.isOpen && clip.closeCount == 0
      invariant fs.WroteFirst(writes, index, trace0, files0)
    {
      var subtitle := subtitles[index];
      var startTime := subtitle.start;
      var endTime := startTime + subtitle.duration;
      var audioSegment := clip.Subclip(startTime, endTime);
      var segmentFilename := SegmentFileName(index);
      PlanAt(subtitles, index);
      assert writes[index] == (segmentFilename, audioSegment);
      var written := fs.WriteNext(writes, index, trace0, files0, segmentFilename, audioSegment);
      if written != Ok {
        return clip, written;
      }
      index := index + 1;
    }
    fs.WroteEvery(writes, trace0, files0);
    clip.Close();
    outcome := Ok;
  }

  // ---------------------------------------------------------------------
  // The plan: one clip per entry, in order, with the entry's bounds

  lemma {:induction false} PlanLength(subtitles: seq<Subtitle>)
    ensures |Plan(subtitles)| == |subtitles|
    decreases |subtitles|
  {
    if subtitles != [] {
      PlanLength(subtitles[..|subtitles| - 1]);
    }
  }

  /** Entry `i` becomes clip `i`, named after position `i + 1`, from `start`
      to exactly `start + duration`. */
  lemma {:induction false} PlanAt(subtitles: seq<Subtitle>, i: nat)
    requires i < |subtitles|
    ensures |Plan(subtitles)| == |subtitles|
    ensures Plan(subtitles)[i] == Segment(SegmentFileName(i), subtitles[i].start, subtitles[i].start + subtitles[i].duration)
    decreases |subtitles|
  {
    PlanLength(subtitles);
    var init := subtitles[..|subtitles| - 1];
    PlanLength(init);
    if i < |init| {
      PlanAt(init, i);
      assert subtitles[i] == init[i];
    }
  }

  /** What one call does when the audio opens: entry by entry, in list order,
      one write of a clip named after the entry's position and spanning
      exactly `start` to `start + duration`; all entries when it returns
      normally, and when a write raises, every entry before it and the error
      names the file that could not be written. */
  lemma RunWritesEachEntryInOrder(files: Files, unwritable: set<string>, pathToMp3: string, subtitles: seq<Subtitle>)
    requires pathToMp3 in files
    ensures var run := Run(files, unwritable, pathToMp3, subtitles);
            var k := |run.0|;
            && k <= |subtitles|
            && (forall i :: 0 <= i < k ==>
                  run.0[i] == Wrote(SegmentFileName(i),
                                    AudioClip(pathToMp3, subtitles[i].start, subtitles[i].start + subtitles[i].duration)))
            && (run.1 == Ok <==> k == |subtitles|)
            && (run.1 != Ok ==> run.1 == Raised(OsError(SegmentFileName(k))) && SegmentFileName(k) in unwritable)
  {
    var writes := ClipWrites(pathToMp3, Plan(subtitles));
    var run := Run(files, unwritable, pathToMp3, subtitles);
    PlanLength(subtitles);
    WriteEachStopsAtFirstFailure(writes, unwritable);
    var k := FirstUnwritable(writes, unwritable);
    assert run.0 == WroteAll(writes[..k]);
    forall i | 0 <= i < k
      ensures run.0[i] == Wrote(SegmentFileName(i),
                                AudioClip(pathToMp3, subtitles[i].start, subtitles[i].start + subtitles[i].duration))
    {
      PlanAt(subtitles, i);
      assert run.0[i] == Wrote(writes[i].0, writes[i].1);
    }
    if k < |subtitles| {
      PlanAt(subtitles, k);
    }
  }

  // ---------------------------------------------------------------------
  // Segment names

  lemma SegmentFileNameShape(index: nat)
    ensures var digits := ZeroPadded(index + 1, IndexWidth);
            SegmentFileName(index) == SegmentPrefix + (digits + SegmentExtension)
  {
  }

  /** What a name says: between "segment_" and ".mp3" stand at least three
      decimal digits denoting the 1-based position, with a leading '0' only
      as filling up to three digits. */
  lemma SegmentFileNameMeaning(index: nat)
    ensures var name := SegmentFileName(index);
            && |name| >= 15
            && StartsWith(name, SegmentPrefix) && EndsWith(name, SegmentExtension)
            && var d := name[|SegmentPrefix|..|name| - |SegmentExtension|];
               && AllDigits(d) && DecimalValue(d) == index + 1
               && |d| >= IndexWidth
               && (|d| > IndexWidth ==> d[0] != '0')
  {
    var name := SegmentFileName(index);
    var digits := ZeroPadded(index + 1, IndexWidth);
    assert name[|SegmentPrefix|..|name| - |SegmentExtension|] == digits;
    ZeroPaddedValue(index + 1, IndexWidth);
    if |Decimal(index + 1)| < IndexWidth {
      assert |digits| == IndexWidth;
    } else {
      assert digits == Decimal(index + 1);
    }
    assert name[..|SegmentPrefix|] == SegmentPrefix;
    assert name[|name| - |SegmentExtension|..] == SegmentExtension;
  }

  /** Different positions never share a file name, however long the list. */
  lemma SegmentFileNamesDistinct(i: nat, j: nat)
    requires i != j
    ensures SegmentFileName(i) != SegmentFileName(j)
  {
    var di, dj := ZeroPadded(i + 1, IndexWidth), ZeroPadded(j + 1, IndexWidth);
    var ni, nj := SegmentFileName(i), SegmentFileName(j);
    if ni == nj {
      assert |di| == |dj|;
      assert ni[8..8 + |di|] == di;
      assert nj[8..8 + |dj|] == dj;
      ZeroPaddedInjective(i + 1, j + 1, IndexWidth);
    }
  }

  /** Up to the 999th entry every name is 15 characters long. */
  lemma SegmentFileNameLength(index: nat)
    requires index < 999
    ensures |SegmentFileName(index)| == 15
  {
    ZeroPadded3Digits(index + 1);
  }

  /** Up to the 999th entry, sorting the names as strings puts them in
      subtitle order, and only then. */
  lemma SegmentFileNamesSortInOrder(i: nat, j: nat)
    requires i < 999 && j < 999
    ensures LexLess(SegmentFileName(i), SegmentFileName(j)) <==> i < j
  {
    if i < j {
      NamesBelowLimitAscend(i, j);
    } else if i == j {
      LexLessIrreflexive(SegmentFileName(i));
    } else {
      NamesBelowLimitAscend(j, i);
      LexLessAsymmetric(SegmentFileName(j), SegmentFileName(i));
    }
  }

  lemma NamesBelowLimitAscend(i: nat, j: nat)
    requires i < j < 999
    ensures LexLess(SegmentFileName(i), SegmentFileName(j))
  {
    var di, dj := ZeroPadded(i + 1, IndexWidth), ZeroPadded(j + 1, IndexWidth);
    ZeroPadded3Digits(i + 1);
    ZeroPadded3Digits(j + 1);
    ZeroPadded3Order(i + 1, j + 1);
    LexLessAppend(di, dj, SegmentExtension, SegmentExtension);
    LexLessCommonPrefix(SegmentPrefix, di + SegmentExtension, dj + SegmentExtension);
    SegmentFileNameShape(i);
    SegmentFileNameShape(j);
  }

  /** From the 1000th entry the number takes four or more digits, so the
      name grows longer than 15 characters ... */
  lemma SegmentFileNameWidensPastLimit(index: nat)
    requires index >= 999
    ensures |SegmentFileName(index)| >= 16
  {
    DecimalLengthFrom1000(index + 1);
  }

  /** ... and string order no longer follows subtitle order:
      "segment_1000.mp3" sorts before "segment_999.mp3". */
  lemma SegmentFileNamesMisorderPastLimit()
    ensures SegmentFileName(999) == "segment_1000.mp3"
    ensures SegmentFileName(998) == "segment_999.mp3"
    ensures LexLess(SegmentFileName(999), SegmentFileName(998))
  {
    PaddedThousand();
    PaddedNineHundredNinetyNine();
    SegmentFileNameShape(999);
    SegmentFileNameShape(998);
    var wide, narrow := "1000" + SegmentExtension, "999" + SegmentExtension;
    assert LexLess(wide, narrow) by {
      assert wide[0] == '1' && narrow[0] == '9';
    }
    LexLessCommonPrefix(SegmentPrefix, wide, narrow);
  }

  lemma PaddedThousand()
    ensures ZeroPadded(1000, IndexWidth) == "1000"
  {
    assert Decimal(10) == Decimal(1) + ['0'];
    assert Decimal(100) == Decimal(10) + ['0'];
    assert Decimal(1000) == Decimal(100) + ['0'];
  }

  lemma PaddedNineHundredNinetyNine()
    ensures ZeroPadded(999, IndexWidth) == "999"
  {
    assert Decimal(99) == Decimal(9) + ['9'];
    assert Decimal(999) == Decimal(99) + ['9'];
  }

  /** For a list of at most 999 entries the written names are pairwise
      distinct, all 15 characters long, and already in string order. */
  lemma PlanNamesSortable(subtitles: seq<Subtitle>)
    requires |subtitles| <= 999
    ensures var plan := Plan(subtitles);
            && |plan| == |subtitles|
            && (forall i :: 0 <= i < |plan| ==> |plan[i].fileName| == 15)
            && (forall i, j :: 0 <= i < j < |plan| ==> LexLess(plan[i].fileName, plan[j].fileName))
  {
    var plan := Plan(subtitles);
    PlanLength(subtitles);
    forall i | 0 <= i < |plan| ensures |plan[i].fileName| == 15 {
      PlanAt(subtitles, i);
      SegmentFileNameLength(i);
    }
    forall i, j | 0 <= i < j < |plan| ensures LexLess(plan[i].fileName, plan[j].fileName) {
      PlanAt(subtitles, i);
      PlanAt(subtitles, j);
      NamesBelowLimitAscend(i, j);
    }
  }

  /** For any length the plan writes each file name once. */
  lemma PlanNamesDistinct(subtitles: seq<Subtitle>)
    ensures var plan := Plan(subtitles);
            forall i, j :: 0 <= i < j < |plan| ==> plan[i].fileName != plan[j].fileName
  {
    var plan := Plan(subtitles);
    PlanLength(subtitles);
    forall i, j | 0 <= i < j < |plan| ensures plan[i].fileName != plan[j].fileName {
      PlanAt(subtitles, i);
      PlanAt(subtitles, j);
      SegmentFileNamesDistinct(i, j);
    }
  }
}
