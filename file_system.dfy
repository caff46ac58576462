/**
  The file system and log as the scripts see them. Files hold an abstract
  description of their content (audio decoding and encoding are not modelled);
  every successful write, every removal and every log record is appended to
  one trace, so the order of effects across a run can be stated. Which writes
  and which removals fail is fixed when the file system is created.
*/
module FileSystem {

  /** What a file holds. */
  datatype Content =
    | Existing                                            // present before the run
    | AudioClip(source: string, start: real, end: real)   // a subclip written by `write_audiofile`
    | ExtractedAudio(video: string)                       // the audio track exported from a video
    | TranscriptJson(json: string)                        // a formatted transcript

  /** The exceptions the scripts can meet: `FileNotFoundError` and any other `OSError`. */
  datatype Error = FileNotFound(path: string) | OsError(path: string)

  /** How a step ends: normally, or by raising. */
  datatype Outcome = Ok | Raised(error: Error)

  /** A `logging.info`, `logging.warning` or `logging.error` record. */
  datatype LogRecord = Info(path: string) | Warning(path: string) | ErrorLog(error: Error)

  datatype Event =
    | Wrote(path: string, content: Content)
    | Removed(path: string)
    | Logged(record: LogRecord)

  type Files = map<string, Content>

  /** The file map after one event. */
  function Apply(files: Files, e: Event): Files {
    match e
    case Wrote(p, c) => files[p := c]
    case Removed(p) => files - {p}
    case Logged(_) => files
  }

  /** The file map after a sequence of events. */
  function Replay(files: Files, events: seq<Event>): Files
    decreases |events|
  {
    if events == [] then files else Apply(Replay(files, events[..|events| - 1]), events[|events| - 1])
  }

  /** What `open(path, 'w')` does with a path: fail when it is unwritable. */
  function WriteResult(unwritable: set<string>, path: string): Outcome {
    if path in unwritable then Raised(OsError(path)) else Ok
  }

  /** What `os.remove(path)` does: `FileNotFoundError` for a missing file,
      another `OSError` for a file that cannot be removed. */
  function RemoveResult(files: Files, unremovable: set<string>, path: string): Outcome {
    if path !in files then Raised(FileNotFound(path))
    else if path in unremovable then Raised(OsError(path))
    else Ok
  }

  function WroteAll(writes: seq<(string, Content)>): (events: seq<Event>)
    ensures |events| == |writes|
    ensures forall i :: 0 <= i < |writes| ==> events[i] == Wrote(writes[i].0, writes[i].1)
  {
    seq(|writes|, i requires 0 <= i < |writes| => Wrote(writes[i].0, writes[i].1))
  }

  /** Writing files one after the other, stopping at the first write that
      raises: the outcome and the events of the writes that succeeded. */
  function WriteEach(writes: seq<(string, Content)>, unwritable: set<string>): (seq<Event>, Outcome)
    decreases |writes|
  {
    if writes == [] then ([], Ok)
    else if writes[0].0 in unwritable then ([], Raised(OsError(writes[0].0)))
    else
      var rest := WriteEach(writes[1..], unwritable);
      ([Wrote(writes[0].0, writes[0].1)] + rest.0, rest.1)
  }

  /** Index of the first write whose path is unwritable, or the number of writes. */
  function FirstUnwritable(writes: seq<(string, Content)>, unwritable: set<string>): (k: nat)
    ensures k <= |writes|
    ensures forall j :: 0 <= j < k ==> writes[j].0 !in unwritable
    ensures k < |writes| ==> writes[k].0 in unwritable
    decreases |writes|
  {
    if writes == [] || writes[0].0 in unwritable then 0
    else 1 + FirstUnwritable(writes[1..], unwritable)
  }

  /** `WriteEach` performs exactly the writes before the first unwritable path
      and raises for that path, if there is one. */
  lemma {:induction false} WriteEachStopsAtFirstFailure(writes: seq<(string, Content)>, unwritable: set<string>)
    ensures var k := FirstUnwritable(writes, unwritable);
            WriteEach(writes, unwritable)
            == (WroteAll(writes[..k]), if k == |writes| then Ok else Raised(OsError(writes[k].0)))
    decreases |writes|
  {
    if writes != [] && writes[0].0 !in unwritable {
      WriteEachStopsAtFirstFailure(writes[1..], unwritable);
      var k := FirstUnwritable(writes, unwritable);
      assert writes[..k] == [writes[0]] + writes[1..][..k - 1];
      assert WroteAll(writes[..k]) == [Wrote(writes[0].0, writes[0].1)] + WroteAll(writes[1..][..k - 1]);
      assert k < |writes| ==> writes[k] == writes[1..][k - 1];
    }
  }

  /** A loop that wrote `writes[..k]` and stopped at `k` because it ran out of
      writes or met an unwritable path has done what `WriteEach` does. */
  lemma WriteEachStopsAt(writes: seq<(string, Content)>, unwritable: set<string>, k: nat)
    requires k <= |writes|
    requires forall j :: 0 <= j < k ==> writes[j].0 !in unwritable
    requires k < |writes| ==> writes[k].0 in unwritable
    ensures WriteEach(writes, unwritable)
            == (WroteAll(writes[..k]), if k == |writes| then Ok else Raised(OsError(writes[k].0)))
  {
    WriteEachStopsAtFirstFailure(writes, unwritable);
  }

  lemma ReplayAppend(files: Files, events: seq<Event>, e: Event)
    ensures Replay(files, events + [e]) == Apply(Replay(files, events), e)
  {
    assert (events + [e])[..|events|] == events;
  }

  /** Replaying two stretches of events one after the other. */
  lemma {:induction false} ReplayConcat(files: Files, a: seq<Event>, b: seq<Event>)
    ensures Replay(files, a + b) == Replay(Replay(files, a), b)
    decreases |b|
  {
    if b == [] {
      assert a + b == a;
    } else {
      var init := b[..|b| - 1];
      assert a + b == (a + init) + [b[|b| - 1]];
      ReplayAppend(files, a + init, b[|b| - 1]);
      ReplayConcat(files, a, init);
      assert b == init + [b[|b| - 1]];
      ReplayAppend(Replay(files, a), init, b[|b| - 1]);
    }
  }

  /** One more successful write in a loop over `writes`. */
  lemma WroteAllAppend(files: Files, writes: seq<(string, Content)>, i: nat)
    requires i < |writes|
    ensures WroteAll(writes[..i + 1]) == WroteAll(writes[..i]) + [Wrote(writes[i].0, writes[i].1)]
    ensures Replay(files, WroteAll(writes[..i + 1])) == Replay(files, WroteAll(writes[..i]))[writes[i].0 := writes[i].1]
  {
    assert WroteAll(writes[..i + 1]) == WroteAll(writes[..i]) + [Wrote(writes[i].0, writes[i].1)];
    ReplayAppend(files, WroteAll(writes[..i]), Wrote(writes[i].0, writes[i].1));
  }

  /**
    The file system. `files` is what exists now; `trace` is every effect so
    far, oldest first. The failure sets stand for the disk, permissions and
    codec errors the scripts cannot see coming.
  */
  class FileSystem {
    var files: Files
    var trace: seq<Event>
    const unwritable: set<string>
    const unremovable: set<string>

    constructor (files: Files, unwritable: set<string>, unremovable: set<string>)
      ensures this.files == files && trace == []
      ensures this.unwritable == unwritable && this.unremovable == unremovable
    {
      this.files := files;
      this.trace := [];
      this.unwritable := unwritable;
      this.unremovable := unremovable;
    }

    /** Create or overwrite `path`. */
    method Write(path: string, content: Content) returns (outcome: Outcome)
      modifies this
      ensures outcome == WriteResult(unwritable, path)
      ensures outcome == Ok ==> trace == old(trace) + [Wrote(path, content)] && files == old(files)[path := content]
      ensures outcome != Ok ==> trace == old(trace) && files == old(files)
    {
      outcome := WriteResult(unwritable, path);
      if outcome == Ok {
        files := files[path := content];
        trace := trace + [Wrote(path, content)];
      }
    }

    /** `os.remove(path)`. */
    method Remove(path: string) returns (outcome: Outcome)
      modifies this
      ensures outcome == RemoveResult(old(files), unremovable, path)
      ensures outcome == Ok ==> trace == old(trace) + [Removed(path)] && files == old(files) - {path}
      ensures outcome != Ok ==> trace == old(trace) && files == old(files)
    {
      outcome := RemoveResult(files, unremovable, path);
      if outcome == Ok {
        files := files - {path};
        trace := trace + [Removed(path)];
      }
    }

    /** A loop performing `writes` in order, stopping at the first that
        raises, has completed `done` of them since the trace was `trace0`
        and the files were `files0`. */
    ghost predicate WroteFirst(writes: seq<(string, Content)>, done: nat, trace0: seq<Event>, files0: Files)
      reads this
    {
      && done <= |writes|
      && (forall j :: 0 <= j < done ==> writes[j].0 !in unwritable)
      && trace == trace0 + WroteAll(writes[..done])
      && files == Replay(files0, WroteAll(writes[..done]))
    }

    /** `Write` as the next step of such a loop: success extends the loop's
        progress by one write, and failure ends it where `WriteEach` ends. */
    method WriteNext(ghost writes: seq<(string, Content)>, ghost done: nat, ghost trace0: seq<Event>, ghost files0: Files,
                     path: string, content: Content)
      returns (outcome: Outcome)
      requires WroteFirst(writes, done, trace0, files0)
      requires done < |writes| && writes[done] == (path, content)
      modifies this
      ensures outcome == WriteResult(unwritable, path)
      ensures outcome == Ok ==> WroteFirst(writes, done + 1, trace0, files0)
      ensures outcome != Ok ==>
                var run := WriteEach(writes, unwritable);
                trace == trace0 + run.0 && files == Replay(files0, run.0) && outcome == run.1
    {
      outcome := Write(path, content);
      if outcome != Ok {
        WriteEachStopsAt(writes, unwritable, done);
      } else {
        WroteAllAppend(files0, writes, done);
      }
    }

    /** A loop that completed every write has done what `WriteEach` does. */
    lemma WroteEvery(writes: seq<(string, Content)>, trace0: seq<Event>, files0: Files)
      requires WroteFirst(writes, |writes|, trace0, files0)
      ensures var run := WriteEach(writes, unwritable);
              trace == trace0 + run.0 && files == Replay(files0, run.0) && run.1 == Ok
    {
      WriteEachStopsAt(writes, unwritable, |writes|);
      assert writes[..|writes|] == writes;
    }

    method Log(record: LogRecord)
      modifies this
      ensures trace == old(trace) + [Logged(record)] && files == old(files)
    {
      trace := trace + [Logged(record)];
    }
  }
}
