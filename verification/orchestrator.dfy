/** One invocation of the program (main in generate.py): the pure decision
    step, the file effects it performs, and their result on the output
    directory. The network fetch is an input; the clock is the `now` text. */
module Orchestrator {
  import opened Options
  import opened ThresholdState
  import opened Feed

  /** What the decision step of one run produces: the word to store and the feed. */
  datatype StepResult = StepResult(newState: string, entries: seq<Entry>)

  /** The outcome of fetching the reading: a failure of any kind, or the AQI. */
  datatype FetchResult = FetchFailed | Fetched(aqi: int)

  /** File-system effects, in the order the program performs them. */
  datatype Effect = CreateDir | WriteFeed(entries: seq<Entry>) | WriteState(text: string)

  /** The output directory: whether it exists, and the content of its two files.
      A disk whose directory is missing but whose files exist cannot arise from
      the program's own effects (ApplyEffect refuses writes into a missing
      directory). On such a disk Main would read the state file's content where
      the program would find no file and read ""; the lemmas are stated for
      every disk, so they hold for the disks that can occur. */
  datatype Disk = Disk(dirExists: bool, feedFile: Option<seq<Entry>>, stateFile: Option<string>)

  /** How the process ends: a completed run reports the reading and the change
      flag; an aborted run exits with an error. */
  datatype Exit = Completed(aqi: int, changed: bool) | Aborted

  datatype RunResult = RunResult(effects: seq<Effect>, exit: Exit)

  /** The decision of one successful run: from the stored word `last` and the
      reading, the word to store next and the feed entries. */
  function Step(last: string, aqi: int, now: string): (r: StepResult)
    ensures ParseLevel(r.newState) == Some(Classify(aqi))
    ensures r.newState == "above" <==> aqi > AlertThreshold
    ensures r.newState == "below" <==> aqi <= AlertThreshold
    ensures AlertDirections(r.entries) == (if ParseLevel(last) == Some(Classify(aqi)) then [] else [Classify(aqi)])
    ensures |r.entries| == 1 <==> last == r.newState
    ensures r.entries[0].kind == Update
  {
    var current := LevelText(Classify(aqi));
    StepResult(current, BuildFeed(aqi, Changed(last, aqi), now))
  }

  /** Running the step again with a reading of the same threshold-state as the
      stored word emits no alert and stores the same word again. */
  lemma RerunIsStable(last: string, aqi: int, now: string)
    requires ParseLevel(last) == Some(Classify(aqi))
    ensures AlertDirections(Step(last, aqi, now).entries) == []
    ensures |Step(last, aqi, now).entries| == 1
    ensures Step(last, aqi, now).newState == last
  {
  }

  /** The effects of ensure_outdir: create the directory only when it is missing. */
  function EnsureOutdir(disk: Disk): (effects: seq<Effect>)
    ensures effects == [CreateDir] <==> !disk.dirExists
    ensures effects == [] <==> disk.dirExists
    ensures forall i :: 0 <= i < |effects| ==> !IsWrite(effects[i])
  {
    if disk.dirExists then [] else [CreateDir]
  }

  predicate IsWrite(e: Effect)
  {
    e.WriteFeed? || e.WriteState?
  }

  /** One invocation of the program against the output directory `disk`. */
  function Main(disk: Disk, fetch: FetchResult, now: string): (r: RunResult)
    ensures r.exit.Aborted? <==> fetch.FetchFailed?
    ensures fetch.FetchFailed? ==> forall i :: 0 <= i < |r.effects| ==> !IsWrite(r.effects[i])
    ensures fetch.Fetched? ==> exists i, j :: 0 <= i < j < |r.effects| && r.effects[i].WriteFeed? && r.effects[j].WriteState?
    ensures forall j :: 0 <= j < |r.effects| && r.effects[j].WriteState? ==>
              exists i :: 0 <= i < j && r.effects[i].WriteFeed?
    ensures forall i :: 0 <= i < |r.effects| && r.effects[i].CreateDir? ==> i == 0 && !disk.dirExists
    ensures !disk.dirExists ==> |r.effects| > 0 && r.effects[0].CreateDir?
    ensures r.exit.Completed? ==>
              && r.exit.aqi == fetch.aqi
              && (r.exit.changed <==> ParseLevel(ReadLastStatus(disk.stateFile)) != Some(Classify(fetch.aqi)))
  {
    var prefix := EnsureOutdir(disk);
    match fetch
    case FetchFailed => RunResult(prefix, Aborted)
    case Fetched(aqi) =>
      var last := ReadLastStatus(disk.stateFile);
      var step := Step(last, aqi, now);
      var effects := prefix + [WriteFeed(step.entries), WriteState(step.newState)];
      assert effects[|prefix|].WriteFeed? && effects[|prefix| + 1].WriteState?;
      RunResult(effects, Completed(aqi, Changed(last, aqi)))
  }

  /** The result of one effect; a write into a missing directory fails. */
  function ApplyEffect(disk: Disk, e: Effect): (r: Option<Disk>)
    ensures r.None? <==> IsWrite(e) && !disk.dirExists
    ensures r.Some? ==> r.value.dirExists
    ensures e.CreateDir? ==> r.Some? && r.value.feedFile == disk.feedFile && r.value.stateFile == disk.stateFile
    ensures e.WriteFeed? && r.Some? ==> r.value.feedFile == Some(e.entries) && r.value.stateFile == disk.stateFile
    ensures e.WriteState? && r.Some? ==> r.value.stateFile == Some(e.text) && r.value.feedFile == disk.feedFile
  {
    match e
    case CreateDir => Some(disk.(dirExists := true))
    case WriteFeed(entries) =>
      if disk.dirExists then Some(disk.(feedFile := Some(entries))) else None
    case WriteState(text) =>
      if disk.dirExists then Some(disk.(stateFile := Some(text))) else None
  }

  /** The result of a sequence of effects performed in order, failing at the first failing one. */
  function Apply(disk: Disk, effects: seq<Effect>): Option<Disk>
    decreases |effects|
  {
    if |effects| == 0 then Some(disk)
    else
      match ApplyEffect(disk, effects[0])
      case None => None
      case Some(d) => Apply(d, effects[1..])
  }

  /** Performing two effect sequences one after the other is performing their concatenation. */
  lemma {:induction false} ApplyAppend(disk: Disk, a: seq<Effect>, b: seq<Effect>)
    ensures Apply(disk, a + b) == match Apply(disk, a) case None => None case Some(d) => Apply(d, b)
    decreases |a|
  {
    if |a| == 0 {
      assert a + b == b;
    } else {
      assert (a + b)[0] == a[0];
      assert (a + b)[1..] == a[1..] + b;
      match ApplyEffect(disk, a[0])
      case None =>
      case Some(d) => ApplyAppend(d, a[1..], b);
    }
  }

  /** The files after one invocation: a failed fetch leaves both files as they
      were; a successful run overwrites the feed with the step's entries and
      the state file with the word for the new reading, whatever they held. */
  lemma MainOnDisk(disk: Disk, fetch: FetchResult, now: string)
    ensures Apply(disk, Main(disk, fetch, now).effects).Some?
    ensures var d := Apply(disk, Main(disk, fetch, now).effects).value;
            && d.dirExists
            && (fetch.FetchFailed? ==> d.feedFile == disk.feedFile && d.stateFile == disk.stateFile)
            && (fetch.Fetched? ==>
                  && d.stateFile == Some(LevelText(Classify(fetch.aqi)))
                  && d.feedFile == Some(Step(ReadLastStatus(disk.stateFile), fetch.aqi, now).entries))
  {
    var prefix := EnsureOutdir(disk);
    var ready := disk.(dirExists := true);
    assert Apply(disk, prefix) == Some(ready);
    match fetch
    case FetchFailed =>
    case Fetched(aqi) =>
      var step := Step(ReadLastStatus(disk.stateFile), aqi, now);
      var writes := [WriteFeed(step.entries), WriteState(step.newState)];
      ApplyAppend(disk, prefix, writes);
      var d1 := ready.(feedFile := Some(step.entries));
      var d2 := d1.(stateFile := Some(step.newState));
      assert Apply(d1, writes[1..]) == Apply(d2, []);
      assert Apply(ready, writes) == Some(d2);
      assert Main(disk, fetch, now).effects == prefix + writes;
  }

  /** The word a successful run stores is read back by the next run as the
      threshold-state of this run's reading. */
  lemma StoredWordReadsBack(disk: Disk, aqi: int, now: string)
    ensures Apply(disk, Main(disk, Fetched(aqi), now).effects).Some?
    ensures var d := Apply(disk, Main(disk, Fetched(aqi), now).effects).value;
            && ReadLastStatus(d.stateFile) == LevelText(Classify(aqi))
            && ParseLevel(ReadLastStatus(d.stateFile)) == Some(Classify(aqi))
  {
    MainOnDisk(disk, Fetched(aqi), now);
    LevelTextRoundTrip(Classify(aqi));
  }
}
