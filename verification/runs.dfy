/** Many consecutive invocations of the program on one output directory, as a
    scheduler runs it. The stored word links each run to the next. */
module Runs {
  import opened Options
  import opened ThresholdState
  import opened Feed
  import opened Orchestrator

  /** A successful fetch: the reading and the time of the run that took it. */
  datatype Reading = Reading(aqi: int, now: string)

  /** The decisions of consecutive successful runs, the first of them starting
      from the stored word `last`. */
  function Trace(last: string, readings: seq<Reading>): (trace: seq<StepResult>)
    ensures |trace| == |readings|
    decreases |readings|
  {
    if |readings| == 0 then []
    else
      var s := Step(last, readings[0].aqi, readings[0].now);
      [s] + Trace(s.newState, readings[1..])
  }

  /** The stored word after consecutive successful runs. */
  function StoredAfter(last: string, readings: seq<Reading>): string
    decreases |readings|
  {
    if |readings| == 0 then last
    else StoredAfter(Step(last, readings[0].aqi, readings[0].now).newState, readings[1..])
  }

  /** The feed written by each run of a trace. */
  function FeedsOf(trace: seq<StepResult>): (feeds: seq<seq<Entry>>)
    ensures |feeds| == |trace|
    decreases |trace|
  {
    if |trace| == 0 then [] else [trace[0].entries] + FeedsOf(trace[1..])
  }

  /** The directions of all alerts in a series of feeds, oldest first. */
  function AllAlerts(feeds: seq<seq<Entry>>): seq<Level>
    decreases |feeds|
  {
    if |feeds| == 0 then [] else AlertDirections(feeds[0]) + AllAlerts(feeds[1..])
  }

  /** No two consecutive alerts point the same way. */
  predicate Alternating(alerts: seq<Level>)
  {
    forall j :: 0 <= j < |alerts| - 1 ==> alerts[j] != alerts[j + 1]
  }

  /** The threshold-state known before run `i`: the one the stored word names
      for the first run, the previous reading's for every later run. */
  function LevelBefore(last: string, readings: seq<Reading>, i: nat): Option<Level>
    requires i < |readings|
  {
    if i == 0 then ParseLevel(last) else Some(Classify(readings[i - 1].aqi))
  }

  /** Each run of a trace is the step from the word the previous run stored. */
  lemma {:induction false} TraceIsStepwise(last: string, readings: seq<Reading>)
    ensures forall i :: 0 <= i < |readings| ==>
              Trace(last, readings)[i]
              == Step(if i == 0 then last else Trace(last, readings)[i - 1].newState, readings[i].aqi, readings[i].now)
    decreases |readings|
  {
    if |readings| > 0 {
      var s := Step(last, readings[0].aqi, readings[0].now);
      var rest := Trace(s.newState, readings[1..]);
      TraceIsStepwise(s.newState, readings[1..]);
      assert Trace(last, readings) == [s] + rest;
      forall i | 0 < i < |readings|
        ensures Trace(last, readings)[i]
                == Step(Trace(last, readings)[i - 1].newState, readings[i].aqi, readings[i].now)
      {
        assert Trace(last, readings)[i] == rest[i - 1];
        assert readings[1..][i - 1] == readings[i];
        if i > 1 {
          assert Trace(last, readings)[i - 1] == rest[i - 2];
        }
      }
    }
  }

  /** Over any run of readings, the stored word after each run names that
      run's threshold-state, and an alert is emitted exactly at the runs whose
      threshold-state differs from the one known before, pointing to the new one. */
  lemma AlertsAtChanges(last: string, readings: seq<Reading>)
    ensures forall i :: 0 <= i < |readings| ==>
              Trace(last, readings)[i].newState == LevelText(Classify(readings[i].aqi))
    ensures forall i :: 0 <= i < |readings| ==>
              AlertDirections(Trace(last, readings)[i].entries)
              == (if LevelBefore(last, readings, i) == Some(Classify(readings[i].aqi)) then []
                  else [Classify(readings[i].aqi)])
  {
    TraceIsStepwise(last, readings);
    forall i | 0 <= i < |readings|
      ensures Trace(last, readings)[i].newState == LevelText(Classify(readings[i].aqi))
    {
      var before := if i == 0 then last else Trace(last, readings)[i - 1].newState;
      var s := Step(before, readings[i].aqi, readings[i].now);
      assert Trace(last, readings)[i] == s;
      assert ParseLevel(s.newState) == Some(Classify(readings[i].aqi));
    }
  }

  /** After at least one run, the stored word is the one for the last reading,
      whatever was stored before. */
  lemma {:induction false} StoredAfterIsLastReading(last: string, readings: seq<Reading>)
    requires |readings| > 0
    ensures StoredAfter(last, readings) == LevelText(Classify(readings[|readings| - 1].aqi))
    decreases |readings|
  {
    var s := Step(last, readings[0].aqi, readings[0].now);
    if |readings| == 1 {
      LevelTextRoundTrip(Classify(readings[0].aqi));
    } else {
      StoredAfterIsLastReading(s.newState, readings[1..]);
      assert readings[1..][|readings[1..]| - 1] == readings[|readings| - 1];
    }
  }

  /** The two folds agree: the stored word after a non-empty series is the
      word the last run of its trace stored. */
  lemma StoredAfterIsTraceEnd(last: string, readings: seq<Reading>)
    requires |readings| > 0
    ensures StoredAfter(last, readings) == Trace(last, readings)[|readings| - 1].newState
  {
    StoredAfterIsLastReading(last, readings);
    AlertsAtChanges(last, readings);
  }

  /** An alert followed by an alternating series that does not start in its
      direction is again alternating. */
  lemma AlternatingCons(c: Level, tail: seq<Level>)
    requires Alternating(tail)
    requires |tail| > 0 ==> tail[0] != c
    ensures Alternating([c] + tail)
  {
    var a := [c] + tail;
    forall j | 0 <= j < |a| - 1
      ensures a[j] != a[j + 1]
    {
      if j > 0 {
        assert a[j] == tail[j - 1] && a[j + 1] == tail[j];
      }
    }
  }

  /** The alerts of a series are those of its first run followed by those of
      the rest, which starts from the word the first run stored. */
  lemma AllAlertsUnfold(last: string, readings: seq<Reading>)
    requires |readings| > 0
    ensures var s := Step(last, readings[0].aqi, readings[0].now);
            AllAlerts(FeedsOf(Trace(last, readings)))
            == AlertDirections(s.entries) + AllAlerts(FeedsOf(Trace(s.newState, readings[1..])))
  {
    var s := Step(last, readings[0].aqi, readings[0].now);
    var t := Trace(s.newState, readings[1..]);
    assert Trace(last, readings) == [s] + t;
    assert ([s] + t)[1..] == t;
    assert FeedsOf([s] + t) == [s.entries] + FeedsOf(t);
    assert ([s.entries] + FeedsOf(t))[1..] == FeedsOf(t);
  }

  /** Over any run of readings, consecutive alerts alternate in direction; the
      first one points away from the threshold-state the stored word named,
      and the last one names the state stored at the end. Without alerts the
      stored word never changes. */
  lemma {:induction false} AlertsAlternate(last: string, readings: seq<Reading>)
    ensures Alternating(AllAlerts(FeedsOf(Trace(last, readings))))
    ensures var a := AllAlerts(FeedsOf(Trace(last, readings)));
            |a| > 0 ==> ParseLevel(last) != Some(a[0]) && ParseLevel(StoredAfter(last, readings)) == Some(a[|a| - 1])
    ensures AllAlerts(FeedsOf(Trace(last, readings))) == [] ==> StoredAfter(last, readings) == last
    decreases |readings|
  {
    if |readings| > 0 {
      var s := Step(last, readings[0].aqi, readings[0].now);
      var c := Classify(readings[0].aqi);
      AlertsAlternate(s.newState, readings[1..]);
      AllAlertsUnfold(last, readings);
      var tail := AllAlerts(FeedsOf(Trace(s.newState, readings[1..])));
      var a := AllAlerts(FeedsOf(Trace(last, readings)));
      assert StoredAfter(last, readings) == StoredAfter(s.newState, readings[1..]);
      if ParseLevel(last) == Some(c) {
        assert a == tail;
      } else {
        assert a == [c] + tail;
        AlternatingCons(c, tail);
      }
    }
  }

  /** Two runs crossing the threshold each way, whatever was stored before the
      first: 50 then 150 alerts upwards and stores "above"; 150 then 80 alerts
      downwards and stores "below". */
  lemma ThresholdCrossings(last: string, t1: string, t2: string)
    ensures var trace := Trace(last, [Reading(50, t1), Reading(150, t2)]);
            && AlertDirections(trace[1].entries) == [Above]
            && |trace[1].entries| == 2
            && trace[1].newState == "above"
    ensures var trace := Trace(last, [Reading(150, t1), Reading(80, t2)]);
            && AlertDirections(trace[1].entries) == [Below]
            && |trace[1].entries| == 2
            && trace[1].newState == "below"
  {
    var up := [Reading(50, t1), Reading(150, t2)];
    var down := [Reading(150, t1), Reading(80, t2)];
    AlertsAtChanges(last, up);
    AlertsAtChanges(last, down);
    assert LevelBefore(last, up, 1) == Some(Below);
    assert LevelBefore(last, down, 1) == Some(Above);
  }

  /** A program invocation as the scheduler triggers it. */
  datatype Invocation = Invocation(fetch: FetchResult, now: string)

  /** The output directory after a series of invocations and the feeds the
      completed ones wrote, oldest first. */
  datatype SessionResult = SessionResult(disk: Disk, feeds: seq<seq<Entry>>)

  /** Consecutive invocations of the program on one output directory. */
  function Session(disk: Disk, runs: seq<Invocation>): SessionResult
    decreases |runs|
  {
    if |runs| == 0 then SessionResult(disk, [])
    else
      MainOnDisk(disk, runs[0].fetch, runs[0].now);
      var next := Apply(disk, Main(disk, runs[0].fetch, runs[0].now).effects).value;
      var rest := Session(next, runs[1..]);
      match runs[0].fetch
      case FetchFailed => rest
      case Fetched(_) => SessionResult(rest.disk, [next.feedFile.value] + rest.feeds)
  }

  /** The readings of the invocations whose fetch succeeded, in order. */
  function Successes(runs: seq<Invocation>): (readings: seq<Reading>)
    ensures |readings| <= |runs|
    decreases |runs|
  {
    if |runs| == 0 then []
    else
      var rest := Successes(runs[1..]);
      match runs[0].fetch
      case FetchFailed => rest
      case Fetched(aqi) => [Reading(aqi, runs[0].now)] + rest
  }

  /** Invocations whose fetch fails write neither file and change no stored
      word, though they may create the output directory: a series of invocations
      writes the feeds of the trace of its successful readings, starting from
      the stored word, and leaves the state file holding the word stored after
      them (untouched when no fetch succeeded). */
  lemma {:induction false} SessionFollowsTrace(disk: Disk, runs: seq<Invocation>)
    ensures Session(disk, runs).feeds == FeedsOf(Trace(ReadLastStatus(disk.stateFile), Successes(runs)))
    ensures Successes(runs) == [] ==> Session(disk, runs).disk.stateFile == disk.stateFile
    ensures Successes(runs) != [] ==>
              Session(disk, runs).disk.stateFile == Some(StoredAfter(ReadLastStatus(disk.stateFile), Successes(runs)))
    decreases |runs|
  {
    if |runs| > 0 {
      var fetch, now := runs[0].fetch, runs[0].now;
      MainOnDisk(disk, fetch, now);
      var next := Apply(disk, Main(disk, fetch, now).effects).value;
      SessionFollowsTrace(next, runs[1..]);
      var last := ReadLastStatus(disk.stateFile);
      match fetch
      case FetchFailed =>
        assert Successes(runs) == Successes(runs[1..]);
      case Fetched(aqi) =>
        var r := Reading(aqi, now);
        var rest := Successes(runs[1..]);
        var s := Step(last, aqi, now);
        assert Successes(runs) == [r] + rest;
        assert ([r] + rest)[1..] == rest;
        assert next.stateFile == Some(s.newState);
        assert Trace(last, [r] + rest) == [s] + Trace(s.newState, rest);
        assert ([s] + Trace(s.newState, rest))[1..] == Trace(s.newState, rest);
        assert StoredAfter(last, [r] + rest) == StoredAfter(s.newState, rest);
    }
  }

  /** Consecutive alerts alternate in direction across any series of
      invocations, failed fetches included. */
  lemma SessionAlertsAlternate(disk: Disk, runs: seq<Invocation>)
    ensures Alternating(AllAlerts(Session(disk, runs).feeds))
  {
    SessionFollowsTrace(disk, runs);
    AlertsAlternate(ReadLastStatus(disk.stateFile), Successes(runs));
  }
}
