# Pudong AQI feed — a Dafny model of the per-run decision logic

The program (`generate.py`) runs on a schedule. Each run fetches one AQI
reading for Shanghai Pudong and classifies it against a fixed threshold of
100: strictly greater is "above", anything else is "below". It compares that
word with the one stored by the previous run in `public/last_status.txt`. It
then writes an RSS feed, `public/aqi.xml`, holding one "update" entry. When the
word changed, the feed also holds an "alert" entry pointing in the direction of
the new reading. Last, it stores the new word.

The model has five modules:

- `Options` (`options.dfy`): the optional value used for absent files and for
  stored words that name no threshold-state.
- `ThresholdState` (`state.dfy`): the threshold, the two-valued `Level`, and
  the words `"above"`/`"below"`. `ParseLevel` reads any other text, the empty
  text of a missing file included, as the unknown first-run state.
  `Classify` models line 76, `ReadLastStatus` lines 29-34 and `Changed` line 77.
- `Feed` (`feed.dfy`): feed entries as tagged kinds. `Update` and
  `Alert(direction)` each carry their id (timestamp text plus `-update` or
  `-alert`), the reading and the timestamp. `BuildFeed` models `build_feed`.
- `Orchestrator` (`orchestrator.dfy`): `Step`, the pure decision
  `(stored word, reading) -> (new word, entries)`. `Main` models `main` as the
  list of file effects it performs: directory created, feed written, state
  written. It takes the fetch as an abstract success-or-failure input.
  `Apply` gives those effects' result on the output directory. A write into a
  missing directory fails, just as `open` would.
- `Runs` (`runs.dfy`): folds of `Step` over sequences of readings, and of
  `Main` over sequences of invocations, some of which may fail.

The main results:

- Alerts fire exactly at classification changes.
- Consecutive alerts alternate in direction.
- The stored word always ends as the last reading's word.
- Failed fetches leave both files untouched.

## Model

| member | source | states |
|---|---|---|
| ThresholdState.Classify | generate.py:76 | a reading is above exactly when it exceeds ALERT_THRESHOLD (100); a reading of exactly 100 is below |
| ThresholdState.ClassifyIsMonotone | generate.py:76 | classification is a single cut: below is closed downwards, above upwards |
| ThresholdState.ParseLevel | generate.py:29-34 | a stored word names a threshold-state exactly when it is one of the two words written for a state; any other text, "" included, is the unknown state |
| ThresholdState.LevelTextRoundTrip | generate.py:76-80 | the word written for a state reads back as that state, and distinct states get distinct words |
| ThresholdState.ReadLastStatus | generate.py:29-34 | a missing state file reads as "", which names no state; an existing one reads as its content |
| ThresholdState.Changed | generate.py:77 | changed holds exactly when the stored word does not name the reading's threshold-state, so always when the file was missing or held "" |
| Feed.BuildFeed | generate.py:40-70 | in the order build_feed creates them: the update entry first, then an alert exactly when changed (so 1 or 2 entries); the alert's direction, decided by its own `> ALERT_THRESHOLD` test, equals the classification; ids are timestamp plus "-update"/"-alert" and differ; every entry reports the reading and the run's time |
| Orchestrator.Step | generate.py:75-80 | the new stored word names the reading's threshold-state ("above" iff aqi > 100); the feed holds an alert in the new direction exactly when the old word did not name that state; one entry exactly when the word is unchanged |
| Orchestrator.RerunIsStable | generate.py:76-80 | a reading that classifies as the stored word gives a one-entry feed, no alert, and stores the same word again |
| Orchestrator.Main | generate.py:72-81 | a failed fetch aborts the run and writes no file; a successful one writes the feed and then the state file, the state file never before the feed; the directory is created first and only when missing; the reported change flag is the state comparison |
| Orchestrator.EnsureOutdir | generate.py:25-27 | the directory is created exactly when it is missing, and nothing is written at this point |
| Orchestrator.ApplyEffect | generate.py:36-38 | a write fails exactly when the directory is missing; otherwise it replaces that file's whole content with the written value and leaves the other file alone; creating the directory always succeeds and leaves both files alone |
| Orchestrator.StoredWordReadsBack | generate.py:29-38 | the word a successful run writes is what the next run reads back, and it names that run's threshold-state |
| Orchestrator.MainOnDisk | generate.py:73-80 | every write of a run succeeds; after a failed fetch both files hold what they held before; after a successful one the state file holds exactly the new reading's word and the feed file exactly the step's entries (in creation order), whatever they held |
| Runs.TraceIsStepwise | generate.py:75-80 | each run of a series starts from the word the previous run stored |
| Runs.AlertsAtChanges | generate.py:58-80 | over any series of readings, each run stores its reading's word and emits an alert exactly when its state differs from the one known before (the stored word's for the first run, the previous reading's after), pointing to the new state |
| Runs.StoredAfterIsLastReading | generate.py:76-80 | after any non-empty series the stored word is the last reading's, whatever was stored at the start |
| Runs.StoredAfterIsTraceEnd | generate.py:76-80 | the stored word after a non-empty series is the word the last run of that series stored |
| Runs.AlertsAlternate | generate.py:58-80 | over any series, consecutive alerts point in opposite directions; the first points away from the initially stored state and the last names the finally stored one; without alerts the stored word never changes |
| Runs.ThresholdCrossings | generate.py:58-65 | whatever was stored before, readings 50 then 150 give an upward alert and store "above"; 150 then 80 give a downward alert and store "below" |
| Runs.SessionFollowsTrace | generate.py:72-80 | invocations with failed fetches write neither file and change no stored word (they may create the output directory): a series of invocations writes exactly the feeds of the series of its successful readings, and leaves the stored word those readings produce (untouched if none succeeded) |
| Runs.SessionAlertsAlternate | generate.py:72-80 | consecutive alerts alternate in direction across any series of invocations, failed fetches included |

## Left out

- Fetching (`fetch_aqi`, lines 17-23) is left out: the HTTP request, its timeout, `raise_for_status`, JSON decoding and the `status == "ok"` check are network I/O. All of them appear only as the input `FetchResult`, which is `FetchFailed` or `Fetched(aqi)`.
- The import-time check of the `AQICN_TOKEN` environment variable (lines 7-9) is left out: it reads the process environment and exits.
- `ReadLastStatus` does not model the `strip()` of surrounding whitespace on read. The program only ever writes "above" or "below", which `strip()` leaves as they are. File I/O errors other than a missing file and a missing directory are not modelled.
- The RSS 2.0 serialisation by `FeedGenerator` (lines 41-45, 79) is left out because it is a foreign library. So are the fixed feed metadata, the entry links, the emoji titles and the rendered description text. Entries are tags carrying the reading.
- The model assumes the feed library accepts every call in `build_feed` (lines 41-68), including the entry setters and `pubDate` given the naive `utcnow()` timestamp. If the library rejected that timestamp, the real run would stop after the fetch and write neither file, which `Main` does not model.
- `BuildFeed` keeps the entries in the order build_feed creates them. The feed library's `add_entry` puts each new entry at the front by default, so the written document lists the alert before the update. No alert property depends on this order, since a feed holds at most one alert.
- `datetime.utcnow()` (line 47) becomes the opaque `now` text, passed in as a parameter.
- The printed summary (line 81) is left out. `Exit.Completed` carries the two values it prints.
- AQI values are integers. The API's non-numeric or floating-point values are not modelled.
- Concurrent or overlapping invocations are not modelled; runs are sequential.
