/** Threshold-states of an AQI reading and the one-word state file that carries
    the previous run's threshold-state to the next run (generate.py). */
module ThresholdState {
  import opened Options

  /** The AQI value a reading must exceed to count as polluted. */
  const AlertThreshold: int := 100

  /** The two threshold-states a reading can be in. */
  datatype Level = Above | Below

  /** The word the program writes to the state file for a threshold-state. */
  function LevelText(l: Level): string
  {
    match l
    case Above => "above"
    case Below => "below"
  }

  /** Reads a stored word back as a threshold-state. Every other text, the empty
      text of a missing state file included, is the unknown (first-run) state. */
  function ParseLevel(s: string): (r: Option<Level>)
    ensures r.Some? ==> LevelText(r.value) == s
    ensures r.None? <==> forall l: Level :: LevelText(l) != s
  {
    if s == "above" then Some(Above)
    else if s == "below" then Some(Below)
    else None
  }

  /** The stored word names exactly the threshold-state that was written. */
  lemma LevelTextRoundTrip(l: Level)
    ensures ParseLevel(LevelText(l)) == Some(l)
    ensures forall m: Level :: LevelText(m) == LevelText(l) ==> m == l
  {
  }

  /** Threshold-state of a reading: above exactly when it exceeds the threshold,
      so a reading equal to the threshold is below. */
  function Classify(aqi: int): (l: Level)
    ensures l == Above <==> aqi > AlertThreshold
    ensures aqi == AlertThreshold ==> l == Below
  {
    if aqi > AlertThreshold then Above else Below
  }

  /** Classification cuts the integers at one point: every reading at or below
      a below-reading is below, and every reading at or above an above-reading
      is above. */
  lemma ClassifyIsMonotone(a: int, b: int)
    requires a <= b
    ensures Classify(b) == Below ==> Classify(a) == Below
    ensures Classify(a) == Above ==> Classify(b) == Above
  {
  }

  /** The previous run's stored word: the file's content, or the empty text
      when the file does not exist. */
  function ReadLastStatus(file: Option<string>): (last: string)
    ensures file.None? ==> last == "" && ParseLevel(last).None?
    ensures file.Some? ==> last == file.value
  {
    match file
    case None => ""
    case Some(text) => text
  }

  /** The run's change flag: the stored word differs from the word for the
      new reading. It holds exactly when the stored word does not name the
      reading's threshold-state, and so always on a first run. */
  function Changed(last: string, aqi: int): (changed: bool)
    ensures changed <==> ParseLevel(last) != Some(Classify(aqi))
    ensures ParseLevel(last).None? ==> changed
    ensures last == "" ==> changed
  {
    last != LevelText(Classify(aqi))
  }
}
