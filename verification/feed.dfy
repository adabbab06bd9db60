/** The entries of the generated feed (build_feed in generate.py). The RSS
    rendering and the fixed feed metadata are not modelled; an entry keeps what
    distinguishes it: its id, its kind and the reading and time it reports. */
module Feed {
  import opened ThresholdState

  /** The scheduled reading entry, or an alert whose wording follows `direction`. */
  datatype EntryKind = Update | Alert(direction: Level)

  /** One feed entry. `published` is the run's timestamp; the title and
      description render `aqi` and the kind. */
  datatype Entry = Entry(id: string, kind: EntryKind, aqi: int, published: string)

  const UpdateSuffix: string := "-update"
  const AlertSuffix: string := "-alert"

  /** The directions of the alert entries of a feed, in the order build_feed creates them. */
  function AlertDirections(entries: seq<Entry>): (dirs: seq<Level>)
    ensures |dirs| <= |entries|
    decreases |entries|
  {
    if |entries| == 0 then []
    else
      var rest := AlertDirections(entries[1..]);
      match entries[0].kind
      case Alert(d) => [d] + rest
      case Update => rest
  }

  /** The feed of one run for reading `aqi` taken at time `now`: one update
      entry, then an alert entry exactly when the threshold-state changed. */
  function BuildFeed(aqi: int, changed: bool, now: string): (entries: seq<Entry>)
    ensures |entries| == (if changed then 2 else 1)
    ensures entries[0].kind == Update && entries[0].id == now + UpdateSuffix
    ensures changed ==> entries[1].kind == Alert(Classify(aqi)) && entries[1].id == now + AlertSuffix
    ensures AlertDirections(entries) == (if changed then [Classify(aqi)] else [])
    ensures forall i :: 0 <= i < |entries| ==> entries[i].aqi == aqi && entries[i].published == now
    ensures forall i, j :: 0 <= i < j < |entries| ==> entries[i].id != entries[j].id
  {
    var update := Entry(now + UpdateSuffix, Update, aqi, now);
    if changed then
      var direction := if aqi > AlertThreshold then Above else Below;
      var alert := Entry(now + AlertSuffix, Alert(direction), aqi, now);
      assert |alert.id| != |update.id|;
      assert AlertDirections([alert]) == [direction];
      [update, alert]
    else
      [update]
  }
}
