/** The wizard steps (`SetupState`) and interaction modes (`PairingMode`) of the skill. */
module SetupStates {
  import opened Wrappers

  datatype SetupState =
    | FirstBoot | Loading | Inactive | SelectingWifi
    | SelectingBackend | SelectingStt | SelectingTts | Pairing

  /** The string value of each `SetupState` member, as `ovos.setup.state` reports it. */
  function StateValue(s: SetupState): string {
    match s
    case FirstBoot => "first"
    case Loading => "loading"
    case Inactive => "inactive"
    case SelectingWifi => "wifi"
    case SelectingBackend => "backend"
    case SelectingStt => "stt"
    case SelectingTts => "tts"
    case Pairing => "pairing"
  }

  /** The member whose value is `v`, if any. */
  function StateNamed(v: string): (s: Option<SetupState>)
    ensures s.Some? ==> StateValue(s.value) == v
  {
    if v == "first" then Some(FirstBoot)
    else if v == "loading" then Some(Loading)
    else if v == "inactive" then Some(Inactive)
    else if v == "wifi" then Some(SelectingWifi)
    else if v == "backend" then Some(SelectingBackend)
    else if v == "stt" then Some(SelectingStt)
    else if v == "tts" then Some(SelectingTts)
    else if v == "pairing" then Some(Pairing)
    else None
  }

  /** A reported state value identifies the state. */
  lemma StateValueRoundTrip(s: SetupState)
    ensures StateNamed(StateValue(s)) == Some(s)
  {
  }

  /** No two states report the same value. */
  lemma StateValueInjective(s: SetupState, t: SetupState)
    ensures StateValue(s) == StateValue(t) ==> s == t
  {
    StateValueRoundTrip(s);
    StateValueRoundTrip(t);
  }

  /** VOICE asks by voice only, GUI shows buttons; HYBRID (GUI without input, select by
      voice) is declared but never chosen. */
  datatype PairingMode = Voice | Gui | Hybrid
}
