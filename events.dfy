/** What the skill does to the world outside its own fields, recorded as a log of events:
    bus messages and subscriptions, dialogs and prompts, GUI updates, configuration and
    identity writes, and the calls it makes on the pairing handle. */
module Events {
  import opened Wrappers
  import opened Backends
  import opened SetupStates
  import opened SetupConfig

  /** The payload of a bus message. */
  datatype MsgData =
    | NoData
    | Forwarded                      // `message.forward(...)`: the incoming data, passed on
    | BackendData(backend: BackendType)
    | PageData(page: BackendType)
    | EngineData(engine: string)
    | StateData(state: SetupState)
    | SkillData(skillId: string)

  datatype Event =
    | Emit(msgType: string, data: MsgData)      // `bus.emit`
    | Once(msgType: string)                     // `bus.once`: a one-shot subscription
    | MakeActive                                // `make_active`, so that `converse` is asked
    | Speak(dialog: string)                     // `speak_dialog`
    | SpeakCode(code: string)                   // `speak_dialog("pairing.code", {"code": ...})`
    | Prompt(dialog: string)                    // `get_response`
    | AskYesNo(dialog: string, subject: string) // `ask_yesno`
    | AskSelection(options: seq<string>)        // `ask_selection`
    | Display(screen: string)                   // `handle_display_manager`
    | SetGui(key: string, value: string)        // `self.gui[key] = value`
    | ReleaseGui
    | RemovePage(page: string)
    | ApplyPatch(patch: ConfigPatch)            // `update_user_config`
    | SaveDummyIdentity                         // `create_dummy_identity`
    | UpdateDeviceAttributes                    // `update_device_attributes_on_backend`
    | ClearPairingData                          // `self.pairing.data = None`
    | SetApiUrl(url: string)                    // `self.pairing.set_api_url`
    | KickoffPairing
    | ShutdownPairing

  /** Python truthiness of an optional string: neither `None` nor empty. */
  predicate Truthy(v: Option<string>) {
    v.Some? && v.value != ""
  }

  /** The messages the GUI handlers are registered for, prefixed by the skill id. */
  function SetBackendMsg(skillId: string): string { skillId + ".mycroft.device.set.backend" }
  function ConfirmBackendMsg(skillId: string): string { skillId + ".mycroft.device.confirm.backend" }
  function ReturnMsg(skillId: string): string { skillId + ".mycroft.return.select.backend" }
  function ConfirmSttMsg(skillId: string): string { skillId + ".mycroft.device.confirm.stt" }
  function ConfirmTtsMsg(skillId: string): string { skillId + ".mycroft.device.confirm.tts" }

  /** `send_stop_signal`: the optional stop event of the previous step, then the requests
      to stop recording and to stop speaking. */
  function StopSignal(stopEvent: Option<string>): (log: seq<Event>)
    ensures |log| == if Truthy(stopEvent) then 3 else 2
    ensures Truthy(stopEvent) ==> log[0] == Emit(stopEvent.value, NoData)
    ensures log[|log| - 2..] ==
      [Emit("recognizer_loop:record_stop", NoData), Emit("mycroft.audio.speech.stop", NoData)]
  {
    (if Truthy(stopEvent) then [Emit(stopEvent.value, NoData)] else []) +
    [Emit("recognizer_loop:record_stop", NoData), Emit("mycroft.audio.speech.stop", NoData)]
  }

  /** `SetupManager.change_to_*`: the patch, followed by the dummy identity for the two
      patches that write one. */
  function ChangeTo(p: ConfigPatch): seq<Event> {
    [ApplyPatch(p)] + (if WritesDummyIdentity(p) then [SaveDummyIdentity] else [])
  }

  /** The bus messages in a log, in order. */
  function Emits(log: seq<Event>): (msgs: seq<Event>)
    ensures forall i :: 0 <= i < |msgs| ==> msgs[i].Emit?
    decreases |log|
  {
    if log == [] then []
    else (if log[0].Emit? then [log[0]] else []) + Emits(log[1..])
  }

  /** `Emits` distributes over concatenation. */
  lemma {:induction false} EmitsAppend(a: seq<Event>, b: seq<Event>)
    ensures Emits(a + b) == Emits(a) + Emits(b)
    decreases |a|
  {
    if a == [] {
      assert a + b == b;
    } else {
      assert (a + b)[1..] == a[1..] + b;
      EmitsAppend(a[1..], b);
    }
  }
}
