/** `PairingSkill`: the setup wizard. Its fields are the wizard step, the interaction mode,
    the persisted settings, whether skills reported ready, the NATO words of the locale and
    the URL it gave the pairing handle; everything else it does is appended to `events`.
    The answers of the environment (connectivity, pairing status, GUI availability, what
    the user said) are parameters of the handlers. */
module Skill {
  import opened Wrappers
  import opened Text
  import opened Backends
  import opened SetupStates
  import opened SetupConfig
  import opened Events
  import opened Answers
  import opened VoiceMenus
  import opened PairingCode

  /** The skill's persisted settings; `None` is JSON null. */
  type Settings = map<string, Option<string>>

  /** The skill only ever stores a string as `pairing_url`. */
  predicate WellTyped(settings: Settings) {
    "pairing_url" in settings ==> settings["pairing_url"].Some?
  }

  /** `self.settings.get(key)`. */
  function Get(settings: Settings, key: string): Option<string> {
    if key in settings then settings[key] else None
  }

  /** `settings.get("pairing_url", "")`. */
  function PairingUrl(settings: Settings): string
    requires WellTyped(settings)
  {
    if "pairing_url" in settings then settings["pairing_url"].value else ""
  }

  /** Python's `value or default` for an optional string. */
  function Or(value: Option<string>, default: string): string {
    if Truthy(value) then value.value else default
  }

  /** Once a backend is selected, the stored pairing URL is the one the handle was given:
      the Mycroft host for SELENE and the empty URL for OFFLINE. */
  predicate Agreement(settings: Settings, handleUrl: string)
    requires WellTyped(settings)
  {
    var selected := Get(settings, "selected_backend");
    (Truthy(selected) ==> PairingUrl(settings) == handleUrl) &&
    (selected == Some(Name(Selene)) ==> PairingUrl(settings) == SeleneHost) &&
    (selected == Some(Name(Offline)) ==> PairingUrl(settings) == "")
  }

  /** While the settings agree, `backend_type` names the selected backend for SELENE and
      OFFLINE. */
  lemma AgreementClassifies(settings: Settings, handleUrl: string)
    requires WellTyped(settings) && Agreement(settings, handleUrl)
    ensures Get(settings, "selected_backend") == Some(Name(Selene)) ==> BackendTypeOf(PairingUrl(settings)) == Selene
    ensures Get(settings, "selected_backend") == Some(Name(Offline)) ==> BackendTypeOf(PairingUrl(settings)) == Offline
  {
    MycroftHomeIsSelene();
    EmptyUrlIsOffline();
  }

  /** The step `initialize` chooses from connectivity, the selected backend and the pairing
      status, and what it does to get there. */
  function InitialStep(connected: bool, backendSelected: bool, paired: bool): (SetupState, seq<Event>) {
    if !connected then
      (SelectingWifi, [Once("ovos.wifi.setup.completed"), Once("ovos.phal.wifi.plugin.skip.setup")])
    else if !backendSelected then (FirstBoot, [MakeActive, Emit("mycroft.not.paired", NoData)])
    else if !paired then (SelectingBackend, [Emit("mycroft.not.paired", NoData)])
    else (Inactive, [Display("LoadingSkills"), UpdateDeviceAttributes])
  }

  /** With no backend selected, as `initialize` leaves it, only the wifi step and the first
      boot can be chosen; connectivity alone decides which, whatever the pairing status. */
  lemma InitialStepWithoutBackend(connected: bool, paired: bool)
    ensures InitialStep(connected, false, paired).0 == (if connected then FirstBoot else SelectingWifi)
    ensures connected ==> InitialStep(connected, false, paired).1 == [MakeActive, Emit("mycroft.not.paired", NoData)]
  {
  }

  /** `show_pairing_success`. */
  function SuccessLog(): seq<Event> {
    [SetGui("status", "Success"), SetGui("label", "Device Paired"), SetGui("bgColor", "#40DBB0"),
     Display("Status")]
  }

  /** `show_pairing_fail`. */
  function FailLog(): seq<Event> {
    [ReleaseGui, SetGui("status", "Failed"), SetGui("label", "Pairing Failed"),
     SetGui("bgColor", "#FF0000"), Display("Status")]
  }

  /** `show_pairing`. */
  function ShowPairingLog(settings: Settings, code: string): seq<Event> {
    [SetGui("txtcolor", Or(Get(settings, "color"), "#FF0000")),
     SetGui("backendurl", Or(Get(settings, "pairing_url"), SeleneHost)),
     SetGui("code", code), Display("Pairing")]
  }

  /** A menu step: its introduction, the GUI hint unless in VOICE mode, and unless in GUI
      mode the voice introduction followed by the voice menu. */
  function MenuLog(skillId: string, mode: PairingMode, menu: Menu, intro: seq<Event>,
                   voiceIntro: seq<Event>, replies: seq<Reply>): seq<Event>
  {
    intro + (if mode != Voice then [Speak("select_option_gui")] else []) +
    (if mode != Gui then voiceIntro + Transcript(skillId, menu, replies) else [])
  }

  /** In a menu step the bus messages are those of the introduction, then in VOICE mode
      the one decision of the voice menu; in GUI mode nothing is sent by voice. */
  lemma MenuLogEmits(skillId: string, mode: PairingMode, menu: Menu, intro: seq<Event>,
                     voiceIntro: seq<Event>, replies: seq<Reply>)
    requires mode != Hybrid && Quiet(voiceIntro)
    ensures Emits(MenuLog(skillId, mode, menu, intro, voiceIntro, replies)) ==
      Emits(intro) + (if mode == Voice then AsSeq(Decision(skillId, menu, replies)) else [])
  {
    var hint: seq<Event> := if mode != Voice then [Speak("select_option_gui")] else [];
    var voice := if mode != Gui then voiceIntro + Transcript(skillId, menu, replies) else [];
    EmitsAppend(intro + hint, voice);
    EmitsAppend(intro, hint);
    QuietEmitsNothing(voiceIntro);
    QuietEmitsNothing(hint);
    EmitsAppend(voiceIntro, Transcript(skillId, menu, replies));
    TranscriptEmitsDecision(skillId, menu, replies);
    assert Emits([]) == [];
  }

  /** The backend menu sends the stop signal and, in VOICE mode, at most one selection:
      OFFLINE or SELENE, never PERSONAL. */
  lemma BackendMenuSelections(skillId: string, mode: PairingMode, replies: seq<Reply>)
    requires mode != Hybrid
    ensures var msgs := Emits(BackendMenuLog(skillId, mode, replies));
      var stop := Emits(StopSignal(Some("pairing.confirmation.stop")));
      msgs == stop ||
      (mode == Voice && (msgs == stop + [Emit(SetBackendMsg(skillId), BackendData(Offline))] ||
                         msgs == stop + [Emit(SetBackendMsg(skillId), BackendData(Selene))]))
  {
    var stopLog := StopSignal(Some("pairing.confirmation.stop"));
    var shown := [Display("BackendSelect"), Speak("backend_intro")];
    var voiceIntro := [Speak("select_backend"), Speak("backend")];
    assert Quiet(voiceIntro) && Quiet(shown);
    EmitsAppend(stopLog, shown);
    QuietEmitsNothing(shown);
    MenuLogEmits(skillId, mode, BackendMenu, stopLog + shown, voiceIntro, replies);
    var d := Decision(skillId, BackendMenu, replies);
    assert Emits(BackendMenuLog(skillId, mode, replies)) ==
      Emits(stopLog) + (if mode == Voice then AsSeq(d) else []);
    BackendVoiceChoices(skillId, replies);
  }

  /** The events of a menu step, computed in the order the handler produces them. */
  method MenuStep(skillId: string, mode: PairingMode, menu: Menu, intro: seq<Event>,
                  voiceIntro: seq<Event>, replies: seq<Reply>) returns (log: seq<Event>)
    ensures log == MenuLog(skillId, mode, menu, intro, voiceIntro, replies)
  {
    log := intro;
    if mode != Voice {
      log := log + [Speak("select_option_gui")];
    }
    if mode != Gui {
      var voice, _ := RunMenu(skillId, menu, replies);
      log := log + voiceIntro + voice;
    }
  }

  /** `handle_backend_menu`. */
  function BackendMenuLog(skillId: string, mode: PairingMode, replies: seq<Reply>): seq<Event> {
    MenuLog(skillId, mode, BackendMenu,
      StopSignal(Some("pairing.confirmation.stop")) + [Display("BackendSelect"), Speak("backend_intro")],
      [Speak("select_backend"), Speak("backend")], replies)
  }

  /** `handle_stt_menu`. */
  function SttMenuLog(skillId: string, mode: PairingMode, replies: seq<Reply>): seq<Event> {
    MenuLog(skillId, mode, SttMenu,
      [Display("BackendLocalSTT")] + StopSignal(Some("pairing.confirmation.stop")) + [Speak("stt_intro")],
      [], replies)
  }

  /** `handle_tts_menu`. */
  function TtsMenuLog(skillId: string, mode: PairingMode, replies: seq<Reply>): seq<Event> {
    MenuLog(skillId, mode, TtsMenu,
      [Display("BackendLocalTTS")] + StopSignal(Some("pairing.stt.menu.stop")) + [Speak("tts_intro")],
      [], replies)
  }

  /** The dialog introducing a backend, and its GUI page and dialog. */
  function IntroFor(selection: string): seq<Event> {
    match BackendNamed(selection)
    case Some(Selene) => [Speak("selene_intro")]
    case Some(Personal) => [Speak("local_backend_intro")]
    case Some(Offline) => [Speak("no_backend_intro")]
    case None => []
  }

  function GuiConfirmFor(selection: string): seq<Event> {
    match BackendNamed(selection)
    case Some(Selene) => [Display("BackendMycroft"), Speak("selene_confirm_gui")]
    case Some(Personal) => [Display("BackendLocal"), Speak("local_backend_confirm_gui")]
    case Some(Offline) => [Display("NoBackend"), Speak("no_backend_confirm_gui")]
    case None => []
  }

  /** `handle_backend_confirmation`. */
  function ConfirmationLog(skillId: string, mode: PairingMode, selection: string, replies: seq<Reply>): seq<Event> {
    IntroFor(selection) + (if mode != Voice then GuiConfirmFor(selection) else []) +
    (if mode != Gui then Transcript(skillId, ConfirmMenu(selection), replies) else [])
  }

  /** `handle_pairing`: already paired (a backend is selected and the remote check
      succeeds), or the backend menu unless the handle already holds pairing data. */
  function PairingLog(skillId: string, mode: PairingMode, alreadyPaired: bool, fromIntent: bool,
                      pairingData: bool, replies: seq<Reply>): seq<Event>
  {
    if alreadyPaired then (if fromIntent then [Speak("already.paired")] else []) + SuccessLog()
    else if !pairingData then BackendMenuLog(skillId, mode, replies)
    else []
  }

  class PairingSkill {
    const skillId: string
    var state: SetupState
    var pairingMode: PairingMode
    var settings: Settings
    var mycroftReady: bool
    var natoCodes: map<char, string>
    /** `self.pairing.pairing_url`. */
    var handleUrl: string
    var events: seq<Event>

    /** The settings hold a string pairing URL, HYBRID is never chosen, and once
        initialised the selected backend agrees with the pairing URL. */
    predicate Valid()
      reads this
    {
      WellTyped(settings) && pairingMode != Hybrid &&
      (state != Loading ==> Agreement(settings, handleUrl))
    }

    /** `__init__`, with the settings the framework loads for the skill. */
    constructor (skillId: string, stored: Settings)
      requires WellTyped(stored)
      ensures Valid()
      ensures this.skillId == skillId && settings == stored
      ensures state == Loading && pairingMode == Voice && !mycroftReady
      ensures natoCodes == map[] && handleUrl == "" && events == []
    {
      this.skillId := skillId;
      state := Loading;
      pairingMode := Voice;
      settings := stored;
      mycroftReady := false;
      natoCodes := map[];
      handleUrl := "";
      events := [];
    }

    /** `initialize`: picks the interaction mode, clears the selected backend, and then
        waits for wifi when offline; otherwise, the backend having just been cleared, it
        always starts from FIRST_BOOT and asks for pairing. */
    method Initialize(connected: bool, guiAvailable: bool, paired: bool, nato: map<char, string>)
      requires Valid() && state == Loading
      modifies this`state, this`pairingMode, this`settings, this`natoCodes, this`events
      ensures Valid()
      ensures natoCodes == nato
      ensures pairingMode == (if guiAvailable then Gui else Voice)
      ensures settings == old(settings)["selected_backend" := None]
      ensures !connected ==>
        state == SelectingWifi &&
        events == old(events) + [Once("ovos.wifi.setup.completed"), Once("ovos.phal.wifi.plugin.skip.setup")]
      ensures connected ==>
        state == FirstBoot && events == old(events) + [MakeActive, Emit("mycroft.not.paired", NoData)]
    {
      natoCodes := nato;
      if !guiAvailable {
        pairingMode := Voice;
      } else {
        pairingMode := Gui;
      }
      settings := settings["selected_backend" := None];
      var (step, log) := InitialStep(connected, Truthy(Get(settings, "selected_backend")), paired);
      state := step;
      events := events + log;
    }

    /** `handle_get_setup_state`: answers with the current step. */
    method HandleGetSetupState(msgType: string)
      modifies this`events
      ensures events == old(events) + [Emit(msgType + ".response", StateData(state))]
    {
      events := events + [Emit(msgType + ".response", StateData(state))];
    }

    /** `handle_wifi_finish`: back to backend selection unless paired with a backend. */
    method HandleWifiFinish(paired: bool)
      requires Valid() && state != Loading
      modifies this`state, this`events
      ensures Valid() && state != Loading
      ensures var resume := !paired || !Truthy(Get(settings, "selected_backend"));
        state == (if resume then SelectingBackend else Inactive) &&
        events == old(events) + [Display("LoadingScreen")] +
          (if resume then [Emit("mycroft.not.paired", Forwarded)] else [])
    {
      events := events + [Display("LoadingScreen")];
      if !paired || !Truthy(Get(settings, "selected_backend")) {
        state := SelectingBackend;
        events := events + [Emit("mycroft.not.paired", Forwarded)];
      } else {
        state := Inactive;
      }
    }

    /** `handle_wifi_skip`: offline mode; setup resumes on the next start. */
    method HandleWifiSkip()
      requires Valid() && state != Loading
      modifies this`state, this`events
      ensures Valid() && state == Inactive
      ensures events == old(events) + [Display("OfflineMode")]
    {
      events := events + [Display("OfflineMode")];
      state := Inactive;
    }

    /** `send_stop_signal`. */
    method SendStopSignal(stopEvent: Option<string>)
      modifies this`events
      ensures events == old(events) + StopSignal(stopEvent)
    {
      if Truthy(stopEvent) {
        events := events + [Emit(stopEvent.value, NoData)];
      }
      events := events + [Emit("recognizer_loop:record_stop", NoData), Emit("mycroft.audio.speech.stop", NoData)];
    }

    /** `converse`: the test it makes holds in every state, since no state is both
        INACTIVE and FIRST_BOOT, so every utterance is captured. */
    method Converse() returns (captured: bool)
      ensures captured
    {
      captured := state != Inactive || state != FirstBoot;
    }

    /** `handle_mycroft_ready`. */
    method HandleMycroftReady()
      requires Valid() && state != Loading
      modifies this`mycroftReady, this`state, this`events
      ensures Valid() && mycroftReady && state == Inactive
      ensures events == old(events) + [RemovePage("ProcessLoader.qml"), Emit("mycroft.gui.screen.close", SkillData(skillId))]
    {
      mycroftReady := true;
      events := events + [RemovePage("ProcessLoader.qml"), Emit("mycroft.gui.screen.close", SkillData(skillId))];
      state := Inactive;
    }

    /** `handle_backend_menu`. */
    method HandleBackendMenu(replies: seq<Reply>)
      requires Valid() && state != Loading
      modifies this`state, this`events
      ensures Valid() && state == SelectingBackend
      ensures events == old(events) + BackendMenuLog(skillId, pairingMode, replies)
    {
      state := SelectingBackend;
      var log := MenuStep(skillId, pairingMode, BackendMenu,
        StopSignal(Some("pairing.confirmation.stop")) + [Display("BackendSelect"), Speak("backend_intro")],
        [Speak("select_backend"), Speak("backend")], replies);
      events := events + log;
    }

    /** `handle_pairing`, as the intent (`fromIntent`) or as the handle's restart callback. */
    method HandlePairing(fromIntent: bool, remotePaired: bool, pairingData: bool, replies: seq<Reply>)
      requires Valid() && state != Loading
      modifies this`state, this`events
      ensures Valid()
      ensures var alreadyPaired := Truthy(Get(settings, "selected_backend")) && remotePaired;
        state == (if alreadyPaired then Inactive else SelectingBackend) &&
        events == old(events) + PairingLog(skillId, pairingMode, alreadyPaired, fromIntent, pairingData, replies)
    {
      state := SelectingBackend;
      if Truthy(Get(settings, "selected_backend")) && remotePaired {
        if fromIntent {
          events := events + [Speak("already.paired")];
        }
        state := Inactive;
        events := events + SuccessLog();
      } else if !pairingData {
        HandleBackendMenu(replies);
      }
    }

    /** `not_paired`: takes over the conversation, waits for `mycroft.ready`, and starts
        pairing; `quiet` is the message's `quiet` field, true when absent. */
    method NotPaired(quiet: Option<bool>, remotePaired: bool, pairingData: bool, replies: seq<Reply>)
      requires Valid() && state != Loading
      modifies this`state, this`events
      ensures Valid()
      ensures var alreadyPaired := Truthy(Get(settings, "selected_backend")) && remotePaired;
        state == (if alreadyPaired then Inactive else SelectingBackend) &&
        events == old(events) + [MakeActive, Once("mycroft.ready")] +
          (if quiet == Some(false) then [Speak("pairing.not.paired")] else []) +
          PairingLog(skillId, pairingMode, alreadyPaired, false, pairingData, replies)
    {
      events := events + [MakeActive, Once("mycroft.ready")];
      if quiet == Some(false) {
        events := events + [Speak("pairing.not.paired")];
      }
      HandlePairing(false, remotePaired, pairingData, replies);
    }

    /** `on_pairing_start`: the intro is spoken only for the Mycroft backend. */
    method OnPairingStart()
      requires Valid() && state != Loading
      modifies this`state, this`events
      ensures Valid() && state == Pairing
      ensures events == old(events) + [Display("PairingStart")] +
        (if BackendTypeOf(PairingUrl(settings)) == Selene then [Speak("pairing.intro")] else [])
    {
      state := Pairing;
      events := events + [Display("PairingStart")];
      if BackendTypeOf(PairingUrl(settings)) == Selene {
        events := events + [Speak("pairing.intro")];
      }
    }

    /** `on_pairing_code`: shows the code and speaks it in NATO words; fails, with no
        effect, when a character has no word. */
    method OnPairingCode(code: string) returns (ok: bool)
      modifies this`events
      ensures ok == CodeWords(code, natoCodes).Some?
      ensures ok ==>
        events == old(events) + ShowPairingLog(settings, code) + [SpeakCode(Spelled(CodeWords(code, natoCodes).value))]
      ensures !ok ==> events == old(events)
    {
      var words := CodeWords(code, natoCodes);
      ok := words.Some?;
      if ok {
        events := events + ShowPairingLog(settings, code) + [SpeakCode(Spelled(words.value))];
      }
    }

    /** `on_pairing_success`. */
    method OnPairingSuccess()
      requires Valid() && state != Loading
      modifies this`state, this`events
      ensures Valid() && state == Inactive
      ensures events == old(events) + SuccessLog() +
        (if mycroftReady then [Speak("pairing.paired")] else []) +
        [Display("LoadingSkills"), UpdateDeviceAttributes]
    {
      events := events + SuccessLog();
      if mycroftReady {
        events := events + [Speak("pairing.paired")];
      }
      events := events + [Display("LoadingSkills"), UpdateDeviceAttributes];
      state := Inactive;
    }

    /** `on_pairing_error`: the state is left as it is. */
    method OnPairingError(quiet: bool)
      modifies this`events
      ensures events == old(events) + (if quiet then [] else [Speak("unexpected.error.restarting")]) + FailLog()
    {
      if !quiet {
        events := events + [Speak("unexpected.error.restarting")];
      }
      events := events + FailLog();
    }

    /** `on_pairing_end`. */
    method OnPairingEnd(errorDialog: Option<string>)
      requires Valid() && state != Loading
      modifies this`state, this`events
      ensures Valid() && state == Inactive
      ensures events == old(events) + (if Truthy(errorDialog) then [Speak(errorDialog.value)] else [])
    {
      if Truthy(errorDialog) {
        events := events + [Speak(errorDialog.value)];
      }
      state := Inactive;
    }

    /** `handle_backend_confirmation`. */
    method HandleBackendConfirmation(selection: string, replies: seq<Reply>)
      modifies this`events
      ensures events == old(events) + ConfirmationLog(skillId, pairingMode, selection, replies)
    {
      var log := IntroFor(selection);
      if pairingMode != Voice {
        log := log + GuiConfirmFor(selection);
      }
      if pairingMode != Gui {
        var voice, _ := RunMenu(skillId, ConfirmMenu(selection), replies);
        log := log + voice;
      }
      events := events + log;
    }

    /** `handle_backend_selected_event`: the backend chosen on the GUI or by voice. */
    method HandleBackendSelectedEvent(backend: string, replies: seq<Reply>)
      modifies this`events
      ensures events == old(events) + StopSignal(Some("pairing.backend.menu.stop")) +
        ConfirmationLog(skillId, pairingMode, backend, replies)
    {
      SendStopSignal(Some("pairing.backend.menu.stop"));
      HandleBackendConfirmation(backend, replies);
    }

    /** `handle_return_event`: back to the backend menu. */
    method HandleReturnEvent(replies: seq<Reply>)
      requires Valid() && state != Loading
      modifies this`state, this`events
      ensures Valid() && state == SelectingBackend
      ensures events == old(events) + StopSignal(Some("pairing.confirmation.stop")) +
        BackendMenuLog(skillId, pairingMode, replies)
    {
      SendStopSignal(Some("pairing.confirmation.stop"));
      HandleBackendMenu(replies);
    }

    /** `handle_selene_selected`. */
    method HandleSeleneSelected()
      requires Valid() && state != Loading
      modifies this`handleUrl, this`settings, this`state, this`events
      ensures Valid() && state == Pairing && handleUrl == SeleneHost
      ensures settings == old(settings)["pairing_url" := Some(SeleneHost)]["selected_backend" := Some(Name(Selene))]
      ensures events == old(events) + [SetApiUrl("api.mycroft.ai")] + ChangeTo(SeleneServer) + [KickoffPairing]
    {
      handleUrl := SeleneHost;
      settings := settings["pairing_url" := Some(SeleneHost)];
      var log := [SetApiUrl("api.mycroft.ai")] + ChangeTo(SeleneServer);
      state := Pairing;
      settings := settings["selected_backend" := Some(Name(Selene))];
      events := events + log + [KickoffPairing];
    }

    /** `handle_local_backend_selected`: only asks for the host; the state is unchanged. */
    method HandleLocalBackendSelected()
      modifies this`events
      ensures events == old(events) + [Display("BackendPersonalHost"), Speak("local_backend_url_prompt")]
    {
      events := events + [Display("BackendPersonalHost"), Speak("local_backend_url_prompt")];
    }

    /** `handle_personal_backend_url`: the host entered for a personal backend. */
    method HandlePersonalBackendUrl(host: string)
      requires Valid() && state != Loading
      modifies this`handleUrl, this`settings, this`state, this`events
      ensures Valid() && state == Pairing && handleUrl == host
      ensures settings == old(settings)["pairing_url" := Some(host)]["selected_backend" := Some(Name(Personal))]
      ensures events == old(events) + [SetApiUrl(host)] + ChangeTo(LocalServer(host)) + [KickoffPairing]
    {
      handleUrl := host;
      settings := settings["pairing_url" := Some(host)];
      var log := [SetApiUrl(host)];
      settings := settings["selected_backend" := Some(Name(Personal))];
      log := log + ChangeTo(LocalServer(host));
      state := Pairing;
      events := events + log + [KickoffPairing];
    }

    /** `handle_stt_menu`. */
    method HandleSttMenu(replies: seq<Reply>)
      requires Valid() && state != Loading
      modifies this`state, this`events
      ensures Valid() && state == SelectingStt
      ensures events == old(events) + SttMenuLog(skillId, pairingMode, replies)
    {
      state := SelectingStt;
      var log := MenuStep(skillId, pairingMode, SttMenu,
        [Display("BackendLocalSTT")] + StopSignal(Some("pairing.confirmation.stop")) + [Speak("stt_intro")],
        [], replies);
      events := events + log;
    }

    /** `handle_no_backend_selected`: offline, then on to the STT step. */
    method HandleNoBackendSelected(replies: seq<Reply>)
      requires Valid() && state != Loading
      modifies this`handleUrl, this`settings, this`state, this`events
      ensures Valid() && state == SelectingStt && handleUrl == ""
      ensures settings == old(settings)["pairing_url" := Some("")]["selected_backend" := Some(Name(Offline))]
      ensures events == old(events) + [ClearPairingData] + ChangeTo(NoServer) +
        SttMenuLog(skillId, pairingMode, replies)
    {
      handleUrl := "";
      settings := settings["pairing_url" := Some("")];
      settings := settings["selected_backend" := Some(Name(Offline))];
      events := events + [ClearPairingData] + ChangeTo(NoServer);
      HandleSttMenu(replies);
    }

    /** `handle_backend_confirmation_event`: PERSONAL asks for a host, SELENE starts
        pairing, and any other value means no backend. */
    method HandleBackendConfirmationEvent(backend: string, replies: seq<Reply>)
      requires Valid() && state != Loading
      modifies this`handleUrl, this`settings, this`state, this`events
      ensures Valid()
      ensures backend == Name(Personal) ==>
        state == old(state) && settings == old(settings) && handleUrl == old(handleUrl) &&
        events == old(events) + StopSignal(Some("pairing.confirmation.stop")) +
          [Display("BackendPersonalHost"), Speak("local_backend_url_prompt")]
      ensures backend == Name(Selene) ==>
        state == Pairing && handleUrl == SeleneHost &&
        settings == old(settings)["pairing_url" := Some(SeleneHost)]["selected_backend" := Some(Name(Selene))] &&
        events == old(events) + StopSignal(Some("pairing.confirmation.stop")) +
          [SetApiUrl("api.mycroft.ai")] + ChangeTo(SeleneServer) + [KickoffPairing]
      ensures backend != Name(Personal) && backend != Name(Selene) ==>
        state == SelectingStt && handleUrl == "" &&
        settings == old(settings)["pairing_url" := Some("")]["selected_backend" := Some(Name(Offline))] &&
        events == old(events) + StopSignal(Some("pairing.confirmation.stop")) +
          [ClearPairingData] + ChangeTo(NoServer) + SttMenuLog(skillId, pairingMode, replies)
    {
      SendStopSignal(Some("pairing.confirmation.stop"));
      if backend == Name(Personal) {
        HandleLocalBackendSelected();
      } else if backend == Name(Selene) {
        HandleSeleneSelected();
      } else {
        HandleNoBackendSelected(replies);
      }
    }

    /** `handle_tts_menu`. */
    method HandleTtsMenu(replies: seq<Reply>)
      requires Valid() && state != Loading
      modifies this`state, this`events
      ensures Valid() && state == SelectingTts
      ensures events == old(events) + TtsMenuLog(skillId, pairingMode, replies)
    {
      state := SelectingTts;
      var log := MenuStep(skillId, pairingMode, TtsMenu,
        [Display("BackendLocalTTS")] + StopSignal(Some("pairing.stt.menu.stop")) + [Speak("tts_intro")],
        [], replies);
      events := events + log;
    }

    /** `handle_stt_selected`: applies the STT patch, then on to the TTS step. */
    method HandleSttSelected(engine: string, replies: seq<Reply>)
      requires Valid() && state != Loading
      modifies this`settings, this`state, this`events
      ensures Valid() && state == SelectingTts
      ensures settings == old(settings)["selected_stt" := Some(engine)]
      ensures events == old(events) + ChangeTo(SttPatchFor(engine)) +
        StopSignal(Some("pairing.stt.menu.stop")) + TtsMenuLog(skillId, pairingMode, replies)
    {
      settings := settings["selected_stt" := Some(engine)];
      var log;
      if engine == "google" {
        log := ChangeTo(Chromium);
      } else {
        log := ChangeTo(Vosk);
      }
      events := events + log + StopSignal(Some("pairing.stt.menu.stop"));
      HandleTtsMenu(replies);
    }

    /** `handle_tts_selected`: applies the TTS patch of a known engine (none for any other
        name) and ends the wizard. */
    method HandleTtsSelected(engine: string)
      requires Valid() && state != Loading
      modifies this`settings, this`state, this`events
      ensures Valid() && state == Inactive
      ensures settings == old(settings)["selected_tts" := Some(engine)]
      ensures events == old(events) +
        (match TtsPatchFor(engine) case Some(p) => ChangeTo(p) case None => []) +
        StopSignal(Some("pairing.tts.menu.stop")) + [Display("LoadingSkills")]
    {
      settings := settings["selected_tts" := Some(engine)];
      var log := [];
      if engine == "mimic" {
        log := ChangeTo(Mimic);
      } else if engine == "mimic2" {
        log := ChangeTo(Mimic2);
      } else if engine == "pico" {
        log := ChangeTo(Pico);
      } else if engine == "larynx" {
        log := ChangeTo(Larynx);
      }
      events := events + log + StopSignal(Some("pairing.tts.menu.stop")) + [Display("LoadingSkills")];
      state := Inactive;
    }

    /** `shutdown`. */
    method Shutdown()
      modifies this`events
      ensures events == old(events) + [ShutdownPairing]
    {
      events := events + [ShutdownPairing];
    }
  }
}
