# skill-ovos-setup: the setup wizard, modelled in Dafny

The OpenVoiceOS setup skill (`PairingSkill`) walks a new device through its first run.
First it waits for wifi. Then it lets the user choose a backend:
- the Mycroft servers (SELENE);
- a personal server at a host they enter (PERSONAL);
- no backend at all (OFFLINE).

After SELENE or PERSONAL it starts pairing, and shows and speaks the pairing code in NATO
words. After OFFLINE it offers a speech-to-text engine and then a text-to-speech engine.
Every choice is written to the user configuration by a `SetupManager` patch. The user
answers by touching GUI buttons or, on a device without a GUI, by voice.

The model is organised as follows:

- `Text` (text.dfy) defines Python's `in`, `str.split(sep)` (searched left to right) and
  `sep.join`. It proves that join undoes split, what the last piece looks like, and that
  split undoes join for words without the separator's first character.
- `Backends` (backends.dfy) defines the `BackendType` enum and `backend_type`. That
  property classifies the stored pairing URL by the text after its last `://`. It is
  OFFLINE exactly when the URL is empty or ends with `://`. It is SELENE exactly for
  `home.mycroft.ai` with or without a scheme in front. Every other URL is PERSONAL.
- `SetupStates` (setup_states.dfy) defines the wizard steps and modes. The string values
  of the steps are proved injective.
- `SetupConfig` (config.dfy) covers the `change_to_*` builders. Each is one variant of a
  closed patch datatype, rendered to the exact nested JSON the source writes. Separate
  lemmas prove:
  - which sections each patch writes;
  - that each engine patch configures the plugin it selects;
  - that the local-backend URLs derive from the host;
  - that the Selene and local-backend patches agree except for the upload endpoint;
  - that only the no-backend patch disables the server;
  - what the STT fallback plugins are.
- `Answers` (answers.dfy) maps voice answers to engine names and engine names to patches.
- `Events` (events.dfy) is the log of everything the skill does outside its own fields:
  bus messages, subscriptions, dialogs, prompts, GUI updates, configuration and identity
  writes, and calls on the pairing handle.
- `VoiceMenus` (voice_menus.dfy) covers the four voice menus. Each round is a pure
  function, and `RunMenu` is the round-by-round loop. A menu emits exactly one bus message
  when it decides and none otherwise. The backend menu never selects PERSONAL. A voice
  confirmation of any non-SELENE selection confirms OFFLINE.
- `PairingCode` (pairing_code.dfy) spells the pairing code. It fails when a character has
  no word. The spoken text reads back into one word per character.
- `Skill` (skill.dfy) is the `PairingSkill` class. Its fields are the step, the mode, the
  settings, the ready flag, the NATO words, the URL given to the pairing handle, and the
  event log. `Valid()` holds the invariants the handlers keep:
  - the stored pairing URL is a string;
  - HYBRID mode is never chosen;
  - after initialisation, a selected backend agrees with the pairing URL: the Mycroft
    host for SELENE, `""` for OFFLINE, and the handle's URL for any selected backend.

  Each handler states its new step, its new settings and exactly the events it appends.

Two behaviours of the code are stated as written, although the source's own comments
suggest otherwise (line 368 says "capture all utterances until paired"; lines 247-248 call
line 249 a debugging line that always triggers setup on boot):

- `converse` is modelled as written. Its test `state != INACTIVE or state != FIRST_BOOT`
  holds in every state, so every utterance is captured (`Skill.PairingSkill.Converse`).
- `initialize` clears `selected_backend` before it decides the first step. So the only
  possible outcomes are SELECTING_WIFI (offline) and FIRST_BOOT (online). The
  SELECTING_BACKEND and INACTIVE branches are kept in `Skill.InitialStep` but cannot be
  reached (`Skill.InitialStepWithoutBackend`, `Skill.PairingSkill.Initialize`).

A personal host that is empty or ends with `://` is stored with `selected_backend`
PERSONAL. `backend_type` nevertheless classifies such a URL as OFFLINE
(`Backends.OfflineExactlyWithoutHost`). The model keeps this as written. The agreement
invariant therefore only ties SELENE and OFFLINE to `backend_type`.

## Model

| member | source | states |
|---|---|---|
| `Text.JoinSplit` | __init__.py:273 | joining the pieces of `s.split(sep)` with `sep` gives back `s` |
| `Text.LastPieceShape` | __init__.py:273 | the last piece of a split is a separator-free suffix: the whole string if nothing was split, else preceded by the separator |
| `Text.SplitJoin` | __init__.py:396 | splitting `sep.join(words)` gives back the words when no word holds the separator's first character |
| `Backends.BackendNamed` | __init__.py:50-53 | a member found for a text has that text as its value |
| `Backends.BackendNameRoundTrip` | __init__.py:50-53 | every member is found by its own value |
| `Backends.HostPartAfterScheme` | __init__.py:273 | the host part of `scheme://host` is `host`, for any scheme, when `host` has no `://` |
| `Backends.EmptyHostPart` | __init__.py:273-274 | the text after the last `://` is empty exactly when the URL is empty or ends with `://` |
| `Backends.OfflineExactlyWithoutHost` | __init__.py:272-275 | `backend_type` is OFFLINE if and only if the URL is empty or ends with `://` |
| `Backends.SeleneExactlyForMycroftHome` | __init__.py:272-277 | `backend_type` is SELENE if and only if the URL is `home.mycroft.ai` or ends with `://home.mycroft.ai` |
| `Backends.PersonalOtherwise` | __init__.py:272-278 | `backend_type` is PERSONAL if and only if neither of those holds |
| `Backends.MycroftHomeIsSelene` | __init__.py:533 | the host stored for the Mycroft backend classifies as SELENE |
| `Backends.MycroftHomeBehindSchemeIsSelene` | __init__.py:272-277 | so does `home.mycroft.ai` behind any scheme, `https://` included |
| `Backends.EmptyUrlIsOffline` | __init__.py:557 | the empty URL stored for no backend classifies as OFFLINE |
| `SetupStates.StateNamed` | __init__.py:33-41 | a state found for a text reports that text as its value |
| `SetupStates.StateValueRoundTrip` | __init__.py:33-41 | every state is found by its own value |
| `SetupStates.StateValueInjective` | __init__.py:33-41 | no two states report the same value |
| `SetupConfig.Render` | __init__.py:71-173 | each patch writes exactly its sections: `tts`, `stt`, only `server` for no backend, and `stt`, `server`, `listener` for a backend |
| `SetupConfig.EngineModuleConfigured` | __init__.py:71-131 | every TTS and STT patch selects its plugin as `module` and configures that plugin beside it |
| `SetupConfig.LocalServerUrls` | __init__.py:149-163 | the local-backend patch sets `server.url` to the host and the upload URL to host + `/precise/upload` |
| `SetupConfig.DefaultLocalUpload` | __init__.py:149-159 | with the default host the upload URL is `http://0.0.0.0:6712/precise/upload` |
| `SetupConfig.DefaultLocalUrlIsPersonal` | __init__.py:149 | the default host `http://0.0.0.0:6712` classifies as PERSONAL |
| `SetupConfig.SeleneIsMycroftServer` | __init__.py:133-163 | the Selene patch is the local patch for `https://api.mycroft.ai`, except that its upload goes to the Mycroft training server |
| `SetupConfig.ServerDisabledOnlyWithoutBackend` | __init__.py:133-173 | only backend patches write `server.disabled`; it is true only for no backend |
| `SetupConfig.SttFallbackConfigured` | __init__.py:107-131 | the server STT falls back to a configured other plugin; streaming Vosk has an empty fallback |
| `Answers.SttEngineClasses` | __init__.py:582-585 | the engine is `google` exactly for answers mentioning google or online, and `vosk` exactly for the other answers mentioning vosk or offline |
| `Answers.SttEngineIdempotent` | __init__.py:582-585 | mapping an engine name again leaves it unchanged |
| `Answers.SttOptionEngines` | __init__.py:579-585 | the two offered options map to `google` and `vosk` |
| `Answers.SttPatchFor` | __init__.py:592-597 | an STT patch is always applied; it is the server plugin exactly for `google` |
| `Answers.TtsPatchByName` | __init__.py:633-642 | a TTS patch is applied exactly for the names of the four TTS patches, and none for any other name |
| `Answers.TtsAnswerHasPatch` | __init__.py:620-626 | every voice answer leads to an engine with a patch (`mimic2` by default) |
| `Answers.TtsOptionsDistinct` | __init__.py:617-626 | the four offered options select four different engines |
| `Events.StopSignal` | __init__.py:323-332 | the stop signal is the stop event (first, and exactly when given), then the stop-recording and stop-speaking messages |
| `VoiceMenus.RoundOf` | __init__.py:439-631 | a voice round emits exactly its decision, and the decision is its last event |
| `VoiceMenus.RunMenu` | __init__.py:439-457 | prompting round after round gives the transcript up to the first deciding round, and that round's decision |
| `VoiceMenus.TranscriptEmitsDecision` | __init__.py:439-631 | a voice menu sends exactly one bus message when it decides, and none otherwise |
| `VoiceMenus.DecisionOfSomeRound` | __init__.py:439-631 | a menu's decision is made by one round, after rounds that decided nothing |
| `VoiceMenus.BackendVoiceChoices` | __init__.py:439-457 | the voice backend menu selects only OFFLINE (no-backend and local-backend words alike) or SELENE |
| `VoiceMenus.BackendRoundDecides` | __init__.py:441-453 | a backend round decides exactly on an answer matching one of the three vocabularies; it picks SELENE only if neither other vocabulary matches |
| `VoiceMenus.ConfirmVoiceChoices` | __init__.py:492-521 | a voice confirmation confirms SELENE only for SELENE, and OFFLINE for every other selection; no returns to the backend menu |
| `VoiceMenus.ConfirmRoundDecides` | __init__.py:492-518 | a confirmation round decides exactly on yes or no |
| `VoiceMenus.SttRoundDecides` | __init__.py:576-590 | an STT round decides exactly on a selected, confirmed answer, and sends that answer's engine |
| `VoiceMenus.TtsRoundDecides` | __init__.py:615-631 | the same for a TTS round |
| `VoiceMenus.SttVoiceChoices` | __init__.py:576-590 | when answers are offered options, the STT menu sends only `google` or `vosk` |
| `VoiceMenus.TtsVoiceChoices` | __init__.py:615-631 | every engine the TTS menu sends has a patch |
| `PairingCode.CodeWords` | __init__.py:396 | words exist exactly when every character has one; there is one word per character, in order |
| `PairingCode.SpelledCodeReadsBack` | __init__.py:396 | the spoken code ends with `.`; split on `. `, its body gives back each character's word |
| `Skill.AgreementClassifies` | __init__.py:272-278 | while the settings agree, `backend_type` names the selected backend for SELENE and OFFLINE |
| `Skill.InitialStepWithoutBackend` | __init__.py:249-269 | without a selected backend, startup chooses FIRST_BOOT when online and SELECTING_WIFI when offline, whatever the pairing status |
| `Skill.MenuLogEmits` | __init__.py:426-437 | a menu step sends its introduction's messages, plus in VOICE mode the voice menu's one decision |
| `Skill.BackendMenuSelections` | __init__.py:426-457 | the backend menu sends the stop signal and, only in VOICE mode, at most one selection: OFFLINE or SELENE |
| `Skill.MenuStep` | __init__.py:426-437 | the events of a menu step: introduction, GUI hint unless VOICE, voice menu unless GUI |
| `Skill.PairingSkill.constructor` | __init__.py:202-210 | starts LOADING in VOICE mode, not ready, with the loaded settings |
| `Skill.PairingSkill.Initialize` | __init__.py:213-269 | picks GUI or VOICE mode, clears the backend, then reaches only SELECTING_WIFI (two subscriptions) or FIRST_BOOT (make active, `mycroft.not.paired`); establishes `Valid()` |
| `Skill.PairingSkill.HandleGetSetupState` | __init__.py:307-308 | answers with the current step |
| `Skill.PairingSkill.HandleWifiFinish` | __init__.py:310-316 | SELECTING_BACKEND, forwarding `mycroft.not.paired`, if unpaired or no backend is set; INACTIVE otherwise |
| `Skill.PairingSkill.HandleWifiSkip` | __init__.py:318-321 | always INACTIVE |
| `Skill.PairingSkill.SendStopSignal` | __init__.py:323-332 | appends the stop signal |
| `Skill.PairingSkill.Converse` | __init__.py:365-371 | returns true in every state |
| `Skill.PairingSkill.HandleMycroftReady` | __init__.py:355-362 | sets ready, removes the loader page, closes the screen, goes INACTIVE |
| `Skill.PairingSkill.HandlePairing` | __init__.py:375-385 | INACTIVE with the success page when a backend is set and the remote check passes; otherwise SELECTING_BACKEND, with the backend menu unless the handle has data |
| `Skill.PairingSkill.NotPaired` | __init__.py:347-353 | makes active, waits for `mycroft.ready`, speaks only when `quiet` is false, then pairs |
| `Skill.PairingSkill.OnPairingStart` | __init__.py:388-393 | PAIRING; the intro is spoken only when `backend_type` is SELENE |
| `Skill.PairingSkill.OnPairingCode` | __init__.py:395-398 | succeeds exactly when every character has a word; then shows the code and speaks its spelling, otherwise does nothing |
| `Skill.PairingSkill.OnPairingSuccess` | __init__.py:400-411 | success page, the paired dialog only when ready, device attributes sent, INACTIVE |
| `Skill.PairingSkill.OnPairingError` | __init__.py:413-416 | the error dialog unless quiet, then the failure page; the step is unchanged |
| `Skill.PairingSkill.OnPairingEnd` | __init__.py:418-421 | the error dialog when one is given, then INACTIVE |
| `Skill.PairingSkill.HandleBackendMenu` | __init__.py:425-437 | SELECTING_BACKEND and the backend menu step |
| `Skill.PairingSkill.HandleBackendSelectedEvent` | __init__.py:459-461 | the menu's stop signal, then the confirmation of the selected backend |
| `Skill.PairingSkill.HandleReturnEvent` | __init__.py:463-466 | the confirmation's stop signal, then back to the backend menu |
| `Skill.PairingSkill.HandleBackendConfirmation` | __init__.py:469-490 | the selection's intro, its GUI page unless VOICE, and the voice confirmation unless GUI |
| `Skill.PairingSkill.HandleBackendConfirmationEvent` | __init__.py:523-530 | PERSONAL only asks for a host with nothing else changed; SELENE pairs with the Mycroft host; any other value is no backend and moves to SELECTING_STT |
| `Skill.PairingSkill.HandleSeleneSelected` | __init__.py:532-540 | stores the Mycroft host and SELENE, applies the Selene patch, kicks off pairing, PAIRING |
| `Skill.PairingSkill.HandleLocalBackendSelected` | __init__.py:542-544 | shows the host page and asks for the host; nothing else changes |
| `Skill.PairingSkill.HandlePersonalBackendUrl` | __init__.py:546-554 | stores the host and PERSONAL, applies the local patch for that host with a dummy identity, kicks off pairing, PAIRING |
| `Skill.PairingSkill.HandleNoBackendSelected` | __init__.py:556-561 | stores `""` and OFFLINE, clears the handle's data, applies the no-backend patch with a dummy identity, then the STT step |
| `Skill.PairingSkill.HandleSttMenu` | __init__.py:566-574 | SELECTING_STT and the STT menu step |
| `Skill.PairingSkill.HandleSttSelected` | __init__.py:592-600 | stores the engine, applies its STT patch, stops the STT menu, then the TTS step |
| `Skill.PairingSkill.HandleTtsMenu` | __init__.py:605-613 | SELECTING_TTS and the TTS menu step |
| `Skill.PairingSkill.HandleTtsSelected` | __init__.py:633-646 | stores the engine, applies its patch only for a known engine, always ends INACTIVE |
| `Skill.PairingSkill.Shutdown` | __init__.py:688-689 | shuts the pairing handle down |

## Left out

- `PairingManager` (from `selene_api.pairing`) is not part of this model: its code issuance, polling, expiry and retry are not visible. Its callbacks are the `On*` methods. The calls the skill makes on it are logged. Whether it holds pairing data is a parameter of `HandlePairing`. The URL it starts with is taken to be `""`.
- `@killable_event` thread killing is concurrency. A voice menu stops when its finite sequence of replies runs out. The stop messages are logged but kill nothing.
- The unbounded self-recursion of the voice menus is bounded by that reply sequence. The `sleep` calls are dropped.
- The speech and NLU calls (`get_response`, `ask_yesno`, `ask_selection`, `voc_match`) are foreign. Their results are the `Reply` values. `ask_selection` may return any text in the model.
- `is_connected`, `is_paired`, `check_remote_pairing` and `can_use_gui` are environment probes. Their results are parameters.
- `translate_namedvalues('codes')` reads locale files. The NATO words are a parameter of `Initialize`.
- `update_user_config` is logged as the patch it applies. The model does not cover the `LocalConf` merge and store, or the merged configuration it sends on `configuration.patch`; they are I/O on a foreign class.
- `create_dummy_identity` is logged as one event. Its file contents are not modelled: a `uuid4`, `time.time()` and fixed tokens written by `IdentityManager.save`.
- `update_device_attributes_on_backend` calls `DeviceApi`. It is logged as one event.
- `settings.store()` persistence is I/O.
- The mycroft-only mic mute/unmute probe in `send_stop_signal` is an import probe plus a sleep.
- Logging and `handle_intent_aborted`'s log line.
- The flags of `show_page` are folded into one `Display(screen)` event.
- Handler registration in `initialize` (`add_event`, `gui.register_handler`, `bus.once` dispatch) is not modelled: the environment calls the handlers directly.
- `create_skill` is a factory.
- A GUI message missing its `backend`, `engine` or `host_address` field raises `KeyError`; the handlers take the field's value instead. `handle_return_event`'s unused `page` is dropped.
- `quiet` in `mycroft.not.paired` is modelled as a boolean or absent. Truthiness of other JSON values is not modelled.
- A JSON null stored as `pairing_url` would make `backend_type` raise. The constructor requires a string there.
