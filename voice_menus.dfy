/** The four voice menus (`_backend_menu_voice`, `_backend_confirmation_voice`,
    `_stt_menu_voice`, `_tts_menu_voice`). Each prompts, and either sends one bus message
    with the choice and returns, or calls itself to prompt again. A round is one such
    prompt; a transcript is the rounds up to the first one that decides. */
module VoiceMenus {
  import opened Wrappers
  import opened Text
  import opened Backends
  import opened Events
  import opened Answers

  datatype Menu = BackendMenu | ConfirmMenu(selection: string) | SttMenu | TtsMenu

  /** What the user said in one round: `answer` is what `get_response`, `ask_yesno` or
      `ask_selection` returned, `vocab` the vocabularies `voc_match` finds in it, and
      `confirmation` what the follow-up `ask_yesno` of the STT and TTS menus returned. */
  datatype Reply = Reply(answer: Option<string>, vocab: set<string>, confirmation: Option<string>)

  /** The events of one round and the message, if any, that ends the menu. */
  datatype Round = Round(log: seq<Event>, decision: Option<Event>)

  /** A message as a (possibly empty) sequence. */
  function AsSeq(e: Option<Event>): seq<Event> {
    if e.Some? then [e.value] else []
  }

  /** No bus message in a log. */
  predicate Quiet(log: seq<Event>) {
    forall i :: 0 <= i < |log| ==> !log[i].Emit?
  }

  /** A log without bus messages emits nothing. */
  lemma {:induction false} QuietEmitsNothing(log: seq<Event>)
    requires Quiet(log)
    ensures Emits(log) == []
    decreases |log|
  {
    if log != [] {
      QuietEmitsNothing(log[1..]);
    }
  }

  /** A round that emits exactly its decision, as its last event. */
  predicate Sealed(round: Round) {
    Emits(round.log) == AsSeq(round.decision) &&
    (round.decision.Some? ==> |round.log| > 0 && round.log[|round.log| - 1] == round.decision.value)
  }

  /** The round made of the prompts `ask`, followed by the decision if there is one. */
  function Ending(ask: seq<Event>, decision: Option<Event>): (round: Round)
    requires Quiet(ask) && (decision.Some? ==> decision.value.Emit?)
    ensures Sealed(round) && round.decision == decision
  {
    QuietEmitsNothing(ask);
    EmitsAppend(ask, AsSeq(decision));
    assert Emits(AsSeq(decision)) == AsSeq(decision);
    Round(ask + AsSeq(decision), decision)
  }

  /** A round of the backend menu. */
  function BackendRound(skillId: string, r: Reply): (round: Round)
    ensures Sealed(round)
  {
    var ask := [Prompt("choose_backend")];
    if !Truthy(r.answer) then Ending(ask, None)
    else if "no_backend" in r.vocab || "local_backend" in r.vocab then
      Ending(ask, Some(Emit(SetBackendMsg(skillId), BackendData(Offline))))
    else if "selene" in r.vocab then
      Ending(ask, Some(Emit(SetBackendMsg(skillId), BackendData(Selene))))
    else Ending(ask + [Speak("no_understand_backend")], None)
  }

  /** A round of the confirmation of `selection`. */
  function ConfirmRound(skillId: string, selection: string, r: Reply): (round: Round)
    ensures Sealed(round)
  {
    var selene := selection == Name(Selene);
    var ask := if selene then [Speak("selected_mycroft_backend"), AskYesNo("confirm_backend", "mycroft")]
               else [Speak("selected_no_backend"), AskYesNo("confirm_backend", "offline")];
    if r.answer == Some("yes") then
      Ending(ask, Some(Emit(ConfirmBackendMsg(skillId), BackendData(if selene then Selene else Offline))))
    else if r.answer == Some("no") then
      Ending(ask, Some(Emit(ReturnMsg(skillId), PageData(if selene then Personal else Offline))))
    else Ending(ask, None)
  }

  /** A round of the STT menu. */
  function SttRound(skillId: string, r: Reply): (round: Round)
    ensures Sealed(round)
  {
    var ask := [Speak("select_mycroft_stt"), AskSelection(SttOptions)];
    if Truthy(r.answer) then
      var ask := ask + [AskYesNo("confirm_stt", r.answer.value)];
      if r.confirmation == Some("yes") then
        Ending(ask, Some(Emit(ConfirmSttMsg(skillId), EngineData(SttEngineFor(r.answer.value)))))
      else Ending(ask + [Speak("choice-failed")], None)
    else Ending(ask + [Speak("choice-failed")], None)
  }

  /** A round of the TTS menu. */
  function TtsRound(skillId: string, r: Reply): (round: Round)
    ensures Sealed(round)
  {
    var ask := [Speak("select_mycroft_tts"), AskSelection(TtsOptions)];
    if Truthy(r.answer) then
      var ask := ask + [AskYesNo("confirm_tts", r.answer.value)];
      if r.confirmation == Some("yes") then
        Ending(ask, Some(Emit(ConfirmTtsMsg(skillId), EngineData(TtsEngineFor(r.answer.value)))))
      else Ending(ask + [Speak("choice-failed")], None)
    else Ending(ask + [Speak("choice-failed")], None)
  }

  /** One round of a menu. A round emits exactly its decision, as its last event. */
  function RoundOf(skillId: string, menu: Menu, r: Reply): (round: Round)
    ensures Sealed(round)
  {
    match menu
    case BackendMenu => BackendRound(skillId, r)
    case ConfirmMenu(selection) => ConfirmRound(skillId, selection, r)
    case SttMenu => SttRound(skillId, r)
    case TtsMenu => TtsRound(skillId, r)
  }

  /** The events of the rounds up to and including the first that decides; all of
      `replies` when none does (the menu is then still waiting when it is stopped). */
  function Transcript(skillId: string, menu: Menu, replies: seq<Reply>): seq<Event>
    decreases |replies|
  {
    if replies == [] then []
    else
      var round := RoundOf(skillId, menu, replies[0]);
      if round.decision.Some? then round.log
      else round.log + Transcript(skillId, menu, replies[1..])
  }

  /** The message of the first round that decides, if any. */
  function Decision(skillId: string, menu: Menu, replies: seq<Reply>): Option<Event>
    decreases |replies|
  {
    if replies == [] then None
    else
      var round := RoundOf(skillId, menu, replies[0]);
      if round.decision.Some? then round.decision
      else Decision(skillId, menu, replies[1..])
  }

  /** One round of a transcript: the events so far followed by the transcript of the
      remaining `rest` rounds, seen after the first of them. */
  lemma TranscriptStep(skillId: string, menu: Menu, rest: seq<Reply>, log: seq<Event>)
    requires rest != []
    ensures var round := RoundOf(skillId, menu, rest[0]);
      log + Transcript(skillId, menu, rest) ==
        if round.decision.Some? then log + round.log
        else (log + round.log) + Transcript(skillId, menu, rest[1..])
  {
  }

  /** One round of a decision: the first of the remaining rounds decides, or the
      remaining rounds after it do. */
  lemma DecisionStep(skillId: string, menu: Menu, rest: seq<Reply>)
    requires rest != []
    ensures var round := RoundOf(skillId, menu, rest[0]);
      Decision(skillId, menu, rest) ==
        if round.decision.Some? then round.decision else Decision(skillId, menu, rest[1..])
  {
  }

  /** Runs a menu: one round per reply until a round decides or the replies run out. */
  method RunMenu(skillId: string, menu: Menu, replies: seq<Reply>) returns (log: seq<Event>, decision: Option<Event>)
    ensures log == Transcript(skillId, menu, replies)
    ensures decision == Decision(skillId, menu, replies)
  {
    var rest := replies;
    log := [];
    while rest != []
      invariant Transcript(skillId, menu, replies) == log + Transcript(skillId, menu, rest)
      invariant Decision(skillId, menu, replies) == Decision(skillId, menu, rest)
      decreases |rest|
    {
      var round := RoundOf(skillId, menu, rest[0]);
      TranscriptStep(skillId, menu, rest, log);
      DecisionStep(skillId, menu, rest);
      log := log + round.log;
      if round.decision.Some? {
        decision := round.decision;
        return;
      }
      rest := rest[1..];
    }
    decision := None;
  }

  /** A menu sends exactly one bus message when it decides, its decision, and none
      otherwise. */
  lemma {:induction false} TranscriptEmitsDecision(skillId: string, menu: Menu, replies: seq<Reply>)
    ensures Emits(Transcript(skillId, menu, replies)) == AsSeq(Decision(skillId, menu, replies))
    decreases |replies|
  {
    if replies != [] {
      var round := RoundOf(skillId, menu, replies[0]);
      if round.decision.None? {
        TranscriptEmitsDecision(skillId, menu, replies[1..]);
        EmitsAppend(round.log, Transcript(skillId, menu, replies[1..]));
      }
    }
  }

  /** The decision of each round, in order. */
  function Decisions(skillId: string, menu: Menu, replies: seq<Reply>): (ds: seq<Option<Event>>)
    ensures |ds| == |replies|
    decreases |replies|
  {
    if replies == [] then []
    else [RoundOf(skillId, menu, replies[0]).decision] + Decisions(skillId, menu, replies[1..])
  }

  /** The first decision in a sequence of round decisions. */
  function FirstSome(ds: seq<Option<Event>>): Option<Event>
    decreases |ds|
  {
    if ds == [] then None
    else if ds[0].Some? then ds[0]
    else FirstSome(ds[1..])
  }

  /** The `j`-th round decision is that round's decision. */
  lemma {:induction false} DecisionsAt(skillId: string, menu: Menu, replies: seq<Reply>, j: int)
    requires 0 <= j < |replies|
    ensures Decisions(skillId, menu, replies)[j] == RoundOf(skillId, menu, replies[j]).decision
    decreases j
  {
    if j > 0 {
      DecisionsAt(skillId, menu, replies[1..], j - 1);
      assert replies[1..][j - 1] == replies[j];
    }
  }

  /** A menu's decision is the first decision among its rounds. */
  lemma {:induction false} DecisionIsFirstSome(skillId: string, menu: Menu, replies: seq<Reply>)
    ensures Decision(skillId, menu, replies) == FirstSome(Decisions(skillId, menu, replies))
    decreases |replies|
  {
    if replies != [] {
      DecisionIsFirstSome(skillId, menu, replies[1..]);
      var ds := Decisions(skillId, menu, replies);
      assert ds[1..] == Decisions(skillId, menu, replies[1..]);
      DecisionStep(skillId, menu, replies);
    }
  }

  /** The first decision of a sequence is at an index before which nothing was decided. */
  lemma {:induction false} FirstSomeIndex(ds: seq<Option<Event>>) returns (i: int)
    requires FirstSome(ds).Some?
    ensures 0 <= i < |ds| && ds[i] == FirstSome(ds)
    ensures forall j :: 0 <= j < i ==> ds[j].None?
    decreases |ds|
  {
    if ds[0].Some? {
      i := 0;
    } else {
      var k := FirstSomeIndex(ds[1..]);
      i := k + 1;
      assert ds[i] == ds[1..][k];
      forall j | 0 < j < i ensures ds[j].None? {
        assert ds[j] == ds[1..][j - 1];
      }
    }
  }

  /** Without a first decision, nothing was decided. */
  lemma {:induction false} FirstSomeNone(ds: seq<Option<Event>>)
    requires FirstSome(ds).None?
    ensures forall j :: 0 <= j < |ds| ==> ds[j].None?
    decreases |ds|
  {
    if ds != [] {
      FirstSomeNone(ds[1..]);
      forall j | 0 < j < |ds| ensures ds[j].None? {
        assert ds[j] == ds[1..][j - 1];
      }
    }
  }

  /** The round whose decision is the menu's, when the menu decides. */
  lemma DecidingRound(skillId: string, menu: Menu, replies: seq<Reply>) returns (i: int)
    requires Decision(skillId, menu, replies).Some?
    ensures 0 <= i < |replies|
    ensures RoundOf(skillId, menu, replies[i]).decision == Decision(skillId, menu, replies)
  {
    DecisionIsFirstSome(skillId, menu, replies);
    i := FirstSomeIndex(Decisions(skillId, menu, replies));
    DecisionsAt(skillId, menu, replies, i);
  }

  /** The decision of a menu is the decision of one of its rounds, all earlier rounds
      having decided nothing; without a decision, no round decided. */
  lemma DecisionOfSomeRound(skillId: string, menu: Menu, replies: seq<Reply>)
    ensures Decision(skillId, menu, replies).Some? ==>
      exists i :: 0 <= i < |replies| && RoundOf(skillId, menu, replies[i]).decision == Decision(skillId, menu, replies) &&
        forall j :: 0 <= j < i ==> RoundOf(skillId, menu, replies[j]).decision.None?
    ensures Decision(skillId, menu, replies).None? ==>
      forall i :: 0 <= i < |replies| ==> RoundOf(skillId, menu, replies[i]).decision.None?
  {
    var ds := Decisions(skillId, menu, replies);
    DecisionIsFirstSome(skillId, menu, replies);
    if FirstSome(ds).Some? {
      var i := FirstSomeIndex(ds);
      DecisionsAt(skillId, menu, replies, i);
      forall j | 0 <= j < i ensures RoundOf(skillId, menu, replies[j]).decision.None? {
        DecisionsAt(skillId, menu, replies, j);
      }
    } else {
      FirstSomeNone(ds);
      forall i | 0 <= i < |replies| ensures RoundOf(skillId, menu, replies[i]).decision.None? {
        DecisionsAt(skillId, menu, replies, i);
      }
    }
  }

  /** The voice backend menu only ever selects OFFLINE (for the no-backend and the
      local-backend vocabularies alike) or SELENE; it never selects PERSONAL. */
  lemma BackendVoiceChoices(skillId: string, replies: seq<Reply>)
    ensures var d := Decision(skillId, BackendMenu, replies);
      d == None ||
      d == Some(Emit(SetBackendMsg(skillId), BackendData(Offline))) ||
      d == Some(Emit(SetBackendMsg(skillId), BackendData(Selene)))
  {
    if Decision(skillId, BackendMenu, replies).Some? {
      var i := DecidingRound(skillId, BackendMenu, replies);
    }
  }

  /** A round of the backend menu decides exactly when the answer matches one of the three
      vocabularies, and picks SELENE only when it matches neither of the other two. */
  lemma BackendRoundDecides(skillId: string, r: Reply)
    ensures RoundOf(skillId, BackendMenu, r).decision.Some? <==>
      Truthy(r.answer) && ("no_backend" in r.vocab || "local_backend" in r.vocab || "selene" in r.vocab)
    ensures RoundOf(skillId, BackendMenu, r).decision == Some(Emit(SetBackendMsg(skillId), BackendData(Selene))) <==>
      Truthy(r.answer) && "selene" in r.vocab && "no_backend" !in r.vocab && "local_backend" !in r.vocab
  {
  }

  /** Confirming by voice never confirms PERSONAL: any selection other than SELENE,
      PERSONAL included, is confirmed as OFFLINE. Saying no returns to the backend menu
      (with the page PERSONAL after SELENE, and OFFLINE otherwise). */
  lemma ConfirmVoiceChoices(skillId: string, selection: string, replies: seq<Reply>)
    ensures var d := Decision(skillId, ConfirmMenu(selection), replies);
      var b := if selection == "selene" then Selene else Offline;
      var page := if selection == "selene" then Personal else Offline;
      d == None ||
      d == Some(Emit(ConfirmBackendMsg(skillId), BackendData(b))) ||
      d == Some(Emit(ReturnMsg(skillId), PageData(page)))
  {
    if Decision(skillId, ConfirmMenu(selection), replies).Some? {
      var i := DecidingRound(skillId, ConfirmMenu(selection), replies);
    }
  }

  /** A round of the confirmation decides exactly on a yes or a no. */
  lemma ConfirmRoundDecides(skillId: string, selection: string, r: Reply)
    ensures RoundOf(skillId, ConfirmMenu(selection), r).decision.Some? <==>
      r.answer == Some("yes") || r.answer == Some("no")
  {
  }

  /** A round of the STT menu decides exactly when an answer was selected and then
      confirmed with yes, and sends the engine of that answer. */
  lemma SttRoundDecides(skillId: string, r: Reply)
    ensures RoundOf(skillId, SttMenu, r).decision.Some? <==> Truthy(r.answer) && r.confirmation == Some("yes")
    ensures RoundOf(skillId, SttMenu, r).decision.Some? ==>
      RoundOf(skillId, SttMenu, r).decision.value == Emit(ConfirmSttMsg(skillId), EngineData(SttEngineFor(r.answer.value)))
  {
  }

  /** The same for the TTS menu. */
  lemma TtsRoundDecides(skillId: string, r: Reply)
    ensures RoundOf(skillId, TtsMenu, r).decision.Some? <==> Truthy(r.answer) && r.confirmation == Some("yes")
    ensures RoundOf(skillId, TtsMenu, r).decision.Some? ==>
      RoundOf(skillId, TtsMenu, r).decision.value == Emit(ConfirmTtsMsg(skillId), EngineData(TtsEngineFor(r.answer.value)))
  {
  }

  /** When every answer of the STT menu is one of the offered options (or nothing), the
      engine it sends is Google or Vosk. */
  lemma SttVoiceChoices(skillId: string, replies: seq<Reply>)
    requires forall i :: 0 <= i < |replies| ==> replies[i].answer == None || replies[i].answer.value in SttOptions
    ensures var d := Decision(skillId, SttMenu, replies);
      d == None ||
      d == Some(Emit(ConfirmSttMsg(skillId), EngineData("google"))) ||
      d == Some(Emit(ConfirmSttMsg(skillId), EngineData("vosk")))
  {
    var d := Decision(skillId, SttMenu, replies);
    if d.Some? {
      var i := DecidingRound(skillId, SttMenu, replies);
      SttRoundDecides(skillId, replies[i]);
      SttOptionEngines();
    }
  }

  /** Every engine the TTS menu sends has a patch, whatever was answered. */
  lemma TtsVoiceChoices(skillId: string, replies: seq<Reply>)
    ensures var d := Decision(skillId, TtsMenu, replies);
      d.Some? ==>
        d.value.Emit? && d.value.msgType == ConfirmTtsMsg(skillId) && d.value.data.EngineData? &&
        TtsPatchFor(d.value.data.engine).Some?
  {
    var d := Decision(skillId, TtsMenu, replies);
    if d.Some? {
      var i := DecidingRound(skillId, TtsMenu, replies);
      TtsRoundDecides(skillId, replies[i]);
      TtsAnswerHasPatch(replies[i].answer.value);
    }
  }
}
