/** The mappings from a spoken answer to an engine name, and from an engine name to the
    configuration patch that selects it (`_stt_menu_voice`, `handle_stt_selected`,
    `_tts_menu_voice`, `handle_tts_selected`). */
module Answers {
  import opened Wrappers
  import opened Text
  import opened SetupConfig

  /** The options the STT voice menu offers. */
  const SttOptions: seq<string> := ["online with google", "offline with vosk"]

  /** The options the TTS voice menu offers. */
  const TtsOptions: seq<string> := ["online male", "offline male", "offline female", "online female"]

  /** The engine name sent for a confirmed STT answer: Google for an answer mentioning
      Google or online, else Vosk for one mentioning Vosk or offline, else the answer. */
  function SttEngineFor(ans: string): string {
    if Contains(ans, "google") || Contains(ans, "online") then "google"
    else if Contains(ans, "vosk") || Contains(ans, "offline") then "vosk"
    else ans
  }

  /** The STT engine is Google exactly for answers that mention Google or online, and Vosk
      exactly for the other answers that mention Vosk or offline. */
  lemma SttEngineClasses(ans: string)
    ensures SttEngineFor(ans) == "google" <==> Contains(ans, "google") || Contains(ans, "online")
    ensures SttEngineFor(ans) == "vosk" <==>
      !(Contains(ans, "google") || Contains(ans, "online")) &&
      (Contains(ans, "vosk") || Contains(ans, "offline"))
  {
    ContainsItself("google");
    ContainsItself("vosk");
  }

  /** Mapping an engine name again leaves it unchanged. */
  lemma SttEngineIdempotent(ans: string)
    ensures SttEngineFor(SttEngineFor(ans)) == SttEngineFor(ans)
  {
    ContainsItself("google");
    ContainsItself("vosk");
  }

  /** The two offered options select Google and Vosk. */
  lemma SttOptionEngines()
    ensures SttEngineFor(SttOptions[0]) == "google"
    ensures SttEngineFor(SttOptions[1]) == "vosk"
  {
    var online, offline := SttOptions[0], SttOptions[1];
    assert OccursAt(online, "online", 0);
    assert OccursAt(offline, "vosk", 13);
    NoOccurrenceWithoutChar(offline, "google", 0);
    assert forall i :: 0 <= i < |offline| - 1 && offline[i] == 'o' ==> i == 0 || i == 14;
    NoOccurrenceWithoutPair(offline, "online");
  }

  /** `handle_stt_selected`: Google selects the server (Chromium) plugin; every other
      engine name selects streaming Vosk. */
  function SttPatchFor(engine: string): (p: ConfigPatch)
    ensures IsStt(p)
    ensures p == Chromium <==> engine == "google"
  {
    if engine == "google" then Chromium else Vosk
  }

  /** The engine name sent for a confirmed TTS answer; `mimic2` unless one of the three
      other options was chosen. */
  function TtsEngineFor(ans: string): string {
    var tts := "mimic2";
    var tts := if ans == "offline male" then "mimic" else tts;
    var tts := if ans == "online female" then "larynx" else tts;
    var tts := if ans == "offline female" then "pico" else tts;
    tts
  }

  /** The engine name of each TTS patch. */
  function TtsEngineName(p: ConfigPatch): string
    requires IsTts(p)
  {
    match p
    case Mimic => "mimic"
    case Mimic2 => "mimic2"
    case Larynx => "larynx"
    case Pico => "pico"
  }

  /** `handle_tts_selected`: the patch for a known engine name, `None` for any other. */
  function TtsPatchFor(engine: string): Option<ConfigPatch> {
    if engine == "mimic" then Some(Mimic)
    else if engine == "mimic2" then Some(Mimic2)
    else if engine == "pico" then Some(Pico)
    else if engine == "larynx" then Some(Larynx)
    else None
  }

  /** A TTS patch is applied exactly for the engine names of the four TTS patches. */
  lemma TtsPatchByName(engine: string, p: ConfigPatch)
    ensures TtsPatchFor(engine) == Some(p) <==> IsTts(p) && TtsEngineName(p) == engine
  {
  }

  /** Every answer of the TTS voice menu leads to an engine that has a patch. */
  lemma TtsAnswerHasPatch(ans: string)
    ensures TtsPatchFor(TtsEngineFor(ans)).Some?
  {
  }

  /** The four offered options select four different engines. */
  lemma TtsOptionsDistinct(i: int, j: int)
    requires 0 <= i < |TtsOptions| && 0 <= j < |TtsOptions|
    ensures TtsEngineFor(TtsOptions[i]) == TtsEngineFor(TtsOptions[j]) ==> i == j
  {
  }
}
