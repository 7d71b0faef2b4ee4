/** The user-configuration patches built by `SetupManager` (`change_to_*`). */
module SetupConfig {
  import opened Wrappers
  import opened Backends

  /** The JSON values the patches are made of. */
  datatype Json = JBool(b: bool) | JStr(s: string) | JObj(fields: map<string, Json>)

  /** The value at `path` inside `j`, if every step of the path names a field. */
  function Lookup(j: Json, path: seq<string>): Option<Json>
    decreases |path|
  {
    if path == [] then Some(j)
    else match j
      case JObj(fields) => if path[0] in fields then Lookup(fields[path[0]], path[1..]) else None
      case _ => None
  }

  /** One `change_to_*` method of `SetupManager`: the engine (TTS or STT) and backend choices. */
  datatype ConfigPatch =
    | Mimic | Mimic2 | Larynx | Pico
    | Chromium | Vosk
    | SeleneServer | LocalServer(url: string) | NoServer

  predicate IsTts(p: ConfigPatch) { p.Mimic? || p.Mimic2? || p.Larynx? || p.Pico? }
  predicate IsStt(p: ConfigPatch) { p.Chromium? || p.Vosk? }
  predicate IsServer(p: ConfigPatch) { p.SeleneServer? || p.LocalServer? || p.NoServer? }

  /** The default host of `change_to_local_backend`. */
  const DefaultLocalUrl: string := "http://0.0.0.0:6712"

  /** The path appended to a server URL to reach its wake-word upload endpoint. */
  const UploadPath: string := "/precise/upload"

  /** The Mycroft API server `change_to_selene` configures. */
  const SeleneApiUrl: string := "https://api.mycroft.ai"

  /** The Mycroft wake-word upload endpoint `change_to_selene` configures. */
  const SeleneUploadUrl: string := "https://training.mycroft.ai/precise/upload"

  /** The top-level configuration sections a patch writes. */
  function Sections(p: ConfigPatch): set<string> {
    if IsTts(p) then {"tts"}
    else if IsStt(p) then {"stt"}
    else if p == NoServer then {"server"}
    else {"stt", "server", "listener"}
  }

  /** The plugin each engine patch selects as `module`. */
  function ModuleOf(p: ConfigPatch): string
    requires IsTts(p) || IsStt(p)
  {
    match p
    case Mimic => "ovos-tts-plugin-mimic"
    case Mimic2 => "ovos-tts-plugin-mimic2"
    case Larynx => "neon-tts-plugin-larynx-server"
    case Pico => "ovos-tts-plugin-pico"
    case Chromium => "ovos-stt-plugin-server"
    case Vosk => "ovos-stt-plugin-vosk-streaming"
  }

  /** The section an engine patch writes. */
  function SectionOf(p: ConfigPatch): string
    requires IsTts(p) || IsStt(p)
  {
    if IsTts(p) then "tts" else "stt"
  }

  /** The `server` and `listener` sections shared by the Selene and local backends. */
  function ServerSections(url: string, upload: string): map<string, Json> {
    map[
      "stt" := JObj(map["module" := JStr("ovos-stt-plugin-selene")]),
      "server" := JObj(map["url" := JStr(url), "version" := JStr("v1"), "disabled" := JBool(false)]),
      "listener" := JObj(map["wake_word_upload" := JObj(map["url" := JStr(upload)])])
    ]
  }

  /** The dictionary each `change_to_*` method passes to `update_user_config`. */
  function Render(p: ConfigPatch): (c: Json)
    ensures c.JObj? && c.fields.Keys == Sections(p)
  {
    match p
    case Mimic => JObj(map["tts" := JObj(map[
        "module" := JStr("ovos-tts-plugin-mimic"),
        "ovos-tts-plugin-mimic" := JObj(map["voice" := JStr("ap")])])])
    case Mimic2 => JObj(map["tts" := JObj(map[
        "module" := JStr("ovos-tts-plugin-mimic2"),
        "ovos-tts-plugin-mimic2" := JObj(map["voice" := JStr("kusal")])])])
    case Larynx => JObj(map["tts" := JObj(map[
        "module" := JStr("neon-tts-plugin-larynx-server"),
        "neon-tts-plugin-larynx-server" := JObj(map[
          "host" := JStr("http://tts.neon.ai"),
          "voice" := JStr("mary_ann"),
          "vocoder" := JStr("hifi_gan/vctk_small")])])])
    case Pico => JObj(map["tts" := JObj(map[
        "module" := JStr("ovos-tts-plugin-pico"),
        "ovos-tts-plugin-pico" := JObj(map[])])])
    case Chromium => JObj(map["stt" := JObj(map[
        "module" := JStr("ovos-stt-plugin-server"),
        "fallback_module" := JStr("ovos-stt-plugin-vosk"),
        "ovos-stt-plugin-vosk" := JObj(map[]),
        "ovos-stt-plugin-server" := JObj(map["url" := JStr("https://stt.openvoiceos.com/stt")])])])
    case Vosk => JObj(map["stt" := JObj(map[
        "module" := JStr("ovos-stt-plugin-vosk-streaming"),
        "fallback_module" := JStr(""),
        "ovos-stt-plugin-vosk" := JObj(map[]),
        "ovos-stt-plugin-vosk-streaming" := JObj(map[])])])
    case SeleneServer => JObj(ServerSections(SeleneApiUrl, SeleneUploadUrl))
    case LocalServer(url) => JObj(ServerSections(url, url + UploadPath))
    case NoServer => JObj(map["server" := JObj(map["disabled" := JBool(true)])])
  }

  /** Whether applying the patch also writes the dummy identity file
      (`change_to_local_backend` and `change_to_no_backend`). */
  predicate WritesDummyIdentity(p: ConfigPatch) {
    p.LocalServer? || p.NoServer?
  }

  /** Looking up a two-step path in an object. */
  lemma LookupTwo(c: Json, a: string, b: string)
    requires c.JObj? && a in c.fields && c.fields[a].JObj? && b in c.fields[a].fields
    ensures Lookup(c, [a, b]) == Some(c.fields[a].fields[b])
  {
    var inner := c.fields[a];
    assert [a, b][1..] == [b];
    assert Lookup(c, [a, b]) == Lookup(inner, [b]);
    assert [b][1..] == [];
    assert Lookup(inner, [b]) == Lookup(inner.fields[b], []);
  }

  /** Looking up a three-step path in an object. */
  lemma LookupThree(c: Json, a: string, b: string, d: string)
    requires c.JObj? && a in c.fields && c.fields[a].JObj? && b in c.fields[a].fields
    requires c.fields[a].fields[b].JObj? && d in c.fields[a].fields[b].fields
    ensures Lookup(c, [a, b, d]) == Some(c.fields[a].fields[b].fields[d])
  {
    assert [a, b, d][1..] == [b, d];
    LookupTwo(c.fields[a], b, d);
  }

  /** Every engine patch selects its plugin as `module` and carries that plugin's own
      configuration block beside it. */
  lemma EngineModuleConfigured(p: ConfigPatch)
    requires IsTts(p) || IsStt(p)
    ensures Lookup(Render(p), [SectionOf(p), "module"]) == Some(JStr(ModuleOf(p)))
    ensures Lookup(Render(p), [SectionOf(p), ModuleOf(p)]).Some?
    ensures Lookup(Render(p), [SectionOf(p), ModuleOf(p)]).value.JObj?
  {
    LookupTwo(Render(p), SectionOf(p), "module");
    LookupTwo(Render(p), SectionOf(p), ModuleOf(p));
  }

  /** The local-backend patch points the server at the given host and derives the
      wake-word upload endpoint from it. */
  lemma LocalServerUrls(url: string)
    ensures Lookup(Render(LocalServer(url)), ["server", "url"]) == Some(JStr(url))
    ensures Lookup(Render(LocalServer(url)), ["listener", "wake_word_upload", "url"]) ==
      Some(JStr(url + UploadPath))
  {
    LookupTwo(Render(LocalServer(url)), "server", "url");
    LookupThree(Render(LocalServer(url)), "listener", "wake_word_upload", "url");
  }

  /** With the default host the upload endpoint is `http://0.0.0.0:6712/precise/upload`. */
  lemma DefaultLocalUpload()
    ensures Lookup(Render(LocalServer(DefaultLocalUrl)), ["listener", "wake_word_upload", "url"]) ==
      Some(JStr("http://0.0.0.0:6712/precise/upload"))
  {
    LocalServerUrls(DefaultLocalUrl);
    assert DefaultLocalUrl + UploadPath == "http://0.0.0.0:6712/precise/upload";
  }

  /** The Selene patch is the local-backend patch for the Mycroft API server, except that
      wake words are uploaded to Mycroft's training server rather than to the API host. */
  lemma SeleneIsMycroftServer()
    ensures Render(SeleneServer).fields - {"listener"} ==
      Render(LocalServer(SeleneApiUrl)).fields - {"listener"}
    ensures Lookup(Render(SeleneServer), ["listener", "wake_word_upload", "url"]) ==
      Some(JStr(SeleneUploadUrl))
    ensures Lookup(Render(SeleneServer), ["listener", "wake_word_upload", "url"]) !=
      Lookup(Render(LocalServer(SeleneApiUrl)), ["listener", "wake_word_upload", "url"])
  {
    LookupThree(Render(SeleneServer), "listener", "wake_word_upload", "url");
    LocalServerUrls(SeleneApiUrl);
    assert (SeleneApiUrl + UploadPath)[8] == 'a' != SeleneUploadUrl[8];
  }

  /** Only server patches write `server.disabled`, and only the no-backend patch sets it. */
  lemma ServerDisabledOnlyWithoutBackend(p: ConfigPatch)
    ensures IsServer(p) ==> Lookup(Render(p), ["server", "disabled"]) == Some(JBool(p == NoServer))
    ensures !IsServer(p) ==> Lookup(Render(p), ["server", "disabled"]) == None
  {
    if IsServer(p) {
      LookupTwo(Render(p), "server", "disabled");
    } else {
      assert "server" !in Render(p).fields;
    }
  }

  /** Each STT patch names a fallback plugin that it also configures, except the streaming
      Vosk patch, which disables the fallback so that Vosk is not loaded twice. */
  lemma SttFallbackConfigured(p: ConfigPatch)
    requires IsStt(p)
    ensures Lookup(Render(p), ["stt", "fallback_module"]).Some?
    ensures var f := Lookup(Render(p), ["stt", "fallback_module"]).value;
      f.JStr? && (f.s == "" <==> p == Vosk) &&
      (f.s != "" ==> f.s != ModuleOf(p) && Lookup(Render(p), ["stt", f.s]).Some?)
  {
    LookupTwo(Render(p), "stt", "fallback_module");
    if p == Chromium {
      LookupTwo(Render(p), "stt", "ovos-stt-plugin-vosk");
    }
  }

  /** The default local host is classified as a personal backend. */
  lemma DefaultLocalUrlIsPersonal()
    ensures BackendTypeOf(DefaultLocalUrl) == Personal
  {
    var host := "0.0.0.0:6712";
    assert forall i :: 0 <= i < |host| - 1 && host[i] == ':' ==> i == 7;
    NoSeparatorWithoutColonSlash(host);
    assert DefaultLocalUrl == "http" + SchemeSep + host;
    HostPartAfterScheme("http", host);
  }
}
