/** Backend kinds and the classification of a pairing URL (`PairingSkill.backend_type`). */
module Backends {
  import opened Wrappers
  import opened Text

  /** `BackendType`: a `str` enum whose values are the names below. */
  datatype BackendType = Offline | Personal | Selene

  /** The string value of each `BackendType` member. */
  function Name(b: BackendType): (name: string)
    ensures |name| > 0
  {
    match b
    case Offline => "offline"
    case Personal => "personal"
    case Selene => "selene"
  }

  /** The member whose value is `v`, as the handlers compare the `backend` field of a
      GUI message against the enum; `None` for any other text. */
  function BackendNamed(v: string): (b: Option<BackendType>)
    ensures b.Some? ==> Name(b.value) == v
  {
    if v == "offline" then Some(Offline)
    else if v == "personal" then Some(Personal)
    else if v == "selene" then Some(Selene)
    else None
  }

  /** Every member is recognised by its own value. */
  lemma BackendNameRoundTrip(b: BackendType)
    ensures BackendNamed(Name(b)) == Some(b)
  {
  }

  /** The separator after which `backend_type` looks for the host. */
  const SchemeSep: string := "://"

  /** The host the skill stores for the Mycroft (Selene) backend. */
  const SeleneHost: string := "home.mycroft.ai"

  /** `url.split("://")[-1]`: the text after the last scheme separator. */
  function HostPart(url: string): string {
    Last(Split(url, SchemeSep))
  }

  /** `backend_type`: classifies the stored pairing URL by the text after its last `://`. */
  function BackendTypeOf(url: string): BackendType {
    var host := HostPart(url);
    if host == "" then Offline
    else if host == SeleneHost then Selene
    else Personal
  }

  /** A string in which no `:` is followed by `/` holds no scheme separator. */
  lemma NoSeparatorWithoutColonSlash(s: string)
    requires forall i :: 0 <= i < |s| - 1 && s[i] == ':' ==> s[i + 1] != '/'
    ensures !Contains(s, SchemeSep)
  {
    NoOccurrenceWithoutPair(s, SchemeSep);
  }

  /** The three characters of an occurrence of the scheme separator. */
  lemma SeparatorChars(s: string, i: int)
    requires OccursAt(s, SchemeSep, i)
    ensures s[i] == ':' && s[i + 1] == '/' && s[i + 2] == '/'
  {
    assert s[i..i + 3][0] == ':' && s[i..i + 3][1] == '/' && s[i..i + 3][2] == '/';
  }

  /** What `LastPieceShape` says of the last piece `tail` of `s.split("://")`, where
      `split` tells whether anything was split off. */
  predicate LastPiece(s: string, split: bool, tail: string) {
    |tail| <= |s| && s[|s| - |tail|..] == tail && !Contains(tail, SchemeSep) &&
    (!split ==> tail == s) &&
    (split ==> |tail| + 3 <= |s| && OccursAt(s, SchemeSep, |s| - |tail| - 3))
  }

  /** The shape of the host part, stated without `Split`. */
  lemma HostPartShape(url: string) returns (split: bool)
    ensures LastPiece(url, split, HostPart(url))
  {
    LastPieceShape(url, SchemeSep);
    split := |Split(url, SchemeSep)| > 1;
  }

  /** A host without a scheme separator is its own host part. */
  lemma HostPartOfBareHost(host: string)
    requires !Contains(host, SchemeSep)
    ensures HostPart(host) == host
  {
    var split := HostPartShape(host);
  }

  /** Whatever the scheme, the host part of `scheme://host` is `host`, provided the host
      itself holds no `://`. */
  lemma HostPartAfterScheme(scheme: string, host: string)
    requires !Contains(host, SchemeSep)
    ensures HostPart(scheme + SchemeSep + host) == host
  {
    var s := scheme + SchemeSep + host;
    var split := HostPartShape(s);
    LastPieceAfterScheme(scheme, host, s, split, HostPart(s));
  }

  /** In `scheme://host`, with no `://` inside the host, every occurrence of the separator
      either is the one after the scheme or lies wholly inside the scheme. */
  lemma SeparatorPositions(scheme: string, host: string, i: int)
    requires !Contains(host, SchemeSep)
    requires OccursAt(scheme + SchemeSep + host, SchemeSep, i)
    ensures i == |scheme| || i + 3 <= |scheme|
  {
    var s := scheme + SchemeSep + host;
    var n := |scheme|;
    SeparatorChars(s, i);
    assert s[n] == ':' && s[n + 1] == '/' && s[n + 2] == '/';
    if i >= n + 3 {
      assert s[i..i + 3] == host[i - n - 3..i - n];
      assert OccursAt(host, SchemeSep, i - n - 3);
    }
  }

  /** The reasoning behind `HostPartAfterScheme`: the separator that precedes the last
      piece can only be the one written after the scheme. */
  lemma LastPieceAfterScheme(scheme: string, host: string, s: string, split: bool, tail: string)
    requires !Contains(host, SchemeSep)
    requires s == scheme + SchemeSep + host
    requires LastPiece(s, split, tail)
    ensures tail == host
  {
    var n := |scheme|;
    assert s[n..n + 3] == SchemeSep;
    assert OccursAt(s, SchemeSep, n);
    assert split;
    var q := |s| - |tail| - 3;
    SeparatorPositions(scheme, host, q);
    if q + 3 <= n {
      assert tail[n - q - 3..n - q] == s[n..n + 3];
      assert OccursAt(tail, SchemeSep, n - q - 3);
      assert false;
    }
    assert s[n + 3..] == host;
  }

  /** The host part is empty exactly when the URL is empty or ends with `://`. */
  lemma EmptyHostPart(url: string)
    ensures HostPart(url) == "" <==> (url == "" || EndsWith(url, SchemeSep))
  {
    var split := HostPartShape(url);
    EmptyLastPiece(url, split, HostPart(url));
  }

  /** The reasoning behind `EmptyHostPart`. */
  lemma EmptyLastPiece(url: string, split: bool, tail: string)
    requires LastPiece(url, split, tail)
    ensures tail == "" <==> (url == "" || EndsWith(url, SchemeSep))
  {
    if EndsWith(url, SchemeSep) {
      var e := |url| - 3;
      assert url[e..e + 3] == SchemeSep;
      assert OccursAt(url, SchemeSep, e);
      SeparatorChars(url, e);
      assert split;
      var q := |url| - |tail| - 3;
      SeparatorChars(url, q);
      if |tail| >= 3 {
        assert tail[|tail| - 3..] == url[e..];
        assert OccursAt(tail, SchemeSep, |tail| - 3);
        assert false;
      } else if |tail| > 0 {
        assert false;
      }
    }
  }

  /** `backend_type` is OFFLINE exactly when the stored URL is empty or ends with `://`. */
  lemma OfflineExactlyWithoutHost(url: string)
    ensures BackendTypeOf(url) == Offline <==> (url == "" || EndsWith(url, SchemeSep))
  {
    EmptyHostPart(url);
  }

  /** `backend_type` is SELENE exactly for `home.mycroft.ai` with or without a scheme in front. */
  lemma SeleneExactlyForMycroftHome(url: string)
    ensures BackendTypeOf(url) == Selene <==>
      (url == SeleneHost || EndsWith(url, SchemeSep + SeleneHost))
  {
    NoSeparatorWithoutColonSlash(SeleneHost);
    if url == SeleneHost {
      HostPartOfBareHost(url);
    } else if EndsWith(url, SchemeSep + SeleneHost) {
      var scheme := url[..|url| - |SchemeSep + SeleneHost|];
      assert url == scheme + SchemeSep + SeleneHost;
      HostPartAfterScheme(scheme, SeleneHost);
    } else if HostPart(url) == SeleneHost {
      var split := HostPartShape(url);
      SeleneLastPiece(url, split, HostPart(url));
    }
  }

  /** The reasoning behind the forward direction of `SeleneExactlyForMycroftHome`. */
  lemma SeleneLastPiece(url: string, split: bool, tail: string)
    requires LastPiece(url, split, tail) && tail == SeleneHost
    ensures url == SeleneHost || EndsWith(url, SchemeSep + SeleneHost)
  {
    if split {
      var k := |url| - |tail| - 3;
      assert url[k..] == url[k..k + 3] + url[k + 3..];
      assert url[|url| - |SchemeSep + SeleneHost|..] == SchemeSep + SeleneHost;
    }
  }

  /** Every other stored URL classifies as PERSONAL. */
  lemma PersonalOtherwise(url: string)
    ensures BackendTypeOf(url) == Personal <==>
      !(url == "" || EndsWith(url, SchemeSep)) &&
      !(url == SeleneHost || EndsWith(url, SchemeSep + SeleneHost))
  {
    OfflineExactlyWithoutHost(url);
    SeleneExactlyForMycroftHome(url);
  }

  /** The bare Mycroft host, as `handle_selene_selected` stores it, classifies as SELENE. */
  lemma MycroftHomeIsSelene()
    ensures BackendTypeOf(SeleneHost) == Selene
  {
    SeleneExactlyForMycroftHome(SeleneHost);
  }

  /** So does the Mycroft host behind any scheme, `https://home.mycroft.ai` among them. */
  lemma MycroftHomeBehindSchemeIsSelene(scheme: string)
    ensures BackendTypeOf(scheme + SchemeSep + SeleneHost) == Selene
  {
    var url := scheme + SchemeSep + SeleneHost;
    assert url[|url| - |SchemeSep + SeleneHost|..] == SchemeSep + SeleneHost;
    SeleneExactlyForMycroftHome(url);
  }

  /** The empty URL stored by the offline path classifies as OFFLINE. */
  lemma EmptyUrlIsOffline()
    ensures BackendTypeOf("") == Offline
  {
    OfflineExactlyWithoutHost("");
  }
}
