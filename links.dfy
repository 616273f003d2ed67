/** `Links` (src/links.mjs): links to a sutta in the voice and EBT web
    applications. */
module Links {
  import opened Wrappers
  import opened Js

  const VoiceBase: string := "https://voice.suttacentral.net/scv/#"
  const DhammaregenBase: string := "https://dhammaregen.net/#/sutta/"
  const ScVoiceBase: string := "https://sc-voice.net/#/sutta/"

  /** The language the voice link asks for: Pali and a missing or empty
      language become English, any other language is kept. */
  function VoiceLang(lang: Option<string>): (r: string)
    ensures r == "en" <==> lang.None? || lang.value in {"", "pli", "en"}
    ensures r != "en" ==> lang == Some(r)
    ensures r != "pli" && r != ""
  {
    if lang == Some("pli") then "en" else Or(lang, "en")
  }

  const SearchKey: string := "/?search="
  const LangKey: string := "&lang="

  /** `voiceLink(suttaRef)`: the voice base and the search for the sutta in
      that language, joined by "/". The search's uid and language are read
      back from fixed positions of the link. */
  function VoiceLink(suttaUid: string, lang: Option<string>): (r: string)
    ensures VoiceBase + SearchKey <= r
    ensures var p := |VoiceBase + SearchKey|;
      && p + |suttaUid| <= |r|
      && r[p..p + |suttaUid|] == suttaUid
      && r[p + |suttaUid|..] == LangKey + VoiceLang(lang)
  {
    var search := "?search=" + suttaUid + "&lang=" + VoiceLang(lang);
    var r := Join([VoiceBase, search], "/");
    assert Join([search], "/") == search;
    assert r == VoiceBase + "/" + search;
    assert r == VoiceBase + SearchKey + suttaUid + (LangKey + VoiceLang(lang));
    r
  }

  /** A uid without "&" is determined by its voice link, and so is the
      language asked for. */
  lemma VoiceLinkDecodes(u1: string, l1: Option<string>, u2: string, l2: Option<string>)
    requires '&' !in u1 && '&' !in u2
    requires VoiceLink(u1, l1) == VoiceLink(u2, l2)
    ensures u1 == u2 && VoiceLang(l1) == VoiceLang(l2)
  {
    var tail1, tail2 := LangKey[1..] + VoiceLang(l1), LangKey[1..] + VoiceLang(l2);
    var p := |VoiceBase + SearchKey|;
    assert VoiceLink(u1, l1)[p..] == u1 + ['&'] + tail1;
    assert VoiceLink(u2, l2)[p..] == u2 + ['&'] + tail2;
    SplitAtFirst(u1, tail1, u2, tail2, '&');
    assert VoiceLang(l1) == tail1[|LangKey| - 1..];
    assert VoiceLang(l2) == tail2[|LangKey| - 1..];
  }

  /** The part before the first separator is determined. */
  lemma SplitAtFirst<T>(a: seq<T>, x: seq<T>, b: seq<T>, y: seq<T>, sep: T)
    requires sep !in a && sep !in b
    requires a + [sep] + x == b + [sep] + y
    ensures a == b && x == y
  {
    var s := a + [sep] + x;
    assert forall i :: 0 <= i < |a| ==> s[i] == a[i] != sep;
    assert forall i :: 0 <= i < |b| ==> s[i] == b[i] != sep;
    assert s[|a|] == sep && s[|b|] == sep;
    assert |a| == |b|;
    assert a == s[..|a|] == b;
    assert x == s[|a| + 1..] == y;
  }

  lemma VoiceLinkPaliIsEnglish(suttaUid: string)
    ensures VoiceLink(suttaUid, Some("pli")) == VoiceLink(suttaUid, Some("en"))
    ensures VoiceLink(suttaUid, None) == VoiceLink(suttaUid, Some("en"))
  {
  }

  /** `ebtSuttaRefLink(sref)`. `lang` is the parsed reference's language
      (`None` when it has none) and `ref` its `toString()`; parsing the
      reference (`SuttaRef.create`) is not part of this model. German
      references go to dhammaregen.net, all others to sc-voice.net. */
  function EbtSuttaRefLink(lang: Option<string>, ref: string): (r: string)
    ensures lang == Some("de") ==> r == DhammaregenBase + ref
    ensures lang != Some("de") ==> r == ScVoiceBase + ref
  {
    match lang.GetOr("en")
    case "de" => DhammaregenBase + ref
    case _ => ScVoiceBase + ref
  }

  /** The host alone tells which kind of link it is, and the reference is
      recovered from the link. */
  lemma EbtLinkDecodes(lang: Option<string>, ref: string)
    ensures var r := EbtSuttaRefLink(lang, ref);
      && (DhammaregenBase <= r <==> lang == Some("de"))
      && (lang == Some("de") ==> r[|DhammaregenBase|..] == ref)
      && (lang != Some("de") ==> r[|ScVoiceBase|..] == ref)
  {
    var r := EbtSuttaRefLink(lang, ref);
    if lang != Some("de") {
      assert r[8] == 's' && DhammaregenBase[8] == 'd';
      assert !(DhammaregenBase <= r);
    }
  }
}
