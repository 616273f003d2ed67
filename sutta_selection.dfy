/** The pure decision rules inside `SuttaStore`'s asynchronous methods
    (src/sutta-store.cjs): the language, translation and author choice of
    `mldResult`, its quote, short author name and title, the find pattern of
    `loadBilaraSutta`, and the language and grep limit of `search`. */
module SuttaSelection {
  import opened Wrappers
  import opened Js

  /** One translation of a multilingual document. */
  datatype Translation = Translation(lang: Option<string>, authorUid: Option<string>, collection: Option<string>)

  /** The fields of a multilingual document that `mldResult` reads. */
  datatype MlDoc = MlDoc(
    trilingual: bool,
    docLang: Option<string>,
    lang: Option<string>,
    translations: seq<Translation>)

  /** A segment as far as the quote choice is concerned. */
  datatype Segment = Segment(scid: string, matched: bool)

  /** What `mldResult` settles on: the language, the index of the chosen
      translation (`trans`, absent when there are none) and the author id. */
  datatype Choice = Choice(lang: string, translation: Option<nat>, authorUid: string)

  /** The language `mldResult` asks for before looking at the translations. */
  function RequestedLang(mld: MlDoc, lang: Option<string>): (r: string)
    ensures r != ""
    ensures mld.trilingual ==> r == if Truthy(mld.docLang) then mld.docLang.value else Or(lang, "en")
    ensures !mld.trilingual ==> r == if Truthy(lang) then lang.value else Or(mld.lang, "en")
  {
    if mld.trilingual then Or(mld.docLang, Or(lang, "en")) else Or(lang, Or(mld.lang, "en"))
  }

  /** `translations.filter((t) => t.lang === lang)[0]`, as an index. */
  function FirstWithLang(ts: seq<Translation>, lang: string): (r: Option<nat>)
    ensures r.Some? ==> (r.value < |ts| && ts[r.value].lang == Some(lang)
      && forall k :: 0 <= k < r.value ==> ts[k].lang != Some(lang))
    ensures r.None? ==> forall k :: 0 <= k < |ts| ==> ts[k].lang != Some(lang)
  {
    if ts == [] then None
    else if ts[0].lang == Some(lang) then Some(0)
    else match FirstWithLang(ts[1..], lang)
      case None => None
      case Some(k) => Some(k + 1)
  }

  /** The language, translation and author fallback of `mldResult`. */
  function ChooseTranslation(mld: MlDoc, lang: Option<string>): (r: Choice)
    ensures r.lang != "" && r.authorUid != ""
    ensures r.translation.Some? ==> r.translation.value < |mld.translations|
    // a translation in the requested language wins, the first one of them
    ensures forall k :: 0 <= k < |mld.translations| && mld.translations[k].lang == Some(RequestedLang(mld, lang)) ==>
      && r.lang == RequestedLang(mld, lang)
      && r.translation.Some? && r.translation.value <= k
      && mld.translations[r.translation.value].lang == Some(r.lang)
    // otherwise the first translation, and its language or 'pli'
    ensures ((forall k :: 0 <= k < |mld.translations| ==> mld.translations[k].lang != Some(RequestedLang(mld, lang)))
      && mld.translations != []) ==>
      r.translation == Some(0) && r.lang == Or(mld.translations[0].lang, "pli")
    // no translations at all: 'pli' by 'ms'
    ensures mld.translations == [] ==> r == Choice("pli", None, "ms")
    ensures r.translation.Some? ==> r.authorUid == Or(mld.translations[r.translation.value].authorUid, "ms")
  {
    var requested := RequestedLang(mld, lang);
    var ts := mld.translations;
    match FirstWithLang(ts, requested)
    case Some(k) => Choice(requested, Some(k), Or(ts[k].authorUid, "ms"))
    case None =>
      if ts == [] then Choice("pli", None, "ms")
      else Choice(Or(ts[0].lang, "pli"), Some(0), Or(ts[0].authorUid, "ms"))
  }

  /** The quote of `mldResult`: the first matched segment after the two title
      segments, else the first segment (absent when there is none). */
  function QuoteIndex(segments: seq<Segment>): (r: Option<nat>)
    ensures r.None? <==> segments == []
    ensures r.Some? ==> r.value < |segments|
    ensures r.Some? && r.value > 1 ==> (segments[r.value].matched
      && forall k :: 1 < k < r.value ==> !segments[k].matched)
    ensures r.Some? && r.value <= 1 ==> r.value == 0 && forall k :: 1 < k < |segments| ==> !segments[k].matched
  {
    FirstMatchedFrom(segments, 2)
  }

  function FirstMatchedFrom(segments: seq<Segment>, i: nat): (r: Option<nat>)
    requires i >= 2
    ensures r.None? <==> segments == []
    ensures r.Some? ==> r.value < |segments|
    ensures r.Some? && r.value >= i ==> (segments[r.value].matched
      && forall k :: i <= k < r.value ==> !segments[k].matched)
    ensures r.Some? && r.value < i ==> r.value == 0 && forall k :: i <= k < |segments| ==> !segments[k].matched
    decreases |segments| - i
  {
    if i >= |segments| then (if segments == [] then None else Some(0))
    else if segments[i].matched then Some(i)
    else FirstMatchedFrom(segments, i + 1)
  }

  /** `author_uid.charAt(0).toUpperCase() + author_uid.slice(1)`, or `null`
      for an empty id. */
  function AuthorShort(authorUid: string): (r: Option<string>)
    ensures r.None? <==> authorUid == ""
    ensures r.Some? ==> (|r.value| == |authorUid| && r.value[0] == UpperChar(authorUid[0])
      && r.value[1..] == authorUid[1..])
  {
    if authorUid == "" then None else Some([UpperChar(authorUid[0])] + authorUid[1..])
  }

  /** The author id `mldResult` settles on always has a short form. */
  lemma AuthorShortOfChoice(mld: MlDoc, lang: Option<string>)
    ensures AuthorShort(ChooseTranslation(mld, lang).authorUid).Some?
  {
  }

  const TitleSeparator: string := " • "

  /** `titles.slice(1).join(" • ")` */
  function Title(titles: seq<string>): (r: string)
    ensures |titles| <= 1 ==> r == ""
    ensures |titles| == 2 ==> r == titles[1]
  {
    Join(if titles == [] then [] else titles[1..], TitleSeparator)
  }

  lemma {:induction false} JoinAppend(parts: seq<string>, t: string, sep: string)
    requires parts != []
    ensures Join(parts + [t], sep) == Join(parts, sep) + sep + t
  {
    if |parts| == 1 {
      assert parts + [t] == [parts[0], t];
    } else {
      assert (parts + [t])[1..] == parts[1..] + [t];
      JoinAppend(parts[1..], t, sep);
    }
  }

  /** Each further title is added after the separator. */
  lemma TitleAppend(titles: seq<string>, t: string)
    requires |titles| >= 2
    ensures Title(titles + [t]) == Title(titles) + TitleSeparator + t
  {
    assert (titles + [t])[1..] == titles[1..] + [t];
    JoinAppend(titles[1..], t, TitleSeparator);
  }

  /** The find options of `loadBilaraSutta` that the model keeps. */
  datatype BilaraFind = BilaraFind(lang: string, pattern: string)

  /** `langTrans || language || scid.split("/")[1] || "en"`, then
      `scid/lang/translator` or, without a translator, `scid/lang`. */
  function LoadBilaraFind(scid: string, language: Option<string>, langTrans: Option<string>, translator: Option<string>): (r: BilaraFind)
    ensures r.lang != ""
    ensures Truthy(langTrans) ==> r.lang == langTrans.value
    ensures !Truthy(langTrans) && Truthy(language) ==> r.lang == language.value
    ensures !Truthy(langTrans) && !Truthy(language) ==>
      var parts := Split(scid, '/');
      r.lang == if |parts| > 1 && parts[1] != "" then parts[1] else "en"
    ensures r.pattern == scid + "/" + r.lang + (if Truthy(translator) then "/" + translator.value else "")
  {
    var parts := Split(scid, '/');
    var fromScid := if |parts| > 1 then Some(parts[1]) else None;
    var lang := Or(langTrans, Or(language, Or(fromScid, "en")));
    var pattern := if Truthy(translator) then scid + "/" + lang + "/" + translator.value else scid + "/" + lang;
    BilaraFind(lang, pattern)
  }

  /** `opts.language || opts.lang || "en"` in `search`. */
  function SearchLang(language: Option<string>, lang: Option<string>): (r: string)
    ensures r != ""
    ensures r == (if Truthy(language) then language.value else if Truthy(lang) then lang.value else "en")
  {
    Or(language, Or(lang, "en"))
  }

  /** `maxDoc = opts.maxResults ?? this.maxResults`. */
  function MaxDoc(maxResults: Option<int>, storeMaxResults: int): (r: int)
    ensures maxResults.Some? ==> r == maxResults.value
    ensures maxResults.None? ==> r == storeMaxResults
  {
    maxResults.GetOr(storeMaxResults)
  }

  /** `Math.max(500, maxDoc * 3)`: the grep asks for at least 500 results and
      at least three per wanted document. */
  function MaxGrepResults(maxDoc: int): (r: int)
    ensures r >= 500 && r >= 3 * maxDoc
    ensures r == 500 || r == 3 * maxDoc
  {
    if maxDoc * 3 > 500 then maxDoc * 3 else 500
  }
}
