/** The `GET_TRANSLATION` handler of the background worker
    (background.js:304-357): the languages asked for, the query sent to the
    lyrics service, and the map of LRC texts the answer is turned into. */
module TranslationRequest {
  import opened Lyrics
  import opened Composer

  /** The languages asked for (background.js:315-317): the `langs` array
      when it is a non-empty array, else the single `lang` when it is set,
      else none. */
  function ReqLangs(langs: Option<seq<string>>, lang: string): (r: seq<string>)
    ensures r == [] <==> (langs.None? || langs.value == []) && lang == []
    ensures langs.Some? && langs.value != [] ==> r == langs.value
    ensures (langs.None? || langs.value == []) && lang != [] ==> r == [lang]
    ensures forall l :: l in r ==> (langs.Some? && l in langs.value) || l == lang
  {
    if langs.Some? && langs.value != [] then langs.value
    else if lang != [] then [lang]
    else []
  }

  /** One `lang` parameter per language, in order. */
  function LangParams(langs: seq<string>): (r: seq<(string, string)>)
    ensures |r| == |langs|
    ensures forall i :: 0 <= i < |langs| ==> r[i] == ("lang", langs[i])
  {
    if langs == [] then []
    else LangParams(langs[..|langs| - 1]) + [("lang", langs[|langs| - 1])]
  }

  /** The query of the request URL (background.js:308-319): the YouTube URL
      when there is one, else the video id, then the languages. */
  function QueryParams(youtubeUrl: string, videoId: string, reqLangs: seq<string>): (r: seq<(string, string)>)
    ensures youtubeUrl != [] ==> r == [("youtube_url", youtubeUrl)] + LangParams(reqLangs)
    ensures youtubeUrl == [] && videoId != [] ==> r == [("video_id", videoId)] + LangParams(reqLangs)
    ensures youtubeUrl == [] && videoId == [] ==> r == LangParams(reqLangs)
  {
    var id := if youtubeUrl != [] then [("youtube_url", youtubeUrl)]
              else if videoId != [] then [("video_id", videoId)]
              else [];
    id + LangParams(reqLangs)
  }

  /** The body of the service's answer: text that is not JSON (or JSON
      whose members cannot be read), or a JSON object with its
      `translations` and `missing_langs` members (None when falsy). A
      translation that is not a string is not modelled. */
  datatype TransBody = NotJson | Json(translations: Option<map<string, string>>, missing: Option<seq<string>>)

  /** The answer sent back to the content script. */
  datatype TransReply = TransFailure | TransSuccess(lrcMap: map<string, string>, missing: seq<string>)

  /** `lrcMap[l] = translations[l] || ''` for every requested language. */
  function LrcMap(reqLangs: seq<string>, translations: map<string, string>): (m: map<string, string>)
    ensures forall l :: l in m <==> l in reqLangs
    ensures forall l :: l in m ==> m[l] == (if l in translations then translations[l] else [])
  {
    map l | l in reqLangs :: if l in translations then translations[l] else []
  }

  /** The answer to a `GET_TRANSLATION` request whose download delivered
      `reply`: a failure when the download fails; otherwise a success,
      with an empty map when the text is not JSON. */
  function GetTranslation(reqLangs: seq<string>, reply: Fetched<TransBody>): (r: TransReply)
    ensures reply.Failed? <==> r.TransFailure?
    ensures reply.Got? && reply.body.NotJson? ==> r == TransSuccess(map[], [])
    ensures reply.Got? && reply.body.Json? ==>
      r == TransSuccess(LrcMap(reqLangs, reply.body.translations.GetOr(map[])), reply.body.missing.GetOr([]))
  {
    match reply
    case Failed => TransFailure
    case Got(NotJson) => TransSuccess(map[], [])
    case Got(Json(translations, missing)) =>
      TransSuccess(LrcMap(reqLangs, translations.GetOr(map[])), missing.GetOr([]))
  }

  /** What the content script keeps of the answer (content.js:663): the
      map of a successful answer, nothing otherwise. */
  function ReceivedMap(r: TransReply): (m: Option<map<string, string>>)
    ensures m.Some? <==> r.TransSuccess?
    ensures m.Some? ==> m.value == r.lrcMap
  {
    if r.TransSuccess? then Some(r.lrcMap) else None
  }

  // ----- what the answer promises -----

  /** Every requested language, and no other, has an entry in a JSON
      answer: its translation, or the empty string when the service has
      none. */
  lemma AnswerCoversRequest(reqLangs: seq<string>, translations: map<string, string>, missing: Option<seq<string>>)
    ensures var r := GetTranslation(reqLangs, Got(Json(Some(translations), missing)));
      && r.TransSuccess?
      && (forall l :: l in r.lrcMap <==> l in reqLangs)
      && (forall l :: l in reqLangs && l in translations ==> r.lrcMap[l] == translations[l])
      && (forall l :: l in reqLangs && l !in translations ==> r.lrcMap[l] == [])
  {
  }

  /** The content script turns to DeepL for exactly the requested
      languages the service had no (or an empty) translation for; after a
      failed request, for all of them. */
  lemma UntranslatedGoToDeepL(reqLangs: seq<string>, reply: Fetched<TransBody>, l: string)
    ensures var need := NeedDeepL(ReceivedMap(GetTranslation(reqLangs, reply)), reqLangs);
      && (reply.Failed? ==> (l in need <==> l in reqLangs))
      && (reply.Got? && reply.body.NotJson? ==> (l in need <==> l in reqLangs))
      && (reply.Got? && reply.body.Json? ==>
            var tr := reply.body.translations.GetOr(map[]);
            (l in need <==> l in reqLangs && (l !in tr || tr[l] == [])))
  {
    var received := ReceivedMap(GetTranslation(reqLangs, reply));
    if reply.Got? && reply.body.Json? && l in reqLangs {
      assert LrcFor(received, l) == received.value[l];
    }
  }

  /** The languages content.js asks for reach the service unchanged, in
      order, after the track's identifier. */
  lemma LanguagesInQuery(youtubeUrl: string, videoId: string, langs: seq<string>)
    requires langs != []
    ensures var q := QueryParams(youtubeUrl, videoId, ReqLangs(Some(langs), []));
      && |q| == |langs| + (if youtubeUrl != [] || videoId != [] then 1 else 0)
      && forall i :: 0 <= i < |langs| ==> q[|q| - |langs| + i] == ("lang", langs[i])
  {
  }
}
