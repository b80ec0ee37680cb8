/** The `GET_LYRICS` handler of the background worker (background.js:205-302):
    the lyrics sources are tried in a fixed order, DynamicLyrics document,
    README file, LRCHub, LrcLib, and the answer reports whether lyrics were
    found. Each download is an input: what it delivered, or its failure. */
module LyricsResolver {
  import opened Lyrics
  import opened Strings
  import opened LyricsCache
  import opened DynamicLyrics
  import opened ReadmeLyrics
  import opened LrcLib

  /** The lyrics fields of an LRCHub answer object; a field is None unless
      it holds a string. */
  datatype HubFields = HubFields(synced: Option<string>, plain: Option<string>)

  /** The body of the LRCHub answer: text that is not JSON (JSON `null`,
      whose fields cannot be read, goes the same way), or a JSON value with
      its `response` member (None when that member is falsy) and its own
      fields. */
  datatype HubBody = NotJson | Json(response: Option<HubFields>, top: HubFields)

  /** `typeof f === 'string' ? f.trim() : ''`. */
  function TrimmedField(f: Option<string>): (r: string)
    ensures Trim(r) == r
    ensures f.None? ==> r == []
    ensures f.Some? ==> (r == [] <==> IsBlank(f.value))
  {
    match f
    case None => []
    case Some(s) =>
      TrimIdempotent(s);
      IsBlankIffTrimEmpty(s);
      Trim(s)
  }

  /** `json.response || json`: the object whose fields are read. */
  function HubObject(body: HubBody): HubFields
    requires body.Json?
  {
    body.response.GetOr(body.top)
  }

  /** The lyrics `fetchFromLrchub` resolves to (background.js:216-235): the
      trimmed synced lyrics when they are not blank, else the trimmed plain
      lyrics, else the empty string; nothing from text that is not JSON. */
  function HubLyrics(body: HubBody): (r: string)
    ensures Trim(r) == r
    ensures body.NotJson? ==> r == []
    ensures body.Json? ==> var o := HubObject(body);
      && (TrimmedField(o.synced) != [] ==> r == TrimmedField(o.synced))
      && (TrimmedField(o.synced) == [] ==> r == TrimmedField(o.plain))
  {
    match body
    case NotJson => []
    case Json(_, _) =>
      var o := HubObject(body);
      var synced := TrimmedField(o.synced);
      if synced != [] then synced else TrimmedField(o.plain)
  }

  /** The converted lyrics of the DynamicLyrics document, when one was
      fetched for a video id and they are not empty (`githubRes.lyrics`
      truthy). */
  function DynamicRoute(videoId: string, dynamic: Fetched<Option<seq<DynLine>>>): (r: Option<Converted>)
    ensures r.Some? ==> videoId != [] && dynamic.Got? && dynamic.body.Some?
    ensures r.Some? ==> r.value.dynamicLines == dynamic.body.value && !IsBlank(r.value.lyrics)
    ensures r.None? && videoId != [] && dynamic.Got? && dynamic.body.Some? ==>
      KeptRecords(dynamic.body.value) == []
  {
    if videoId == [] || dynamic.Failed? || dynamic.body.None? then None
    else
      var c := ConvertDynamic(dynamic.body).value;
      ConvertedLyricsNotBlank(dynamic.body.value);
      if c.lyrics != [] then Some(c) else None
  }

  /** The lyrics the README, LRCHub, LrcLib chain settles on
      (background.js:258-281); None when the LRCHub request is rejected,
      which skips LrcLib and fails the whole handler. */
  function ChainLyrics(videoId: string, track: string, artist: string, readme: Fetched<string>,
                       lrchub: Fetched<HubBody>, lrclib: Fetched<Option<seq<Hit>>>): (r: Option<string>)
    ensures Trim(ReadmeLyricsOf(videoId, readme)) != [] ==> r == Some(ReadmeLyricsOf(videoId, readme))
    ensures Trim(ReadmeLyricsOf(videoId, readme)) == [] ==>
      && (lrchub.Failed? ==> r.None?)
      && (lrchub.Got? && HubLyrics(lrchub.body) != [] ==> r == Some(HubLyrics(lrchub.body)))
      && (lrchub.Got? && HubLyrics(lrchub.body) == [] ==> r == Some(LrcLibLyrics(track, artist, lrclib)))
  {
    var fromReadme := ReadmeLyricsOf(videoId, readme);
    IsBlankIffTrimEmpty(fromReadme);
    if !IsBlank(fromReadme) then Some(fromReadme)
    else if lrchub.Failed? then None
    else
      var fromHub := HubLyrics(lrchub.body);
      IsBlankIffTrimEmpty(fromHub);
      if !IsBlank(fromHub) then Some(fromHub)
      else Some(LrcLibLyrics(track, artist, lrclib))
  }

  /** The answer of the `GET_LYRICS` handler. The DynamicLyrics route
      answers with the converted lyrics and the document's records; every
      other route answers without records, successfully exactly when its
      lyrics are not blank; a rejected LRCHub request answers a failure
      without lyrics. */
  function ResolveLyrics(videoId: string, track: string, artist: string,
                         dynamic: Fetched<Option<seq<DynLine>>>, readme: Fetched<string>,
                         lrchub: Fetched<HubBody>, lrclib: Fetched<Option<seq<Hit>>>): (r: LyricsReply)
    ensures r.Reply?
    ensures r.success <==> r.lyrics.Some? && !IsBlank(r.lyrics.value)
    ensures r.dynamicLines.Some? <==> DynamicRoute(videoId, dynamic).Some?
    ensures r.dynamicLines.Some? ==> r.dynamicLines == dynamic.body && r.lyrics == Some(DynamicRoute(videoId, dynamic).value.lyrics)
    ensures r.lyrics.None? <==> DynamicRoute(videoId, dynamic).None? && ChainLyrics(videoId, track, artist, readme, lrchub, lrclib).None?
    ensures DynamicRoute(videoId, dynamic).None? ==>
      r.lyrics == ChainLyrics(videoId, track, artist, readme, lrchub, lrclib) && r.dynamicLines.None?
  {
    match DynamicRoute(videoId, dynamic)
    case Some(c) => Reply(true, Some(c.lyrics), Some(c.dynamicLines))
    case None =>
      match ChainLyrics(videoId, track, artist, readme, lrchub, lrclib)
      case None => Reply(false, None, None)
      case Some(lyrics) => Reply(!IsBlank(lyrics), Some(lyrics), None)
  }

  // ----- what the cascade promises -----

  /** The content script keeps an answer's lyrics exactly when the handler
      reports success. */
  lemma UsableIffSuccess(videoId: string, track: string, artist: string,
                         dynamic: Fetched<Option<seq<DynLine>>>, readme: Fetched<string>,
                         lrchub: Fetched<HubBody>, lrclib: Fetched<Option<seq<Hit>>>)
    ensures var r := ResolveLyrics(videoId, track, artist, dynamic, readme, lrchub, lrclib);
      Usable(r) <==> r.success
  {
  }

  /** Without a video id neither GitHub source is consulted: the answer
      carries no records, and LRCHub decides (or LrcLib after it). */
  lemma NoVideoIdSkipsGithub(track: string, artist: string,
                             dynamic: Fetched<Option<seq<DynLine>>>, readme: Fetched<string>,
                             lrchub: Fetched<HubBody>, lrclib: Fetched<Option<seq<Hit>>>)
    ensures var r := ResolveLyrics([], track, artist, dynamic, readme, lrchub, lrclib);
      && r.dynamicLines.None?
      && r == ResolveLyrics([], track, artist, Failed, Failed, lrchub, lrclib)
      && (lrchub.Got? && HubLyrics(lrchub.body) != [] ==> r.lyrics == Some(HubLyrics(lrchub.body)))
  {
    assert Trim(ReadmeLyricsOf([], readme)) == [];
  }

  /** A DynamicLyrics document with a kept record wins over every other
      source, whatever they deliver. */
  lemma DynamicFirst(videoId: string, track: string, artist: string, doc: seq<DynLine>,
                     readme: Fetched<string>, lrchub: Fetched<HubBody>, lrclib: Fetched<Option<seq<Hit>>>)
    requires videoId != [] && KeptRecords(doc) != []
    ensures var r := ResolveLyrics(videoId, track, artist, Got(Some(doc)), readme, lrchub, lrclib);
      r == Reply(true, Some(ConvertDynamic(Some(doc)).value.lyrics), Some(doc))
  {
    ConvertedLyricsNotBlank(doc);
  }

  /** README lyrics with a timestamp tag win over LRCHub and LrcLib,
      whatever they deliver, once the DynamicLyrics route has nothing. */
  lemma ReadmeBeforeServices(videoId: string, track: string, artist: string,
                             dynamic: Fetched<Option<seq<DynLine>>>, text: string,
                             lrchub: Fetched<HubBody>, lrclib: Fetched<Option<seq<Hit>>>)
    requires videoId != [] && DynamicRoute(videoId, dynamic).None? && ReadmeText(text) != []
    ensures ResolveLyrics(videoId, track, artist, dynamic, Got(text), lrchub, lrclib)
      == Reply(true, Some(ReadmeText(text)), None)
  {
    IsBlankIffTrimEmpty(ReadmeText(text));
  }

  /** A rejected LRCHub request fails the handler: LrcLib is not asked. */
  lemma HubRejectionSkipsLrcLib(videoId: string, track: string, artist: string,
                                dynamic: Fetched<Option<seq<DynLine>>>, readme: Fetched<string>,
                                lrclib: Fetched<Option<seq<Hit>>>)
    requires DynamicRoute(videoId, dynamic).None? && ReadmeLyricsOf(videoId, readme) == []
    ensures ResolveLyrics(videoId, track, artist, dynamic, readme, Failed, lrclib) == Reply(false, None, None)
  {
  }

  /** LrcLib is the last resort: its reply matters only when LRCHub
      answered without lyrics. */
  lemma LrcLibOnlyAfterEmptyHub(videoId: string, track: string, artist: string,
                                dynamic: Fetched<Option<seq<DynLine>>>, readme: Fetched<string>,
                                lrchub: Fetched<HubBody>, lrclib1: Fetched<Option<seq<Hit>>>,
                                lrclib2: Fetched<Option<seq<Hit>>>)
    requires ResolveLyrics(videoId, track, artist, dynamic, readme, lrchub, lrclib1)
          != ResolveLyrics(videoId, track, artist, dynamic, readme, lrchub, lrclib2)
    ensures DynamicRoute(videoId, dynamic).None? && ReadmeLyricsOf(videoId, readme) == []
    ensures lrchub.Got? && HubLyrics(lrchub.body) == []
  {
  }

  /** Synced lyrics are preferred at LRCHub: plain lyrics are taken only
      when the synced ones are missing or blank. */
  lemma HubPrefersSynced(response: Option<HubFields>, top: HubFields)
    ensures var o := response.GetOr(top);
      && (o.synced.Some? && !IsBlank(o.synced.value) ==> HubLyrics(Json(response, top)) == Trim(o.synced.value))
      && (o.synced.None? || IsBlank(o.synced.value) ==> HubLyrics(Json(response, top)) == TrimmedField(o.plain))
  {
  }

  /** The `response` member, when truthy, hides the top-level fields. */
  lemma HubResponseShadowsTop(inner: HubFields, top1: HubFields, top2: HubFields)
    ensures HubLyrics(Json(Some(inner), top1)) == HubLyrics(Json(Some(inner), top2))
  {
  }
}
