/** The cache decisions of `loadLyrics` (content.js:765-846): what a stored
    entry says about a track, whether the lyrics service is asked, and
    what is written back after its answer. */
module LyricsCache {
  import opened Lyrics
  import opened Strings

  /** Stored for a track that was looked up and had no lyrics. */
  const NoLyricsSentinel: string := "__NO_LYRICS__"

  /** A stored entry: a plain string (lyrics or the sentinel), or the
      structured form with the lyrics, the DynamicLyrics records and the
      no-lyrics flag. A field is None when the stored object does not hold
      a value of the expected type there. */
  datatype Stored = Text(s: string) | Record(lyrics: Option<string>, dynamicLines: Option<seq<DynLine>>, noLyrics: bool)

  /** `storage.get(k)`: the stored value, with an empty string read as
      nothing (`res[k] || null`). */
  function StorageGet(store: map<string, Stored>, k: string): (r: Option<Stored>)
    ensures r.Some? ==> k in store && r.value == store[k] && r.value != Text([])
    ensures r.None? ==> k !in store || store[k] == Text([])
  {
    if k in store && store[k] != Text([]) then Some(store[k]) else None
  }

  /** What the cached entry yields: lyrics (`""` for none), DynamicLyrics
      records, and whether the track is known to have no lyrics. */
  datatype CacheView = CacheView(data: string, dyn: Option<seq<DynLine>>, noLyrics: bool)

  /** The classification of content.js:765-786: the sentinel, a legacy
      string, or the structured object. */
  function ReadCache(cached: Option<Stored>): (v: CacheView)
    ensures cached == Some(Text(NoLyricsSentinel)) ==> v == CacheView([], None, true)
    ensures cached.Some? && cached.value.Text? && cached.value.s != NoLyricsSentinel ==> v == CacheView(cached.value.s, None, false)
    ensures cached.None? ==> v == CacheView([], None, false)
    ensures cached.Some? && cached.value.Record? ==>
      v == CacheView(cached.value.lyrics.GetOr([]), cached.value.dynamicLines, cached.value.noLyrics)
    ensures v.dyn.Some? ==> cached.Some? && cached.value.Record?
  {
    match cached
    case None => CacheView([], None, false)
    case Some(Text(s)) => if s == NoLyricsSentinel then CacheView([], None, true) else CacheView(s, None, false)
    case Some(Record(lyrics, dyn, noLyrics)) => CacheView(lyrics.GetOr([]), dyn, noLyrics)
  }

  /** What `loadLyrics` does after reading the cache. */
  datatype Decision = RenderEmpty | Fetch | UseData(data: string)

  function Decide(v: CacheView): (d: Decision)
    ensures d.RenderEmpty? <==> v.data == [] && v.noLyrics
    ensures d.Fetch? <==> v.data == [] && !v.noLyrics
    ensures d.UseData? <==> v.data != []
    ensures d.UseData? ==> d.data == v.data
  {
    if v.data == [] && v.noLyrics then RenderEmpty
    else if v.data == [] then Fetch
    else UseData(v.data)
  }

  /** The answer to `GET_LYRICS`: nothing when the message failed. */
  datatype LyricsReply = NoReply | Reply(success: bool, lyrics: Option<string>, dynamicLines: Option<seq<DynLine>>)

  /** The answer carries lyrics that are not blank. */
  predicate Usable(res: LyricsReply) {
    res.Reply? && res.success && res.lyrics.Some? && !IsBlank(res.lyrics.value)
  }

  /** The DynamicLyrics records taken from a usable answer: only a
      non-empty array (content.js:818-820). */
  function FetchedDyn(res: LyricsReply): (d: Option<seq<DynLine>>)
    ensures d.Some? ==> Usable(res) && d == res.dynamicLines && d.value != []
    ensures Usable(res) && res.dynamicLines.Some? && res.dynamicLines.value != [] ==> d == res.dynamicLines
  {
    if Usable(res) && res.dynamicLines.Some? && res.dynamicLines.value != [] then res.dynamicLines else None
  }

  /** The records `dynamicLines` holds once the answer is in: those of the
      answer when it brings some, else the ones `held` since the cache was
      read. */
  function HeldDyn(res: LyricsReply, held: Option<seq<DynLine>>): (d: Option<seq<DynLine>>)
    ensures FetchedDyn(res).Some? ==> d == FetchedDyn(res)
    ensures FetchedDyn(res).None? ==> d == held
  {
    if FetchedDyn(res).Some? then FetchedDyn(res) else held
  }

  /** What is written for the track after the answer (content.js:823-846),
      given the records `held` before it: nothing for a stale key; the
      structured form when `dynamicLines` holds records (fetched now or
      read from the cache before), the plain lyrics otherwise; the
      sentinel when there were no lyrics. */
  function WriteBack(res: LyricsReply, stillCurrent: bool, held: Option<seq<DynLine>>): (w: Option<Stored>)
    ensures w.Some? <==> stillCurrent
    ensures stillCurrent && !Usable(res) ==> w == Some(Text(NoLyricsSentinel))
    ensures stillCurrent && Usable(res) && HeldDyn(res, held).Some? ==>
      w == Some(Record(res.lyrics, HeldDyn(res, held), false))
    ensures stillCurrent && Usable(res) && HeldDyn(res, held).None? ==> w == Some(Text(res.lyrics.value))
  {
    if !stillCurrent then None
    else if Usable(res) then
      var dyn := HeldDyn(res, held);
      if dyn.Some? then Some(Record(res.lyrics, dyn, false))
      else Some(Text(res.lyrics.value))
    else Some(Text(NoLyricsSentinel))
  }

  // ----- what the cache promises -----

  /** A cached sentinel, or a structured entry flagged as having no lyrics
      and holding none, makes the display empty without asking the
      service. */
  lemma CachedNoLyricsSkipsFetch(cached: Stored)
    requires cached == Text(NoLyricsSentinel)
          || (cached.Record? && cached.noLyrics && (cached.lyrics.None? || cached.lyrics.value == []))
    ensures Decide(ReadCache(Some(cached))) == RenderEmpty
  {
  }

  /** The service is asked exactly when the cache holds neither lyrics nor
      the no-lyrics mark. */
  lemma FetchIffNothingCached(store: map<string, Stored>, k: string)
    ensures var v := ReadCache(StorageGet(store, k));
      Decide(v) == Fetch <==> v.data == [] && !v.noLyrics
    ensures k !in store ==> Decide(ReadCache(StorageGet(store, k))) == Fetch
  {
  }

  /** The sentinel is written only while the key is current, and only
      after an answer without lyrics (or whose lyrics are the sentinel's
      own text). */
  lemma SentinelOnlyAfterFailure(res: LyricsReply, stillCurrent: bool, held: Option<seq<DynLine>>)
    ensures WriteBack(res, stillCurrent, held) == Some(Text(NoLyricsSentinel)) ==>
      stillCurrent && (!Usable(res) || res.lyrics.value == NoLyricsSentinel)
    ensures stillCurrent && !Usable(res) ==> WriteBack(res, stillCurrent, held) == Some(Text(NoLyricsSentinel))
  {
  }

  /** What is written back is read back: the next load of the same track
      finds the lyrics just fetched with the records `dynamicLines` held
      (the answer's, or those read from the cache before), or the
      no-lyrics mark, and never asks the service again. */
  lemma WriteBackReadBack(store: map<string, Stored>, k: string, res: LyricsReply, held: Option<seq<DynLine>>)
    requires Usable(res) ==> res.lyrics.value != NoLyricsSentinel
    ensures var v := ReadCache(StorageGet(store[k := WriteBack(res, true, held).value], k));
      && Decide(v) != Fetch
      && (Usable(res) ==> v.data == res.lyrics.value && v.dyn == HeldDyn(res, held))
      && (!Usable(res) ==> Decide(v) == RenderEmpty)
  {
  }

  /** A structured entry that holds records but no lyrics leads to a
      request; when the answer brings lyrics without records, the records
      read from the cache are stored again with the new lyrics. */
  lemma CachedRecordsSurviveFetch(lyrics: string, d: seq<DynLine>)
    requires !IsBlank(lyrics)
    ensures var v := ReadCache(Some(Record(None, Some(d), false)));
      && Decide(v) == Fetch
      && WriteBack(Reply(true, Some(lyrics), None), true, v.dyn) == Some(Record(Some(lyrics), Some(d), false))
  {
  }

  /** Lyrics that happen to read like the sentinel are stored as plain
      text and then read back as the no-lyrics mark. */
  lemma SentinelLyricsReadAsNoLyrics()
    ensures var res := Reply(true, Some(NoLyricsSentinel), None);
      Usable(res) && Decide(ReadCache(WriteBack(res, true, None))) == RenderEmpty
  {
    assert !IsSpace(NoLyricsSentinel[0]);
  }
}
