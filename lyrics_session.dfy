/** The module state of content.js (content.js:14-18) and the steps that
    change it: `tick` noticing a new track (content.js:1081-1090), the
    continuations of `loadLyrics` after each of its awaits
    (content.js:758-871), and `updateLyricHighlight` (content.js:992-1057).
    The browser may run `tick` between any two continuations; each
    continuation therefore checks the key it started with against the
    current one, as the source does. */
module Session {
  import opened Lyrics
  import opened Strings
  import opened LrcParser
  import opened LyricsCache
  import opened Cursor

  /** `${title}///${artist}`: the key of a track. */
  function TrackKey(title: string, artist: string): (k: string)
    ensures |k| == |title| + 3 + |artist|
    ensures k[..|title|] == title && k[|title| + 3..] == artist
  {
    title + "///" + artist
  }

  /** What the lyrics panel shows. */
  datatype Display = Blank | Loading | NoLyricsShown | Shown(lines: seq<Line>)

  /** Where `loadLyrics` stands after a step: finished, waiting for the
      `GET_LYRICS` answer, or waiting for `applyTranslations` on the parsed
      lines. */
  datatype Next = Done | AwaitLyrics | AwaitTranslation(parsed: seq<Line>)

  class LyricsSession {
    var currentKey: Option<string>
    var lyricsData: seq<Line>
    var hasTimestamp: bool
    var dynamicLines: Option<seq<DynLine>>
    var lastActiveIndex: int
    /** The extension's local storage. */
    var store: map<string, Stored>
    var display: Display

    constructor (store: map<string, Stored>)
      ensures currentKey == None && lyricsData == [] && !hasTimestamp && dynamicLines == None
      ensures lastActiveIndex == -1 && this.store == store && display == Blank
    {
      currentKey := None;
      lyricsData := [];
      hasTimestamp := false;
      dynamicLines := None;
      lastActiveIndex := -1;
      this.store := store;
      display := Blank;
    }

    /** The key test every continuation of `loadLyrics` makes. */
    predicate IsCurrent(thisKey: string)
      reads this
    {
      currentKey == Some(thisKey)
    }

    /** `tick` with the player open: a track whose key differs from the
        current one becomes current, its lyrics are cleared and loading
        starts. */
    method Tick(title: string, artist: string) returns (startLoad: bool)
      modifies this`currentKey, this`lyricsData, this`display
      ensures startLoad <==> old(currentKey) != Some(TrackKey(title, artist))
      ensures currentKey == Some(TrackKey(title, artist))
      ensures startLoad ==> lyricsData == [] && display == Loading
      ensures !startLoad ==> lyricsData == old(lyricsData) && display == old(display)
    {
      var key := TrackKey(title, artist);
      startLoad := currentKey != Some(key);
      if startLoad {
        currentKey := Some(key);
        lyricsData := [];
        display := Loading;
      }
    }

    /** `loadLyrics` from its key check on (content.js:757-796): a stale
        key stops it; otherwise the cache is read, the DynamicLyrics
        records come from the cache, a track known to have no lyrics shows
        the empty panel, a track with nothing cached waits for the
        service, and cached lyrics go on to be parsed. */
    method OnCacheRead(thisKey: string, useTrans: bool) returns (next: Next)
      modifies this`dynamicLines, this`display, this`hasTimestamp, this`lyricsData
      ensures !old(IsCurrent(thisKey)) ==>
        && next == Done && dynamicLines == old(dynamicLines) && display == old(display)
        && lyricsData == old(lyricsData) && hasTimestamp == old(hasTimestamp)
      ensures old(IsCurrent(thisKey)) ==> var v := ReadCache(StorageGet(old(store), thisKey));
        && dynamicLines == v.dyn
        && (Decide(v).Fetch? ==>
              next == AwaitLyrics && display == old(display)
              && lyricsData == old(lyricsData) && hasTimestamp == old(hasTimestamp))
        && (Decide(v).RenderEmpty? ==>
              next == Done && display == NoLyricsShown
              && lyricsData == old(lyricsData) && hasTimestamp == old(hasTimestamp))
        && (Decide(v).UseData? ==>
              AfterFetchState(thisKey, v.data, useTrans, next, old(display), old(lyricsData), old(hasTimestamp)))
    {
      if !IsCurrent(thisKey) {
        return Done;
      }
      var v := ReadCache(StorageGet(store, thisKey));
      dynamicLines := v.dyn;
      var d := Decide(v);
      if d.RenderEmpty? {
        display := NoLyricsShown;
        return Done;
      }
      if d.Fetch? {
        return AwaitLyrics;
      }
      next := AfterFetch(thisKey, v.data, useTrans);
    }

    /** The continuation after the `GET_LYRICS` answer (content.js:814-846):
        the records of a usable answer replace those held; the entry
        written back while the key is current carries the records
        `dynamicLines` then holds; no lyrics leave the sentinel, again only
        while the key is current. */
    method OnLyricsReply(thisKey: string, res: LyricsReply, useTrans: bool) returns (next: Next)
      modifies this`dynamicLines, this`display, this`hasTimestamp, this`lyricsData, this`store
      ensures dynamicLines == HeldDyn(res, old(dynamicLines))
      ensures var w := WriteBack(res, old(IsCurrent(thisKey)), old(dynamicLines));
        store == if w.Some? then old(store)[thisKey := w.value] else old(store)
      ensures AfterFetchState(thisKey, if Usable(res) then res.lyrics.value else [], useTrans, next,
                              old(display), old(lyricsData), old(hasTimestamp))
    {
      var data: string := [];
      if Usable(res) {
        data := res.lyrics.value;
      }
      var w := WriteBack(res, IsCurrent(thisKey), dynamicLines);
      dynamicLines := HeldDyn(res, dynamicLines);
      if w.Some? {
        store := store[thisKey := w.value];
      }
      next := AfterFetch(thisKey, data, useTrans);
    }

    /** What the part of `loadLyrics` after the fetch (content.js:849-870)
        leaves behind, from the panel `display0`, the lines `lines0` and
        the flag `ts0` it found: nothing changed for a stale key; the empty
        panel without lyrics; otherwise the parsed lines, shown at once or
        handed to the translation step with the lines and panel left as
        they were. */
    ghost predicate AfterFetchState(thisKey: string, data: string, useTrans: bool, next: Next,
                                    display0: Display, lines0: seq<Line>, ts0: bool)
      reads this
    {
      if !IsCurrent(thisKey) then
        next == Done && display == display0 && lyricsData == lines0 && hasTimestamp == ts0
      else if data == [] then
        next == Done && display == NoLyricsShown && lyricsData == lines0 && hasTimestamp == ts0
      else
        var parsed := ParseLrc(data);
        && hasTimestamp == parsed.hasTs
        && (useTrans ==> next == AwaitTranslation(parsed.lines) && lyricsData == lines0 && display == display0)
        && (!useTrans ==> next == Done && lyricsData == parsed.lines && display == Shown(parsed.lines))
    }

    method AfterFetch(thisKey: string, data: string, useTrans: bool) returns (next: Next)
      modifies this`display, this`hasTimestamp, this`lyricsData
      ensures AfterFetchState(thisKey, data, useTrans, next, old(display), old(lyricsData), old(hasTimestamp))
    {
      if !IsCurrent(thisKey) {
        return Done;
      }
      if data == [] {
        display := NoLyricsShown;
        return Done;
      }
      var parsed := ParseLrcInternal(data);
      hasTimestamp := parsed.hasTs;
      if useTrans {
        return AwaitTranslation(parsed.lines);
      }
      lyricsData := parsed.lines;
      display := Shown(parsed.lines);
      return Done;
    }

    /** The continuation after `applyTranslations`: the lines are kept and
        shown only if the track is still the current one. */
    method OnTranslated(thisKey: string, finalLines: seq<Line>)
      modifies this`lyricsData, this`display
      ensures IsCurrent(thisKey) ==> lyricsData == finalLines && display == Shown(finalLines)
      ensures !IsCurrent(thisKey) ==> lyricsData == old(lyricsData) && display == old(display)
    {
      if IsCurrent(thisKey) {
        lyricsData := finalLines;
        display := Shown(finalLines);
      }
    }

    /** `updateLyricHighlight(t)`: nothing happens outside the immersive
        layout, without lines or without timestamps; otherwise the
        highlight is that of `Step` and `lastActiveIndex` follows it. */
    method UpdateHighlight(t: int, layoutActive: bool) returns (h: Option<Highlight>)
      modifies this`lastActiveIndex
      ensures !layoutActive || lyricsData == [] || !hasTimestamp ==> h.None? && lastActiveIndex == old(lastActiveIndex)
      ensures layoutActive && lyricsData != [] && hasTimestamp ==>
        var r := Step(lyricsData, dynamicLines, t, old(lastActiveIndex));
        h == Some(r.0) && lastActiveIndex == r.1
    {
      if !layoutActive || lyricsData == [] || !hasTimestamp {
        return None;
      }
      var r := Step(lyricsData, dynamicLines, t, lastActiveIndex);
      lastActiveIndex := r.1;
      return Some(r.0);
    }
  }

  /** A track whose lyrics were fetched and cached shows them on the next
      visit without a second request: the whole path from the empty cache
      through the answer to the next cache read. */
  method FetchThenRevisit(title: string, artist: string, lyrics: string) returns (first: Next, second: Next, shown: Display)
    requires !IsBlank(lyrics) && lyrics != NoLyricsSentinel
    ensures first == AwaitLyrics && second == Done
    ensures shown == Shown(ParseLrc(lyrics).lines)
  {
    var s := new LyricsSession(map[]);
    var started := s.Tick(title, artist);
    var key := TrackKey(title, artist);
    first := s.OnCacheRead(key, false);
    var _ := s.OnLyricsReply(key, Reply(true, Some(lyrics), None), false);
    second := s.OnCacheRead(key, false);
    shown := s.display;
  }
}
