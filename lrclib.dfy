/** The LrcLib search fallback of the background worker: `normalizeArtist`
    and `pickBestLrcLibHit` (background.js:31-75), which rank the search
    results in six tiers, and the field extraction of `fetchFromLrcLib`
    (background.js:77-111). */
module LrcLib {
  import opened Lyrics
  import opened Strings

  /** `(s || '').toLowerCase().replace(/\s+/g, '').trim()`; a missing name
      is the empty string. */
  function NormalizeArtist(s: string): (r: string)
    ensures forall i :: 0 <= i < |r| ==> !IsSpace(r[i]) && !('A' <= r[i] <= 'Z')
  {
    var r := RemoveSpaces(Lower(s));
    TrimOfTrimmed(r);
    LowerRemoveSpaces(s);
    assert forall i :: 0 <= i < |r| ==> r[i] == Lower(RemoveSpaces(s))[i];
    Trim(r)
  }

  /** Normalising a normalised name changes nothing. */
  lemma NormalizeArtistIdempotent(s: string)
    ensures NormalizeArtist(NormalizeArtist(s)) == NormalizeArtist(s)
  {
    var r := NormalizeArtist(s);
    assert Lower(r) == r;
    RemoveSpacesOfSpaceless(r);
    TrimOfTrimmed(r);
  }

  /** Names that differ only in case and white space normalise alike. */
  lemma NormalizeArtistIgnoresCaseAndSpace(s: string)
    ensures NormalizeArtist(s) == RemoveSpaces(Lower(s))
    ensures NormalizeArtist(Lower(s)) == NormalizeArtist(s)
    ensures NormalizeArtist(RemoveSpaces(s)) == NormalizeArtist(s)
  {
    TrimOfTrimmed(RemoveSpaces(Lower(s)));
    LowerIdempotent(s);
    LowerRemoveSpaces(s);
    RemoveSpacesIdempotent(s);
    RemoveSpacesIdempotent(Lower(s));
    TrimOfTrimmed(RemoveSpaces(Lower(RemoveSpaces(s))));
    TrimOfTrimmed(RemoveSpaces(Lower(Lower(s))));
  }

  /** One search result. Each field holds the string the result carries
      under that name, or the empty string when it carries none. */
  datatype Hit = Hit(
    artistName: string, artist: string, artist_name: string,
    syncedLyrics: string, synced_lyrics: string,
    plainLyrics: string, plain_lyrics: string, plain_lyrics_text: string)

  /** JavaScript's `a || b` on strings. */
  function Or(a: string, b: string): (r: string)
    ensures r == [] <==> a == [] && b == []
  {
    if a != [] then a else b
  }

  /** `getArtistName`: the first of the three artist fields that is set. */
  function ArtistOf(it: Hit): string {
    Or(it.artistName, Or(it.artist, it.artist_name))
  }

  predicate HasSynced(it: Hit) {
    it.syncedLyrics != [] || it.synced_lyrics != []
  }

  /** Only the two plain fields count for ranking; `plain_lyrics_text` is
      read when the lyrics are extracted but never ranks a result. */
  predicate HasPlain(it: Hit) {
    it.plainLyrics != [] || it.plain_lyrics != []
  }

  /** The artist of the result equals the normalised target. */
  predicate SameArtist(it: Hit, target: string) {
    var a := NormalizeArtist(ArtistOf(it));
    a != [] && a == target
  }

  /** One of the artist and the target contains the other. */
  predicate RelatedArtist(it: Hit, target: string) {
    var a := NormalizeArtist(ArtistOf(it));
    a != [] && (Contains(a, target) || Contains(target, a))
  }

  /** The test of the `find` of tier `tier` (background.js:43-72). */
  predicate InTier(tier: nat, it: Hit, target: string) {
    if tier == 0 then SameArtist(it, target) && HasSynced(it)
    else if tier == 1 then SameArtist(it, target) && HasPlain(it)
    else if tier == 2 then RelatedArtist(it, target) && HasSynced(it)
    else if tier == 3 then RelatedArtist(it, target) && HasPlain(it)
    else if tier == 4 then HasSynced(it)
    else tier == 5 && HasPlain(it)
  }

  /** `items.find(...)` for tier `tier`, from index `from` on: the index of
      the first result in that tier. */
  function FindInTier(items: seq<Hit>, target: string, tier: nat, from: nat): (r: Option<nat>)
    requires from <= |items|
    ensures r.Some? ==> from <= r.value < |items| && InTier(tier, items[r.value], target)
    ensures r.Some? ==> forall j :: from <= j < r.value ==> !InTier(tier, items[j], target)
    ensures r.None? ==> forall j :: from <= j < |items| ==> !InTier(tier, items[j], target)
    decreases |items| - from
  {
    if from == |items| then None
    else if InTier(tier, items[from], target) then Some(from)
    else FindInTier(items, target, tier, from + 1)
  }

  /** The sequence of `find`s from tier `tier` on, ending in `items[0]`:
      the index of the result returned. */
  function PickFromTier(items: seq<Hit>, target: string, tier: nat): (i: nat)
    requires items != [] && tier <= 6
    ensures i < |items|
    decreases 6 - tier
  {
    if tier == 6 then 0
    else
      match FindInTier(items, target, tier, 0)
      case Some(i) => i
      case None => PickFromTier(items, target, tier + 1)
  }

  /** The index of the result `pickBestLrcLibHit` returns, for a non-empty
      list. An empty normalised artist skips the four artist tiers. */
  function PickIndex(items: seq<Hit>, artist: string): (i: nat)
    requires items != []
    ensures i < |items|
  {
    var target := NormalizeArtist(artist);
    PickFromTier(items, target, if target != [] then 0 else 4)
  }

  /** `pickBestLrcLibHit(items, artist)`: None (`null`) for a reply that is
      not an array, or an empty one; otherwise one of the results. */
  function PickBestLrcLibHit(items: Option<seq<Hit>>, artist: string): (r: Option<Hit>)
    ensures r.None? <==> items.None? || items.value == []
    ensures r.Some? ==> r.value in items.value
  {
    if items.None? || items.value == [] then None
    else Some(items.value[PickIndex(items.value, artist)])
  }

  // ----- the ranking, stated independently of the sequence of finds -----

  /** The tier of a result: the first tier whose test it passes, 6 when
      it passes none. The artist tiers count only for a non-empty target. */
  function Rank(it: Hit, target: string): (k: nat)
    ensures k <= 6
    ensures NormalizeArtist(ArtistOf(it)) == [] ==> k >= 4
  {
    if target != [] && InTier(0, it, target) then 0
    else if target != [] && InTier(1, it, target) then 1
    else if target != [] && InTier(2, it, target) then 2
    else if target != [] && InTier(3, it, target) then 3
    else if InTier(4, it, target) then 4
    else if InTier(5, it, target) then 5
    else 6
  }

  /** For a result no better than tier `t`: it ranks `t` exactly when it
      passes the test of tier `t`. */
  lemma RankAtTier(it: Hit, target: string, t: nat)
    requires t < 6 && Rank(it, target) >= t && (t < 4 ==> target != [])
    ensures Rank(it, target) == t <==> InTier(t, it, target)
  {
  }

  /** Starting at tier `tier` with no result ranked better, the finds
      return the result of least rank, the first in list order among
      equals. */
  lemma {:induction false} PickFromTierIsLeast(items: seq<Hit>, target: string, tier: nat)
    requires items != [] && tier <= 6 && (tier < 4 ==> target != [])
    requires forall j :: 0 <= j < |items| ==> Rank(items[j], target) >= tier
    ensures var i := PickFromTier(items, target, tier);
      forall j :: 0 <= j < |items| ==>
        Rank(items[i], target) < Rank(items[j], target) || (Rank(items[i], target) == Rank(items[j], target) && i <= j)
    decreases 6 - tier
  {
    if tier < 6 {
      match FindInTier(items, target, tier, 0)
      case Some(i) =>
        RankAtTier(items[i], target, tier);
        forall j | 0 <= j < |items|
          ensures Rank(items[i], target) < Rank(items[j], target) || (Rank(items[i], target) == Rank(items[j], target) && i <= j)
        {
          RankAtTier(items[j], target, tier);
        }
      case None =>
        forall j | 0 <= j < |items|
          ensures Rank(items[j], target) >= tier + 1
        {
          RankAtTier(items[j], target, tier);
        }
        PickFromTierIsLeast(items, target, tier + 1);
    }
  }

  /** The result is the best-ranked one, the earliest among equally
      ranked ones; when none passes any test that is `items[0]`. */
  lemma PickIsBestRanked(items: seq<Hit>, artist: string)
    requires items != []
    ensures var target := NormalizeArtist(artist);
      var i := PickIndex(items, artist);
      && (forall j :: 0 <= j < |items| ==>
            Rank(items[i], target) < Rank(items[j], target) || (Rank(items[i], target) == Rank(items[j], target) && i <= j))
      && (Rank(items[i], target) == 6 ==> i == 0)
  {
    var target := NormalizeArtist(artist);
    PickFromTierIsLeast(items, target, if target != [] then 0 else 4);
    var i := PickIndex(items, artist);
    if Rank(items[i], target) == 6 {
      assert Rank(items[0], target) == 6;
    }
  }

  /** A synced result by the very artist asked for wins, the first such
      in the list. */
  lemma ExactSyncedArtistWins(items: seq<Hit>, artist: string, j: nat)
    requires j < |items| && NormalizeArtist(artist) != []
    requires SameArtist(items[j], NormalizeArtist(artist)) && HasSynced(items[j])
    requires forall q :: 0 <= q < j ==> !(SameArtist(items[q], NormalizeArtist(artist)) && HasSynced(items[q]))
    ensures PickBestLrcLibHit(Some(items), artist) == Some(items[j])
  {
    var target := NormalizeArtist(artist);
    PickIsBestRanked(items, artist);
    var i := PickIndex(items, artist);
    assert Rank(items[j], target) == 0;
    assert Rank(items[i], target) == 0;
    assert InTier(0, items[i], target);
    assert i == j;
    assert PickBestLrcLibHit(Some(items), artist) == Some(items[i]);
  }

  /** Without an artist to match, the first synced result wins, else the
      first plain one, else the first result. */
  lemma NoArtistPicksFirstWithLyrics(items: seq<Hit>, artist: string)
    requires items != [] && NormalizeArtist(artist) == []
    ensures var i := PickIndex(items, artist);
      && (HasSynced(items[i]) || forall j :: 0 <= j < |items| ==> !HasSynced(items[j]))
      && (forall j :: 0 <= j < i ==> !HasSynced(items[j]))
      && (!HasSynced(items[i]) ==> HasPlain(items[i]) || forall j :: 0 <= j < |items| ==> !HasPlain(items[j]))
  {
    var target := NormalizeArtist(artist);
    PickIsBestRanked(items, artist);
    var i := PickIndex(items, artist);
    forall j | 0 <= j < |items|
      ensures Rank(items[j], target) == 4 <==> HasSynced(items[j])
      ensures Rank(items[j], target) == 5 <==> !HasSynced(items[j]) && HasPlain(items[j])
    {
    }
  }

  // ----- the lyrics of the chosen result (background.js:77-111) -----

  /** `(synced || plain || '').trim()` with `synced` and `plain` the first
      set field of each kind. */
  function ExtractLyrics(hit: Hit): (r: string)
    ensures Trim(r) == r
    ensures HasSynced(hit) ==> r == Trim(Or(hit.syncedLyrics, hit.synced_lyrics))
    ensures !HasSynced(hit) ==> r == Trim(Or(hit.plainLyrics, Or(hit.plain_lyrics, hit.plain_lyrics_text)))
  {
    var synced := Or(hit.syncedLyrics, hit.synced_lyrics);
    var plain := Or(hit.plainLyrics, Or(hit.plain_lyrics, hit.plain_lyrics_text));
    TrimIdempotent(Or(synced, plain));
    Trim(Or(synced, plain))
  }

  /** `fetchFromLrcLib(track, artist)` given the search reply: the empty
      string for an empty track (no search is made), a failed search, or
      a reply without results; otherwise the lyrics of the best result.
      A reply that is not an array counts as no results. */
  function LrcLibLyrics(track: string, artist: string, reply: Fetched<Option<seq<Hit>>>): (r: string)
    ensures track == [] || reply.Failed? ==> r == []
    ensures Trim(r) == r
    ensures r != [] ==> exists hit :: hit in reply.body.GetOr([]) && r == ExtractLyrics(hit)
    ensures track != [] && reply.Got? && reply.body.GetOr([]) == [] ==> r == []
    ensures track != [] && reply.Got? && reply.body.GetOr([]) != [] ==>
      r == ExtractLyrics(reply.body.value[PickIndex(reply.body.value, artist)])
  {
    if track == [] || reply.Failed? then []
    else
      var items := Some(reply.body.GetOr([]));
      match PickBestLrcLibHit(items, artist)
      case None => []
      case Some(hit) => ExtractLyrics(hit)
  }

  /** A result whose only lyrics sit in `plain_lyrics_text` ranks in no
      tier (6, below every result that has lyrics in a ranked field), yet
      when it is picked its trimmed `plain_lyrics_text` is extracted. */
  lemma PlainTextOnlyRanksLast(it: Hit, target: string)
    requires !HasSynced(it) && !HasPlain(it)
    ensures Rank(it, target) == 6
    ensures ExtractLyrics(it) == Trim(it.plain_lyrics_text)
  {
  }

  /** A single such result is still picked, as the first result, and its
      lyrics are answered. */
  lemma PlainTextOnlyAnswered()
    ensures var it := Hit("", "", "", "", "", "", "", "la la");
      Rank(it, "") == 6 && LrcLibLyrics("song", "", Got(Some([it]))) == "la la"
  {
    var it := Hit("", "", "", "", "", "", "", "la la");
    TrimOfTrimmed("la la");
  }
}
