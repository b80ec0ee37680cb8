/** The decisions of `updateLyricHighlight` (content.js:992-1057) without
    the page: which line is active at playback time `t`, whether the gap
    before the next line is an interlude, whether the view scrolls, and
    which characters of the active line are revealed. Times are in
    milliseconds. */
module Cursor {
  import opened Lyrics
  import opened LrcParser

  /** The gap to the next line beyond which the current line may be an
      interlude (10 s). */
  const InterludeGap: int := 10000
  /** How long the current line must have been playing for an interlude (6 s). */
  const InterludeElapsed: int := 6000

  /** `findIndex(l => l.time > t)` from index `from` on: the first line
      that starts after `t`, or -1. */
  function FirstLaterFrom(lines: seq<Line>, t: int, from: nat): (k: int)
    requires from <= |lines|
    ensures k == -1 || from <= k < |lines|
    ensures k >= 0 ==> TimeOrZero(lines[k]) > t && forall q :: from <= q < k ==> TimeOrZero(lines[q]) <= t
    ensures k == -1 ==> forall q :: from <= q < |lines| ==> TimeOrZero(lines[q]) <= t
    decreases |lines| - from
  {
    if from == |lines| then -1
    else if TimeOrZero(lines[from]) > t then from
    else FirstLaterFrom(lines, t, from + 1)
  }

  /** The line the source marks active: the one before the first line that
      starts after `t`, or, when there is no such one before, the last line
      if it has started, else none (-1). */
  function ActiveIndex(lines: seq<Line>, t: int): (idx: int)
    requires lines != []
    ensures -1 <= idx < |lines|
  {
    var idx := FirstLaterFrom(lines, t, 0) - 1;
    if idx < 0 then (if TimeOrZero(lines[|lines| - 1]) <= t then |lines| - 1 else -1)
    else idx
  }

  /** The active line is an interlude when the next line is more than 10 s
      away and the active one started more than 6 s ago. */
  predicate IsInterlude(lines: seq<Line>, t: int, idx: int) {
    && 0 <= idx && idx + 1 < |lines|
    && TimeOrZero(lines[idx + 1]) - TimeOrZero(lines[idx]) > InterludeGap
    && t - TimeOrZero(lines[idx]) > InterludeElapsed
  }

  /** The reveal time of a glyph: its time, or 0 when it has none. */
  function CharTime(ch: DynChar): int {
    ch.t.GetOr(0)
  }

  /** What one highlight step shows: the active row (-1 for none), whether
      the view scrolls to it, and for each glyph of the active row whether
      it is revealed (every glyph of every other row is pending). */
  datatype Highlight = Highlight(active: int, scroll: bool, revealed: seq<bool>)

  /** The glyphs of row `row`, when the DynamicLyrics record at that index
      holds a `chars` array. */
  function RowChars(dyn: Option<seq<DynLine>>, row: int): seq<DynChar> {
    if dyn.Some? && 0 <= row < |dyn.value| && dyn.value[row].chars.Some? then dyn.value[row].chars.value
    else []
  }

  /** One call of `updateLyricHighlight` on timed lines: the view it shows
      and the new `lastActiveIndex`. */
  function Step(lines: seq<Line>, dyn: Option<seq<DynLine>>, t: int, last: int): (r: (Highlight, int))
    requires lines != []
    ensures r.1 == r.0.active && -1 <= r.0.active < |lines|
    ensures IsInterlude(lines, t, ActiveIndex(lines, t)) ==> r.0.active == -1
    ensures !IsInterlude(lines, t, ActiveIndex(lines, t)) ==> r.0.active == ActiveIndex(lines, t)
    ensures r.0.scroll <==> r.0.active >= 0 && r.0.active != last
    ensures |r.0.revealed| == |RowChars(dyn, r.0.active)|
    ensures forall c :: 0 <= c < |r.0.revealed| ==> (r.0.revealed[c] <==> CharTime(RowChars(dyn, r.0.active)[c]) <= t)
  {
    var idx := ActiveIndex(lines, t);
    var active := if IsInterlude(lines, t, idx) then -1 else idx;
    var chars := RowChars(dyn, active);
    (Highlight(active, active >= 0 && active != last, seq(|chars|, c requires 0 <= c < |chars| => CharTime(chars[c]) <= t)),
     active)
  }

  // ----- what the cursor promises -----

  /** On lines sorted by time, the active index is the last line that has
      started, or -1 before the first line. */
  lemma ActiveIndexSorted(lines: seq<Line>, t: int)
    requires lines != [] && SortedByTime(lines)
    ensures var k := ActiveIndex(lines, t);
      && (k == -1 <==> t < TimeOrZero(lines[0]))
      && (k >= 0 ==> TimeOrZero(lines[k]) <= t && (k + 1 < |lines| ==> t < TimeOrZero(lines[k + 1])))
  {
    var f := FirstLaterFrom(lines, t, 0);
    if f == 0 {
      assert TimeOrZero(lines[0]) <= TimeOrZero(lines[|lines| - 1]);
    }
  }

  /** A time equal to a line's start selects that line, when no two lines
      share a start. */
  lemma ExactTimeSelects(lines: seq<Line>, k: nat)
    requires k < |lines|
    requires forall p, q :: 0 <= p < q < |lines| ==> TimeOrZero(lines[p]) < TimeOrZero(lines[q])
    ensures ActiveIndex(lines, TimeOrZero(lines[k])) == k
  {
    ActiveIndexSorted(lines, TimeOrZero(lines[k]));
  }

  /** Twelve seconds into `[0 s, 5 s, 20 s]`, the second line has played
      for 7 s and the next is 15 s away: an interlude, so no line is
      active and the last active index becomes -1. */
  lemma InterludeExample()
    ensures var lines := [Line(Some(0), "a", None), Line(Some(5000), "b", None), Line(Some(20000), "c", None)];
      ActiveIndex(lines, 12000) == 1 && IsInterlude(lines, 12000, 1)
      && Step(lines, None, 12000, 1).0.active == -1 && Step(lines, None, 12000, 1).1 == -1
  {
    var lines := [Line(Some(0), "a", None), Line(Some(5000), "b", None), Line(Some(20000), "c", None)];
    assert FirstLaterFrom(lines, 12000, 0) == 2;
  }

  /** The last line is never an interlude. */
  lemma LastLineNoInterlude(lines: seq<Line>, t: int)
    requires lines != []
    ensures !IsInterlude(lines, t, |lines| - 1)
  {
  }

  /** A second step at the same time changes nothing and does not scroll. */
  lemma StepIdempotent(lines: seq<Line>, dyn: Option<seq<DynLine>>, t: int, last: int)
    requires lines != []
    ensures var r := Step(lines, dyn, t, last);
      var r2 := Step(lines, dyn, t, r.1);
      r2.0.active == r.0.active && r2.1 == r.1 && !r2.0.scroll
  {
  }

  /** Once revealed, a glyph stays revealed as playback moves on within
      the same active line. */
  lemma RevealMonotone(lines: seq<Line>, dyn: Option<seq<DynLine>>, t: int, t': int, last: int, c: nat)
    requires lines != [] && t <= t'
    requires Step(lines, dyn, t, last).0.active == Step(lines, dyn, t', last).0.active
    requires c < |Step(lines, dyn, t, last).0.revealed| && Step(lines, dyn, t, last).0.revealed[c]
    ensures Step(lines, dyn, t', last).0.revealed[c]
  {
  }

  /** Lines out of time order, `[5 s, 0 s]` at 1 s: no line is later than
      the first, so the fallback picks the last line although the first
      has not started. */
  lemma UnsortedFallback()
    ensures ActiveIndex([Line(Some(5000), "a", None), Line(Some(0), "b", None)], 1000) == 1
  {
    assert FirstLaterFrom([Line(Some(5000), "a", None), Line(Some(0), "b", None)], 1000, 0) == 0;
  }
}
