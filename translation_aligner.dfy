/** `buildAlignedTranslations` (content.js:574-637): for every language,
    the translated lines are laid onto the base lines, one entry per base
    line. `None` stands for the `null` that makes the display fall back to
    the original text; `Some("")` is a line left blank on purpose. */
module Aligner {
  import opened Lyrics
  import opened Strings

  /** The matching tolerance, 0.15 s. */
  const Tolerance: int := 150

  /** A translated entry the cursor walks past while looking for base time
      `tb`: it is timed and more than the tolerance earlier. */
  predicate Passes(e: Line, tb: int) {
    e.time.Some? && e.time.value < tb - Tolerance
  }

  /** A translated entry that is timed within the tolerance of `tb`. */
  predicate Near(e: Line, tb: int) {
    e.time.Some? && -Tolerance <= e.time.value - tb <= Tolerance
  }

  /** Where the cursor stops when it starts at `j` and looks for `tb`: the
      first entry from `j` on that it does not walk past. */
  function Advance(arr: seq<Line>, j: nat, tb: int): (k: nat)
    requires j <= |arr|
    ensures j <= k <= |arr|
    ensures forall q :: j <= q < k ==> Passes(arr[q], tb)
    ensures k < |arr| ==> !Passes(arr[k], tb)
    decreases |arr| - j
  {
    if j < |arr| && Passes(arr[j], tb) then Advance(arr, j + 1, tb) else j
  }

  /** Where the cursor is after base line `i`, when it was at `j` before:
      only a timed, non-blank base line moves it. */
  function NextCursor(base: seq<Line>, arr: seq<Line>, i: nat, j: nat): (k: nat)
    requires i < |base| && j <= |arr|
    ensures j <= k <= |arr|
  {
    if IsBlank(base[i].text) || base[i].time.None? then j
    else Advance(arr, j, base[i].time.value)
  }

  /** The entry base line `i` gets with the cursor at `j`: a blank base line
      gets `""`, an untimed one the translated line with its own index, a
      timed one the entry the cursor stops at when that entry is near
      enough. */
  function EntryAt(base: seq<Line>, arr: seq<Line>, i: nat, j: nat): Option<string>
    requires i < |base| && j <= |arr|
  {
    var b := base[i];
    if IsBlank(b.text) then Some([])
    else if b.time.None? then (if i < |arr| then Some(Trim(arr[i].text)) else None)
    else
      var k := NextCursor(base, arr, i, j);
      if k < |arr| && Near(arr[k], b.time.value) then Some(Trim(arr[k].text)) else None
  }

  /** The cursor after the first `n` base lines. */
  function CursorAfter(base: seq<Line>, arr: seq<Line>, n: nat): (j: nat)
    requires n <= |base|
    ensures j <= |arr|
  {
    if n == 0 then 0 else NextCursor(base, arr, n - 1, CursorAfter(base, arr, n - 1))
  }

  /** The entry base line `i` gets from the non-empty list `arr`. */
  function AlignedAt(base: seq<Line>, arr: seq<Line>, i: nat): Option<string>
    requires i < |base|
  {
    EntryAt(base, arr, i, CursorAfter(base, arr, i))
  }

  /** The aligned entries of one language. `arr` is None when the value is
      not an array; an empty or missing list leaves every entry `null`. */
  function Aligned(base: seq<Line>, arr: Option<seq<Line>>): (res: seq<Option<string>>)
    ensures |res| == |base|
  {
    if arr.None? || arr.value == [] then seq(|base|, _ => None)
    else seq(|base|, i requires 0 <= i < |base| => AlignedAt(base, arr.value, i))
  }

  /** One language of `buildAlignedTranslations`: a result array the length
      of `base`, filled left to right while one cursor moves forward over
      the translated lines. */
  method AlignLanguage(base: seq<Line>, arr: Option<seq<Line>>) returns (res: seq<Option<string>>)
    ensures res == Aligned(base, arr)
  {
    var out := new Option<string>[|base|](_ => None);
    if arr.None? || arr.value == [] {
      return out[..];
    }
    var a := arr.value;
    var j: nat := 0;
    var i := 0;
    while i < |base|
      invariant i <= |base|
      invariant j == CursorAfter(base, a, i)
      invariant forall q :: 0 <= q < i ==> out[q] == AlignedAt(base, a, q)
      invariant forall q :: i <= q < |base| ==> out[q] == None
    {
      ghost var j0 := j;
      var b := base[i];
      if IsBlank(b.text) {
        out[i] := Some([]);
      } else if b.time.None? {
        if i < |a| {
          out[i] := Some(Trim(a[i].text));
        }
      } else {
        var tb := b.time.value;
        while j < |a| && a[j].time.Some? && a[j].time.value < tb - Tolerance
          invariant j0 <= j <= |a|
          invariant Advance(a, j, tb) == Advance(a, j0, tb)
          decreases |a| - j
        {
          j := j + 1;
        }
        if j < |a| && a[j].time.Some? && -Tolerance <= a[j].time.value - tb <= Tolerance {
          out[i] := Some(Trim(a[j].text));
        } else {
          out[i] := None;
        }
      }
      assert out[i] == EntryAt(base, a, i, j0) == AlignedAt(base, a, i);
      assert j == NextCursor(base, a, i, j0) == CursorAfter(base, a, i + 1);
      i := i + 1;
    }
    assert out[..] == Aligned(base, arr);
    return out[..];
  }

  /** `buildAlignedTranslations`: one aligned list per language key of the
      input, whatever that language's value is. */
  method BuildAlignedTranslations(base: seq<Line>, byLang: map<string, Option<seq<Line>>>)
    returns (aligned: map<string, seq<Option<string>>>)
    ensures aligned.Keys == byLang.Keys
    ensures forall lang :: lang in byLang ==> aligned[lang] == Aligned(base, byLang[lang])
  {
    aligned := map[];
    var todo := byLang.Keys;
    while todo != {}
      invariant todo <= byLang.Keys
      invariant aligned.Keys == byLang.Keys - todo
      invariant forall lang :: lang in aligned ==> aligned[lang] == Aligned(base, byLang[lang])
      decreases |todo|
    {
      var lang :| lang in todo;
      var res := AlignLanguage(base, byLang[lang]);
      aligned := aligned[lang := res];
      todo := todo - {lang};
    }
  }

  // ----- what the alignment promises -----

  /** Every language gets exactly one entry per base line; a list that is
      empty or not an array gives `null` everywhere, blank lines included. */
  lemma AlignedShape(base: seq<Line>, arr: Option<seq<Line>>)
    ensures |Aligned(base, arr)| == |base|
    ensures arr.None? || arr.value == [] ==> forall i :: 0 <= i < |base| ==> Aligned(base, arr)[i].None?
  {
  }

  /** With a non-empty list, a base line whose text is white space only
      gets `""`, never `null`. */
  lemma BlankBaseLine(base: seq<Line>, arr: seq<Line>, i: nat)
    requires arr != [] && i < |base| && IsBlank(base[i].text)
    ensures Aligned(base, Some(arr))[i] == Some([])
  {
  }

  /** With a non-empty list, an untimed, non-blank base line takes the
      trimmed text of the translated line with the same index, or `null`
      when the list is shorter. */
  lemma UntimedBaseLine(base: seq<Line>, arr: seq<Line>, i: nat)
    requires arr != [] && i < |base| && !IsBlank(base[i].text) && base[i].time.None?
    ensures Aligned(base, Some(arr))[i] == if i < |arr| then Some(Trim(arr[i].text)) else None
  {
  }

  /** A timed base line takes either `null` or the trimmed text of a
      translated line timed within 150 ms of it. */
  lemma TimedBaseLine(base: seq<Line>, arr: seq<Line>, i: nat)
    requires arr != [] && i < |base| && !IsBlank(base[i].text) && base[i].time.Some?
    ensures var v := Aligned(base, Some(arr))[i];
      v.None? || exists k :: 0 <= k < |arr| && Near(arr[k], base[i].time.value) && v == Some(Trim(arr[k].text))
  {
    var k := Advance(arr, CursorAfter(base, arr, i), base[i].time.value);
    if k < |arr| && Near(arr[k], base[i].time.value) {
      assert Aligned(base, Some(arr))[i] == Some(Trim(arr[k].text));
    }
  }

  /** The cursor never moves back. */
  lemma {:induction false} CursorMonotone(base: seq<Line>, arr: seq<Line>, m: nat, n: nat)
    requires m <= n <= |base|
    ensures CursorAfter(base, arr, m) <= CursorAfter(base, arr, n)
    decreases n - m
  {
    if m < n {
      CursorMonotone(base, arr, m, n - 1);
    }
  }

  /** On a timed, sorted list, a cursor that starts at or before an entry
      near `tb` stops at an entry near `tb`, never past that one. */
  lemma {:induction false} AdvanceFindsNear(arr: seq<Line>, j: nat, tb: int, k: nat)
    requires j <= k < |arr| && Near(arr[k], tb)
    requires TimedSorted(arr)
    ensures Advance(arr, j, tb) <= k
    ensures Near(arr[Advance(arr, j, tb)], tb)
    decreases k - j
  {
    if j < k && Passes(arr[j], tb) {
      AdvanceFindsNear(arr, j + 1, tb, k);
    } else if j < k {
      assert arr[j].time.value <= arr[k].time.value;
    }
  }

  /** Every entry is timed and the times never decrease. */
  predicate TimedSorted(arr: seq<Line>) {
    && (forall q :: 0 <= q < |arr| ==> arr[q].time.Some?)
    && (forall p, q :: 0 <= p < q < |arr| ==> arr[p].time.GetOr(0) <= arr[q].time.GetOr(0))
  }

  /** When the translated list is timed and sorted, the cursor never walks
      past an entry that is not earlier than every timed base line seen so
      far, less the tolerance. */
  lemma {:induction false} CursorBelowCandidate(base: seq<Line>, arr: seq<Line>, n: nat, k: nat)
    requires n <= |base| && k < |arr| && TimedSorted(arr)
    requires forall i :: 0 <= i < n && base[i].time.Some? ==> base[i].time.value - Tolerance <= arr[k].time.GetOr(0)
    ensures CursorAfter(base, arr, n) <= k
  {
    if n > 0 {
      CursorBelowCandidate(base, arr, n - 1, k);
    }
  }

  /** The forward-only cursor loses nothing on sorted input: when both
      lists are in time order and the translated list is fully timed, a
      timed base line gets a translation whenever some translated line lies
      within 150 ms of it. */
  lemma TimedMatchComplete(base: seq<Line>, arr: seq<Line>, i: nat, k: nat)
    requires i < |base| && k < |arr| && TimedSorted(arr)
    requires !IsBlank(base[i].text) && base[i].time.Some? && Near(arr[k], base[i].time.value)
    requires forall p :: 0 <= p < i && base[p].time.Some? ==> base[p].time.value <= base[i].time.value
    ensures Aligned(base, Some(arr))[i].Some?
  {
    var tb := base[i].time.value;
    CursorBelowCandidate(base, arr, i, k);
    AdvanceFindsNear(arr, CursorAfter(base, arr, i), tb, k);
    assert AlignedAt(base, arr, i).Some?;
  }

  /** Base `[0 s "A", 10 s "B"]` against translated `[0.1 s "a"]` gives
      `["a", null]`: the first line matches within the tolerance, the second
      finds the cursor past the end of the list. */
  lemma ExampleTwoLines()
    ensures Aligned([Line(Some(0), "A", None), Line(Some(10000), "B", None)],
                    Some([Line(Some(100), "a", None)]))
         == [Some("a"), None]
  {
    var base := [Line(Some(0), "A", None), Line(Some(10000), "B", None)];
    var arr := [Line(Some(100), "a", None)];
    assert !IsBlank(base[0].text) by { assert !IsSpace(base[0].text[0]); }
    assert !IsBlank(base[1].text) by { assert !IsSpace(base[1].text[0]); }
    TrimOfTrimmed("a");
    assert Advance(arr, 0, 0) == 0;
    assert Advance(arr, 0, 10000) == 1;
    assert CursorAfter(base, arr, 1) == 0;
    assert AlignedAt(base, arr, 0) == Some("a");
    assert AlignedAt(base, arr, 1) == None;
  }
}
