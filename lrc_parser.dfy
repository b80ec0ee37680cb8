/** The LRC parser of content.js (`parseLRCInternal`, content.js:83-134):
    raw lyric text becomes lines, untimed when the text carries no tag,
    timed and sorted by time otherwise. Blank lines are never dropped. */
module LrcParser {
  import opened Lyrics
  import opened Strings
  import opened LrcTag

  datatype LrcResult = LrcResult(lines: seq<Line>, hasTs: bool)

  // ----- the untimed branch (content.js:88-95) -----

  /** One untimed line per `\r?\n`-separated piece of `s`, trimmed; blank
      pieces stay as lines with empty text. */
  function UntimedLines(s: string): (r: seq<Line>)
    ensures |r| == multiset(s)['\n'] + 1
    ensures forall i :: 0 <= i < |r| ==> r[i].time.None? && r[i].translation.None?
  {
    var parts := SplitLines(s);
    seq(|parts|, i requires 0 <= i < |parts| => Line(None, Trim(parts[i]), None))
  }

  // ----- the timed branch (content.js:98-130) -----

  /** The text a tag opens: line breaks become spaces, then it is trimmed. */
  function SegmentText(raw: string): string {
    Trim(ReplaceNewlines(raw))
  }

  /** Where the text of tag `i` stops: at the next tag, or at the end of `s`. */
  function SegmentEnd(s: string, tags: seq<Tag>, i: nat): nat
    requires i < |tags|
  {
    if i + 1 < |tags| then tags[i + 1].start else |s|
  }

  /** The line tag `i` opens: the tag's time and the text up to the next tag. */
  function TaggedLineAt(s: string, tags: seq<Tag>, i: nat): Line
    requires Spaced(s, tags) && i < |tags|
  {
    Line(Some(tags[i].ms), SegmentText(s[tags[i].end..SegmentEnd(s, tags, i)]), None)
  }

  /** How many lines the tags of `s` yield: one per tag, except that a tag
      at the very end of the input yields none. */
  function TaggedCount(s: string, tags: seq<Tag>): nat {
    if tags == [] then 0
    else if tags[|tags| - 1].end < |s| then |tags|
    else |tags| - 1
  }

  /** The lines the first `n` tags open. */
  function TaggedPrefix(s: string, tags: seq<Tag>, n: nat): (r: seq<Line>)
    requires Spaced(s, tags) && n <= |tags|
    ensures |r| == n
  {
    seq(n, i requires 0 <= i < n => TaggedLineAt(s, tags, i))
  }

  lemma TaggedPrefixStep(s: string, tags: seq<Tag>, n: nat)
    requires Spaced(s, tags) && n < |tags|
    ensures TaggedPrefix(s, tags, n + 1) == TaggedPrefix(s, tags, n) + [TaggedLineAt(s, tags, n)]
  {
  }

  /** The lines of a tagged text in the order their tags appear. The text
      before the first tag belongs to no line. */
  function TaggedLines(s: string): (r: seq<Line>)
    ensures |r| == TaggedCount(s, Tags(s))
  {
    TaggedPrefix(s, Tags(s), TaggedCount(s, Tags(s)))
  }

  /** Line `i` of a tagged text carries the time of tag `i` and the text
      between that tag and the next one (or the end of the input). */
  lemma TaggedLineIs(s: string, i: nat)
    requires i < |TaggedLines(s)|
    ensures TaggedLines(s)[i] == TaggedLineAt(s, Tags(s), i)
  {
  }

  // ----- the stable sort by time (content.js:132) -----

  predicate SortedByTime(s: seq<Line>) {
    forall i, j :: 0 <= i < j < |s| ==> TimeOrZero(s[i]) <= TimeOrZero(s[j])
  }

  /** Each line's time is at most the next one's. */
  predicate AdjacentSorted(s: seq<Line>) {
    forall i :: 0 <= i < |s| - 1 ==> TimeOrZero(s[i]) <= TimeOrZero(s[i + 1])
  }

  lemma {:induction false} AdjacentSortedIsSorted(s: seq<Line>)
    requires AdjacentSorted(s)
    ensures SortedByTime(s)
  {
    if |s| > 1 {
      AdjacentSortedIsSorted(s[1..]);
      assert forall j :: 1 <= j < |s| ==> TimeOrZero(s[1]) <= TimeOrZero(s[j]) by {
        forall j | 1 <= j < |s| ensures TimeOrZero(s[1]) <= TimeOrZero(s[j]) {
          if j > 1 { assert s[1..][0] == s[1] && s[1..][j - 1] == s[j]; }
        }
      }
    }
  }

  /** Puts `x` before the first element whose time is not below its own. */
  function InsertByTime(x: Line, s: seq<Line>): (r: seq<Line>)
    ensures |r| == |s| + 1
    ensures multiset(r) == multiset(s) + multiset{x}
    ensures r[0] == x || (s != [] && r[0] == s[0])
  {
    if s == [] || TimeOrZero(x) <= TimeOrZero(s[0]) then [x] + s
    else
      assert s == [s[0]] + s[1..];
      [s[0]] + InsertByTime(x, s[1..])
  }

  /** Inserting into sorted lines keeps them sorted. */
  lemma {:induction false} InsertByTimeSorted(x: Line, s: seq<Line>)
    requires AdjacentSorted(s)
    ensures AdjacentSorted(InsertByTime(x, s))
  {
    if s != [] && TimeOrZero(x) > TimeOrZero(s[0]) {
      var t := s[1..];
      forall i | 0 <= i < |t| - 1
        ensures TimeOrZero(t[i]) <= TimeOrZero(t[i + 1])
      {
        assert t[i] == s[i + 1] && t[i + 1] == s[i + 2];
      }
      InsertByTimeSorted(x, t);
      var r := InsertByTime(x, t);
      assert t != [] ==> t[0] == s[1];
      assert TimeOrZero(s[0]) <= TimeOrZero(r[0]);
      assert forall i :: 0 < i < |r| ==> ([s[0]] + r)[i] == r[i - 1];
    }
  }

  /** `lines.sort((a, b) => (a.time || 0) - (b.time || 0))` with the stable
      sort of the language: an insertion sort. */
  function SortByTime(s: seq<Line>): (r: seq<Line>)
    ensures multiset(r) == multiset(s)
    ensures AdjacentSorted(r)
  {
    if s == [] then [] else
      assert s == [s[0]] + s[1..];
      InsertByTimeSorted(s[0], SortByTime(s[1..]));
      InsertByTime(s[0], SortByTime(s[1..]))
  }

  /** The lines of `s` whose time is `k`, in order. */
  function WithTime(s: seq<Line>, k: int): seq<Line> {
    if s == [] then []
    else (if TimeOrZero(s[0]) == k then [s[0]] else []) + WithTime(s[1..], k)
  }

  lemma {:induction false} InsertByTimeWithTime(x: Line, s: seq<Line>, k: int)
    ensures WithTime(InsertByTime(x, s), k)
         == (if TimeOrZero(x) == k then [x] else []) + WithTime(s, k)
  {
    if s == [] || TimeOrZero(x) <= TimeOrZero(s[0]) {
      assert ([x] + s)[1..] == s;
    } else {
      InsertByTimeWithTime(x, s[1..], k);
      var r := InsertByTime(x, s[1..]);
      assert InsertByTime(x, s) == [s[0]] + r;
      assert ([s[0]] + r)[1..] == r;
      assert WithTime(s, k) == (if TimeOrZero(s[0]) == k then [s[0]] else []) + WithTime(s[1..], k);
    }
  }

  /** The sort is stable: lines that share a time keep their input order. */
  lemma {:induction false} SortByTimeStable(s: seq<Line>, k: int)
    ensures WithTime(SortByTime(s), k) == WithTime(s, k)
  {
    if s != [] {
      SortByTimeStable(s[1..], k);
      InsertByTimeWithTime(s[0], SortByTime(s[1..]), k);
    }
  }

  // ----- the parser -----

  /** What `parseLRCInternal` returns for `s`. */
  function ParseLrc(s: string): LrcResult {
    if s == [] then LrcResult([], false)
    else if !HasTag(s) then LrcResult(UntimedLines(s), false)
    else LrcResult(SortByTime(TaggedLines(s)), true)
  }

  /** `parseLRCInternal` (content.js:83-134): the presence test decides the
      branch, the timed branch scans the tags and sorts the lines by time. */
  method ParseLrcInternal(s: string) returns (r: LrcResult)
    ensures r == ParseLrc(s)
  {
    if s == [] {
      return LrcResult([], false);
    }
    if !HasTag(s) {
      return LrcResult(UntimedLines(s), false);
    }
    var lines := ScanTaggedLines(s);
    return LrcResult(SortByTime(lines), true);
  }

  /** Tag `k` closes the line of tag `k - 1`. */
  lemma ClosedLine(s: string, all: seq<Tag>, k: nat)
    requires Spaced(s, all) && 0 < k < |all|
    ensures all[k - 1].end <= all[k].start <= |s|
    ensures TaggedPrefix(s, all, k)
         == TaggedPrefix(s, all, k - 1) + [Line(Some(all[k - 1].ms), SegmentText(s[all[k - 1].end..all[k].start]), None)]
  {
    TaggedPrefixStep(s, all, k - 1);
  }

  /** After the last tag, the rest of a longer input is the last line. */
  lemma FinalLine(s: string, all: seq<Tag>, k: nat)
    requires Spaced(s, all) && 0 < k == |all| && all[k - 1].end < |s|
    ensures TaggedCount(s, all) == k
    ensures TaggedPrefix(s, all, k)
         == TaggedPrefix(s, all, k - 1) + [Line(Some(all[k - 1].ms), SegmentText(s[all[k - 1].end..]), None)]
  {
    TaggedPrefixStep(s, all, k - 1);
    assert s[all[k - 1].end..] == s[all[k - 1].end..|s|];
  }

  /** The `exec` loop of the timed branch (content.js:99-130): each new tag
      closes the line of the previous one; after the last tag, whatever
      input remains becomes the last line. */
  method ScanTaggedLines(s: string) returns (result: seq<Line>)
    ensures result == TaggedLines(s)
  {
    result := [];
    var lastTime: Option<int> := None;
    var lastIndex: nat := 0;
    ghost var all := Tags(s);
    ghost var k := 0;
    NextTagAfter(s, 0, 0);
    var m := NextTag(s, 0);
    while m.Some?
      invariant k <= |all|
      invariant m == if k < |all| then Some(all[k]) else None
      invariant lastIndex == if k == 0 then 0 else all[k - 1].end
      invariant lastTime == if k == 0 then None else Some(all[k - 1].ms)
      invariant result == TaggedPrefix(s, all, if k == 0 then 0 else k - 1)
      decreases |all| - k
    {
      var t := m.value;
      if lastTime.Some? {
        ClosedLine(s, all, k);
        result := result + [Line(lastTime, SegmentText(s[lastIndex..t.start]), None)];
      }
      lastTime := Some(t.ms);
      lastIndex := t.end;
      k := k + 1;
      NextTagAfter(s, 0, k);
      m := NextTag(s, lastIndex);
    }
    assert k == |all|;
    if lastTime.Some? && lastIndex < |s| {
      FinalLine(s, all, k);
      result := result + [Line(lastTime, SegmentText(s[lastIndex..]), None)];
    } else {
      assert result == TaggedPrefix(s, all, TaggedCount(s, all));
    }
  }

  // ----- what the parser promises -----

  /** A text without any tag gives untimed lines, one per line of the text,
      each trimmed, blank ones kept; the empty text gives no line. */
  lemma UntimedBranch(s: string)
    requires !HasTag(s)
    ensures !ParseLrc(s).hasTs
    ensures s == [] ==> ParseLrc(s).lines == []
    ensures s != [] ==> |ParseLrc(s).lines| == |SplitLines(s)|
    ensures s != [] ==> forall i :: 0 <= i < |SplitLines(s)| ==>
      ParseLrc(s).lines[i] == Line(None, Trim(SplitLines(s)[i]), None)
  {
  }

  /** A tagged text gives timed lines sorted by time that are exactly the
      lines its tags open, rearranged. */
  lemma TimedBranch(s: string)
    requires HasTag(s)
    ensures ParseLrc(s).hasTs
    ensures SortedByTime(ParseLrc(s).lines)
    ensures multiset(ParseLrc(s).lines) == multiset(TaggedLines(s))
    ensures forall i :: 0 <= i < |ParseLrc(s).lines| ==> ParseLrc(s).lines[i].time.Some?
  {
    var tagged := TaggedLines(s);
    var lines := SortByTime(tagged);
    assert ParseLrc(s) == LrcResult(lines, true);
    AdjacentSortedIsSorted(lines);
    TaggedLinesTimed(s);
    TimesKept(tagged, lines);
  }

  /** Every line a tag opens has a time. */
  lemma TaggedLinesTimed(s: string)
    ensures forall i :: 0 <= i < |TaggedLines(s)| ==> TaggedLines(s)[i].time.Some?
  {
    forall i | 0 <= i < |TaggedLines(s)| ensures TaggedLines(s)[i].time.Some? {
      TaggedLineIs(s, i);
    }
  }

  /** Rearranging timed lines leaves them timed. */
  lemma TimesKept(t: seq<Line>, r: seq<Line>)
    requires multiset(r) == multiset(t)
    requires forall i :: 0 <= i < |t| ==> t[i].time.Some?
    ensures forall i :: 0 <= i < |r| ==> r[i].time.Some?
  {
    forall i | 0 <= i < |r| ensures r[i].time.Some? {
      assert r[i] in multiset(t);
    }
  }

  /** Every tag that is not at the very end of the input opens a line with
      its own time, whatever text follows it, even none. */
  lemma TagOpensLine(s: string, p: nat)
    requires TagAt(s, p).Some? && TagAt(s, p).value.end < |s|
    ensures exists i :: 0 <= i < |TaggedLines(s)| && TaggedLines(s)[i].time == Some(TagAt(s, p).value.ms)
  {
    TagsFromComplete(s, 0, p);
    var tags := Tags(s);
    var i :| 0 <= i < |tags| && tags[i] == TagAt(s, p).value;
    assert TaggedLines(s)[i].time == Some(tags[i].ms);
  }

  /** A tag that ends the input opens no line. */
  lemma FinalTagOpensNoLine(s: string)
    requires Tags(s) != [] && Tags(s)[|Tags(s)| - 1].end == |s|
    ensures |TaggedLines(s)| == |Tags(s)| - 1
  {
  }
}
