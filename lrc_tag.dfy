/** The LRC timestamp tag `[mm:ss.ff]` / `[mm:ss.fff]` and the left-to-right
    scan that finds every tag of a text, as the global regular expression
    `/\[(\d{2}):(\d{2})\.(\d{2,3})\]/g` does (content.js:86, 99). */
module LrcTag {
  import opened Lyrics
  import opened Strings

  /** A tag found in a text: it spans `start .. end` and stands for `ms`
      milliseconds. */
  datatype Tag = Tag(start: nat, end: nat, ms: nat)

  /** The two-digit number at `s[i..i+2]`. */
  function TwoDigits(s: string, i: nat): (n: nat)
    requires i + 2 <= |s| && IsDigit(s[i]) && IsDigit(s[i + 1])
    ensures n < 100
  {
    10 * DigitValue(s[i]) + DigitValue(s[i + 1])
  }

  /** The three-digit number at `s[i..i+3]`. */
  function ThreeDigits(s: string, i: nat): (n: nat)
    requires i + 3 <= |s| && IsDigit(s[i]) && IsDigit(s[i + 1]) && IsDigit(s[i + 2])
    ensures n < 1000
  {
    10 * TwoDigits(s, i) + DigitValue(s[i + 2])
  }

  /** `[`, two digits, `:`, two digits, `.`, two digits: what every tag
      starts with. */
  predicate TagHeadAt(s: string, p: nat) {
    && p + 10 <= |s|
    && s[p] == '[' && IsDigit(s[p + 1]) && IsDigit(s[p + 2])
    && s[p + 3] == ':' && IsDigit(s[p + 4]) && IsDigit(s[p + 5])
    && s[p + 6] == '.' && IsDigit(s[p + 7]) && IsDigit(s[p + 8])
  }

  /** The tag that starts at `p`, if one does. A two-digit fraction counts
      hundredths of a second, a three-digit fraction thousandths. */
  function TagAt(s: string, p: nat): (r: Option<Tag>)
    ensures r.Some? ==> r.value.start == p && p + 10 <= r.value.end <= p + 11 && r.value.end <= |s|
    ensures r.Some? ==> s[p] == '[' && s[r.value.end - 1] == ']'
    ensures r.Some? ==> forall q :: p < q < r.value.end ==> s[q] != '['
  {
    if !TagHeadAt(s, p) then None
    else
      var whole := TwoDigits(s, p + 1) * 60000 + TwoDigits(s, p + 4) * 1000;
      if s[p + 9] == ']' then Some(Tag(p, p + 10, whole + TwoDigits(s, p + 7) * 10))
      else if p + 11 <= |s| && IsDigit(s[p + 9]) && s[p + 10] == ']' then
        Some(Tag(p, p + 11, whole + ThreeDigits(s, p + 7)))
      else None
  }

  /** `tagTest.test(s)`: some tag occurs somewhere in `s`. */
  predicate HasTag(s: string) {
    exists p: nat :: p < |s| && TagAt(s, p).Some?
  }

  /** The leftmost tag that starts at or after `from`: one `exec` step. */
  function NextTag(s: string, from: nat): (r: Option<Tag>)
    ensures r.Some? ==> from <= r.value.start < r.value.end <= |s|
    decreases |s| - from
  {
    if from >= |s| then None
    else if TagAt(s, from).Some? then TagAt(s, from)
    else NextTag(s, from + 1)
  }

  /** `NextTag` reports the leftmost tag at or after `from`, and nothing
      when no tag starts there or later. */
  lemma {:induction false} NextTagIsLeftmost(s: string, from: nat)
    ensures NextTag(s, from).Some? ==> TagAt(s, NextTag(s, from).value.start) == NextTag(s, from)
    ensures NextTag(s, from).Some? ==> forall q: nat :: from <= q < NextTag(s, from).value.start ==> TagAt(s, q).None?
    ensures NextTag(s, from).None? ==> forall q: nat :: from <= q ==> TagAt(s, q).None?
    decreases |s| - from
  {
    if from < |s| && TagAt(s, from).None? {
      NextTagIsLeftmost(s, from + 1);
    }
  }

  /** Tags that are in order, inside `s` and do not overlap. */
  predicate Spaced(s: string, tags: seq<Tag>) {
    && (forall i :: 0 <= i < |tags| ==> tags[i].start < tags[i].end <= |s|)
    && (forall i :: 0 <= i < |tags| - 1 ==> tags[i].end <= tags[i + 1].start)
  }

  /** Every tag found by repeated `exec` calls that begin at `from`. */
  function TagsFrom(s: string, from: nat): (r: seq<Tag>)
    ensures Spaced(s, r)
    ensures forall i :: 0 <= i < |r| ==> from <= r[i].start
    decreases |s| - from
  {
    match NextTag(s, from)
    case None => []
    case Some(t) => [t] + TagsFrom(s, t.end)
  }

  /** All tags of `s`, left to right. */
  function Tags(s: string): seq<Tag> {
    TagsFrom(s, 0)
  }

  /** Every tag the scan reports is a tag of `s` where it says. */
  lemma {:induction false} TagsFromAreTags(s: string, from: nat, i: nat)
    requires i < |TagsFrom(s, from)|
    ensures TagAt(s, TagsFrom(s, from)[i].start) == Some(TagsFrom(s, from)[i])
    decreases |s| - from
  {
    var t := NextTag(s, from).value;
    NextTagIsLeftmost(s, from);
    if i > 0 {
      TagsFromAreTags(s, t.end, i - 1);
      assert TagsFrom(s, from)[i] == TagsFrom(s, t.end)[i - 1];
    }
  }

  /** The scan resumes where the previous tag ended: the `exec` call after
      tag `k - 1` reports tag `k`, or nothing after the last one. */
  lemma {:induction false} NextTagAfter(s: string, from: nat, k: nat)
    requires k <= |TagsFrom(s, from)|
    ensures var r := TagsFrom(s, from);
      NextTag(s, if k == 0 then from else r[k - 1].end) == if k < |r| then Some(r[k]) else None
    decreases k
  {
    var r := TagsFrom(s, from);
    if k > 0 {
      var t := r[0];
      assert NextTag(s, from) == Some(t);
      var r' := TagsFrom(s, t.end);
      assert r == [t] + r';
      if k == 1 {
        NextTagAfter(s, t.end, 0);
      } else {
        NextTagAfter(s, t.end, k - 1);
        assert r[k - 1] == r'[k - 2];
      }
    }
  }

  /** No tag is skipped: every position where a tag starts is the start of
      one of the tags the scan reports. */
  lemma {:induction false} TagsFromComplete(s: string, from: nat, p: nat)
    requires from <= p && TagAt(s, p).Some?
    ensures exists i :: 0 <= i < |TagsFrom(s, from)| && TagsFrom(s, from)[i] == TagAt(s, p).value
    decreases |s| - from
  {
    NextTagIsLeftmost(s, from);
    var t := NextTag(s, from).value;
    if t.start != p {
      assert t.start < p;
      assert s[p] == '[';
      assert t.end <= p;
      TagsFromComplete(s, t.end, p);
      var i :| 0 <= i < |TagsFrom(s, t.end)| && TagsFrom(s, t.end)[i] == TagAt(s, p).value;
      assert TagsFrom(s, from)[i + 1] == TagsFrom(s, t.end)[i];
    } else {
      assert TagsFrom(s, from)[0] == t;
    }
  }

  /** The presence test and the scan agree: a text has a tag exactly when
      the scan finds one. */
  lemma HasTagIffTags(s: string)
    ensures HasTag(s) <==> Tags(s) != []
  {
    if HasTag(s) {
      var p: nat :| p < |s| && TagAt(s, p).Some?;
      TagsFromComplete(s, 0, p);
    }
    if Tags(s) != [] {
      TagsFromAreTags(s, 0, 0);
      assert TagAt(s, Tags(s)[0].start).Some?;
    }
  }
}
