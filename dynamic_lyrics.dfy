/** The DynamicLyrics document of the background worker: `formatLrcTime`
    (background.js:114-123) and the conversion of a document's `lines`
    into LRC text in `fetchFromGithubDynamic` (background.js:126-168). */
module DynamicLyrics {
  import opened Lyrics
  import opened Strings
  import opened LrcTag
  import opened LrcParser
  import opened Cursor

  /** `String(n).padStart(2, '0')`. */
  function Pad2(n: nat): (r: string)
    ensures forall i :: 0 <= i < |r| ==> IsDigit(r[i])
    ensures |r| >= 2
  {
    if n < 10 then "0" + NatToString(n) else NatToString(n)
  }

  /** Below 100 the two padded digits spell `n`. */
  lemma Pad2Digits(n: nat)
    requires n < 100
    ensures |Pad2(n)| == 2 && 10 * DigitValue(Pad2(n)[0]) + DigitValue(Pad2(n)[1]) == n
  {
    if n >= 10 {
      assert NatToString(n) == NatToString(n / 10) + [('0' as int + n % 10) as char];
    }
  }

  /** From 100 on, the number needs three digits or more. */
  lemma Pad2Long(n: nat)
    requires n >= 100
    ensures |Pad2(n)| >= 3
  {
    assert NatToString(n) == NatToString(n / 10) + [('0' as int + n % 10) as char];
  }

  /** `formatLrcTime(ms / 1000)`: negative times count as zero, then
      minutes, seconds and hundredths, each padded to two digits. */
  function FormatLrcTime(ms: int): (r: string)
    ensures ms <= 0 ==> r == "00:00.00"
  {
    var total := if ms < 0 then 0 else ms;
    var min := total / 60000;
    var sec := (total % 60000) / 1000;
    var cs := (total % 1000) / 10;
    Pad2(min) + ":" + Pad2(sec) + "." + Pad2(cs)
  }

  /** The whole minutes, seconds and hundredths of a time add up to the
      time cut down to hundredths. */
  lemma TimeParts(ms: nat)
    ensures (ms % 60000) / 1000 < 60 && (ms % 1000) / 10 < 100
    ensures (ms / 60000) * 60000 + ((ms % 60000) / 1000) * 1000 + ((ms % 1000) / 10) * 10 == ms - ms % 10
  {
    var m := ms % 60000;
    assert ms == (ms / 60000) * 60000 + m;
    assert m == (m / 1000) * 1000 + m % 1000;
    assert m % 1000 == ms % 1000 by {
      assert ms == (ms / 60000) * 60 * 1000 + (m / 1000) * 1000 + m % 1000;
    }
    var c := ms % 1000;
    assert c == (c / 10) * 10 + c % 10;
    assert c % 10 == ms % 10 by {
      assert ms == (ms / 1000) * 100 * 10 + (c / 10) * 10 + c % 10;
    }
  }

  /** Under 100 minutes the formatted time, in brackets, is a tag the LRC
      parser reads back as the time cut down to hundredths, whatever
      follows it. */
  lemma FormatLrcTimeTag(ms: int, rest: string)
    requires 0 <= ms < 6000000
    ensures TagAt("[" + FormatLrcTime(ms) + "]" + rest, 0) == Some(Tag(0, 10, ms - ms % 10))
  {
    var min := ms / 60000;
    var sec := (ms % 60000) / 1000;
    var cs := (ms % 1000) / 10;
    TimeParts(ms);
    Pad2Digits(min);
    Pad2Digits(sec);
    Pad2Digits(cs);
    var s := "[" + FormatLrcTime(ms) + "]" + rest;
    assert s[1] == Pad2(min)[0] && s[2] == Pad2(min)[1];
    assert s[4] == Pad2(sec)[0] && s[5] == Pad2(sec)[1];
    assert s[7] == Pad2(cs)[0] && s[8] == Pad2(cs)[1];
    assert s[3] == ':' && s[6] == '.' && s[9] == ']';
    assert TwoDigits(s, 1) == min && TwoDigits(s, 4) == sec && TwoDigits(s, 7) == cs;
  }

  /** From 100 minutes on, the minutes take three digits and the bracketed
      time is no tag at all. */
  lemma LongTimeIsNoTag(ms: int, rest: string)
    requires ms >= 6000000
    ensures TagAt("[" + FormatLrcTime(ms) + "]" + rest, 0).None?
  {
    Pad2Long(ms / 60000);
    var s := "[" + FormatLrcTime(ms) + "]" + rest;
    assert s[3] == Pad2(ms / 60000)[2];
  }

  // ----- `Number(s)` on a start time given as a string -----

  /** The value of a run of decimal digits. */
  function DecimalValue(s: string): (n: nat)
    requires forall i :: 0 <= i < |s| ==> IsDigit(s[i])
  {
    if s == [] then 0 else 10 * DecimalValue(s[..|s| - 1]) + DigitValue(s[|s| - 1])
  }

  predicate AllDigits(s: string) {
    s != [] && forall i :: 0 <= i < |s| ==> IsDigit(s[i])
  }

  /** An optionally signed run of decimal digits. */
  predicate IntegerNumeral(t: string) {
    AllDigits(t) || (t != [] && (t[0] == '-' || t[0] == '+') && AllDigits(t[1..]))
  }

  /** `Number(raw)` for the integer forms: white space around the number
      is ignored, an empty or blank string is 0, an optional sign precedes
      the digits. Every other string is `NaN` (None). */
  function ParseNumber(raw: string): (r: Option<int>)
    ensures IsBlank(raw) ==> r == Some(0)
    ensures r.None? <==> !IsBlank(raw) && !IntegerNumeral(Trim(raw))
    ensures AllDigits(Trim(raw)) ==> r == Some(DecimalValue(Trim(raw)))
    ensures var t := Trim(raw); t != [] && t[0] == '-' && AllDigits(t[1..]) ==> r == Some(0 - DecimalValue(t[1..]) as int)
    ensures var t := Trim(raw); t != [] && t[0] == '+' && AllDigits(t[1..]) ==> r == Some(DecimalValue(t[1..]))
  {
    IsBlankIffTrimEmpty(raw);
    var t := Trim(raw);
    if t == [] then Some(0)
    else if t[0] == '-' && AllDigits(t[1..]) then Some(0 - DecimalValue(t[1..]) as int)
    else if t[0] == '+' && AllDigits(t[1..]) then Some(DecimalValue(t[1..]))
    else if AllDigits(t) then Some(DecimalValue(t))
    else None
  }

  /** Reading back the decimal digits of a number gives the number. */
  lemma {:induction false} DecimalValueOfNatToString(n: nat)
    ensures DecimalValue(NatToString(n)) == n
    decreases n
  {
    if n >= 10 {
      DecimalValueOfNatToString(n / 10);
      var s := NatToString(n);
      assert s[..|s| - 1] == NatToString(n / 10);
    }
  }

  /** A start time written as the decimal string of a number parses to
      that number. */
  lemma ParseNumberOfNatToString(n: nat)
    ensures ParseNumber(NatToString(n)) == Some(n)
  {
    var s := NatToString(n);
    assert IsDigit(s[0]) && IsDigit(s[|s| - 1]);
    TrimOfTrimmed(s);
    assert AllDigits(s) && s[0] != '-' && s[0] != '+';
    DecimalValueOfNatToString(n);
  }

  /** The start time of a record in milliseconds: a number as it is, a
      string through `Number`, anything else none. */
  function StartMs(st: StartTime): (r: Option<int>)
    ensures st.NumberMs? ==> r == Some(st.ms)
    ensures st.NoStart? ==> r.None?
  {
    match st
    case NumberMs(ms) => Some(ms)
    case StringMs(raw) => ParseNumber(raw)
    case NoStart => None
  }

  /** `chars.map(c => c.c).join('')`. */
  function GlyphText(chars: seq<DynChar>): string {
    if chars == [] then [] else GlyphText(chars[..|chars| - 1]) + chars[|chars| - 1].c
  }

  /** A record's text before trimming: its `text` when that is a non-empty
      string, else the glyphs joined, else nothing. */
  function RecordText(l: DynLine): (r: string)
    ensures l.text.Some? && l.text.value != [] ==> r == l.text.value
  {
    if l.text.Some? && l.text.value != [] then l.text.value
    else if l.chars.Some? then GlyphText(l.chars.value)
    else []
  }

  /** One record as an LRC line `[mm:ss.cc] text`, or None when it is
      dropped: no usable start time, or a blank text. */
  function ConvertRecord(l: DynLine): (r: Option<string>)
    ensures r.Some? <==> StartMs(l.startTimeMs).Some? && !IsBlank(RecordText(l))
    ensures r.Some? ==> r.value == "[" + FormatLrcTime(StartMs(l.startTimeMs).value) + "] " + Trim(RecordText(l))
  {
    IsBlankIffTrimEmpty(RecordText(l));
    match StartMs(l.startTimeMs)
    case None => None
    case Some(ms) =>
      var text := Trim(RecordText(l));
      if text == [] then None else Some("[" + FormatLrcTime(ms) + "] " + text)
  }

  /** `lines.map(...).filter(Boolean)`: the LRC lines of the kept records,
      in document order. */
  function ConvertedLines(lines: seq<DynLine>): (r: seq<string>)
    ensures |r| <= |lines|
  {
    if lines == [] then []
    else
      match ConvertRecord(lines[|lines| - 1])
      case None => ConvertedLines(lines[..|lines| - 1])
      case Some(x) => ConvertedLines(lines[..|lines| - 1]) + [x]
  }

  /** The records the conversion keeps, in document order. */
  function KeptRecords(lines: seq<DynLine>): (r: seq<DynLine>)
    ensures |r| <= |lines|
  {
    if lines == [] then []
    else
      var init := KeptRecords(lines[..|lines| - 1]);
      if ConvertRecord(lines[|lines| - 1]).Some? then init + [lines[|lines| - 1]] else init
  }

  /** For each record, whether the conversion keeps it. */
  function Keeps(lines: seq<DynLine>): (f: seq<bool>)
    ensures |f| == |lines|
    ensures forall i :: 0 <= i < |lines| ==> f[i] == ConvertRecord(lines[i]).Some?
  {
    seq(|lines|, i requires 0 <= i < |lines| => ConvertRecord(lines[i]).Some?)
  }

  /** The positions of the set flags, in increasing order. */
  function TrueIndices(f: seq<bool>): (idx: seq<nat>)
  {
    if f == [] then []
    else TrueIndices(f[..|f| - 1]) + (if f[|f| - 1] then [|f| - 1] else [])
  }

  /** The positions found are in range, increasing, and exactly those of
      the set flags. */
  lemma {:induction false} TrueIndicesExact(f: seq<bool>)
    ensures forall k :: 0 <= k < |TrueIndices(f)| ==> TrueIndices(f)[k] < |f| && f[TrueIndices(f)[k]]
    ensures forall k, m :: 0 <= k < m < |TrueIndices(f)| ==> TrueIndices(f)[k] < TrueIndices(f)[m]
    ensures forall i :: 0 <= i < |f| && f[i] ==> i in TrueIndices(f)
  {
    if f != [] {
      var n := |f| - 1;
      var init := f[..n];
      TrueIndicesExact(init);
      var front := TrueIndices(init);
      var idx := TrueIndices(f);
      forall k | 0 <= k < |front|
        ensures front[k] < n && f[front[k]]
      {
        assert front[k] < |init| && init[front[k]];
      }
      assert idx[..|front|] == front;
      forall i | 0 <= i < n && f[i]
        ensures i in idx
      {
        assert init[i];
      }
    }
  }

  /** The elements of `xs` whose flag is set, in order. */
  function Flagged(xs: seq<DynLine>, f: seq<bool>): (r: seq<DynLine>)
    requires |f| == |xs|
  {
    if xs == [] then []
    else Flagged(xs[..|xs| - 1], f[..|f| - 1]) + (if f[|f| - 1] then [xs[|xs| - 1]] else [])
  }

  /** The flagged elements are those at the positions of the set flags. */
  lemma {:induction false} FlaggedAtTrueIndices(xs: seq<DynLine>, f: seq<bool>)
    requires |f| == |xs|
    ensures |TrueIndices(f)| == |Flagged(xs, f)|
    ensures forall k :: 0 <= k < |TrueIndices(f)| ==> TrueIndices(f)[k] < |xs| && xs[TrueIndices(f)[k]] == Flagged(xs, f)[k]
  {
    if xs != [] {
      var n := |xs| - 1;
      FlaggedAtTrueIndices(xs[..n], f[..n]);
      TrueIndicesExact(f[..n]);
      var front := TrueIndices(f[..n]);
      var idx := TrueIndices(f);
      var r := Flagged(xs, f);
      forall k | 0 <= k < |idx|
        ensures idx[k] < |xs| && xs[idx[k]] == r[k]
      {
        if k < |front| {
          assert idx[k] == front[k] && r[k] == Flagged(xs[..n], f[..n])[k];
          assert xs[front[k]] == xs[..n][front[k]];
        }
      }
    }
  }

  /** The kept records are the records flagged by `Keeps`. */
  lemma {:induction false} KeptRecordsFlagged(lines: seq<DynLine>)
    ensures KeptRecords(lines) == Flagged(lines, Keeps(lines))
  {
    if lines != [] {
      var n := |lines| - 1;
      KeptRecordsFlagged(lines[..n]);
      assert Keeps(lines)[..n] == Keeps(lines[..n]);
    }
  }

  /** Where the kept records sit in the document. */
  function KeptIndices(lines: seq<DynLine>): (idx: seq<nat>)
  {
    TrueIndices(Keeps(lines))
  }

  /** The kept records are the document's convertible records in document
      order: they sit at increasing positions, which are exactly those of
      the records that convert. */
  lemma KeptRecordsAreFiltered(lines: seq<DynLine>)
    ensures var idx := KeptIndices(lines);
      && |idx| == |KeptRecords(lines)|
      && (forall k :: 0 <= k < |idx| ==> idx[k] < |lines| && lines[idx[k]] == KeptRecords(lines)[k])
      && (forall k, m :: 0 <= k < m < |idx| ==> idx[k] < idx[m])
      && (forall i :: 0 <= i < |lines| ==> (i in idx <==> ConvertRecord(lines[i]).Some?))
  {
    KeptRecordsFlagged(lines);
    FlaggedAtTrueIndices(lines, Keeps(lines));
    TrueIndicesExact(Keeps(lines));
  }

  /** The LRC lines are exactly the kept records converted, one for one. */
  lemma {:induction false} ConvertedLinesAreKeptRecords(lines: seq<DynLine>)
    ensures |ConvertedLines(lines)| == |KeptRecords(lines)|
    ensures forall i :: 0 <= i < |KeptRecords(lines)| ==>
      ConvertRecord(KeptRecords(lines)[i]) == Some(ConvertedLines(lines)[i])
  {
    if lines != [] {
      ConvertedLinesAreKeptRecords(lines[..|lines| - 1]);
    }
  }

  /** What the conversion hands back: the LRC text and the records. */
  datatype Converted = Converted(lyrics: string, dynamicLines: seq<DynLine>)

  /** The conversion of background.js:134-162: nothing when the document
      has no `lines` array; otherwise the kept lines joined by newlines,
      together with the document's records as they were, dropped ones
      included. */
  function ConvertDynamic(doc: Option<seq<DynLine>>): (r: Option<Converted>)
    ensures r.None? <==> doc.None?
    ensures r.Some? ==> r.value.dynamicLines == doc.value
  {
    match doc
    case None => None
    case Some(lines) => Some(Converted(Join(ConvertedLines(lines), "\n"), lines))
  }

  /** `parts.join('\n')` of lines that each start with `[` starts with
      `[`, and is empty exactly when there are no lines. */
  lemma JoinedLinesStart(parts: seq<string>)
    requires forall i :: 0 <= i < |parts| ==> parts[i] != [] && parts[i][0] == '['
    ensures Join(parts, "\n") == [] <==> parts == []
    ensures parts != [] ==> Join(parts, "\n")[0] == '['
  {
  }

  /** The converted lyrics are empty exactly when no record is kept, and
      are never blank otherwise. */
  lemma ConvertedLyricsNotBlank(lines: seq<DynLine>)
    ensures var lyrics := ConvertDynamic(Some(lines)).value.lyrics;
      && (lyrics == [] <==> KeptRecords(lines) == [])
      && (lyrics != [] ==> !IsBlank(lyrics))
  {
    ConvertedLinesAreKeptRecords(lines);
    var parts := ConvertedLines(lines);
    forall i | 0 <= i < |parts|
      ensures parts[i] != [] && parts[i][0] == '['
    {
      assert ConvertRecord(KeptRecords(lines)[i]) == Some(parts[i]);
    }
    JoinedLinesStart(parts);
  }

  /** A kept record whose text has no line break and no `[`, at a time
      under 100 minutes, comes back from the LRC parser as one timed line
      with that text and its time cut down to hundredths. */
  lemma ConvertedLineParses(ms: int, text: string)
    requires 0 <= ms < 6000000
    requires text != [] && Trim(text) == text && '\n' !in text && '[' !in text
    ensures ParseLrc("[" + FormatLrcTime(ms) + "] " + text) == LrcResult([Line(Some(ms - ms % 10), text, None)], true)
  {
    var s := "[" + FormatLrcTime(ms) + "] " + text;
    FormatLrcTimeTag(ms, " " + text);
    assert s == "[" + FormatLrcTime(ms) + "]" + (" " + text);
    assert s[10..] == " " + text;
    OneTagParses(s, ms - ms % 10, text);
  }

  /** A text made of one tag at its start, a space and a trimmed text
      without line breaks or `[` parses as that one timed line. */
  lemma OneTagParses(s: string, ms: nat, text: string)
    requires TagAt(s, 0) == Some(Tag(0, 10, ms)) && |s| >= 10 && s[10..] == " " + text
    requires text != [] && Trim(text) == text && '\n' !in text && '[' !in text
    ensures ParseLrc(s) == LrcResult([Line(Some(ms), text, None)], true)
  {
    var line := Line(Some(ms), text, None);
    assert HasTag(s);
    OneTagLines(s, ms, text);
    assert [line][1..] == [];
    assert SortByTime([line]) == InsertByTime(line, []) == [line];
  }

  /** The one tag of such a text opens its one line. */
  lemma OneTagLines(s: string, ms: nat, text: string)
    requires TagAt(s, 0) == Some(Tag(0, 10, ms)) && |s| >= 10 && s[10..] == " " + text
    requires text != [] && Trim(text) == text && '\n' !in text && '[' !in text
    ensures TaggedLines(s) == [Line(Some(ms), text, None)]
  {
    var tag := Tag(0, 10, ms);
    forall q | 10 <= q < |s|
      ensures s[q] != '['
    {
      assert s[q] == (" " + text)[q - 10];
    }
    NoTagAfter(s, 10);
    assert NextTag(s, 0) == Some(tag);
    assert TagsFrom(s, 10) == [];
    var tags := Tags(s);
    assert tags == [tag] + TagsFrom(s, 10);
    SpacedSegment(text);
    assert TaggedCount(s, tags) == 1;
    assert SegmentEnd(s, tags, 0) == |s|;
    assert s[10..|s|] == s[10..];
    assert TaggedLineAt(s, tags, 0) == Line(Some(ms), text, None);
    assert TaggedLines(s) == TaggedPrefix(s, tags, 1);
    assert TaggedPrefix(s, tags, 1)[0] == TaggedLineAt(s, tags, 0);
  }

  /** The space the conversion puts after the tag is trimmed away. */
  lemma SpacedSegment(text: string)
    requires text != [] && Trim(text) == text && '\n' !in text
    ensures SegmentText(" " + text) == text
  {
    ReplaceNewlinesNoop(" " + text);
    TrimShape(text);
    assert LeadingSpaces(" " + text) == 1 by {
      assert (" " + text)[1..] == text;
    }
  }

  /** No tag starts at or after `from` when no `[` does. */
  lemma {:induction false} NoTagAfter(s: string, from: nat)
    requires forall q :: from <= q < |s| ==> s[q] != '['
    ensures NextTag(s, from).None?
    decreases |s| - from
  {
    if from < |s| {
      NoTagAfter(s, from + 1);
    }
  }

  /** A record whose text is blank is dropped from the lyrics but kept in
      `dynamicLines`, so the glyphs of the row after it are read from the
      wrong record: here the one lyric line pairs with the blank record
      and shows no glyphs. */
  lemma BlankRecordShiftsGlyphs()
    ensures var doc := [DynLine(NumberMs(0), Some(""), Some([])),
                        DynLine(NumberMs(1000), Some("la"), Some([DynChar("la", Some(1000))]))];
      var r := ConvertDynamic(Some(doc)).value;
      && |ConvertedLines(doc)| == 1 && |r.dynamicLines| == 2
      && RowChars(Some(r.dynamicLines), 0) == [] && RowChars(Some(KeptRecords(doc)), 0) == [DynChar("la", Some(1000))]
  {
    var doc := [DynLine(NumberMs(0), Some(""), Some([])),
                DynLine(NumberMs(1000), Some("la"), Some([DynChar("la", Some(1000))]))];
    assert GlyphText([]) == [];
    assert IsBlank(RecordText(doc[0]));
    assert !IsSpace(RecordText(doc[1])[0]);
    assert doc[..1] == [doc[0]];
    assert ConvertRecord(doc[0]).None?;
    assert ConvertRecord(doc[1]).Some?;
    assert KeptRecords([doc[0]]) == [];
    assert KeptRecords(doc) == [doc[1]];
  }

  /** When no record is dropped, the lyrics have one line per record, and
      each record pairs with its own line. */
  lemma NothingDroppedKeepsPairing(lines: seq<DynLine>)
    requires forall i :: 0 <= i < |lines| ==> ConvertRecord(lines[i]).Some?
    ensures KeptRecords(lines) == lines
    ensures |ConvertedLines(lines)| == |lines|
  {
    ConvertedLinesAreKeptRecords(lines);
    KeptAll(lines);
  }

  lemma {:induction false} KeptAll(lines: seq<DynLine>)
    requires forall i :: 0 <= i < |lines| ==> ConvertRecord(lines[i]).Some?
    ensures KeptRecords(lines) == lines
  {
    if lines != [] {
      var init := lines[..|lines| - 1];
      forall i | 0 <= i < |init|
        ensures ConvertRecord(init[i]).Some?
      {
        assert init[i] == lines[i];
      }
      KeptAll(init);
      SplitLast(lines);
    }
  }

  lemma SplitLast(lines: seq<DynLine>)
    requires lines != []
    ensures lines == lines[..|lines| - 1] + [lines[|lines| - 1]]
  {
  }
}
