/** The lyrics of a track's README file (background.js:171-203): the first
    fenced block, `/```(?:lrc|text)?([\s\S]*?)```/i`, or else the whole
    text, kept only when it holds an LRC timestamp tag. */
module ReadmeLyrics {
  import opened Lyrics
  import opened Strings
  import opened LrcTag

  /** Three backticks start at `p`. */
  predicate FenceAt(s: string, p: nat) {
    p + 3 <= |s| && s[p] == '`' && s[p + 1] == '`' && s[p + 2] == '`'
  }

  /** The first fence that starts at or after `from`. */
  function NextFence(s: string, from: nat): (r: Option<nat>)
    ensures r.Some? ==> from <= r.value && FenceAt(s, r.value)
    ensures r.Some? ==> forall q: nat :: from <= q < r.value ==> !FenceAt(s, q)
    ensures r.None? ==> forall q: nat :: from <= q ==> !FenceAt(s, q)
    decreases |s| - from
  {
    if from + 3 > |s| then None
    else if FenceAt(s, from) then Some(from)
    else NextFence(s, from + 1)
  }

  /** `lrc` stands at `p`, in any case. */
  predicate LrcLabelAt(s: string, p: nat) {
    p + 3 <= |s| && LowerChar(s[p]) == 'l' && LowerChar(s[p + 1]) == 'r' && LowerChar(s[p + 2]) == 'c'
  }

  /** `text` stands at `p`, in any case. */
  predicate TextLabelAt(s: string, p: nat) {
    && p + 4 <= |s| && LowerChar(s[p]) == 't' && LowerChar(s[p + 1]) == 'e'
    && LowerChar(s[p + 2]) == 'x' && LowerChar(s[p + 3]) == 't'
  }

  /** The length of the optional `lrc` or `text` label at `p`; 0 when
      there is none. */
  function LabelLength(s: string, p: nat): (n: nat)
    requires p <= |s|
    ensures n == 0 || n == 3 || n == 4
    ensures p + n <= |s|
    ensures n > 0 ==> s[p] != '`' && s[p + 1] != '`' && s[p + 2] != '`' && (n == 4 ==> s[p + 3] != '`')
  {
    if LrcLabelAt(s, p) then 3
    else if TextLabelAt(s, p) then 4
    else 0
  }

  /** Where the first match of the fence expression lies: the opening
      fence at `p`, the first fence of the text; its group from `b`, just
      after the fence and its label, up to `q`, the first fence from `b`
      on. None when there is no such closing fence. */
  function FenceSpan(s: string): (r: Option<(nat, nat, nat)>)
    ensures r.Some? ==> var (p, b, q) := r.value;
      && FenceAt(s, p) && (forall k: nat :: k < p ==> !FenceAt(s, k))
      && b == p + 3 + LabelLength(s, p + 3)
      && b <= q && FenceAt(s, q) && (forall k: nat :: b <= k < q ==> !FenceAt(s, k))
  {
    match NextFence(s, 0)
    case None => None
    case Some(p) =>
      var b := p + 3 + LabelLength(s, p + 3);
      match NextFence(s, b)
      case None => None
      case Some(q) => Some((p, b, q))
  }

  /** The first group of the first match, when there is one. */
  function FencedBody(s: string): (r: Option<string>)
    ensures r.Some? <==> FenceSpan(s).Some?
    ensures r.Some? ==> FenceSpan(s).value.2 <= |s| && r.value == s[FenceSpan(s).value.1..FenceSpan(s).value.2]
  {
    match FenceSpan(s)
    case None => None
    case Some((p, b, q)) => Some(s[b..q])
  }

  /** The expression matches exactly when two fences occur one after the
      other: an opening fence without a closing one after it (and after
      its label) matches nothing, wherever a later match is tried. */
  lemma FencedBodyIffTwoFences(s: string)
    ensures FencedBody(s).Some? <==> exists p: nat, q: nat :: p + 3 <= q && FenceAt(s, p) && FenceAt(s, q)
  {
    if exists p: nat, q: nat :: p + 3 <= q && FenceAt(s, p) && FenceAt(s, q) {
      var p: nat, q: nat :| p + 3 <= q && FenceAt(s, p) && FenceAt(s, q);
      var p0 := NextFence(s, 0).value;
      var b := p0 + 3 + LabelLength(s, p0 + 3);
      assert p0 <= p;
      assert s[q] == '`';
      assert q >= b;
      assert NextFence(s, b).Some?;
    }
  }

  /** `NextFence` finds the fence at `q` when none comes before it. */
  lemma {:induction false} NextFenceIs(s: string, from: nat, q: nat)
    requires from <= q && FenceAt(s, q)
    requires forall k: nat :: from <= k < q ==> !FenceAt(s, k)
    ensures NextFence(s, from) == Some(q)
    decreases q - from
  {
    if from < q {
      NextFenceIs(s, from + 1, q);
    }
  }

  /** The text the tag test looks at: the fenced body when it is not
      empty, else the whole text. */
  function Candidate(text: string): (c: string)
    ensures c == text || FencedBody(text) == Some(c)
    ensures FencedBody(text).None? ==> c == text
    ensures FencedBody(text) == Some([]) ==> c == text
    ensures FencedBody(text).Some? && FencedBody(text).value != [] ==> c == FencedBody(text).value
  {
    match FencedBody(text)
    case Some(body) => if body != [] then body else text
    case None => text
  }

  /** The lyrics taken from a README text: the candidate trimmed, or the
      empty string when it holds no timestamp tag. */
  function ReadmeText(text: string): (r: string)
    ensures !HasTag(Candidate(text)) <==> r == []
    ensures r != [] ==> r == Trim(Candidate(text)) && HasTag(r) && Trim(r) == r
  {
    var c := Candidate(text);
    if !HasTag(c) then []
    else
      TrimKeepsTags(c);
      TrimIdempotent(c);
      Trim(c)
  }

  /** `fetchFromGithubReadme(video_id)` given the download: the empty
      string without a video id, when the download fails, and for an
      empty file. */
  function ReadmeLyricsOf(videoId: string, reply: Fetched<string>): (r: string)
    ensures videoId == [] || reply.Failed? ==> r == []
    ensures videoId != [] && reply.Got? ==> r == ReadmeText(reply.body)
  {
    if videoId == [] || reply.Failed? then []
    else ReadmeText(reply.body)
  }

  /** A tag of `s` that lies within `s[a..b]` is a tag of the slice, at the
      shifted position. */
  lemma TagAtInSlice(s: string, a: nat, b: nat, p: nat, t: string)
    requires a <= p && TagAt(s, p).Some? && TagAt(s, p).value.end <= b <= |s| && t == s[a..b]
    ensures TagAt(t, p - a).Some? && HasTag(t)
  {
    var e := TagAt(s, p).value.end;
    assert forall k :: p <= k < e ==> t[k - a] == s[k];
    assert TagHeadAt(t, p - a);
  }

  /** A character that is not white space lies inside the trimmed part. */
  lemma NonSpaceInsideTrim(c: string, i: nat)
    requires i < |c| && !IsSpace(c[i])
    ensures LeadingSpaces(c) <= i < LeadingSpaces(c) + |Trim(c)|
  {
    TrimShape(c);
  }

  /** Trimming keeps every tag: the white space it cuts holds no `[`. */
  lemma TrimKeepsTags(c: string)
    requires HasTag(c)
    ensures HasTag(Trim(c))
  {
    var p: nat :| p < |c| && TagAt(c, p).Some?;
    var e := TagAt(c, p).value.end;
    TagEndsNotSpace(c, p);
    NonSpaceInsideTrim(c, p);
    NonSpaceInsideTrim(c, e - 1);
    TrimSlice(c);
    TagAtInSlice(c, LeadingSpaces(c), LeadingSpaces(c) + |Trim(c)|, p, Trim(c));
  }


  /** A tag starts with `[` and ends with `]`, neither of them white space. */
  lemma TagEndsNotSpace(c: string, p: nat)
    requires TagAt(c, p).Some?
    ensures p < TagAt(c, p).value.end <= |c|
    ensures !IsSpace(c[p]) && !IsSpace(c[TagAt(c, p).value.end - 1])
  {
  }


  /** The trimmed text is a slice of the text. */
  lemma TrimSlice(c: string)
    ensures LeadingSpaces(c) + |Trim(c)| <= |c|
    ensures Trim(c) == c[LeadingSpaces(c)..LeadingSpaces(c) + |Trim(c)|]
  {
    TrimShape(c);
  }

  /** A labelled fence around a tagged line yields that line, trimmed. */
  lemma FencedExample()
    ensures ReadmeText("```LRC" + "\n[00:01.00] hi\n" + "```") == "[00:01.00] hi"
  {
    var line := "[00:01.00] hi";
    var body := "\n" + line + "\n";
    var s := "```LRC" + body + "```";
    assert "```LRC" + "\n[00:01.00] hi\n" + "```" == s;
    ExampleBody(s, body);
    ExampleTrim(body, line);
  }

  /** The group of the example is the text between its fences. */
  lemma ExampleBody(s: string, body: string)
    requires body == "\n[00:01.00] hi\n" && s == "```LRC" + body + "```"
    ensures FencedBody(s) == Some(body)
  {
    assert LrcLabelAt(s, 3);
    NextFenceIs(s, 0, 0);
    forall k: nat | 6 <= k < 21
      ensures !FenceAt(s, k)
    {
      assert s[k] == body[k - 6];
    }
    NextFenceIs(s, 6, 21);
    assert s[6..21] == body;
  }

  /** The group of the example holds a tag, and trims to its line. */
  lemma ExampleTrim(body: string, line: string)
    requires line == "[00:01.00] hi" && body == "\n" + line + "\n"
    ensures HasTag(body) && Trim(body) == line
  {
    assert TagAt(body, 1).Some?;
    assert LeadingSpaces(body) == 1;
    assert body[1..] == line + "\n";
    assert TrailingSpaces(line) == 0;
    assert TrailingSpaces(body[1..]) == 1;
    assert (line + "\n")[..|line|] == line;
  }

  /** Without a timestamp tag, even a fenced block yields nothing. */
  lemma UntaggedReadmeIgnored(text: string)
    requires !HasTag(text)
    ensures ReadmeText(text) == []
  {
    var c := Candidate(text);
    if c != text && HasTag(c) {
      var p: nat :| p < |c| && TagAt(c, p).Some?;
      var (_, b, q) := FenceSpan(text).value;
      TagAtOfSlice(text, b, q, p);
    }
  }

  /** A tag of the slice `s[a..b]` is a tag of `s`, at the shifted position. */
  lemma TagAtOfSlice(s: string, a: nat, b: nat, p: nat)
    requires a <= b <= |s| && TagAt(s[a..b], p).Some?
    ensures TagAt(s, a + p).Some?
  {
    var t := s[a..b];
    var e := TagAt(t, p).value.end;
    assert forall k :: p <= k < e ==> t[k] == s[a + k];
    assert TagHeadAt(s, a + p);
  }
}
