/** The translation step of content.js: `normalizeStr`, `isMixedLang` and
    `dedupePrimarySecondary` (content.js:146-171), and `applyTranslations`
    (content.js:640-741), which gathers the translated lyrics of the chosen
    languages, aligns them to the base lines and composes what each line
    shows: a primary text and, when it says something new, a secondary one. */
module Composer {
  import opened Lyrics
  import opened Strings
  import opened LrcParser
  import opened Aligner
  import opened DeepLTarget

  // ----- text comparison (content.js:146-159) -----

  /** `normalizeStr`: the text with all white space taken out. */
  function NormalizeStr(s: string): string {
    Trim(RemoveSpaces(s))
  }

  /** Normalising only removes white space: the trim after it finds none. */
  lemma NormalizeStrIsRemoveSpaces(s: string)
    ensures NormalizeStr(s) == RemoveSpaces(s)
    ensures NormalizeStr(NormalizeStr(s)) == NormalizeStr(s)
  {
    TrimOfTrimmed(RemoveSpaces(s));
    RemoveSpacesIdempotent(s);
  }

  predicate IsLatin(c: char) { 'A' <= c <= 'Z' || 'a' <= c <= 'z' }

  /** Kana, CJK extension A and the unified ideographs. */
  predicate IsCjk(c: char) {
    || ('\U{3040}' <= c <= '\U{30FF}') || ('\U{3400}' <= c <= '\U{4DBF}') || ('\U{4E00}' <= c <= '\U{9FFF}')
  }

  predicate IsHangul(c: char) { '\U{AC00}' <= c <= '\U{D7AF}' }

  predicate HasLatin(s: string) { exists i :: 0 <= i < |s| && IsLatin(s[i]) }
  predicate HasCjk(s: string) { exists i :: 0 <= i < |s| && IsCjk(s[i]) }
  predicate HasHangul(s: string) { exists i :: 0 <= i < |s| && IsHangul(s[i]) }

  /** How many of the three scripts occur in `s`. */
  function ScriptKinds(s: string): (n: nat)
    ensures n <= 3
  {
    (if HasLatin(s) then 1 else 0) + (if HasCjk(s) then 1 else 0) + (if HasHangul(s) then 1 else 0)
  }

  /** `isMixedLang`: at least two of Latin, CJK and Hangul occur. */
  predicate IsMixedLang(s: string) {
    s != [] && ScriptKinds(s) >= 2
  }

  /** A text in one script only is never mixed, and an empty one neither. */
  lemma SingleScriptNotMixed(s: string)
    requires forall i :: 0 <= i < |s| ==> IsLatin(s[i])
    ensures !IsMixedLang(s)
  {
  }

  /** A Latin letter next to a kana makes a text mixed. */
  lemma LatinAndKanaMixed()
    ensures IsMixedLang("a\U{3042}")
  {
    assert IsLatin("a\U{3042}"[0]);
    assert IsCjk("a\U{3042}"[1]);
  }

  // ----- `dedupePrimarySecondary` (content.js:161-171) -----

  /** A secondary text is dropped when, white space aside, it repeats the
      primary one and the primary is not of mixed script. An absent or
      empty secondary is left as it is. */
  function DedupeLine(l: Line): (r: Line)
    ensures r.time == l.time && r.text == l.text
    ensures r.translation.Some? ==> r.translation == l.translation
    ensures r.translation.Some? && r.translation.value != [] ==>
      NormalizeStr(r.text) != NormalizeStr(r.translation.value) || IsMixedLang(r.text)
    ensures l.translation.Some? && r.translation.None? ==>
      NormalizeStr(l.text) == NormalizeStr(l.translation.value) && !IsMixedLang(l.text)
  {
    if l.translation.None? || l.translation.value == [] then l
    else if NormalizeStr(l.text) == NormalizeStr(l.translation.value) && !IsMixedLang(l.text) then
      l.(translation := None)
    else l
  }

  /** `dedupePrimarySecondary`, which deletes the secondary text of the
      lines in place. */
  method DedupePrimarySecondary(lines: array<Line>)
    modifies lines
    ensures forall i :: 0 <= i < lines.Length ==> lines[i] == DedupeLine(old(lines[i]))
  {
    for i := 0 to lines.Length
      invariant forall q :: 0 <= q < i ==> lines[q] == DedupeLine(old(lines[q]))
      invariant forall q :: i <= q < lines.Length ==> lines[q] == old(lines[q])
    {
      lines[i] := DedupeLine(lines[i]);
    }
  }

  // ----- the languages to fetch (content.js:652-657) -----

  const Original: string := "original"

  /** `config.mainLang || 'original'`. */
  function MainLang(configured: string): (main: string)
    ensures main != []
  {
    if configured == [] then Original else configured
  }

  /** The main language unless it is the original, then the sub language
      unless it is empty, the original or the main one again. */
  function LangsToFetch(mainLang: string, subLang: string): (langs: seq<string>)
    ensures Original !in langs && [] !in langs
    ensures |langs| <= 2 && (|langs| == 2 ==> langs[0] != langs[1])
    ensures mainLang != [] && mainLang != Original <==> mainLang in langs
    ensures subLang in langs <==>
      (subLang != [] && subLang != Original && (subLang == mainLang ==> mainLang != [] && mainLang != Original))
    ensures forall l :: l in langs ==> l == mainLang || l == subLang
  {
    (if mainLang != [] && mainLang != Original then [mainLang] else [])
    + (if subLang != [] && subLang != Original && subLang != mainLang then [subLang] else [])
  }

  /** With the original lyrics as main language and no sub language there
      is nothing to fetch. */
  lemma NothingToFetch()
    ensures LangsToFetch(MainLang([]), []) == []
  {
  }

  // ----- gathering the translated lines (content.js:674-703) -----

  /** The user's settings that the translation step reads. */
  datatype Config = Config(useTrans: bool, mainLang: string, subLang: string, deepLKey: string)

  /** A `REGISTER_TRANSLATION` message: a DeepL translation offered back to
      the lyrics service. */
  datatype Registration = Registration(lang: string, lyrics: string)

  /** The LRC text of `lang` in the `GET_TRANSLATION` reply: `None` stands
      for a failed or unsuccessful request, and a missing entry reads `''`. */
  function LrcFor(reply: Option<map<string, string>>, lang: string): string {
    if reply.Some? && lang in reply.value then reply.value[lang] else []
  }

  /** The languages the lyrics service had no translation for, in order. */
  function NeedDeepL(reply: Option<map<string, string>>, langs: seq<string>): (need: seq<string>)
    ensures forall l :: l in need <==> l in langs && LrcFor(reply, l) == []
  {
    if langs == [] then []
    else
      var last := langs[|langs| - 1];
      NeedDeepL(reply, langs[..|langs| - 1]) + (if LrcFor(reply, last) == [] then [last] else [])
  }

  /** The translated lines of a DeepL answer: the base times with the
      translated texts. */
  function DeepLLines(base: seq<Line>, texts: seq<string>): (r: seq<Line>)
    requires |texts| == |base|
    ensures |r| == |base|
    ensures forall i :: 0 <= i < |r| ==> r[i] == Line(base[i].time, texts[i], None)
  {
    seq(|base|, i requires 0 <= i < |base| => Line(base[i].time, texts[i], None))
  }

  /** DeepL's answer for `lang`, when it has one line per base line. The
      answer depends only on the target code the language maps to. */
  predicate DeepLUsable(base: seq<Line>, deepl: string -> Option<seq<string>>, lang: string) {
    var answer := deepl(ResolveDeepLTargetLang(lang));
    answer.Some? && |answer.value| == |base|
  }

  /** The registrations the DeepL loop sends: one per usable answer whose
      joined text is not blank. */
  function Registrations(base: seq<Line>, deepl: string -> Option<seq<string>>, need: seq<string>): seq<Registration> {
    if need == [] then []
    else
      var lang := need[|need| - 1];
      var plain := if DeepLUsable(base, deepl, lang) then Join(deepl(ResolveDeepLTargetLang(lang)).value, "\n") else [];
      Registrations(base, deepl, need[..|need| - 1])
        + (if DeepLUsable(base, deepl, lang) && !IsBlank(plain) then [Registration(lang, plain)] else [])
  }

  /** The parsed LRC of every language the lyrics service had a
      translation for. */
  function FromLrcHub(reply: Option<map<string, string>>, langs: seq<string>): map<string, Option<seq<Line>>> {
    if langs == [] then map[]
    else
      var last := langs[|langs| - 1];
      var m := FromLrcHub(reply, langs[..|langs| - 1]);
      if LrcFor(reply, last) != [] then m[last := Some(ParseLrc(LrcFor(reply, last)).lines)] else m
  }

  /** `m` with the usable DeepL answers of the languages in `need` added. */
  function WithDeepL(base: seq<Line>, deepl: string -> Option<seq<string>>, need: seq<string>,
                     m: map<string, Option<seq<Line>>>): map<string, Option<seq<Line>>> {
    if need == [] then m
    else
      var last := need[|need| - 1];
      var m' := WithDeepL(base, deepl, need[..|need| - 1], m);
      if DeepLUsable(base, deepl, last) then m'[last := Some(DeepLLines(base, deepl(ResolveDeepLTargetLang(last)).value))]
      else m'
  }

  /** The translated lines of each language: the lyrics service's first,
      then DeepL's for the rest when a key is set. */
  function TransLinesByLang(cfg: Config, base: seq<Line>, langs: seq<string>,
                            reply: Option<map<string, string>>, deepl: string -> Option<seq<string>>)
    : map<string, Option<seq<Line>>>
  {
    var m := FromLrcHub(reply, langs);
    if cfg.deepLKey != [] then WithDeepL(base, deepl, NeedDeepL(reply, langs), m) else m
  }

  /** The `forEach` over the requested languages: the lyrics service's LRC
      is parsed where it is non-empty, the other languages are set aside
      for DeepL. */
  method GatherFromLrcHub(reply: Option<map<string, string>>, langs: seq<string>)
    returns (byLang: map<string, Option<seq<Line>>>, need: seq<string>)
    ensures byLang == FromLrcHub(reply, langs)
    ensures need == NeedDeepL(reply, langs)
  {
    byLang := map[];
    need := [];
    for k := 0 to |langs|
      invariant need == NeedDeepL(reply, langs[..k])
      invariant byLang == FromLrcHub(reply, langs[..k])
    {
      GatherStep(reply, langs, k);
      var lang := langs[k];
      var lrc := LrcFor(reply, lang);
      if lrc != [] {
        var parsed := ParseLrcInternal(lrc);
        byLang := byLang[lang := Some(parsed.lines)];
      } else {
        need := need + [lang];
      }
    }
    assert langs[..|langs|] == langs;
  }

  /** One more language extends both results by that language alone. */
  lemma GatherStep(reply: Option<map<string, string>>, langs: seq<string>, k: nat)
    requires k < |langs|
    ensures var lang := langs[k];
      && FromLrcHub(reply, langs[..k + 1]) == (if LrcFor(reply, lang) != [] then
           FromLrcHub(reply, langs[..k])[lang := Some(ParseLrc(LrcFor(reply, lang)).lines)]
         else FromLrcHub(reply, langs[..k]))
      && NeedDeepL(reply, langs[..k + 1]) == NeedDeepL(reply, langs[..k]) + (if LrcFor(reply, lang) == [] then [lang] else [])
  {
    assert langs[..k + 1][..k] == langs[..k];
  }

  /** The DeepL loop: each usable answer becomes translated lines, and a
      non-blank one is registered with the lyrics service. */
  method AskDeepL(base: seq<Line>, deepl: string -> Option<seq<string>>, need: seq<string>,
                  fromLrc: map<string, Option<seq<Line>>>)
    returns (byLang: map<string, Option<seq<Line>>>, regs: seq<Registration>)
    ensures byLang == WithDeepL(base, deepl, need, fromLrc)
    ensures regs == Registrations(base, deepl, need)
  {
    byLang := fromLrc;
    regs := [];
    for k := 0 to |need|
      invariant regs == Registrations(base, deepl, need[..k])
      invariant byLang == WithDeepL(base, deepl, need[..k], fromLrc)
    {
      assert need[..k + 1][..k] == need[..k];
      var lang := need[k];
      var translated := deepl(ResolveDeepLTargetLang(lang));
      if translated.Some? && |translated.value| == |base| {
        var lines := DeepLLines(base, translated.value);
        byLang := byLang[lang := Some(lines)];
        var plain := Join(translated.value, "\n");
        if !IsBlank(plain) {
          regs := regs + [Registration(lang, plain)];
        }
      }
    }
    assert need[..|need|] == need;
  }

  /** The two loops that gather the translated lines: the lyrics service's
      LRC per language first, then DeepL for the languages it lacked. */
  method CollectTranslations(cfg: Config, base: seq<Line>, langs: seq<string>,
                             reply: Option<map<string, string>>, deepl: string -> Option<seq<string>>)
    returns (byLang: map<string, Option<seq<Line>>>, regs: seq<Registration>)
    ensures byLang == TransLinesByLang(cfg, base, langs, reply, deepl)
    ensures regs == if cfg.deepLKey != [] then Registrations(base, deepl, NeedDeepL(reply, langs)) else []
  {
    var need;
    byLang, need := GatherFromLrcHub(reply, langs);
    regs := [];
    if need != [] && cfg.deepLKey != [] {
      byLang, regs := AskDeepL(base, deepl, need, byLang);
    }
  }

  /** The lyrics service's translations are exactly its non-empty entries
      for the requested languages. */
  lemma {:induction false} FromLrcHubHas(reply: Option<map<string, string>>, langs: seq<string>, l: string)
    ensures l in FromLrcHub(reply, langs) <==> l in langs && LrcFor(reply, l) != []
    ensures l in FromLrcHub(reply, langs) ==> FromLrcHub(reply, langs)[l] == Some(ParseLrc(LrcFor(reply, l)).lines)
  {
    if langs != [] {
      FromLrcHubHas(reply, langs[..|langs| - 1], l);
      assert langs == langs[..|langs| - 1] + [langs[|langs| - 1]];
    }
  }

  /** DeepL adds the languages of `need` it answered usably, and nothing else. */
  lemma {:induction false} WithDeepLHas(base: seq<Line>, deepl: string -> Option<seq<string>>, need: seq<string>,
                                        m: map<string, Option<seq<Line>>>, l: string)
    ensures l in WithDeepL(base, deepl, need, m) <==> l in m || (l in need && DeepLUsable(base, deepl, l))
    ensures l in need && DeepLUsable(base, deepl, l) ==>
      WithDeepL(base, deepl, need, m)[l] == Some(DeepLLines(base, deepl(ResolveDeepLTargetLang(l)).value))
    ensures !(l in need && DeepLUsable(base, deepl, l)) && l in m ==> WithDeepL(base, deepl, need, m)[l] == m[l]
  {
    if need != [] {
      WithDeepLHas(base, deepl, need[..|need| - 1], m, l);
      assert need == need[..|need| - 1] + [need[|need| - 1]];
    }
  }

  /** Each requested language gets the lyrics service's translation when
      it has a non-empty one; otherwise, with a DeepL key, DeepL's answer
      when it has one line per base line; otherwise no translated lines. */
  lemma TransLinesOfLanguage(cfg: Config, base: seq<Line>, langs: seq<string>,
                             reply: Option<map<string, string>>, deepl: string -> Option<seq<string>>, l: string)
    ensures var byLang := TransLinesByLang(cfg, base, langs, reply, deepl);
      && (l in byLang <==> l in langs && (LrcFor(reply, l) != [] || (cfg.deepLKey != [] && DeepLUsable(base, deepl, l))))
      && (l in byLang && LrcFor(reply, l) != [] ==> byLang[l] == Some(ParseLrc(LrcFor(reply, l)).lines))
      && (l in byLang && LrcFor(reply, l) == [] ==> byLang[l] == Some(DeepLLines(base, deepl(ResolveDeepLTargetLang(l)).value)))
  {
    FromLrcHubHas(reply, langs, l);
    WithDeepLHas(base, deepl, NeedDeepL(reply, langs), FromLrcHub(reply, langs), l);
  }

  // ----- composing each line (content.js:705-739) -----

  /** `getLangTextAt`: the aligned text of `lang` at `index`, or the
      original text for the original language, a language without aligned
      lines, or an entry that is `null`. */
  function LangTextAt(aligned: map<string, seq<Option<string>>>, lang: string, index: nat, baseText: string): (t: string)
    ensures t == baseText || (lang in aligned && index < |aligned[lang]| && aligned[lang][index] == Some(t))
    ensures lang == [] || lang == Original || lang !in aligned ==> t == baseText
    ensures lang in aligned && (index >= |aligned[lang]| || aligned[lang][index].None?) ==> t == baseText
    ensures lang != [] && lang != Original && lang in aligned && index < |aligned[lang]| && aligned[lang][index].Some? ==>
      t == aligned[lang][index].value
  {
    if lang == [] || lang == Original then baseText
    else if lang !in aligned then baseText
    else if index >= |aligned[lang]| || aligned[lang][index].None? then baseText
    else aligned[lang][index].value
  }

  /** The line shown for base line `l` at `index`: its primary text in the
      main language, and a secondary text (the sub language, or the
      original when there is no sub language and the primary differs from
      it) unless that repeats the primary in a text of one script. */
  function ComposeLine(aligned: map<string, seq<Option<string>>>, mainLang: string, subLang: string,
                       index: nat, l: Line): (r: Line)
    ensures r.time == l.time
    ensures r.text == LangTextAt(aligned, mainLang, index, l.text)
    ensures r.translation.Some? ==> r.translation.value != []
  {
    var baseText := l.text;
    var primary := LangTextAt(aligned, mainLang, index, baseText);
    var secondary :=
      if subLang != [] && subLang != mainLang then LangTextAt(aligned, subLang, index, baseText)
      else if subLang == [] && mainLang != Original then
        (if NormalizeStr(primary) != NormalizeStr(baseText) then baseText else [])
      else [];
    var kept :=
      if secondary != [] && NormalizeStr(primary) == NormalizeStr(secondary) && !IsMixedLang(baseText) then []
      else secondary;
    Line(l.time, primary, if kept != [] then Some(kept) else None)
  }

  /** The secondary text of a composed line: the sub language's text when
      a different sub language is set, the original when there is none and
      the main language is not the original and the primary differs from
      it, never otherwise; and in each case only when it is not empty and
      does not repeat the primary in a text of one script. */
  lemma ComposeLineSecondary(aligned: map<string, seq<Option<string>>>, mainLang: string, subLang: string,
                             index: nat, l: Line)
    ensures var r := ComposeLine(aligned, mainLang, subLang, index, l);
      && (r.translation.Some? ==> NormalizeStr(r.text) != NormalizeStr(r.translation.value) || IsMixedLang(l.text))
      && (subLang != [] && subLang != mainLang ==>
            var s := LangTextAt(aligned, subLang, index, l.text);
            r.translation == if s != [] && (NormalizeStr(r.text) != NormalizeStr(s) || IsMixedLang(l.text)) then Some(s) else None)
      && (subLang == [] && mainLang != Original ==>
            r.translation == if l.text != [] && NormalizeStr(r.text) != NormalizeStr(l.text) then Some(l.text) else None)
      && ((subLang != [] && subLang == mainLang) || (subLang == [] && mainLang == Original) ==> r.translation.None?)
  {
  }

  /** The aligned lines of every language that has translated lines. */
  function AlignedMap(base: seq<Line>, byLang: map<string, Option<seq<Line>>>): (m: map<string, seq<Option<string>>>)
    ensures m.Keys == byLang.Keys
  {
    map l | l in byLang :: Aligned(base, byLang[l])
  }

  /** The final lines: each base line composed, then deduplicated. */
  function ComposeAll(aligned: map<string, seq<Option<string>>>, mainLang: string, subLang: string,
                      base: seq<Line>): (r: seq<Line>)
    ensures |r| == |base|
  {
    seq(|base|, i requires 0 <= i < |base| => DedupeLine(ComposeLine(aligned, mainLang, subLang, i, base[i])))
  }

  /** What `applyTranslations` returns, with the registrations it sends. */
  function ApplyTranslationsSpec(cfg: Config, base: seq<Line>, reply: Option<map<string, string>>,
                                 deepl: string -> Option<seq<string>>): (seq<Line>, seq<Registration>)
  {
    var mainLang := MainLang(cfg.mainLang);
    var langs := LangsToFetch(mainLang, cfg.subLang);
    if !cfg.useTrans || base == [] || langs == [] then (base, [])
    else
      var byLang := TransLinesByLang(cfg, base, langs, reply, deepl);
      var regs := if cfg.deepLKey != [] then Registrations(base, deepl, NeedDeepL(reply, langs)) else [];
      (ComposeAll(AlignedMap(base, byLang), mainLang, cfg.subLang, base), regs)
  }

  /** `applyTranslations` after its settings are read: `reply` is the
      `GET_TRANSLATION` answer and `deepl` gives DeepL's answer for a target
      code. The lines are copied, composed one by one and deduplicated in
      place. */
  method ApplyTranslations(cfg: Config, base: seq<Line>, reply: Option<map<string, string>>,
                           deepl: string -> Option<seq<string>>)
    returns (lines: seq<Line>, regs: seq<Registration>)
    ensures (lines, regs) == ApplyTranslationsSpec(cfg, base, reply, deepl)
  {
    if !cfg.useTrans || base == [] {
      return base, [];
    }
    var mainLang := MainLang(cfg.mainLang);
    var subLang := cfg.subLang;
    var langs := LangsToFetch(mainLang, subLang);
    if langs == [] {
      return base, [];
    }
    var byLang;
    byLang, regs := CollectTranslations(cfg, base, langs, reply, deepl);
    var aligned := BuildAlignedTranslations(base, byLang);
    assert aligned == AlignedMap(base, byLang);
    lines := ComposeFinal(aligned, mainLang, subLang, base);
  }

  /** The composition loop over a copy of the base lines, then the
      deduplication of that copy in place. */
  method ComposeFinal(aligned: map<string, seq<Option<string>>>, mainLang: string, subLang: string,
                      base: seq<Line>) returns (lines: seq<Line>)
    ensures lines == ComposeAll(aligned, mainLang, subLang, base)
  {
    var final := new Line[|base|](i requires 0 <= i < |base| => base[i]);
    for i := 0 to final.Length
      invariant forall q :: 0 <= q < i ==> final[q] == ComposeLine(aligned, mainLang, subLang, q, base[q])
      invariant forall q :: i <= q < final.Length ==> final[q] == base[q]
    {
      final[i] := ComposeLine(aligned, mainLang, subLang, i, final[i]);
    }
    DedupePrimarySecondary(final);
    lines := final[..];
  }

  // ----- what the composition promises -----

  /** The lines come back untouched, with nothing registered, when
      translation is off, there are no lines or no language to fetch. */
  lemma UntouchedWhenNothingToDo(cfg: Config, base: seq<Line>, reply: Option<map<string, string>>,
                                 deepl: string -> Option<seq<string>>)
    requires !cfg.useTrans || base == [] || LangsToFetch(MainLang(cfg.mainLang), cfg.subLang) == []
    ensures ApplyTranslationsSpec(cfg, base, reply, deepl) == (base, [])
  {
  }

  /** Otherwise there is one line per base line, with the base line's
      time; each is its composed line after deduplication, so it shows the
      main language's aligned text, or the original when that is `null`;
      the composed secondary text is kept exactly when it does not repeat
      the primary, or the primary mixes scripts, and it is never empty. */
  lemma ComposedLines(cfg: Config, base: seq<Line>, reply: Option<map<string, string>>,
                      deepl: string -> Option<seq<string>>, i: nat)
    requires cfg.useTrans && i < |base|
    requires LangsToFetch(MainLang(cfg.mainLang), cfg.subLang) != []
    ensures var lines := ApplyTranslationsSpec(cfg, base, reply, deepl).0;
      var aligned := AlignedMap(base, TransLinesByLang(cfg, base, LangsToFetch(MainLang(cfg.mainLang), cfg.subLang), reply, deepl));
      var c := ComposeLine(aligned, MainLang(cfg.mainLang), cfg.subLang, i, base[i]);
      && |lines| == |base|
      && lines[i] == DedupeLine(c)
      && lines[i].time == base[i].time
      && lines[i].text == LangTextAt(aligned, MainLang(cfg.mainLang), i, base[i].text)
      && (lines[i].translation.Some? <==>
            c.translation.Some? && (NormalizeStr(c.text) != NormalizeStr(c.translation.value) || IsMixedLang(c.text)))
      && (lines[i].translation.Some? ==>
            lines[i].translation == c.translation
            && lines[i].translation.value != []
            && (NormalizeStr(lines[i].text) != NormalizeStr(lines[i].translation.value) || IsMixedLang(lines[i].text)))
  {
    ComposedLineIsDeduped(cfg, base, reply, deepl, i);
  }

  /** Line `i` of the result is the deduplicated composition of base line `i`. */
  lemma ComposedLineIsDeduped(cfg: Config, base: seq<Line>, reply: Option<map<string, string>>,
                              deepl: string -> Option<seq<string>>, i: nat)
    requires cfg.useTrans && i < |base|
    requires LangsToFetch(MainLang(cfg.mainLang), cfg.subLang) != []
    ensures var lines := ApplyTranslationsSpec(cfg, base, reply, deepl).0;
      var aligned := AlignedMap(base, TransLinesByLang(cfg, base, LangsToFetch(MainLang(cfg.mainLang), cfg.subLang), reply, deepl));
      |lines| == |base| && lines[i] == DedupeLine(ComposeLine(aligned, MainLang(cfg.mainLang), cfg.subLang, i, base[i]))
  {
    var mainLang := MainLang(cfg.mainLang);
    var langs := LangsToFetch(mainLang, cfg.subLang);
    var aligned := AlignedMap(base, TransLinesByLang(cfg, base, langs, reply, deepl));
    var all := ComposeAll(aligned, mainLang, cfg.subLang, base);
    assert ApplyTranslationsSpec(cfg, base, reply, deepl).0 == all;
    assert all[i] == DedupeLine(ComposeLine(aligned, mainLang, cfg.subLang, i, base[i]));
  }

  /** A language the lyrics service has a translation for is never sent to
      DeepL, and DeepL is only asked when a key is set. */
  lemma RegistrationsOnlyForMissing(cfg: Config, base: seq<Line>, reply: Option<map<string, string>>,
                                    deepl: string -> Option<seq<string>>, k: nat)
    requires cfg.useTrans && base != []
    requires k < |ApplyTranslationsSpec(cfg, base, reply, deepl).1|
    ensures cfg.deepLKey != []
    ensures var r := ApplyTranslationsSpec(cfg, base, reply, deepl).1[k];
      LrcFor(reply, r.lang) == [] && !IsBlank(r.lyrics)
  {
    var langs := LangsToFetch(MainLang(cfg.mainLang), cfg.subLang);
    RegistrationsAreMissing(base, deepl, NeedDeepL(reply, langs), reply, k);
  }

  lemma {:induction false} RegistrationsAreMissing(base: seq<Line>, deepl: string -> Option<seq<string>>,
                                                   need: seq<string>, reply: Option<map<string, string>>, k: nat)
    requires forall l :: l in need ==> LrcFor(reply, l) == []
    requires k < |Registrations(base, deepl, need)|
    ensures LrcFor(reply, Registrations(base, deepl, need)[k].lang) == []
    ensures !IsBlank(Registrations(base, deepl, need)[k].lyrics)
  {
    var front := Registrations(base, deepl, need[..|need| - 1]);
    if k < |front| {
      RegistrationsAreMissing(base, deepl, need[..|need| - 1], reply, k);
    }
  }
}
