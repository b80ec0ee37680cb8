# YouTube Music lyrics overlay — a Dafny model of its lyrics core

The extension shows synchronised lyrics next to the YouTube Music player.

- **Content script.** Keeps a per-track cache and asks the background worker for lyrics. It parses the LRC text it gets back and lines up translations with the original lines. It also highlights the current line, and the current glyphs, as playback moves.
- **Background worker.** Looks for lyrics in a fixed order: a DynamicLyrics document, a README file, the LRCHub service, then LrcLib. It also fetches translations from the LRCHub service.

This project models that core in Dafny and proves what it promises. Outside the model: the page, the timers and the browser APIs.

Modules, in dependency order:

| module | file | what it is |
|---|---|---|
| `Lyrics` | lyrics.dfy | the shared values: `Line`, DynamicLyrics records (`DynLine`, `DynChar`), `Option`, `Fetched` (a download's outcome) |
| `Strings` | strings.dfy | the JavaScript string operations the core relies on: `trim`, `\s+` removal, ASCII `toLowerCase`, `split(/\r?\n/)`, `join` |
| `LrcTag` | lrc_tag.dfy | the `[mm:ss.ff]` / `[mm:ss.fff]` tag and the left-to-right global scan for it |
| `LrcParser` | lrc_parser.dfy | `parseLRCInternal`: the untimed branch, the tag loop (a method), the stable sort by time |
| `DeepLTarget` | deepl_target.dfy | `resolveDeepLTargetLang` |
| `Aligner` | translation_aligner.dfy | `buildAlignedTranslations`: the cursor loop that pairs every original line with a translated line |
| `Composer` | translation_composer.dfy | `applyTranslations`: the languages to fetch, the service/DeepL split, composing primary and secondary text, `dedupePrimarySecondary` (in place on an array) |
| `Cursor` | playback_cursor.dfy | `updateLyricHighlight`: the active line, interludes, scrolling, revealed glyphs |
| `LyricsCache` | lyrics_cache.dfy | the per-track cache: reading it, the fetch decision, the write-back and the no-lyrics sentinel |
| `Session` | lyrics_session.dfy | class `LyricsSession`: the content script's module state (`currentKey`, `lyricsData`, `hasTimestamp`, `dynamicLines`, `lastActiveIndex`, the cache) and the steps of `tick` and `loadLyrics` that update it |
| `LrcLib` | lrclib.dfy | `normalizeArtist`, `pickBestLrcLibHit` and the lyrics `fetchFromLrcLib` takes from the chosen hit |
| `DynamicLyrics` | dynamic_lyrics.dfy | `formatLrcTime` and the conversion of a DynamicLyrics document to LRC text |
| `ReadmeLyrics` | readme_lyrics.dfy | the fenced-block extraction from a README file |
| `LyricsResolver` | lyrics_resolver.dfy | the `GET_LYRICS` handler: the order of the sources and the answer |
| `TranslationRequest` | translation_request.dfy | the `GET_TRANSLATION` handler: the query and the map of translations it answers with |

Conventions:

- **Time.** Times are integer milliseconds. A tag's fraction counts hundredths or thousandths of a second.
- **Absent values.** A JavaScript value that is `null`, `undefined` or not a string, where the code checks for a string, becomes `None`. An optional string whose only use is a truthiness check becomes the empty string.
- **Downloads.** Every download is an input of type `Fetched<T>`: `Failed`, or `Got(body)` with what the body parsed to.

## Model

| member | source | states |
|---|---|---|
| Strings.TrimShape | content.js:115 | `trim()` removes exactly the leading and trailing whitespace: the result is a slice of the input that neither starts nor ends with a space, and everything cut off is whitespace |
| Strings.IsBlankIffTrimEmpty | content.js:595 | a text trims to the empty string exactly when it is all whitespace (the `.trim() === ''` tests) |
| Strings.TrimIdempotent | content.js:92 | trimming twice is trimming once |
| Strings.RemoveSpaces | content.js:146 | the `/\s+/g` removal leaves no whitespace, keeps every non-space character and never lengthens the text |
| Strings.RemoveSpacesIdempotent | content.js:146 | removing whitespace twice changes nothing more |
| Strings.Lower | background.js:32 | `toLowerCase` (ASCII) keeps the length and maps every upper-case letter to lower case |
| Strings.LowerRemoveSpaces | background.js:32 | lowering and removing whitespace commute, so `normalizeArtist` may be read either way |
| Strings.ReplaceNewlinesNoLf | content.js:114 | after `replace(/\r?\n/g, ' ')` no line feed is left |
| Strings.SplitLines | content.js:90 | `split(/\r?\n/)` gives one more piece than there are line feeds, none holding a line feed |
| Strings.SplitLinesJoin | content.js:89-90 | for a text without carriage returns, joining the `\n` pieces with line feeds gives the text back |
| LrcTag.TagAt | content.js:99 | a tag at `p` starts with `[` at `p`, ends with `]` 10 or 11 characters later, and has no `[` inside |
| LrcTag.NextTag | content.js:105 | one `exec` step finds a tag that starts at or after the scan position and lies within the text |
| LrcTag.NextTagIsLeftmost | content.js:105 | the tag `exec` finds is the leftmost one: no tag starts between the scan position and it |
| LrcTag.TagsFrom | content.js:105-122 | the scan's tags start at or after the position and do not overlap, each after the previous one's end |
| LrcTag.TagsFromComplete | content.js:105-122 | every tag that starts at or after the scan position is found by the scan (it misses nothing) |
| LrcTag.HasTagIffTags | content.js:86-99 | the presence test `tagTest` and the global scan `tagExp` agree: a text has a tag exactly when the scan finds one |
| LrcParser.UntimedLines | content.js:88-95 | without tags: one untimed line per `\r?\n` piece, blank lines kept |
| LrcParser.TaggedLines | content.js:99-130 | the tag loop yields one line per tag followed by text, or by another tag |
| LrcParser.TaggedLineIs | content.js:112-129 | line `i` carries tag `i`'s time and the trimmed text up to the next tag (the end of the text for the last), with line breaks turned into spaces |
| LrcParser.AdjacentSortedIsSorted | content.js:132 | neighbour-wise order by `time \|\| 0` gives order between every pair of lines |
| LrcParser.InsertByTime | content.js:132 | inserting a line keeps every line and adds exactly the new one (a permutation) |
| LrcParser.InsertByTimeSorted | content.js:132 | inserting into a sorted list keeps it sorted |
| LrcParser.SortByTime | content.js:132 | `result.sort` gives a permutation of its input, ordered by `time \|\| 0` |
| LrcParser.SortByTimeStable | content.js:132 | the sort is stable: lines with equal times keep their relative order |
| LrcParser.ParseLrcInternal | content.js:83-134 | the imperative parser computes the parse result: empty for `''`, the untimed branch without a tag, the sorted tagged lines otherwise |
| LrcParser.ScanTaggedLines | content.js:99-130 | the `while (exec)` loop with `lastTime`/`lastIndex` builds exactly the tagged lines, including the final one after the last tag |
| LrcParser.UntimedBranch | content.js:84-95 | with no tag, `hasTs` is false and there is one untimed line per line of the text (none for `''`) |
| LrcParser.TimedBranch | content.js:98-133 | with a tag, `hasTs` is true and the lines are the tagged lines, every one timed, sorted by time and permuted |
| LrcParser.TagOpensLine | content.js:112-129 | every tag followed by more text gives a line with that tag's time |
| LrcParser.FinalTagOpensNoLine | content.js:124 | a tag at the very end of the text gives no line (`lastIndex < lrc.length` fails) |
| DeepLTarget.ResolveDeepLTargetLang | content.js:57-80 | the result is always one of the DeepL targets EN, JA, KO, FR, DE, ES, ZH |
| DeepLTarget.ResolveIgnoresCase | content.js:58 | the lookup ignores case |
| DeepLTarget.RegionalCodes | content.js:59-78 | the regional English and Chinese codes map to EN and ZH whatever their case, and an empty language maps to JA |
| DeepLTarget.UnknownCodeIsJapanese | content.js:58-78 | every code the switch does not name, empty or not, maps to JA, and JA comes only from such a code or `ja` |
| Aligner.Advance | content.js:612-618 | the inner `while` stops at the first timed translation that is not more than 150 ms early, skipping only such early ones |
| Aligner.Aligned | content.js:578-634 | one aligned entry per original line |
| Aligner.AlignLanguage | content.js:579-633 | the loop over the original lines with the shared cursor `j` computes the aligned list of one language |
| Aligner.BuildAlignedTranslations | content.js:574-637 | the aligned map has exactly the languages given, each aligned against the original lines |
| Aligner.AlignedShape | content.js:580-585 | a missing or empty translation aligns to all nulls |
| Aligner.BlankBaseLine | content.js:595-598 | a blank original line always gets an empty translation, so no translation slides onto the wrong line |
| Aligner.UntimedBaseLine | content.js:601-609 | an untimed original line takes the trimmed translation at the same index, or null past the end |
| Aligner.TimedBaseLine | content.js:611-630 | a timed original line gets null or the trimmed text of a translation within 150 ms of it |
| Aligner.CursorMonotone | content.js:587-618 | the cursor never moves back across original lines |
| Aligner.AdvanceFindsNear | content.js:612-623 | in a time-sorted translation, the cursor stops at or before any translation near the original time, and on a near one |
| Aligner.CursorBelowCandidate | content.js:612-618 | the cursor never passes a translation that no earlier original line was too late for |
| Aligner.TimedMatchComplete | content.js:611-627 | when the original times are non-decreasing up to the line and the translation is time-sorted, a translation within 150 ms is always found |
| Aligner.ExampleTwoLines | content.js:611-630 | a translation near the first line only: the second, ten seconds later, gets null |
| Composer.NormalizeStrIsRemoveSpaces | content.js:146 | `normalizeStr` is whitespace removal and is idempotent |
| Composer.ScriptKinds | content.js:148-158 | at most three kinds of script are counted |
| Composer.SingleScriptNotMixed | content.js:148-158 | Latin-only text is not mixed |
| Composer.LatinAndKanaMixed | content.js:148-158 | Latin with kana is mixed |
| Composer.DedupeLine | content.js:160-171 | time and text are kept; a present translation is dropped only when it equals the text up to whitespace and the text is not mixed-script, and a kept non-empty one differs from the text or the text is mixed-script |
| Composer.DedupePrimarySecondary | content.js:160-171 | the in-place pass applies the per-line rule to every element of the array |
| Composer.MainLang | content.js:647 | the main language is never empty (`'original'` by default) |
| Composer.LangsToFetch | content.js:650-652 | at most two distinct languages, never `'original'` or empty; the main one is requested exactly when it is set and not `'original'`, the sub one exactly when it is also different from the main one |
| Composer.NothingToFetch | content.js:653 | with no languages configured nothing is fetched |
| Composer.NeedDeepL | content.js:671-679 | a requested language goes to DeepL exactly when the service had no (or an empty) LRC text for it |
| Composer.DeepLLines | content.js:684-689 | DeepL lines take the original times, one per original line, without translation |
| Composer.GatherFromLrcHub | content.js:668-679 | the `forEach` loop computes the parsed service translations and the DeepL list |
| Composer.AskDeepL | content.js:681-702 | the DeepL loop adds a language only when DeepL returned one text per line, and registers it only when the joined text is not blank |
| Composer.CollectTranslations | content.js:668-702 | translations by language and registrations, DeepL consulted only when a key is set |
| Composer.FromLrcHubHas | content.js:671-679 | a language has a service entry exactly when its LRC text is not empty, and the entry is that text parsed |
| Composer.WithDeepLHas | content.js:681-702 | DeepL adds exactly the needed languages with a usable answer, and leaves the others alone |
| Composer.TransLinesOfLanguage | content.js:668-702 | a language has lines exactly when the service had text for it or DeepL answered, from the service first |
| Composer.LangTextAt | content.js:707-715 | the original text for an empty or `'original'` language, a language without aligned lines, an index past them or a null entry; otherwise the aligned entry |
| Composer.ComposeLine | content.js:717-736 | time is kept, the primary text is the main language's, and any secondary text is not empty |
| Composer.ComposeLineSecondary | content.js:719-736 | the secondary text is the sub language's when a different one is set, the original when there is none and the main language is not `'original'` and the primary differs from it, never otherwise; it is kept exactly when it is not empty and does not repeat the primary up to whitespace, unless the original mixes scripts |
| Composer.AlignedMap | content.js:704 | the aligned map has exactly the languages collected |
| Composer.ComposeAll | content.js:705-737 | one composed line per original line |
| Composer.ApplyTranslations | content.js:639-741 | the imperative version computes the lines and registrations of the specification |
| Composer.ComposeFinal | content.js:705-739 | the loop over `final` computes the composed lines |
| Composer.UntouchedWhenNothingToDo | content.js:640-653 | with translations off, no lines or no languages, the lines come back unchanged and nothing is registered |
| Composer.ComposedLines | content.js:704-740 | line `i` is base line `i` composed and then deduplicated: it keeps its time, shows the main language's text, and has a translation exactly when the composed line has one that differs from the text up to whitespace or the text mixes scripts, and then it is that non-empty one |
| Composer.RegistrationsOnlyForMissing | content.js:681-699 | a registration happens only with a DeepL key, for a language the service had no text for, with non-blank lyrics |
| Composer.RegistrationsAreMissing | content.js:682-699 | every registered language was missing at the service and its lyrics are not blank |
| Cursor.FirstLaterFrom | content.js:997 | `findIndex(l => l.time > t)`: the first later line, or -1 when there is none |
| Cursor.ActiveIndex | content.js:997-998 | the active index is -1 or a line index |
| Cursor.Step | content.js:997-1056 | the active line is the one found unless it is in an interlude; the view scrolls exactly when an active line differs from the previous one; glyph `c` is revealed exactly when its time is not after `t`; `lastActiveIndex` follows the active line |
| Cursor.ActiveIndexSorted | content.js:997-998 | on sorted lines the active line is the last one not after `t`, -1 exactly before the first line |
| Cursor.ExactTimeSelects | content.js:997 | at a line's own time (strictly increasing times) that line is active |
| Cursor.InterludeExample | content.js:1002 | 7 s into a 15 s gap no line is active and `lastActiveIndex` becomes -1 |
| Cursor.LastLineNoInterlude | content.js:1002 | the last line is never an interlude |
| Cursor.StepIdempotent | content.js:1006-1056 | a second call at the same time selects the same line and does not scroll again |
| Cursor.RevealMonotone | content.js:1027 | within one active line, a revealed glyph stays revealed as time moves forward |
| Cursor.UnsortedFallback | content.js:998 | when the first line is already later than `t`, the fallback makes the last line active if its time has passed, even though the lines are not sorted |
| LyricsCache.StorageGet | content.js:48-51 | `storage.get` gives null for a missing key or a falsy stored value |
| LyricsCache.ReadCache | content.js:760-786 | nothing stored reads as no data; the sentinel means no lyrics; another string is lyrics; an object gives its lyrics (`''` when not a string), its records and its flag; records come only from an object |
| LyricsCache.Decide | content.js:789-796 | render empty exactly when no data and known to have none; fetch exactly when no data and not known; use the data otherwise |
| LyricsCache.FetchedDyn | content.js:818-820 | records are taken from an answer exactly when it is usable and carries a non-empty array, and then they are that array |
| LyricsCache.HeldDyn | content.js:818-820 | after the answer, `dynamicLines` holds the answer's records when it brings some, else those held before (read from the cache) |
| LyricsCache.WriteBack | content.js:823-846 | something is written exactly while the key is current: the object with the lyrics and the held records when records are held, the plain lyrics otherwise, the sentinel after an answer without usable lyrics |
| LyricsCache.CachedNoLyricsSkipsFetch | content.js:789-793 | a cached sentinel, or a stored object flagged `noLyrics` without lyrics, shows the empty panel without asking the service |
| LyricsCache.FetchIffNothingCached | content.js:796 | the service is asked exactly when the cache has neither lyrics nor the no-lyrics flag |
| LyricsCache.SentinelOnlyAfterFailure | content.js:843-846 | the sentinel is written only for a current key, after an answer without usable lyrics (or whose lyrics are the sentinel text), and always then |
| LyricsCache.WriteBackReadBack | content.js:823-846 | what is written after an answer reads back on the next load as that answer's lyrics with the records `dynamicLines` held, or as no lyrics, and the service is not asked again |
| LyricsCache.CachedRecordsSurviveFetch | content.js:775-834 | a stored object with records but no lyrics leads to a request, and when the answer brings lyrics without records the cached records are written back with them |
| LyricsCache.SentinelLyricsReadAsNoLyrics | content.js:765-846 | lyrics that are literally the sentinel string read back as "no lyrics" (the sentinel's in-band ambiguity) |
| Session.LyricsSession.constructor | content.js:14-18 | the initial module state: no key, no lines, no timestamps, no records, `lastActiveIndex` -1 |
| Session.LyricsSession.Tick | content.js:1086-1095 | a load starts exactly when the track key changes; then the key is updated and the lines cleared, otherwise nothing changes |
| Session.LyricsSession.OnCacheRead | content.js:757-796 | a stale key changes nothing; otherwise the records come from the cache, a known no-lyrics track shows the empty panel, an empty cache waits for the service with nothing else changed, and cached lyrics go on to the after-fetch step |
| Session.LyricsSession.OnLyricsReply | content.js:797-846 | `dynamicLines` becomes the answer's records or keeps the cached ones; the cache changes exactly as the write-back says, for this key and no other; then the after-fetch step runs with the lyrics or nothing |
| Session.LyricsSession.AfterFetch | content.js:849-870 | a stale key changes nothing; no data shows the empty panel and leaves the lines and flag; data is parsed and `hasTimestamp` set, then the lines are stored and shown, or handed to translation with the lines and panel unchanged |
| Session.LyricsSession.OnTranslated | content.js:863-870 | translated lines are stored and shown only while the key is current |
| Session.LyricsSession.UpdateHighlight | content.js:992-1057 | nothing happens outside the layout, without lines or without timestamps; otherwise the highlight is `Step`'s and `lastActiveIndex` is updated |
| Session.FetchThenRevisit | content.js:760-870 | a track fetched once is served from the cache on the next visit: the first visit waits for the service, the second finishes without a request and shows the lyrics parsed |
| LrcLib.NormalizeArtist | background.js:31-32 | the normalised artist has no whitespace and no upper-case letter |
| LrcLib.NormalizeArtistIdempotent | background.js:31-32 | normalising twice is normalising once |
| LrcLib.NormalizeArtistIgnoresCaseAndSpace | background.js:31-32 | case and whitespace do not change the normalised artist |
| LrcLib.Or | background.js:37-38 | `a \|\| b` on strings is empty exactly when both are |
| LrcLib.FindInTier | background.js:42-72 | the first hit of a tier at or after a position, or none in the rest |
| LrcLib.PickFromTier | background.js:42-74 | the cascade of `find` calls picks an index of the list |
| LrcLib.PickIndex | background.js:34-75 | the chosen hit is one of the list |
| LrcLib.PickBestLrcLibHit | background.js:34-75 | no hit exactly for a missing or empty list; otherwise a hit of the list |
| LrcLib.Rank | background.js:42-74 | a hit's tier is at most 6, and at least 4 when it names no artist |
| LrcLib.RankAtTier | background.js:42-74 | a hit is in tier `t` exactly when its rank is `t` (given it is in no earlier tier) |
| LrcLib.PickFromTierIsLeast | background.js:42-74 | the cascade picks a hit of least rank, the earliest among those |
| LrcLib.PickIsBestRanked | background.js:34-75 | the chosen hit has the least rank of the list, and is the first of that rank |
| LrcLib.ExactSyncedArtistWins | background.js:43-47 | the first hit by the same artist with synced lyrics is chosen |
| LrcLib.NoArtistPicksFirstWithLyrics | background.js:68-74 | without an artist, the first synced hit wins, else the first with plain lyrics, else the first hit |
| LrcLib.ExtractLyrics | background.js:90-100 | the first non-empty synced field, trimmed, when there is one; else the first non-empty of `plainLyrics`, `plain_lyrics`, `plain_lyrics_text`, trimmed |
| LrcLib.LrcLibLyrics | background.js:77-111 | nothing without a track, after a failed request or for an answer without results; otherwise the lyrics extracted from the hit `pickBestLrcLibHit` chooses |
| LrcLib.PlainTextOnlyRanksLast | background.js:42-100 | a hit whose only lyrics sit in `plain_lyrics_text` is in no tier (rank 6), yet its trimmed `plain_lyrics_text` is what is extracted when it is chosen |
| LrcLib.PlainTextOnlyAnswered | background.js:74-100 | a single such hit is chosen, as `items[0]`, and its lyrics are answered |
| DynamicLyrics.Pad2 | background.js:119-121 | `padStart(2, '0')` gives at least two digits |
| DynamicLyrics.FormatLrcTime | background.js:114-123 | negative times format as `00:00.00` |
| DynamicLyrics.FormatLrcTimeTag | background.js:114-154 | a time under 100 minutes formats to a tag that `parseLRCInternal` reads back as the time truncated to centiseconds |
| DynamicLyrics.LongTimeIsNoTag | background.js:119-154 | from 100 minutes on, the three-digit minutes make a tag the parser does not recognise |
| DynamicLyrics.ParseNumber | background.js:141-142 | `Number()` of a blank string is 0; `NaN` exactly for other texts that, trimmed, are not an optionally signed run of digits; otherwise the signed decimal value |
| DynamicLyrics.ParseNumberOfNatToString | background.js:141 | `Number()` reads back every decimal numeral |
| DynamicLyrics.StartMs | background.js:137-144 | a numeric start time is taken as is, a missing one drops the record |
| DynamicLyrics.RecordText | background.js:146-148 | a record's own non-empty text is preferred over its glyphs |
| DynamicLyrics.ConvertRecord | background.js:136-154 | a record gives an LRC line exactly when it has a start time and non-blank text, and the line is the formatted time in brackets, a space and the trimmed text |
| DynamicLyrics.KeptRecordsAreFiltered | background.js:136-155 | the records kept are exactly those that give a line, in document order: they sit at increasing positions of the document, and every record that converts is among them |
| DynamicLyrics.ConvertedLinesAreKeptRecords | background.js:136-155 | the `filter(Boolean)` output pairs one-to-one with the records kept, each line formatted from its record |
| DynamicLyrics.ConvertDynamic | background.js:134-162 | a document gives a result exactly when it has a lines array, and the result carries every record, kept or not |
| DynamicLyrics.ConvertedLyricsNotBlank | background.js:155-160 | the converted lyrics are empty exactly when no record is kept, and never blank otherwise |
| DynamicLyrics.ConvertedLineParses | background.js:154 | a converted line parses back to one timed line with the record's text |
| DynamicLyrics.OneTagParses | content.js:83-134 | a text of one tag, a space and a one-line text parses to that single timed line |
| DynamicLyrics.BlankRecordShiftsGlyphs | background.js:136-161 | a dropped blank record shifts the parsed lines against `dynamicLines`, so glyphs of the wrong record are attached |
| DynamicLyrics.NothingDroppedKeepsPairing | background.js:136-161 | when no record is dropped, line `i` and record `i` correspond |
| ReadmeLyrics.NextFence | background.js:183 | the leftmost run of three backticks at or after a position |
| ReadmeLyrics.LabelLength | background.js:183 | the optional `lrc`/`text` label is 0, 3 or 4 characters long, none of them a backtick |
| ReadmeLyrics.FenceSpan | background.js:183 | the opening fence, body start and closing fence, with the closing fence the first after the body |
| ReadmeLyrics.FencedBody | background.js:183-185 | the first capture group of the fence match, when it matches |
| ReadmeLyrics.FencedBodyIffTwoFences | background.js:183 | the fence regex matches exactly when two non-overlapping runs of three backticks occur |
| ReadmeLyrics.Candidate | background.js:182-188 | the fenced body when the fence matches with a non-empty body; the whole text when it does not match or the body is empty |
| ReadmeLyrics.ReadmeText | background.js:190-197 | empty exactly when the candidate has no tag; otherwise the trimmed candidate, which still has a tag |
| ReadmeLyrics.ReadmeLyricsOf | background.js:171-203 | nothing without a video id or after a failed download |
| ReadmeLyrics.TrimKeepsTags | background.js:191-195 | trimming never removes a tag |
| ReadmeLyrics.FencedExample | background.js:183-197 | a fenced `LRC` block yields its trimmed tagged line |
| ReadmeLyrics.UntaggedReadmeIgnored | background.js:191-193 | a README without a tag gives no lyrics |
| LyricsResolver.TrimmedField | background.js:224-225 | a string field is trimmed, a non-string one is empty |
| LyricsResolver.HubLyrics | background.js:210-236 | synced lyrics when not blank, else plain lyrics, all trimmed; nothing from text that is not JSON |
| LyricsResolver.DynamicRoute | background.js:240-255 | a DynamicLyrics result only with a video id and a fetched document, and then its lyrics are not blank and its records are the document's |
| LyricsResolver.ChainLyrics | background.js:262-281 | the README first, then LRCHub; a rejected LRCHub request stops the chain; LrcLib last |
| LyricsResolver.ResolveLyrics | background.js:205-302 | success exactly when the answer has non-blank lyrics; records exactly on the DynamicLyrics route, with its lyrics; otherwise the lyrics of the README, LRCHub, LrcLib chain and no records; no lyrics exactly when every route failed |
| LyricsResolver.UsableIffSuccess | background.js:284-295 | the content script (content.js:814) keeps the answer's lyrics exactly when the handler reports success |
| LyricsResolver.NoVideoIdSkipsGithub | background.js:240-264 | without a video id the GitHub sources are not consulted |
| LyricsResolver.DynamicFirst | background.js:244-255 | a document with a kept record wins over every other source |
| LyricsResolver.ReadmeBeforeServices | background.js:262-270 | README lyrics win over LRCHub and LrcLib |
| LyricsResolver.HubRejectionSkipsLrcLib | background.js:273-299 | a rejected LRCHub request fails the handler without asking LrcLib |
| LyricsResolver.LrcLibOnlyAfterEmptyHub | background.js:273-281 | LrcLib's answer matters only when LRCHub answered without lyrics |
| LyricsResolver.HubPrefersSynced | background.js:224-228 | LRCHub's synced lyrics are preferred to plain ones |
| LyricsResolver.HubResponseShadowsTop | background.js:222 | a truthy `response` member hides the top-level fields |
| TranslationRequest.ReqLangs | background.js:315-317 | the `langs` array when non-empty, else the single `lang`, else none |
| TranslationRequest.LangParams | background.js:318-319 | one `lang` parameter per language, in order |
| TranslationRequest.QueryParams | background.js:308-319 | the YouTube URL, else the video id, then the languages |
| TranslationRequest.LrcMap | background.js:326-336 | one entry per requested language: its translation or `''` |
| TranslationRequest.GetTranslation | background.js:323-349 | failure exactly when the download fails; an empty success for non-JSON text; otherwise the map and the missing languages |
| TranslationRequest.ReceivedMap | content.js:663 | the map is kept exactly from a successful answer |
| TranslationRequest.AnswerCoversRequest | background.js:326-336 | a JSON answer covers every requested language and no other |
| TranslationRequest.UntranslatedGoToDeepL | background.js:326-344 | after the content script keeps the answer (content.js:663), DeepL is asked for exactly the requested languages with no translation, and for all of them after a failure |
| TranslationRequest.LanguagesInQuery | background.js:315-319 | the languages the content script sends (content.js:660) reach the query unchanged and in order |

## Left out

- Rendering, the DOM, scrolling animation, timers and `requestAnimationFrame` are not modelled. `lastTimeForChars` and `lyricRafId` belong to that part.
- `chrome.storage`, `chrome.runtime` messaging, `fetch` and the DeepL endpoint (`translateTo`) are not modelled. Each is an input (the stored map, `Fetched<T>`, a DeepL function argument) or an output (the `Registration` list stands for `REGISTER_TRANSLATION`).
- Reading the language settings from storage (content.js:642-645) and the config at the start of `loadLyrics` is not modelled. The configuration is an input.
- The title-cleaning regular expression (content.js:800), the current video URL and the video id are inputs, not modelled.
- Interleavings of the asynchronous steps are not modelled beyond what the key checks decide. The model runs each continuation as a separate method on the session.
- Logging is not modelled.
- `parseBaseLRC` and `parseLRCNoFlag` are covered by the model but have no separate member. They are `ParseLrcInternal` with the flag stored (`AfterFetch`) or dropped (`FromLrcHub`).
- The uploaded/edited lyrics UI, settings UI and delete dialog are not modelled. They are outside the lyrics core.
- Times are integer milliseconds, not floating-point seconds. So the parser's time is exact, not `min * 60 + sec + frac` in floating point, and the 150 ms and 10 s / 6 s comparisons are exact.
- DynamicLyrics.FormatLrcTime: the centiseconds are `(ms % 1000) / 10`. The source's floating-point `Math.floor((total - min*60 - sec) * 100)` can come out one lower.
- Strings.Lower: `toLowerCase` is modelled for ASCII letters only.
- DynamicLyrics.ParseNumber: only optionally signed decimal integers, possibly surrounded by whitespace, are read. Decimal fractions, hexadecimal and exponent forms, which `Number()` also accepts, give `None`, so such a record is dropped in the model but kept in the source.
- DynamicLyrics.StartMs: a numeric `startTimeMs` is an integer in the model. Non-integer, infinite or NaN numbers are not modelled.
- LrcLib.Hit: a field of a hit that is truthy but not a string is not modelled. Fields are strings, with `''` for absent ones.
- LyricsResolver.HubBody: non-string `synced_lyrics`/`plain_lyrics` values are `None`. A JSON body that is not an object is `NotJson`.
- LrcTag.TagAt: the time formula (minutes · 60000 + seconds · 1000 + fraction) is stated by the definition and by `DynamicLyrics.FormatLrcTimeTag`, not by `TagAt`'s own contract.
- DynamicLyrics.ConvertedLines: its own contract bounds only the length. The content of each line is stated by `ConvertedLinesAreKeptRecords`.
- DynamicLyrics.KeptRecords: its own contract bounds only the length. Which records are kept, and in what order, is stated by `KeptRecordsAreFiltered`.
- Session.LyricsSession.OnCacheRead: the key check (content.js:757) and the completed cache read (content.js:760) are one step. A track change while the read is pending is not modelled.
- Aligner.Aligned: its own contract states the length. The entry for each kind of line is stated by `BlankBaseLine`, `UntimedBaseLine` and `TimedBaseLine`.
- Composer.DedupePrimarySecondary: the `Array.isArray` guard is not modelled, since the argument is always an array.
- Composer.ApplyTranslations: `baseLines` is a sequence, so `!Array.isArray(baseLines)` is not modelled.
- TranslationRequest.GetTranslation: the `try`/`catch` around building the URL (background.js:351-355) is not modelled. The URL is a constant.
- The glyph spans' `data-time` comes from rendering. `Cursor.CharTime` reads it from the record's glyph, with a missing time read as 0 as `parseFloat(... || '0')` does; non-finite times are not modelled.

