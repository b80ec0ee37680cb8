/** The shared data model: an Option wrapper, one lyric line and the
    character-timed records of a DynamicLyrics document. */
module Lyrics {

  datatype Option<+T> = None | Some(value: T) {
    function GetOr(default: T): T {
      match this
      case Some(v) => v
      case None => default
    }
  }

  /** One displayed lyric line. `time` is milliseconds from the start of the
      track, None for a source without timestamps; `translation` is the
      secondary text shown under the line, None when the line has none. */
  datatype Line = Line(time: Option<int>, text: string, translation: Option<string>)

  /** One glyph of a DynamicLyrics line: `c` is its text, `t` its reveal
      time in milliseconds when the document gives a number. */
  datatype DynChar = DynChar(c: string, t: Option<int>)

  /** The start time of a DynamicLyrics record as the document holds it. */
  datatype StartTime = NumberMs(ms: int) | StringMs(raw: string) | NoStart

  /** One record of a DynamicLyrics document's `lines` array: `text` is
      Some when the record holds a string there, `chars` is Some when it
      holds an array there. */
  datatype DynLine = DynLine(startTimeMs: StartTime, text: Option<string>, chars: Option<seq<DynChar>>)

  /** JavaScript's `(time || 0)`: an absent time compares as zero. */
  function TimeOrZero(l: Line): int {
    l.time.GetOr(0)
  }

  /** The outcome of a request to a remote service: a rejected promise
      (network error, a status that is not ok, a body that does not
      parse), or the body it delivered. */
  datatype Fetched<+T> = Failed | Got(body: T)
}
