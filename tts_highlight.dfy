/**
 * The playback/highlight hook (`useTTSHighlight`): it keeps the word-timing
 * table of the last successful generation, a highlight cursor (-1 for none),
 * the playing/loading/error flags and the audio element it created, and on
 * each animation frame moves the cursor to the row covering the playback
 * position.
 *
 * React state updates are modelled as immediate assignments. Whether an
 * animation frame is requested is the field `framePending`; the host calls
 * `Tick` when that frame fires.
 */
module TtsHighlight {
  import opened Wrappers
  import opened Timing
  import opened Media
  import Decimal

  class Highlighter {
    var isPlaying: bool
    var currentWordIndex: int
    var wordTimings: seq<WordTiming>
    var isLoading: bool
    var error: Option<string>
    var audio: AudioHandle?
    var framePending: bool

    /**
     * The cursor is -1 or at least 0. It need not index the current table:
     * `GenerateSpeech` replaces the table without resetting the cursor.
     */
    ghost predicate Valid()
      reads this
    {
      currentWordIndex >= -1
    }

    /** The hook's initial state. */
    constructor ()
      ensures Valid()
      ensures !isPlaying && currentWordIndex == -1 && wordTimings == []
      ensures !isLoading && error == None && audio == null && !framePending
    {
      isPlaying := false;
      currentWordIndex := -1;
      wordTimings := [];
      isLoading := false;
      error := None;
      audio := null;
      framePending := false;
    }

    /**
     * `generateSpeech(text, language = 'en', speed = 1.0)`: clears the error,
     * sends `sent` (an omitted language or speed takes its default; the
     * outcome is `reply`), and on success replaces the table wholesale and
     * binds a new audio element; on failure records the error and keeps the
     * old table and element. Loading is false again at the end in every case.
     */
    method GenerateSpeech(text: string, language: Option<string>, speed: Option<real>, reply: TtsReply)
      returns (result: Option<SpeechResponse>, sent: TtsRequest)
      requires Valid()
      modifies this
      ensures Valid()
      ensures sent == TtsRequest(text, language.GetOr("en"), speed.GetOr(1.0))
      ensures !isLoading
      ensures isPlaying == old(isPlaying) && currentWordIndex == old(currentWordIndex)
      ensures framePending == old(framePending)
      ensures reply.Replied? && reply.data.success ==>
                && wordTimings == reply.data.wordTimings
                && fresh(audio) && audio.src == reply.data.audioUrl
                && audio.paused && audio.position == 0.0 && audio.rate == 1.0
                && error == None && result == Some(reply.data)
      ensures reply.Replied? && !reply.data.success ==>
                && wordTimings == old(wordTimings) && audio == old(audio)
                && error == Some(OrElse(reply.data.error, "Failed to generate speech"))
                && result == None
      ensures reply.Threw? ==>
                && wordTimings == old(wordTimings) && audio == old(audio)
                && error == Some(OrElse(reply.bodyError, reply.message))
                && result == None
    {
      isLoading := true;
      error := None;
      sent := TtsRequest(text, language.GetOr("en"), speed.GetOr(1.0));
      match reply {
        case Replied(data) =>
          if data.success {
            wordTimings := data.wordTimings;
            audio := new AudioHandle(data.audioUrl);
            result := Some(data);
          } else {
            error := Some(OrElse(data.error, "Failed to generate speech"));
            result := None;
          }
        case Threw(bodyError, message) =>
          error := Some(OrElse(bodyError, message));
          result := None;
      }
      isLoading := false;
    }

    /**
     * One run of `updateHighlight`: without an element or while not playing it
     * returns at once and requests no further frame; otherwise it moves the
     * cursor to the first row covering the position (in ms), leaves it alone
     * when no row covers it, and requests the next frame.
     */
    method Tick()
      requires Valid()
      modifies this`currentWordIndex, this`framePending
      ensures Valid()
      ensures audio == null || !isPlaying ==>
                currentWordIndex == old(currentWordIndex) && !framePending
      ensures audio != null && isPlaying ==>
                && framePending
                && currentWordIndex == NextCursor(wordTimings, audio.position * 1000.0, old(currentWordIndex))
    {
      if audio == null || !isPlaying {
        framePending := false;
        return;
      }
      var found := FindCurrentWord(wordTimings, audio.position * 1000.0);
      if found >= 0 {
        currentWordIndex := found;
      }
      framePending := true;
    }

    /**
     * `play`, as written: starts the element and runs the first frame at once.
     * The promise `play()` returns is ignored: when the browser refuses
     * (`playResolves` false) the element stays paused. The element's 'play'
     * event has not been handled yet, so `isPlaying` is still false when
     * starting from rest, and that first frame returns without requesting
     * another one.
     */
    method Play(playResolves: bool)
      requires Valid()
      modifies this, audio
      ensures Valid()
      ensures audio == old(audio) && wordTimings == old(wordTimings)
      ensures isPlaying == old(isPlaying) && error == old(error) && isLoading == old(isLoading)
      ensures audio == null ==> currentWordIndex == old(currentWordIndex) && framePending == old(framePending)
      ensures audio != null ==>
                && (audio.paused <==> !playResolves)
                && audio.position == old(audio.position) && audio.rate == old(audio.rate)
                && audio.src == old(audio.src) && audio.duration == old(audio.duration)
      ensures audio != null && !isPlaying ==>
                !framePending && currentWordIndex == old(currentWordIndex)
      ensures audio != null && isPlaying ==>
                && framePending
                && currentWordIndex == NextCursor(wordTimings, audio.position * 1000.0, old(currentWordIndex))
    {
      if audio != null {
        audio.paused := !playResolves;
        Tick();
      }
    }

    /**
     * `play` as evidently intended: once the browser has started the element,
     * the highlight loop is started as playing, so the first frame already
     * follows the position and requests the next. A refused `play()` changes
     * nothing.
     */
    method PlayFixed(playResolves: bool)
      requires Valid()
      modifies this, audio
      ensures Valid()
      ensures audio == old(audio) && wordTimings == old(wordTimings)
      ensures error == old(error) && isLoading == old(isLoading)
      ensures audio == null || !playResolves ==> unchanged(this)
      ensures audio != null && !playResolves ==> unchanged(audio)
      ensures audio != null && playResolves ==>
                && isPlaying && framePending && !audio.paused
                && audio.position == old(audio.position) && audio.rate == old(audio.rate)
                && audio.src == old(audio.src) && audio.duration == old(audio.duration)
                && currentWordIndex == NextCursor(wordTimings, audio.position * 1000.0, old(currentWordIndex))
    {
      if audio != null && playResolves {
        audio.paused := false;
        isPlaying := true;
        Tick();
      }
    }

    /** `pause`: pauses the element if there is one; the 'pause' event does the rest. */
    method Pause()
      modifies audio
      ensures audio != null ==>
                && audio.paused && audio.position == old(audio.position)
                && audio.rate == old(audio.rate) && audio.src == old(audio.src)
                && audio.duration == old(audio.duration)
    {
      if audio != null {
        audio.paused := true;
      }
    }

    /**
     * `stop`: pauses and rewinds the element if there is one, and in every
     * case clears the cursor and the playing flag (which cancels the frame).
     */
    method Stop()
      requires Valid()
      modifies this, audio
      ensures Valid()
      ensures currentWordIndex == -1 && !isPlaying && !framePending
      ensures audio == old(audio) && wordTimings == old(wordTimings)
      ensures error == old(error) && isLoading == old(isLoading)
      ensures audio != null ==>
                && audio.paused && audio.position == 0.0 && audio.rate == old(audio.rate)
                && audio.src == old(audio.src) && audio.duration == old(audio.duration)
    {
      if audio != null {
        audio.paused := true;
        audio.position := 0.0;
      }
      currentWordIndex := -1;
      isPlaying := false;
      framePending := false;
    }

    /** The element's 'play' event. */
    method OnPlayEvent()
      modifies this`isPlaying
      ensures isPlaying
    {
      isPlaying := true;
    }

    /** The element's 'pause' event: not playing, no highlighted word, frame cancelled. */
    method OnPauseEvent()
      requires Valid()
      modifies this`isPlaying, this`currentWordIndex, this`framePending
      ensures Valid()
      ensures !isPlaying && currentWordIndex == -1 && !framePending
    {
      isPlaying := false;
      currentWordIndex := -1;
      framePending := false;
    }

    /** The element's 'ended' event: the same reset as 'pause'. */
    method OnEndedEvent()
      requires Valid()
      modifies this`isPlaying, this`currentWordIndex, this`framePending
      ensures Valid()
      ensures !isPlaying && currentWordIndex == -1 && !framePending
    {
      isPlaying := false;
      currentWordIndex := -1;
      framePending := false;
    }

    /** `setPlaybackRate`: changes only the element's rate; the table is not rescaled. */
    method SetPlaybackRate(rate: real)
      modifies audio
      ensures audio != null ==>
                && audio.rate == rate && audio.position == old(audio.position)
                && audio.paused == old(audio.paused) && audio.src == old(audio.src)
                && audio.duration == old(audio.duration)
    {
      if audio != null {
        audio.rate := rate;
      }
    }

    /** `setCurrentTime`: seeks the element; the next frame re-resolves the cursor. */
    method SetCurrentTime(seconds: real)
      modifies audio
      ensures audio != null ==>
                && audio.position == seconds && audio.rate == old(audio.rate)
                && audio.paused == old(audio.paused) && audio.src == old(audio.src)
                && audio.duration == old(audio.duration)
    {
      if audio != null {
        audio.position := seconds;
      }
    }

    /** `getCurrentTime`: the position in seconds, 0 without an element. */
    function GetCurrentTime(): (t: real)
      reads this, audio
      ensures audio == null ==> t == 0.0
      ensures audio != null ==> t == audio.position
    {
      if audio == null then 0.0 else audio.position
    }

    /** `getDuration`: the length in seconds, 0 without an element or while it is unknown. */
    function GetDuration(): (d: real)
      reads this, audio
      ensures audio == null || audio.duration == None ==> d == 0.0
      ensures audio != null && audio.duration.Some? ==> d == audio.duration.value
    {
      if audio == null then 0.0 else audio.duration.GetOr(0.0)
    }
  }

  // ----------------------------------------------------------- read models

  /** A table row with its position and whether it is the highlighted one. */
  datatype WordStatus = WordStatus(timing: WordTiming, isHighlighted: bool, index: nat)

  /** One entry per row, carrying its own index; only the cursor's row is highlighted. */
  function WordsWithStatus(table: seq<WordTiming>, cursor: int): (r: seq<WordStatus>)
    ensures |r| == |table|
    ensures forall k :: 0 <= k < |r| ==> r[k].timing == table[k] && r[k].index == k
    ensures forall k :: 0 <= k < |r| ==> (r[k].isHighlighted <==> k == cursor)
  {
    seq(|table|, k requires 0 <= k < |table| => WordStatus(table[k], k == cursor, k))
  }

  /** Number of highlighted entries. */
  function HighlightedCount(ws: seq<WordStatus>): nat {
    if ws == [] then 0
    else HighlightedCount(ws[..|ws| - 1]) + (if ws[|ws| - 1].isHighlighted then 1 else 0)
  }

  /** Exactly one entry is highlighted when the cursor is a row index, none otherwise. */
  lemma {:induction false} AtMostOneHighlighted(table: seq<WordTiming>, cursor: int)
    ensures HighlightedCount(WordsWithStatus(table, cursor)) ==
            if 0 <= cursor < |table| then 1 else 0
  {
    var ws := WordsWithStatus(table, cursor);
    HighlightedPrefixCount(ws, cursor, |ws|);
    assert ws[..|ws|] == ws;
  }

  lemma {:induction false} HighlightedPrefixCount(ws: seq<WordStatus>, cursor: int, n: nat)
    requires n <= |ws|
    requires forall k :: 0 <= k < |ws| ==> (ws[k].isHighlighted <==> k == cursor)
    ensures HighlightedCount(ws[..n]) == if 0 <= cursor < n then 1 else 0
  {
    if n > 0 {
      assert ws[..n][..n - 1] == ws[..n - 1];
      HighlightedPrefixCount(ws, cursor, n - 1);
    }
  }

  /** `<span class="…" data-index="k">word</span>`, with class "word highlighted" for the cursor's row. */
  function SpanMarkup(highlighted: bool, index: nat, word: string): string {
    SpanOpening(highlighted) + SpanTail(index, word)
  }

  /** The span's tag up to its class attribute. */
  function SpanOpening(highlighted: bool): string {
    if highlighted then HighlightedOpening else "<span class=\"word\""
  }

  function SpanTail(index: nat, word: string): string {
    " data-index=\"" + Decimal.IntToString(index) + "\">" + word + "</span>"
  }

  const HighlightedOpening: string := "<span class=\"word highlighted\""

  /** The span opens with the highlighted class. */
  predicate IsHighlightedSpan(s: string) {
    |HighlightedOpening| <= |s| && s[..|HighlightedOpening|] == HighlightedOpening
  }

  /** A span carries the highlighted class exactly when it is built as highlighted. */
  lemma SpanHighlightedIff(highlighted: bool, index: nat, word: string)
    ensures IsHighlightedSpan(SpanMarkup(highlighted, index, word)) <==> highlighted
  {
    var opening, tail := SpanOpening(highlighted), SpanTail(index, word);
    var s := opening + tail;
    if highlighted {
      assert s[..|opening|] == opening;
    } else {
      assert |opening| == 18 && |HighlightedOpening| == 30;
      assert s[17] == opening[17] == '"';
      assert HighlightedOpening[17] == ' ';
      if |HighlightedOpening| <= |s| {
        assert s[..|HighlightedOpening|][17] != HighlightedOpening[17];
      }
    }
  }

  /** `parts.join(sep)`. */
  function JoinWith(parts: seq<string>, sep: string): string {
    if parts == [] then ""
    else if |parts| == 1 then parts[0]
    else parts[0] + sep + JoinWith(parts[1..], sep)
  }

  /** Joining appends each further part after exactly one separator, in order. */
  lemma {:induction false} JoinWithAppend(parts: seq<string>, p: string, sep: string)
    requires parts != []
    ensures JoinWith(parts + [p], sep) == JoinWith(parts, sep) + sep + p
  {
    if |parts| > 1 {
      assert (parts + [p])[1..] == parts[1..] + [p];
      JoinWithAppend(parts[1..], p, sep);
    }
  }

  /** One span per row, in row order. */
  function Spans(table: seq<WordTiming>, cursor: int): (r: seq<string>)
    ensures |r| == |table|
  {
    seq(|table|, k requires 0 <= k < |table| => SpanMarkup(k == cursor, k, table[k].word))
  }

  /** Only the cursor's span carries the highlighted class. */
  lemma SpansHighlightOnlyCursor(table: seq<WordTiming>, cursor: int, k: nat)
    requires k < |table|
    ensures IsHighlightedSpan(Spans(table, cursor)[k]) <==> k == cursor
  {
    SpanHighlightedIff(k == cursor, k, table[k].word);
  }

  /** The spans joined by single spaces. */
  function HighlightedHtml(table: seq<WordTiming>, cursor: int): string {
    JoinWith(Spans(table, cursor), " ")
  }

  /**
   * The markup grows one span at a time: a further row adds exactly one
   * space and that row's span, highlighted exactly when it is the cursor's.
   */
  lemma HighlightedHtmlAppend(table: seq<WordTiming>, w: WordTiming, cursor: int)
    requires table != []
    ensures HighlightedHtml(table + [w], cursor) ==
            HighlightedHtml(table, cursor) + " " + SpanMarkup(|table| == cursor, |table|, w.word)
  {
    var span := SpanMarkup(|table| == cursor, |table|, w.word);
    assert Spans(table + [w], cursor) == Spans(table, cursor) + [span];
    JoinWithAppend(Spans(table, cursor), span, " ");
  }

  /** No rows give no markup; one row gives just its span. */
  lemma HighlightedHtmlSmall(w: WordTiming, cursor: int)
    ensures HighlightedHtml([], cursor) == ""
    ensures HighlightedHtml([w], cursor) == SpanMarkup(cursor == 0, 0, w.word)
  {
    assert Spans([w], cursor) == [SpanMarkup(cursor == 0, 0, w.word)];
  }

  // --------------------------------------------------------------- scenarios

  /**
   * Generate, `play`, then the element's 'play' event: with `play` as written
   * no frame is pending afterwards, so the cursor never follows the audio.
   */
  method PlayLeavesNoFrame() returns (pending: bool, cursor: int)
    ensures !pending && cursor == -1
  {
    var h := new Highlighter();
    var table := [WordTiming("Hi", 0.0, 500.0, 500.0)];
    var reply := Replied(SpeechResponse(true, None, "/audio/a.mp3", table));
    var generated, sent := h.GenerateSpeech("Hi", None, None, reply);
    h.Play(true);
    h.OnPlayEvent();
    pending, cursor := h.framePending, h.currentWordIndex;
  }

  /**
   * The same sequence with `PlayFixed`: a frame stays pending, and once the
   * audio is 0.2 s in, the next frame highlights the first word.
   */
  method PlayFixedKeepsFrame() returns (pending: bool, cursor: int)
    ensures pending && cursor == 0
  {
    var h := new Highlighter();
    var table := [WordTiming("Hi", 0.0, 500.0, 500.0)];
    var reply := Replied(SpeechResponse(true, None, "/audio/a.mp3", table));
    var generated, sent := h.GenerateSpeech("Hi", None, None, reply);
    h.PlayFixed(true);
    h.OnPlayEvent();
    h.SetCurrentTime(0.2);
    h.Tick();
    pending, cursor := h.framePending, h.currentWordIndex;
  }
}
