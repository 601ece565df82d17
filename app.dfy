/**
 * The main page's own playback and highlighting (`App`): a second copy of the
 * lookup in the element's 'timeupdate' handler, the 'ended' reset, the speak
 * and play/pause buttons, the text state (typed or uploaded text and the
 * simplified/summarised version), and the renderer that numbers the words so
 * that the cursor selects one of them.
 *
 * React state updates are modelled as immediate assignments; `alert` calls
 * are returned as an optional message.
 */
module App {
  import opened Wrappers
  import opened Timing
  import opened Media
  import opened Text
  import SpeechService

  /** Prefix the page puts before the `audio_url` the backend returns. */
  const AudioHost: string := "https://pad-new-project.onrender.com"

  /** The body of a simplify or summarise request: the text, the language code and the reading profile's type. */
  datatype TransformRequest = TransformRequest(text: string, language: string, dyslexiaType: string)

  class Player {
    var text: string
    var processedText: string
    var isPlaying: bool
    var wordTimings: seq<WordTiming>
    var currentWordIndex: int
    var audioUrl: string
    var progress: real
    var ttsLoading: bool
    var speechSpeed: real
    var language: string
    var dyslexiaType: string
    var audio: AudioHandle?

    /** The initial page state around the page's audio element (null before it is mounted). */
    constructor (audio: AudioHandle?)
      ensures text == "" && processedText == "" && !isPlaying && wordTimings == []
      ensures currentWordIndex == -1 && audioUrl == "" && progress == 0.0
      ensures !ttsLoading && speechSpeed == 1.0 && language == "en" && dyslexiaType == "general"
      ensures this.audio == audio
    {
      text := "";
      processedText := "";
      isPlaying := false;
      wordTimings := [];
      currentWordIndex := -1;
      audioUrl := "";
      progress := 0.0;
      ttsLoading := false;
      speechSpeed := 1.0;
      language := "en";
      dyslexiaType := "general";
      this.audio := audio;
    }

    /** What is spoken and displayed: `processedText || text`. */
    function SpeakContent(): (c: string)
      reads this
      ensures processedText != "" ==> c == processedText
      ensures processedText == "" ==> c == text
    {
      if processedText != "" then processedText else text
    }

    /** What is simplified or summarised: `text || processedText`. */
    function EditContent(): (c: string)
      reads this
      ensures text != "" ==> c == text
      ensures text == "" ==> c == processedText
    {
      if text != "" then text else processedText
    }

    /**
     * 'timeupdate': with a non-empty table, the cursor moves to the first row
     * covering the position in ms; with no covering row, or no table, it is
     * left alone. (The progress percentage is not modelled.)
     */
    method HandleTimeUpdate()
      requires audio != null
      modifies this`currentWordIndex
      ensures |wordTimings| == 0 ==> currentWordIndex == old(currentWordIndex)
      ensures |wordTimings| > 0 ==>
                currentWordIndex == NextCursor(wordTimings, audio.position * 1000.0, old(currentWordIndex))
    {
      var ms := audio.position * 1000.0;
      if |wordTimings| > 0 {
        var active := FirstCovering(wordTimings, ms);
        if active != -1 {
          currentWordIndex := active;
        }
      }
    }

    /** 'ended': not playing, no highlighted word, progress back to 0. */
    method HandleEnded()
      modifies this`isPlaying, this`currentWordIndex, this`progress
      ensures !isPlaying && currentWordIndex == -1 && progress == 0.0
    {
      isPlaying := false;
      currentWordIndex := -1;
      progress := 0.0;
    }

    /**
     * The speak button (`handleSpeak`). With nothing to say it does nothing.
     * While playing it only pauses. Otherwise it sends `sent`, the spoken
     * content with the language and speed settings (outcome `reply`),
     * installs the new table and source, and starts playback (`playResolves`
     * is whether the browser allowed it).
     */
    method HandleSpeak(reply: TtsReply, playResolves: bool) returns (alert: Option<string>, sent: Option<TtsRequest>)
      modifies this, audio
      ensures audio == old(audio) && text == old(text) && processedText == old(processedText)
      ensures currentWordIndex == old(currentWordIndex) && speechSpeed == old(speechSpeed)
      ensures language == old(language) && dyslexiaType == old(dyslexiaType)
      ensures progress == old(progress)
      ensures sent.Some? <==> old(SpeakContent()) != "" && !old(isPlaying)
      ensures sent.Some? ==> sent.value == TtsRequest(old(SpeakContent()), language, speechSpeed)
      ensures sent.Some? ==> !ttsLoading
      ensures sent.None? ==> ttsLoading == old(ttsLoading)
      ensures old(SpeakContent()) == "" ==> unchanged(this) && alert == None
      ensures old(SpeakContent()) == "" && audio != null ==> unchanged(audio)
      // while playing: pause, no request
      ensures old(SpeakContent()) != "" && old(isPlaying) && audio != null ==>
                && !isPlaying && audio.paused && alert == None
                && wordTimings == old(wordTimings) && audioUrl == old(audioUrl)
                && audio.src == old(audio.src) && audio.position == old(audio.position)
      ensures old(SpeakContent()) != "" && old(isPlaying) && audio == null ==>
                unchanged(this) && alert == None
      // a successful reply
      ensures sent.Some? && reply.Replied? && reply.data.success ==>
                && wordTimings == reply.data.wordTimings
                && audioUrl == AudioHost + reply.data.audioUrl
                && (audio == null ==> !isPlaying && alert == Some("Failed to generate speech"))
                && (audio != null ==>
                      && audio.src == audioUrl && audio.rate == speechSpeed
                      && (playResolves ==> isPlaying && !audio.paused && alert == None)
                      && (!playResolves ==> !isPlaying && alert == Some("Click play to start audio")))
      // a failed reply or a failed request
      ensures sent.Some? && !(reply.Replied? && reply.data.success) ==>
                && wordTimings == old(wordTimings) && audioUrl == old(audioUrl) && !isPlaying
                && (audio != null ==> unchanged(audio))
                && alert == Some(if reply.Replied? then OrElse(reply.data.error, "TTS generation failed")
                                 else "Failed to generate speech")
    {
      alert, sent := None, None;
      var content := SpeakContent();
      if content == "" {
        return;
      }
      if isPlaying {
        if audio == null {
          return;  // `audio.pause()` throws before anything changes
        }
        audio.paused := true;
        isPlaying := false;
        return;
      }
      sent := Some(TtsRequest(content, language, speechSpeed));
      ttsLoading := true;
      match reply {
        case Replied(data) =>
          if data.success {
            var url := AudioHost + data.audioUrl;
            audioUrl := url;
            wordTimings := data.wordTimings;
            if audio == null {
              alert := Some("Failed to generate speech");  // `audio.src = …` throws
            } else {
              audio.src := url;
              audio.rate := speechSpeed;
              if playResolves {
                audio.paused := false;
                isPlaying := true;
              } else {
                alert := Some("Click play to start audio");
              }
            }
          } else {
            alert := Some(OrElse(data.error, "TTS generation failed"));
          }
        case Threw(_, _) =>
          alert := Some("Failed to generate speech");
      }
      ttsLoading := false;
    }

    /**
     * The play/pause button: nothing without an element; pause when playing;
     * resume when a source is loaded; otherwise speak. Resuming ignores the
     * promise `play()` returns: `isPlaying` becomes true even when the
     * browser refuses (`playResolves` false) and the element stays paused.
     */
    method TogglePlayPause(reply: TtsReply, playResolves: bool) returns (alert: Option<string>, sent: Option<TtsRequest>)
      modifies this, audio
      ensures audio == old(audio)
      ensures audio == null ==> unchanged(this) && alert == None && sent.None?
      ensures audio != null && old(isPlaying) ==>
                && !isPlaying && audio.paused && sent.None? && alert == None
                && audio.src == old(audio.src) && wordTimings == old(wordTimings)
                && currentWordIndex == old(currentWordIndex)
      ensures audio != null && !old(isPlaying) && old(audio.src) != "" ==>
                && isPlaying && (audio.paused <==> !playResolves) && sent.None? && alert == None
                && audio.src == old(audio.src) && wordTimings == old(wordTimings)
                && currentWordIndex == old(currentWordIndex)
      ensures audio != null && !old(isPlaying) && old(audio.src) == "" ==>
                && (sent.Some? <==> old(SpeakContent()) != "")
                && (sent.Some? ==> sent.value == TtsRequest(old(SpeakContent()), old(language), old(speechSpeed)))
                && currentWordIndex == old(currentWordIndex)
                && (sent.None? ==> unchanged(this) && unchanged(audio))
      ensures audio != null && !old(isPlaying) && old(audio.src) == "" ==>
                && text == old(text) && processedText == old(processedText) && progress == old(progress)
                && speechSpeed == old(speechSpeed) && language == old(language) && dyslexiaType == old(dyslexiaType)
                && (sent.Some? ==> !ttsLoading)
      // speaking from rest: a successful reply binds the audio and starts it
      ensures audio != null && !old(isPlaying) && old(audio.src) == "" && sent.Some? && reply.Replied? && reply.data.success ==>
                && wordTimings == reply.data.wordTimings
                && audioUrl == AudioHost + reply.data.audioUrl
                && audio.src == audioUrl && audio.rate == speechSpeed
                && (playResolves ==> isPlaying && !audio.paused && alert == None)
                && (!playResolves ==> !isPlaying && alert == Some("Click play to start audio"))
      // speaking from rest: a failed reply or a failed request
      ensures audio != null && !old(isPlaying) && old(audio.src) == "" && sent.Some? && !(reply.Replied? && reply.data.success) ==>
                && wordTimings == old(wordTimings) && audioUrl == old(audioUrl) && !isPlaying
                && unchanged(audio)
                && alert == Some(if reply.Replied? then OrElse(reply.data.error, "TTS generation failed")
                                 else "Failed to generate speech")
    {
      alert, sent := None, None;
      if audio == null {
        return;
      }
      if isPlaying {
        audio.paused := true;
        isPlaying := false;
      } else if audio.src != "" {
        audio.paused := !playResolves;
        isPlaying := true;
      } else {
        alert, sent := HandleSpeak(reply, playResolves);
      }
    }

    /** A successful upload shows the extracted text and drops the processed version. */
    method UploadSucceeded(extracted: string)
      modifies this`text, this`processedText
      ensures text == extracted && processedText == ""
      ensures SpeakContent() == extracted && EditContent() == extracted
    {
      text := extracted;
      processedText := "";
    }

    /** Typing replaces the text and drops the processed version. */
    method EditText(typed: string)
      modifies this`text, this`processedText
      ensures text == typed && processedText == ""
      ensures SpeakContent() == typed && EditContent() == typed
    {
      text := typed;
      processedText := "";
    }

    /**
     * Simplify (or summarise: the two buttons behave alike): with nothing to
     * send it does nothing; otherwise it sends `sent`, the content with the
     * language and the reading profile's type, and `reply` is the returned
     * text, or None when the request failed.
     */
    method HandleTransform(reply: Option<string>, failureMessage: string)
      returns (alert: Option<string>, sent: Option<TransformRequest>)
      modifies this`processedText
      ensures text == old(text)
      ensures sent.Some? <==> old(EditContent()) != ""
      ensures sent.Some? ==> sent.value == TransformRequest(old(EditContent()), language, dyslexiaType)
      ensures sent.None? ==> processedText == old(processedText) && alert == None
      ensures sent.Some? && reply.Some? ==> processedText == reply.value && alert == None
      ensures sent.Some? && reply.None? ==> processedText == old(processedText) && alert == Some(failureMessage)
    {
      alert, sent := None, None;
      var content := EditContent();
      if content == "" {
        return;
      }
      sent := Some(TransformRequest(content, language, dyslexiaType));
      if reply.Some? {
        processedText := reply.value;
      } else {
        alert := Some(failureMessage);
      }
    }

    /** `renderHighlightedText` on the current state. */
    method Render(focusMode: bool) returns (v: View)
      ensures SpeakContent() == "" ==> v == NoText
      ensures SpeakContent() != "" && |wordTimings| == 0 && !focusMode ==> v == PlainText(SpeakContent())
      ensures SpeakContent() != "" && |wordTimings| == 0 && focusMode ==>
                v == BionicTokens(SplitKeepingSpaces(SpeakContent()))
      ensures SpeakContent() != "" && |wordTimings| > 0 ==>
                && v.NumberedWords? && v.focus == focusMode
                && NumberedCorrectly(SplitKeepingSpaces(SpeakContent()), currentWordIndex, v.pieces)
    {
      var content := SpeakContent();
      if content == "" {
        return NoText;
      }
      if |wordTimings| == 0 {
        if focusMode {
          return BionicTokens(SplitKeepingSpaces(content));
        }
        return PlainText(content);
      }
      var pieces := NumberWords(SplitKeepingSpaces(content), currentWordIndex);
      return NumberedWords(pieces, focusMode);
    }

    /**
     * Rendering as evidently intended: number the whitespace runs' words only,
     * so the numbering never counts an empty token.
     */
    method RenderFixed(focusMode: bool) returns (v: View)
      ensures SpeakContent() == "" ==> v == NoText
      ensures SpeakContent() != "" && |wordTimings| == 0 && !focusMode ==> v == PlainText(SpeakContent())
      ensures SpeakContent() != "" && |wordTimings| == 0 && focusMode ==> v == BionicTokens(Runs(JsSpace, SpeakContent()))
      ensures SpeakContent() != "" && |wordTimings| > 0 ==>
                && v.NumberedWords? && v.focus == focusMode
                && NumberedCorrectly(Runs(JsSpace, SpeakContent()), currentWordIndex, v.pieces)
    {
      var content := SpeakContent();
      if content == "" {
        return NoText;
      }
      if |wordTimings| == 0 {
        if focusMode {
          return BionicTokens(Runs(JsSpace, content));
        }
        return PlainText(content);
      }
      var pieces := NumberWords(Runs(JsSpace, content), currentWordIndex);
      return NumberedWords(pieces, focusMode);
    }
  }

  // --------------------------------------------------------------- rendering

  /** A rendered token: a whitespace run, or a numbered word that may be the active one. */
  datatype Piece = Gap(text: string) | Word(text: string, number: nat, active: bool)

  /** What the text panel shows. */
  datatype View =
    | NoText
    | PlainText(text: string)
    | BionicTokens(tokens: seq<string>)
    | NumberedWords(pieces: seq<Piece>, focus: bool)

  /** `/^\s+$/.test(token)`: a non-empty run of whitespace. */
  predicate IsGapToken(token: string) {
    token != [] && IsBlank(JsSpace, token)
  }

  /** The tokens that are numbered as words, in order. */
  function WordTokens(tokens: seq<string>): seq<string> {
    if tokens == [] then []
    else
      var last := tokens[|tokens| - 1];
      WordTokens(tokens[..|tokens| - 1]) + (if IsGapToken(last) then [] else [last])
  }

  /**
   * `piece` renders `token`, which comes after the tokens `before`: it keeps
   * the token's text, is a gap exactly for a whitespace run, and a word is
   * numbered by the count of words before it and active exactly when that
   * number is the cursor.
   */
  predicate RightPiece(before: seq<string>, token: string, cursor: int, piece: Piece) {
    && piece.text == token
    && (piece.Gap? <==> IsGapToken(token))
    && (piece.Word? ==> piece.number == |WordTokens(before)| && (piece.active <==> piece.number == cursor))
  }

  /** `pieces` renders `tokens` one for one, each piece right for its token. */
  predicate NumberedCorrectly(tokens: seq<string>, cursor: int, pieces: seq<Piece>) {
    && |pieces| == |tokens|
    && forall k :: 0 <= k < |tokens| ==> RightPiece(tokens[..k], tokens[k], cursor, pieces[k])
  }

  /** The renderer's map over the tokens with its running `wordCount++` counter. */
  method NumberWords(tokens: seq<string>, cursor: int) returns (pieces: seq<Piece>)
    ensures NumberedCorrectly(tokens, cursor, pieces)
  {
    pieces := [];
    var wordCount := 0;
    var i := 0;
    while i < |tokens|
      invariant 0 <= i <= |tokens|
      invariant wordCount == |WordTokens(tokens[..i])|
      invariant |pieces| == i
      invariant forall k :: 0 <= k < i ==> RightPiece(tokens[..k], tokens[k], cursor, pieces[k])
    {
      var token := tokens[i];
      assert tokens[..i + 1][..i] == tokens[..i];
      if IsGapToken(token) {
        pieces := pieces + [Gap(token)];
      } else {
        var currentIndex := wordCount;
        wordCount := wordCount + 1;
        pieces := pieces + [Word(token, currentIndex, currentIndex == cursor)];
      }
      i := i + 1;
    }
  }

  // ------------------------------------------ numbering against the backend

  lemma {:induction false} WordTokensAppend(a: seq<string>, b: seq<string>)
    ensures WordTokens(a + b) == WordTokens(a) + WordTokens(b)
    decreases |b|
  {
    if b != [] {
      var b' := b[..|b| - 1];
      assert (a + b)[..|a + b| - 1] == a + b';
      WordTokensAppend(a, b');
    } else {
      assert a + b == a;
    }
  }

  /**
   * The words the fixed renderer numbers are exactly the backend's words
   * (Python's `split()`), in the same order, for text on which JavaScript's
   * and Python's whitespace classes agree.
   */
  lemma {:induction false} RunsWordTokens(s: string)
    requires SameSpaces(s)
    ensures WordTokens(Runs(JsSpace, s)) == Words(s)
    decreases |s|
  {
    if s != [] {
      var n := RunLength(JsSpace, s);
      var head := WordTokens([s[..n]]);
      FirstRunAgrees(s);
      RunsWordTokens(s[n..]);
      WordTokensAppend([s[..n]], Runs(JsSpace, s[n..]));
      assert Runs(JsSpace, s) == [s[..n]] + Runs(JsSpace, s[n..]);
      assert Words(s) == head + Words(s[n..]);
    }
  }

  /**
   * Both sides cut the same first run, and the renderer numbers it exactly
   * when `split()` keeps it.
   */
  lemma FirstRunAgrees(s: string)
    requires s != [] && SameSpaces(s)
    ensures var n := RunLength(JsSpace, s);
            && RunLength(PySpace, s) == n
            && SameSpaces(s[n..])
            && WordTokens([s[..n]]) == (if PySpace(s[0]) then [] else [s[..n]])
  {
    var n := RunLength(JsSpace, s);
    RunLengthSame(s);
    SameSpacesSuffix(s, n);
    assert PySpace(s[0]) == JsSpace(s[0]);
    assert IsGapToken(s[..n]) <==> JsSpace(s[0]) by {
      assert s[..n][0] == s[0];
    }
    assert [s[..n]][..0] == [];
  }

  lemma SameSpacesSuffix(s: string, n: nat)
    requires n <= |s| && SameSpaces(s)
    ensures SameSpaces(s[n..])
  {
    forall i | 0 <= i < |s[n..]| ensures PySpace(s[n..][i]) == JsSpace(s[n..][i]) {
      assert s[n..][i] == s[n + i];
    }
  }

  /**
   * Where the classes differ the two sides split differently: the renderer
   * cuts "a" U+FEFF "b" into two words, `split()` keeps it as one.
   */
  lemma ByteOrderMarkSplitsDifferently()
    ensures var s := "a\U{FEFF}b";
            && WordTokens(Runs(JsSpace, s)) == ["a", "b"]
            && Words(s) == [s]
  {
    ByteOrderMarkJsRuns();
    ByteOrderMarkWordTokens();
    ByteOrderMarkPyWords();
  }

  lemma ByteOrderMarkJsRuns()
    ensures Runs(JsSpace, "a\U{FEFF}b") == ["a", "\U{FEFF}", "b"]
  {
    var s := "a\U{FEFF}b";
    assert !JsSpace('a') && JsSpace('\U{FEFF}') && !JsSpace('b');
    assert RunLength(JsSpace, "b") == 1;
    assert "b"[..1] == "b" && "b"[1..] == [];
    assert Runs(JsSpace, "b") == ["b"] + Runs(JsSpace, []);
    assert RunLength(JsSpace, "\U{FEFF}b") == 1;
    assert "\U{FEFF}b"[..1] == "\U{FEFF}" && "\U{FEFF}b"[1..] == "b";
    assert Runs(JsSpace, "\U{FEFF}b") == ["\U{FEFF}"] + Runs(JsSpace, "b");
    assert RunLength(JsSpace, s) == 1;
    assert s[..1] == "a" && s[1..] == "\U{FEFF}b";
    assert Runs(JsSpace, s) == ["a"] + Runs(JsSpace, "\U{FEFF}b");
  }

  lemma ByteOrderMarkPyWords()
    ensures Words("a\U{FEFF}b") == ["a\U{FEFF}b"]
  {
    var s := "a\U{FEFF}b";
    assert !PySpace('a') && !PySpace('\U{FEFF}') && !PySpace('b');
    assert s[2..] == "b";
    assert RunLength(PySpace, s[2..]) == 1;
    assert RunLength(PySpace, s[1..]) == 2;
    assert RunLength(PySpace, s) == 3;
    assert s[..3] == s && s[3..] == [];
    assert Words(s) == [s] + Words([]);
  }

  lemma ByteOrderMarkWordTokens()
    ensures WordTokens(["a", "\U{FEFF}", "b"]) == ["a", "b"]
  {
    var tokens := ["a", "\U{FEFF}", "b"];
    assert !JsSpace("a"[0]) && !JsSpace("b"[0]);
    assert IsGapToken("\U{FEFF}") && !IsGapToken("a") && !IsGapToken("b");
    assert ["a"][..0] == [];
    assert WordTokens(["a"]) == ["a"];
    assert ["a", "\U{FEFF}"][..1] == ["a"];
    assert WordTokens(["a", "\U{FEFF}"]) == ["a"];
    assert tokens[..2] == ["a", "\U{FEFF}"];
  }

  /** The k-th word token sits at position |WordTokens(tokens[..k])| of the word tokens. */
  lemma WordTokenPosition(tokens: seq<string>, k: nat)
    requires k < |tokens| && !IsGapToken(tokens[k])
    ensures |WordTokens(tokens[..k])| < |WordTokens(tokens)|
    ensures WordTokens(tokens)[|WordTokens(tokens[..k])|] == tokens[k]
  {
    assert tokens == tokens[..k] + [tokens[k]] + tokens[k + 1..];
    WordTokensAppend(tokens[..k] + [tokens[k]], tokens[k + 1..]);
    WordTokensAppend(tokens[..k], [tokens[k]]);
    assert [tokens[k]][..0] == [];
  }

  /**
   * With the fixed renderer, the word numbered i on screen is the backend's
   * word i of `split()`, for text on which the two whitespace classes agree.
   */
  lemma FixedNumberingMatchesBackend(content: string, cursor: int, pieces: seq<Piece>, k: nat)
    requires SameSpaces(content)
    requires NumberedCorrectly(Runs(JsSpace, content), cursor, pieces)
    requires k < |pieces| && pieces[k].Word?
    ensures pieces[k].number < |Words(content)|
    ensures pieces[k].text == Words(content)[pieces[k].number]
  {
    WordTokenPosition(Runs(JsSpace, content), k);
    RunsWordTokens(content);
  }

  /**
   * When the backend's table was made without boundaries (elastic or
   * estimated), the word numbered i on screen is the word of timing row i,
   * so the highlighted word is the one that row was timed for.
   */
  lemma FixedNumberingMatchesFallbackTable(content: string, cursor: int, pieces: seq<Piece>, k: nat,
                                           language: string, speed: real, audioId: string,
                                           chunks: seq<SpeechService.Chunk>, probedSeconds: Option<real>)
    requires SameSpaces(content)
    requires NumberedCorrectly(Runs(JsSpace, content), cursor, pieces)
    requires k < |pieces| && pieces[k].Word?
    requires !IsBlank(PySpace, content) && SpeechService.AudioBytes(chunks) > 0 && SpeechService.Boundaries(chunks) == []
    requires SpeechService.ProbedMs(probedSeconds) > 0.0 || speed > 0.0
    ensures var r := SpeechService.TtsOutcome(content, language, speed, audioId, SpeechService.Streamed(chunks), probedSeconds);
            && r.TtsSuccess?
            && pieces[k].number < |r.wordTimings|
            && r.wordTimings[pieces[k].number].word == pieces[k].text
  {
    FixedNumberingMatchesBackend(content, cursor, pieces, k);
    SpeechService.FallbackTables(content, language, speed, audioId, chunks, probedSeconds);
  }

  /**
   * As written, content that starts with whitespace yields an empty first
   * token, which is numbered as word 0: " Hi" shows "Hi" as word 1 while the
   * backend times "Hi" as word 0.
   */
  lemma LeadingSpaceShiftsNumbering()
    ensures var tokens := SplitKeepingSpaces(" Hi");
            && tokens == ["", " ", "Hi"]
            && !IsGapToken(tokens[0])
            && WordTokens(tokens) == ["", "Hi"]
            && Words(" Hi") == ["Hi"]
  {
    LeadingSpaceRuns();
    LeadingSpaceWordTokens();
  }

  lemma LeadingSpaceRuns()
    ensures Runs(JsSpace, " Hi") == [" ", "Hi"] && Words(" Hi") == ["Hi"]
  {
    LeadingSpaceJsRuns();
    LeadingSpacePyWords();
  }

  lemma LeadingSpaceJsRuns()
    ensures Runs(JsSpace, " Hi") == [" ", "Hi"]
  {
    assert !JsSpace('H') && !JsSpace('i') && JsSpace(' ');
    assert RunLength(JsSpace, "i") == 1;
    assert "Hi"[1..] == "i";
    assert RunLength(JsSpace, "Hi") == 2;
    assert "Hi"[..2] == "Hi" && "Hi"[2..] == [];
    assert Runs(JsSpace, "Hi") == ["Hi"] + Runs(JsSpace, []);
    var s := " Hi";
    assert RunLength(JsSpace, s) == 1;
    assert s[..1] == " " && s[1..] == "Hi";
    assert Runs(JsSpace, s) == [" "] + Runs(JsSpace, "Hi");
  }

  lemma LeadingSpacePyWords()
    ensures Words(" Hi") == ["Hi"]
  {
    assert !PySpace('H') && !PySpace('i') && PySpace(' ');
    assert RunLength(PySpace, "i") == 1;
    assert "Hi"[1..] == "i";
    assert RunLength(PySpace, "Hi") == 2;
    assert "Hi"[..2] == "Hi" && "Hi"[2..] == [];
    assert Words("Hi") == ["Hi"] + Words([]);
    var s := " Hi";
    assert RunLength(PySpace, s) == 1;
    assert s[1..] == "Hi";
    assert Words(s) == Words("Hi");
  }

  lemma LeadingSpaceWordTokens()
    ensures WordTokens(["", " ", "Hi"]) == ["", "Hi"]
  {
    var tokens := ["", " ", "Hi"];
    assert IsGapToken(" ") && !IsGapToken("");
    assert !JsSpace("Hi"[0]);
    assert [""][..0] == [];
    assert WordTokens([""]) == [""];
    assert ["", " "][..1] == [""];
    assert WordTokens(["", " "]) == [""];
    assert tokens[..2] == ["", " "];
  }

  // ---------------------------------------------------------- bionic reading

  /** A word as bionic reading shows it: unchanged, or a bold prefix and the rest. */
  datatype BionicWord = Unsplit(word: string) | Emphasised(bold: string, rest: string)

  /**
   * `bionicRead`: words shorter than two characters are left alone; longer
   * ones are split after ceil(len/2) characters.
   */
  function BionicRead(word: string): (r: BionicWord)
    ensures |word| < 2 <==> r.Unsplit?
    ensures r.Unsplit? ==> r.word == word
    ensures r.Emphasised? ==> r.bold + r.rest == word
    ensures r.Emphasised? ==> |word| <= 2 * |r.bold| <= |word| + 1
  {
    if |word| < 2 then Unsplit(word)
    else
      var boldLength := (|word| + 1) / 2;
      Emphasised(word[..boldLength], word[boldLength..])
  }
}
