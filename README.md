# Word-highlight engine of a dyslexia reading assistant

This project models the part of the reading assistant that keeps spoken audio
and highlighted text in step, together with the small pieces of logic around
it:

- **The playback/highlight hook** (`useTTSHighlight`), module `TtsHighlight`.
  A `Highlighter` class holds the word-timing table, the highlight cursor (-1
  for none), the playing, loading and error flags, and the audio element it
  binds. Its members are the lifecycle operations, the audio-event handlers and
  the per-frame tick. The tick finds the first row whose half-open interval
  `[start_ms, end_ms)` contains the position in milliseconds. The module also
  gives the two read models: the words with their status, and the highlighted
  HTML.
- **The main page** (`App`), module `App`. A `Player` class holds the text
  state, the table, the cursor and the audio element. Its members handle
  'timeupdate' and 'ended', speaking, play/pause, upload and typing, and
  simplify/summarise. The renderer numbers the words so that the cursor
  selects one of them. `BionicRead` splits a word for bionic reading.
- **The timing-table producer** (`speech_service`), module `SpeechService`:
  - the language table and its English fallback;
  - the rate string;
  - turning WordBoundary events into millisecond rows;
  - the two fallbacks used when no boundaries arrive: elastic alignment
    against the probed audio length, and a pure estimate;
  - the order of the checks in `text_to_speech`;
  - the language listing, sorted by code.
- **The chat backend** (`chat_service`), module `ChatService`. A
  `DocumentStore` class is the per-session document map, with store, get and
  clear. The module also has the language-name and prompt-family fallbacks,
  and the checks that `simplify_text` and `answer_question` make, in order,
  before calling the model.
- **The reading profile** (`routers/profile`), module `ReadingProfile`. A
  `ProfileStore` class holds the one in-memory profile. `UpdateProfile`
  overwrites a field only when the update supplies a truthy value for it.

The shared modules are:

- `Timing`: the table row, the lookup and well-formed tables;
- `Text`: the two whitespace classes, Python's `split()`/`strip()` and
  JavaScript's `split(/(\s+)/)`;
- `Decimal`: decimal strings of integers;
- `Media`: the audio element and the speech reply;
- `Wrappers`: `Option`, and JavaScript's `||` on strings.

Time is exact (`real`), and seconds × 1000 gives milliseconds. The network,
the synthesiser, the duration probe, the language model and the browser are
abstracted as follows:

- The synthesiser is a function from a request to a stream outcome.
- The probe is an optional number of seconds.
- The model is a function from a prompt to a completion.
- A reply is a value.
- The audio element is an object whose events are handler methods.

React state updates are immediate assignments. An `alert` is a returned
message.

The lookup is a linear scan that takes the first row covering the position.
The 'pause' event clears the cursor as well as the playing flag
(frontend/src/hooks/useTTSHighlight.js:45-48).

Whitespace comes in two classes. The backend's `split()` and `strip()` use
Python's `str.isspace`. The frontend's `split(/(\s+)/)` and `/^\s+$/` use
JavaScript's `\s`. The two classes share the ASCII whitespace, NO-BREAK SPACE
and the Unicode space separators. Python's class also has U+001C to U+001F and
U+0085. JavaScript's class also has U+FEFF.

## Model

| member | source | states |
|---|---|---|
| Wrappers.OrElse | frontend/src/hooks/useTTSHighlight.js:56 | JavaScript `a \|\| b` on a string: a present, non-empty `a` wins; otherwise `b` |
| Text.SpaceClassesDiffer | backend/services/speech_service.py:101 | Python's `isspace` and JavaScript's `\s` disagree on exactly six characters: the four from U+001C to U+001F and U+0085 are whitespace only to Python, U+FEFF only to JavaScript |
| Text.Runs | frontend/src/App.jsx:388 | the maximal same-class runs of the text: each is non-empty and all whitespace or free of it, the first starts the text, and neighbouring runs are of different classes |
| Text.RunsConcat | frontend/src/App.jsx:388 | the runs concatenate back to the text |
| Text.Words | backend/services/speech_service.py:101 | every word of `split()` is non-empty and contains no Python whitespace |
| Text.WordsAreRuns | backend/services/speech_service.py:101 | the words of `split()` are exactly the text's maximal runs that are not whitespace, in order |
| Text.WordsEmptyIffBlank | backend/services/speech_service.py:46-50 | a text has no words exactly when it is empty or only whitespace, so text that passes the blank check always reaches a fallback with at least one word |
| Text.SplitKeepingSpacesConcat | frontend/src/App.jsx:388 | the tokens of `split(/(\s+)/)` concatenate back to the content |
| Text.Strip | backend/services/chat_service.py:450 | `strip()` is the slice of the input between a whitespace-only prefix and a whitespace-only suffix, and it neither starts nor ends with whitespace |
| Decimal.IntToString | backend/services/speech_service.py:61 | an integer's decimal string starts with '-' exactly when it is negative |
| Decimal.IntToStringRoundTrip | backend/services/speech_service.py:61 | the decimal string of an integer is a well-formed signed numeral that parses back to the integer |
| Timing.FirstCovering | frontend/src/App.jsx:149-151 | the index of the first row whose `[start_ms, end_ms)` contains the position, with no earlier row containing it, or -1 when no row does |
| Timing.FindCurrentWord | frontend/src/hooks/useTTSHighlight.js:111-120 | the `for` loop with `break` returns exactly the first covering row, or -1 |
| Timing.NextCursor | frontend/src/App.jsx:148-156 | the cursor moves to the first covering row when there is one; otherwise it stays as it was |
| Timing.LookupFindsCoveringRow | frontend/src/hooks/useTTSHighlight.js:111-120 | in an ordered table, the lookup returns the row that covers the position, whichever row it is |
| Timing.LookupAtStart | frontend/src/hooks/useTTSHighlight.js:113-116 | in a well-formed table, a row's start resolves to that row |
| Timing.LookupAtEnd | frontend/src/hooks/useTTSHighlight.js:113-116 | in a well-formed table, a row's end resolves to the next row when that row starts there, and to no row otherwise |
| Timing.LookupMonotonic | frontend/src/hooks/useTTSHighlight.js:111-120 | in an ordered table, a later position never resolves to an earlier row |
| Timing.LookupExample | frontend/src/hooks/useTTSHighlight.js:113-116 | two words with a gap: the gap and the last end resolve to no row; 0 and 600 ms resolve to rows 0 and 1 |
| Media.AudioHandle.constructor | frontend/src/hooks/useTTSHighlight.js:40 | a new element has the given source, is paused at 0 at rate 1, and its length is still unknown |
| TtsHighlight.Highlighter.constructor | frontend/src/hooks/useTTSHighlight.js:10-17 | the initial state: not playing, cursor -1, empty table, not loading, no error, no element, no frame |
| TtsHighlight.Highlighter.GenerateSpeech | frontend/src/hooks/useTTSHighlight.js:22-66 | the request sent carries the text, the language (default 'en') and the speed (default 1.0); on success the table is replaced wholesale, a fresh paused element is bound and the response is returned; on `success: false` the error is the response error or 'Failed to generate speech'; on a thrown request it is the body error or the exception message; on both failures the table and element are kept and the result is null; loading always ends false; the cursor and playing flag are untouched |
| TtsHighlight.Highlighter.Tick | frontend/src/hooks/useTTSHighlight.js:103-123 | without an element or while not playing, nothing changes and no frame is requested; otherwise the cursor becomes the first covering row for position × 1000 (and stays put when none covers it), and the next frame is requested |
| TtsHighlight.Highlighter.Play | frontend/src/hooks/useTTSHighlight.js:71-76 | as written: with no element, a no-op; otherwise the element is unpaused exactly when the browser accepts `play()` (the promise is ignored), and one tick runs with the current `isPlaying`, so starting from rest leaves no frame pending |
| TtsHighlight.Highlighter.PlayFixed | frontend/src/hooks/useTTSHighlight.js:71-76 | corrected: with an element whose `play()` is accepted, playback starts with `isPlaying` already true, the cursor follows the position and a frame stays pending; with no element or a refused `play()`, nothing changes |
| TtsHighlight.Highlighter.Pause | frontend/src/hooks/useTTSHighlight.js:81-85 | pauses the element if there is one and changes nothing else about it |
| TtsHighlight.Highlighter.Stop | frontend/src/hooks/useTTSHighlight.js:90-97 | always clears the cursor to -1 and stops playing; an element, if bound, is paused and rewound to 0; the table is unchanged |
| TtsHighlight.Highlighter.OnPlayEvent | frontend/src/hooks/useTTSHighlight.js:44 | the 'play' event sets `isPlaying` |
| TtsHighlight.Highlighter.OnPauseEvent | frontend/src/hooks/useTTSHighlight.js:45-48 | the 'pause' event stops playing and clears the cursor to -1 |
| TtsHighlight.Highlighter.OnEndedEvent | frontend/src/hooks/useTTSHighlight.js:49-52 | the 'ended' event stops playing and clears the cursor to -1 |
| TtsHighlight.Highlighter.SetPlaybackRate | frontend/src/hooks/useTTSHighlight.js:184-188 | sets only the element's rate, and is a no-op without an element |
| TtsHighlight.Highlighter.SetCurrentTime | frontend/src/hooks/useTTSHighlight.js:190-194 | sets only the element's position, and is a no-op without an element |
| TtsHighlight.Highlighter.GetCurrentTime | frontend/src/hooks/useTTSHighlight.js:189 | the element's position, or 0 without an element |
| TtsHighlight.Highlighter.GetDuration | frontend/src/hooks/useTTSHighlight.js:195 | the element's length, or 0 without an element or while the length is unknown |
| TtsHighlight.WordsWithStatus | frontend/src/hooks/useTTSHighlight.js:158-164 | one entry per row, carrying the row and its own position; entry k is highlighted exactly when k is the cursor |
| TtsHighlight.AtMostOneHighlighted | frontend/src/hooks/useTTSHighlight.js:158-164 | exactly one entry is highlighted when the cursor is a row index, and none otherwise (for example when it is -1) |
| TtsHighlight.SpanHighlightedIff | frontend/src/hooks/useTTSHighlight.js:145-150 | a span opens with the class `word highlighted` exactly when it is built for the highlighted row |
| TtsHighlight.SpansHighlightOnlyCursor | frontend/src/hooks/useTTSHighlight.js:142-153 | among the spans, only the one at the cursor's index carries the highlighted class |
| TtsHighlight.JoinWithAppend | frontend/src/hooks/useTTSHighlight.js:152 | `join(sep)` puts exactly one separator before each further part, in order |
| TtsHighlight.HighlightedHtmlAppend | frontend/src/hooks/useTTSHighlight.js:142-153 | each further row adds one space and that row's span, which carries its index and is highlighted exactly when it is the cursor's |
| TtsHighlight.HighlightedHtmlSmall | frontend/src/hooks/useTTSHighlight.js:142-153 | an empty table gives empty markup; a single row gives just its span |
| TtsHighlight.PlayLeavesNoFrame | frontend/src/hooks/useTTSHighlight.js:71-76 | generate, `play`, then the 'play' event leaves no frame pending, so the cursor stays at -1 |
| TtsHighlight.PlayFixedKeepsFrame | frontend/src/hooks/useTTSHighlight.js:102-126 | with the corrected `play`, a frame stays pending, and at 0.2 s the next frame highlights word 0 |
| App.Player.constructor | frontend/src/App.jsx:10-38 | the initial page state: empty texts and table, cursor -1, not playing, no URL, progress 0, speed 1.0, language 'en', reading profile type 'general' |
| App.Player.SpeakContent | frontend/src/App.jsx:261 | speaking and rendering use `processedText` when it is non-empty, else `text` |
| App.Player.EditContent | frontend/src/App.jsx:231 | simplify and summarise use `text` when it is non-empty, else `processedText` |
| App.Player.HandleTimeUpdate | frontend/src/App.jsx:143-157 | with a non-empty table, the cursor becomes the first row covering position × 1000, or stays put when no row covers it; with an empty table it is unchanged |
| App.Player.HandleEnded | frontend/src/App.jsx:159-163 | 'ended' stops playing, clears the cursor to -1 and resets progress to 0 |
| App.Player.HandleSpeak | frontend/src/App.jsx:260-304 | with nothing to say, nothing changes. While playing it only pauses, with no request. Otherwise it sends `processedText \|\| text` with the language and speed settings; a success installs the table and the host-prefixed URL, sets source and rate and plays or alerts "Click play to start audio"; a failure alerts the error or 'TTS generation failed', and a thrown request alerts 'Failed to generate speech', keeping the table. Loading ends false after a request. The cursor and texts are never touched |
| App.Player.TogglePlayPause | frontend/src/App.jsx:336-351 | no element: a no-op. Playing: pause. Not playing with a source: `isPlaying` becomes true, while the element is unpaused only when the browser accepts `play()`. Otherwise it falls through to speaking, which sends `processedText \|\| text` with the language and speed exactly when there is content. The settings are kept. A successful reply stores its table and the host-prefixed URL, binds the element at the speech speed, and starts playback when `play()` is accepted; otherwise it alerts 'Click play to start audio'. A failed reply or request leaves the element, table and URL alone, stops playing and alerts the reply's error, 'TTS generation failed' or 'Failed to generate speech' |
| App.Player.UploadSucceeded | frontend/src/App.jsx:203-205 | an upload shows the extracted text and clears `processedText`, so both contents become the extracted text |
| App.Player.EditText | frontend/src/App.jsx:683-686 | typing replaces the text and clears `processedText` |
| App.Player.HandleTransform | frontend/src/App.jsx:230-257 | with nothing to send, nothing changes; otherwise it sends `text \|\| processedText` with the language and the reading profile's type, and the returned text becomes `processedText`, or a failure alerts its message and keeps it; `text` is never changed |
| App.NumberWords | frontend/src/App.jsx:388-409 | one piece per token, with the token's text. A piece is a gap exactly for a whitespace run. Every other token is numbered by the count of numbered tokens before it, and is active exactly when that number is the cursor |
| App.Player.Render | frontend/src/App.jsx:354-411 | as written: no content gives nothing; with no table, the plain text or the bionic tokens; with a table, the tokens of `split(/(\s+)/)` numbered as `NumberWords` states |
| App.Player.RenderFixed | frontend/src/App.jsx:388-409 | corrected: the same views, but the numbering runs over the whitespace runs and words only, never over an empty token |
| App.RunsWordTokens | frontend/src/App.jsx:388-399 | for text on which the two whitespace classes agree, the tokens the corrected renderer numbers are exactly the backend's words (`split()`), in order |
| App.ByteOrderMarkSplitsDifferently | frontend/src/App.jsx:388-399 | where the classes disagree the two sides split differently: "a" U+FEFF "b" is two numbered words on screen and one word to `split()` |
| App.FixedNumberingMatchesBackend | backend/services/speech_service.py:101 | for text on which the two whitespace classes agree, the word numbered i by the corrected renderer is word i of the backend's `split()` |
| App.FixedNumberingMatchesFallbackTable | backend/services/speech_service.py:101-146 | when the table was built without boundaries (elastic or estimated) for text on which the classes agree, the word numbered i on screen is the word of timing row i |
| App.LeadingSpaceShiftsNumbering | frontend/src/App.jsx:388-399 | as written, " Hi" splits into "", " " and "Hi", and both "" and "Hi" are numbered, while the backend has only "Hi" |
| App.BionicRead | frontend/src/App.jsx:415-424 | words shorter than 2 are unchanged; longer ones split into a bold prefix of ceil(len/2) characters and a rest, which rejoin to the word |
| SpeechService.LanguageMapKeysDistinct | backend/services/speech_service.py:8-25 | like a dictionary, the language table has each key once |
| SpeechService.Lookup | backend/services/speech_service.py:41 | a dictionary `get`: absent exactly when no entry has the key; with distinct keys, it is that key's value |
| SpeechService.LanguageConfig | backend/services/speech_service.py:41-43 | a known language gets its own entry (voice and code); an unknown one gets the English entry for both |
| SpeechService.RegionalLanguages | backend/services/speech_service.py:10-20 | 'zh' uses code 'zh-CN', and 'en-GB' keeps its own British voice |
| SpeechService.Truncate | backend/services/speech_service.py:60 | Python `int()` truncates toward zero |
| SpeechService.RateString | backend/services/speech_service.py:60-61 | the rate ends in '%' and starts with '+' exactly when the truncated percent is at least 0, or with '-' otherwise |
| SpeechService.RateStringReadsBack | backend/services/speech_service.py:60-61 | the number between the sign and '%' is a numeral that reads back as `int((speed - 1.0) * 100)` |
| SpeechService.RateStringExamples | backend/services/speech_service.py:58-61 | speeds 1.0, 1.5, 0.5 and 2.0 give "+0%", "+50%", "-50%" and "+100%" |
| SpeechService.Boundaries | backend/services/speech_service.py:72 | only WordBoundary events of the stream, in stream order; none exactly when the stream has no boundary; a single chunk is kept exactly when it is a boundary |
| SpeechService.BoundariesAppend | backend/services/speech_service.py:68-80 | the boundaries of a joined stream are the first part's boundaries followed by the second part's |
| SpeechService.BoundaryRow | backend/services/speech_service.py:73-80 | the row has the event's text, start = offset / 10000, duration = duration / 10000 and end = start + duration |
| SpeechService.BoundaryTimings | backend/services/speech_service.py:69-80 | one row per WordBoundary event, in stream order |
| SpeechService.ReadStream | backend/services/speech_service.py:68-80 | the stream loop appends exactly the boundary rows and writes exactly the audio bytes |
| SpeechService.ElasticTable | backend/services/speech_service.py:101-136 | one row per word |
| SpeechService.ElasticTimings | backend/services/speech_service.py:101-136 | the loop with its running `current_time`, plus the patch of the last end, builds exactly the elastic table |
| SpeechService.ElasticShape | backend/services/speech_service.py:111-136 | the first row starts at 0. Row k has word k and lasts len × ms_per_unit. The next start is the previous end + 2 × ms_per_unit. The last end is the total |
| SpeechService.ElasticElapsedClosedForm | backend/services/speech_service.py:104-132 | at the start of word k, the running time is ms_per_unit × (the characters of the first k words + 2k) |
| SpeechService.ElasticNaturalEnd | backend/services/speech_service.py:106-136 | with exact arithmetic, the last word's natural end already equals the total, so the pin changes nothing |
| SpeechService.ElasticElapsedGrows | backend/services/speech_service.py:128-132 | with a positive unit, the running time never decreases |
| SpeechService.ElasticWellFormed | backend/services/speech_service.py:101-136 | for non-empty words and a positive total, every interval is non-empty and the rows are in order without overlap |
| SpeechService.EstimatedTable | backend/services/speech_service.py:138-146 | one row per word |
| SpeechService.EstimatedTimings | backend/services/speech_service.py:141-146 | the loop with its running `curr` builds exactly the estimated table |
| SpeechService.EstimatedGaps | backend/services/speech_service.py:141-146 | the first row starts at 0. Each duration is (400/speed) × (len/5). Each next start is the previous end + 50 |
| SpeechService.EstimatedElapsedClosedForm | backend/services/speech_service.py:141-146 | after k words, the running time is (400/speed) × (characters/5) + 50k |
| SpeechService.EstimatedElapsedGrows | backend/services/speech_service.py:146 | with a positive speed, the running time never decreases |
| SpeechService.EstimatedWellFormed | backend/services/speech_service.py:141-146 | for non-empty words and a positive speed, every interval is non-empty and the rows are in order without overlap |
| SpeechService.Succeeded | backend/services/speech_service.py:150-158 | a success carries the table, `total_words` = its row count, the URL `/audio/<id>.mp3`, the id, the language and the language's code |
| SpeechService.TextToSpeech | backend/services/speech_service.py:27-175 | the request uses the language's voice and the rate string, and the result follows the order of checks: blank text, synthesiser exception, empty file, boundaries, elastic alignment, estimate |
| SpeechService.TtsCheckOrder | backend/services/speech_service.py:46-87 | blank text is refused whatever the synthesiser does; an empty file is refused whatever the probe says; every success reports `total_words` equal to its row count |
| SpeechService.FallbackTables | backend/services/speech_service.py:89-146 | without boundaries, the table has one row per word of the text, in order, and is well formed when the probe or the speed is positive |
| SpeechService.Listing | backend/services/speech_service.py:192-198 | one entry per table key, in table order |
| SpeechService.CodeLeTotal | backend/services/speech_service.py:199 | the string order used for sorting is total |
| SpeechService.CodeLeTransitive | backend/services/speech_service.py:199 | the string order used for sorting is transitive |
| SpeechService.CodeLeAntisymmetric | backend/services/speech_service.py:199 | the string order used for sorting is antisymmetric |
| SpeechService.Insert | backend/services/speech_service.py:199 | inserting into a sorted list keeps it sorted and adds exactly that entry |
| SpeechService.SortByCode | backend/services/speech_service.py:199 | the result is sorted by code and is a permutation of the input |
| SpeechService.GetAvailableLanguages | backend/services/speech_service.py:190-199 | the listing is sorted by code and is a permutation of the table's entries |
| SpeechService.ListedLanguages | backend/services/speech_service.py:190-199 | exactly one entry per table key, each with name = description and `lang_code` = the key's code |
| ChatService.DocumentStore.constructor | backend/services/chat_service.py:7 | the store starts empty |
| ChatService.DocumentStore.Get | backend/services/chat_service.py:13-15 | a stored session's text, or "" for a session never stored or already cleared |
| ChatService.DocumentStore.Store | backend/services/chat_service.py:9-11 | afterwards the session reads back the text, and no other session changes |
| ChatService.DocumentStore.Clear | backend/services/chat_service.py:17-20 | removes only that session, which then reads ""; clearing an absent session is a no-op |
| ChatService.ReplayLastWriteWins | backend/services/chat_service.py:9-20 | after any sequence of stores and clears, a session reads its last store's text, or "" after its last clear, or its initial value when untouched |
| ChatService.LanguageName | backend/services/chat_service.py:432-437 | a known code gets its name; an unknown one gets "English" |
| ChatService.PromptKindFor | backend/services/chat_service.py:208 | the general template is used exactly when the dyslexia type is not one of the five named ones |
| ChatService.SimplifyText | backend/services/chat_service.py:417-463 | no client, then blank text are refused with their messages; success exactly when the model answers, echoing the original, type and language with the answer stripped; a model failure gives "Error simplifying text: …" |
| ChatService.AnswerQuestion | backend/services/chat_service.py:465-518 | refusals in order: no client, no (or empty) document for the session, blank question. An answer echoes the question with the model's stripped content. A model failure gives "Error processing question: …" |
| ChatService.RejectionIgnoresModel | backend/services/chat_service.py:468-487 | a request refused by a check gets the same result whatever the model would have said, so each check runs before the model call |
| ChatService.AskAfterClear | backend/services/chat_service.py:17-20 | a question about a cleared session is refused as having no document |
| ReadingProfile.OnlyTruthyFieldsChange | backend/routers/profile.py:35-48 | a field changes only when the update supplies a truthy value, and it then takes that value; None, 0, 0.0 and "" leave it unchanged |
| ReadingProfile.ApplyIdempotent | backend/routers/profile.py:35-48 | applying the same update twice gives the profile that applying it once gives |
| ReadingProfile.ApplyTwice | backend/routers/profile.py:35-48 | two updates in a row equal one merged update: in each of the seven fields the later truthy value wins, and a field neither update supplies truthily keeps its value |
| ReadingProfile.ProfileStore.constructor | backend/routers/profile.py:8-16 | the stored profile starts at the defaults |
| ReadingProfile.ProfileStore.GetProfile | backend/routers/profile.py:27-30 | the stored profile |
| ReadingProfile.ProfileStore.UpdateProfile | backend/routers/profile.py:32-50 | the stored profile becomes the field-wise truthy update of the old one, and the response carries "Profile updated" and the stored profile |
| ReadingProfile.PostTwice | backend/routers/profile.py:32-50 | posting the same update twice leaves the profile that one post leaves |

## Left out

- Network and foreign calls are reduced to values. Each frontend request is an output (`sent`) and its reply is an input, which the model does not compute from the request. The backend's inputs are the synthesiser's stream, the Groq completions, the audio-length probe and the uuid. The file write is reduced to the count of audio bytes, and the existence/size check is reduced to that count being non-zero.
- Animation-frame scheduling is reduced to a `framePending` flag. The modelled parts are which frame requests happen and whether cancellation happens; frame cadence is not modelled.
- React closures that capture stale `isPlaying` or `wordTimings` values are not modelled; state updates take effect at once.
- The progress percentage and its NaN fallback are not modelled (frontend/src/App.jsx:145).
- Floating-point behaviour is not modelled: time and speed are exact reals. Python can round `(speed - 1.0) * 100` to just below an integer (0.8 gives -19), and the model gives -20. Float drift in elastic alignment is absent, which is why the pinned last end equals the natural one.
- App.Player.HandleTransform: a reply without the expected field sets `processedText` to `undefined`. The model takes the reply's text as given, so that case is the empty text.
- App.Player.HandleSpeak: when `audio.pause()` or `audio.src = …` throws on a missing element, the handler is cut short. The model then leaves the state as it was at that point and alerts as the catch does.
- The prompt templates in `chat_service` are not modelled. A prompt is represented by what it is built from: the text or question, the document, the prompt family and the language name.
- Speech recognition, the language fetch with its timeout, the chat UI, JSX layout and styles, and the settings panel are UI code and are not modelled.
- backend/services/groq_service.py, backend/services/document_service.py, the routers other than the profile router, the scripts, and the frontend's TTSPlayer and TTS_EXAMPLES components are not part of this model.
- App.RunsWordTokens, App.FixedNumberingMatchesBackend and App.FixedNumberingMatchesFallbackTable hold only for text on which Python's and JavaScript's whitespace classes agree (no U+001C to U+001F, U+0085 or U+FEFF); App.ByteOrderMarkSplitsDifferently shows the numbering drifting otherwise.
- App.FixedNumberingMatchesBackend: a table built from WordBoundary events carries the synthesiser's own words, and nothing relates them to `split()`, so the match with timing rows is proved only for the fallback tables (App.FixedNumberingMatchesFallbackTable).
- App.BionicRead: JavaScript's `length` and `substring` count UTF-16 code units, while the model counts characters; the two differ for characters outside the Basic Multilingual Plane, such as emoji, where the JavaScript split can fall inside a surrogate pair.
- TtsHighlight.Highlighter.GenerateSpeech: the element a previous success bound is neither paused nor unbound. In the browser it can go on playing, and its 'play', 'pause' and 'ended' listeners still update this hook's state. The model forgets the old element.
- The unused `simplify_text` stub in speech_service (backend/services/speech_service.py:177-188) is not modelled, because nothing calls it.

## Findings

| source | as written | input that shows it | evidently intended | confidence | as-written member | corrected member |
|---|---|---|---|---|---|---|
| frontend/src/hooks/useTTSHighlight.js:71-76 | `play()` runs the first highlight frame at once, but `isPlaying` is only set later by the 'play' event, so that frame returns without requesting another and the cursor never follows the audio | generate a one-word table, `play()`, then the 'play' event: no frame is pending and the cursor stays -1 | the highlight loop runs while the audio plays | high, not executed | TtsHighlight.PlayLeavesNoFrame | TtsHighlight.PlayFixedKeepsFrame |
| frontend/src/App.jsx:388-399 | content starting with whitespace splits into a leading "" token, which is not a whitespace run and so is numbered as word 0, putting every highlight one word early | typed text " Hi": the tokens are "", " " and "Hi", "Hi" is numbered 1, and the backend times "Hi" as word 0 | number only the real words, matching the backend's `split()` | medium (uploaded text is usually stripped), not executed | App.LeadingSpaceShiftsNumbering | App.FixedNumberingMatchesBackend |
