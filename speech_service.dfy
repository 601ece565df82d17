/**
 * The backend's timing-table producer (`speech_service`): the language table
 * and its English fallback, the rate string handed to the synthesiser, the
 * conversion of WordBoundary events into millisecond intervals, the two
 * fallbacks used when no boundaries arrive (elastic alignment against the
 * probed audio length, and a pure estimate), and the sorted language listing.
 *
 * The synthesiser is a function from a request to a stream outcome, the
 * audio-length probe is an optional number of seconds, and the generated file
 * id is a parameter. Time is exact (`real`).
 */
module SpeechService {
  import opened Wrappers
  import opened Text
  import opened Decimal
  import opened Timing

  // ---------------------------------------------------------------- languages

  datatype LangConfig = LangConfig(code: string, description: string, voice: string)

  /** `LANGUAGE_MAP`, in insertion order. */
  const LanguageMap: seq<(string, LangConfig)> := [
    ("en", LangConfig("en", "English (US)", "en-US-AriaNeural")),
    ("en-GB", LangConfig("en", "English (British)", "en-GB-SoniaNeural")),
    ("es", LangConfig("es", "Spanish (Spain)", "es-ES-ElviraNeural")),
    ("es-MX", LangConfig("es", "Spanish (Mexico)", "es-MX-DaliaNeural")),
    ("fr", LangConfig("fr", "French", "fr-FR-DeniseNeural")),
    ("de", LangConfig("de", "German", "de-DE-KatjaNeural")),
    ("it", LangConfig("it", "Italian", "it-IT-ElsaNeural")),
    ("pt", LangConfig("pt", "Portuguese (Brazil)", "pt-BR-FranciscaNeural")),
    ("pt-PT", LangConfig("pt-PT", "Portuguese (Portugal)", "pt-PT-RaquelNeural")),
    ("hi", LangConfig("hi", "Hindi", "hi-IN-SwaraNeural")),
    ("ar", LangConfig("ar", "Arabic", "ar-SA-ZariyahNeural")),
    ("zh", LangConfig("zh-CN", "Chinese (Simplified)", "zh-CN-XiaoxiaoNeural")),
    ("zh-TW", LangConfig("zh-TW", "Chinese (Traditional)", "zh-TW-HsiaoChenNeural")),
    ("ja", LangConfig("ja", "Japanese", "ja-JP-NanamiNeural")),
    ("ko", LangConfig("ko", "Korean", "ko-KR-SunHiNeural")),
    ("ru", LangConfig("ru", "Russian", "ru-RU-SvetlanaNeural"))
  ]

  const English: LangConfig := LangConfig("en", "English (US)", "en-US-AriaNeural")

  predicate DistinctKeys<V>(entries: seq<(string, V)>) {
    forall i, j :: 0 <= i < j < |entries| ==> entries[i].0 != entries[j].0
  }

  /** Like a dictionary, the language table has each key once. */
  lemma LanguageMapKeysDistinct()
    ensures DistinctKeys(LanguageMap)
  {
  }

  /** A dictionary lookup over `entries`. */
  function Lookup<V>(entries: seq<(string, V)>, key: string): (r: Option<V>)
    ensures r.None? <==> forall i :: 0 <= i < |entries| ==> entries[i].0 != key
    ensures r.Some? ==> exists i :: 0 <= i < |entries| && entries[i] == (key, r.value)
    ensures DistinctKeys(entries) ==>
              forall i :: 0 <= i < |entries| && entries[i].0 == key ==> r == Some(entries[i].1)
  {
    if entries == [] then None
    else if entries[0].0 == key then Some(entries[0].1)
    else Lookup(entries[1..], key)
  }

  /** `LANGUAGE_MAP.get(language, LANGUAGE_MAP["en"])`. */
  function LanguageConfig(language: string): (c: LangConfig)
    ensures (forall i :: 0 <= i < |LanguageMap| ==> LanguageMap[i].0 != language) ==> c == English
    ensures forall i :: 0 <= i < |LanguageMap| && LanguageMap[i].0 == language ==> c == LanguageMap[i].1
  {
    LanguageMapKeysDistinct();
    Lookup(LanguageMap, language).GetOr(English)
  }

  /** A region variant keeps its own voice; Chinese maps to the `zh-CN` code. */
  lemma RegionalLanguages()
    ensures LanguageConfig("zh").code == "zh-CN"
    ensures LanguageConfig("en-GB").voice == "en-GB-SoniaNeural"
  {
    assert LanguageMap[11].0 == "zh";
    assert LanguageMap[1].0 == "en-GB";
  }

  // --------------------------------------------------------------- the rate

  /** Python's `int(x)` on a number: truncation toward zero. */
  function Truncate(x: real): (n: int)
    ensures x >= 0.0 ==> 0 <= n && n as real <= x < n as real + 1.0
    ensures x < 0.0 ==> n <= 0 && n as real - 1.0 < x <= n as real
  {
    if x >= 0.0 then x.Floor else -((-x).Floor)
  }

  /** `int((speed - 1.0) * 100)`. */
  function RatePercent(speed: real): int {
    Truncate((speed - 1.0) * 100.0)
  }

  /** The synthesiser's rate: a sign (`+` for zero too), the percent, and `%`. */
  function RateString(speed: real): (s: string)
    ensures |s| >= 3 && s[|s| - 1] == '%'
    ensures s[0] == '+' <==> RatePercent(speed) >= 0
    ensures s[0] == '-' <==> RatePercent(speed) < 0
  {
    var p := RatePercent(speed);
    (if p >= 0 then "+" else "") + IntToString(p) + "%"
  }

  /** The number between the sign and `%` reads back as the truncated percent. */
  lemma RateStringReadsBack(speed: real)
    ensures var s := RateString(speed);
            var number := if s[0] == '+' then s[1..|s| - 1] else s[..|s| - 1];
            && number == IntToString(RatePercent(speed))
            && Numeral(number)
            && ParseInt(number) == RatePercent(speed)
  {
    var p := RatePercent(speed);
    var s := RateString(speed);
    IntToStringRoundTrip(p);
    if p >= 0 {
      assert s == "+" + IntToString(p) + "%";
      assert s[1..|s| - 1] == IntToString(p);
    } else {
      assert s == IntToString(p) + "%";
      assert s[..|s| - 1] == IntToString(p);
    }
  }

  lemma RateStringExamples()
    ensures RateString(1.0) == "+0%"
    ensures RateString(1.5) == "+50%"
    ensures RateString(0.5) == "-50%"
    ensures RateString(2.0) == "+100%"
  {
    assert NatDigits(0) == "0";
    FiftyDigits();
    HundredDigits();
    assert RatePercent(0.5) == -50;
    assert IntToString(-50) == "-" + NatDigits(50);
  }

  lemma FiftyDigits()
    ensures NatDigits(50) == "50"
  {
    assert NatDigits(5) == "5";
    assert NatDigits(50) == NatDigits(5) + "0";
  }

  lemma HundredDigits()
    ensures NatDigits(100) == "100"
  {
    assert NatDigits(1) == "1";
    assert NatDigits(10) == NatDigits(1) + "0";
    assert NatDigits(100) == NatDigits(10) + "0";
  }

  // --------------------------------------------------- boundaries to a table

  /** One item of the synthesiser's stream. `offset` and `duration` are in 100-ns ticks. */
  datatype Chunk =
    | AudioData(size: nat)
    | WordBoundary(text: string, offset: int, duration: int)
    | OtherChunk

  /** What the synthesiser does with a request: a stream, or an exception with its message. */
  datatype SynthOutcome = Streamed(chunks: seq<Chunk>) | Raised(message: string)

  datatype SynthRequest = SynthRequest(text: string, voice: string, rate: string)

  /** Number of audio bytes written to the file. */
  function AudioBytes(chunks: seq<Chunk>): nat {
    if chunks == [] then 0
    else AudioBytes(chunks[..|chunks| - 1]) + (match chunks[|chunks| - 1] case AudioData(n) => n case _ => 0)
  }

  /** The WordBoundary events of the stream, in stream order. */
  function Boundaries(chunks: seq<Chunk>): (r: seq<Chunk>)
    ensures forall k :: 0 <= k < |r| ==> r[k].WordBoundary?
    ensures |chunks| == 1 ==> r == (if chunks[0].WordBoundary? then chunks else [])
  {
    if chunks == [] then []
    else
      var init := chunks[..|chunks| - 1];
      var last := chunks[|chunks| - 1];
      assert |chunks| == 1 ==> init == [];
      Boundaries(init) + (if last.WordBoundary? then [last] else [])
  }

  /** A stream yields no boundaries exactly when none of its chunks is a WordBoundary. */
  lemma {:induction false} BoundariesEmptyIff(chunks: seq<Chunk>)
    ensures Boundaries(chunks) == [] <==> forall i :: 0 <= i < |chunks| ==> !chunks[i].WordBoundary?
    decreases |chunks|
  {
    if chunks != [] {
      var init := chunks[..|chunks| - 1];
      BoundariesEmptyIff(init);
      assert forall i :: 0 <= i < |init| ==> init[i] == chunks[i];
    }
  }

  /** Boundaries are kept chunk by chunk: the boundaries of a joined stream are the two parts' boundaries. */
  lemma {:induction false} BoundariesAppend(a: seq<Chunk>, b: seq<Chunk>)
    ensures Boundaries(a + b) == Boundaries(a) + Boundaries(b)
    decreases |b|
  {
    if b == [] {
      assert a + b == a;
    } else {
      var b' := b[..|b| - 1];
      assert (a + b)[..|a + b| - 1] == a + b';
      assert (a + b)[|a + b| - 1] == b[|b| - 1];
      BoundariesAppend(a, b');
    }
  }

  /** A boundary as a table row: ticks divided by 10000 give milliseconds. */
  function BoundaryRow(c: Chunk): (w: WordTiming)
    requires c.WordBoundary?
    ensures w.word == c.text
    ensures w.startMs * 10000.0 == c.offset as real && w.durationMs * 10000.0 == c.duration as real
    ensures w.endMs == w.startMs + w.durationMs
  {
    var startMs := c.offset as real / 10000.0;
    var durationMs := c.duration as real / 10000.0;
    WordTiming(c.text, startMs, startMs + durationMs, durationMs)
  }

  /** The table the boundaries produce: one row per boundary, in stream order. */
  function BoundaryTimings(chunks: seq<Chunk>): (t: seq<WordTiming>)
    ensures |t| == |Boundaries(chunks)|
    ensures forall k :: 0 <= k < |t| ==> t[k] == BoundaryRow(Boundaries(chunks)[k])
  {
    if chunks == [] then []
    else
      var last := chunks[|chunks| - 1];
      BoundaryTimings(chunks[..|chunks| - 1]) + (if last.WordBoundary? then [BoundaryRow(last)] else [])
  }

  /** The stream loop: write audio, append one row per boundary. */
  method ReadStream(chunks: seq<Chunk>) returns (wordTimings: seq<WordTiming>, written: nat)
    ensures wordTimings == BoundaryTimings(chunks)
    ensures written == AudioBytes(chunks)
  {
    wordTimings, written := [], 0;
    var i := 0;
    while i < |chunks|
      invariant 0 <= i <= |chunks|
      invariant wordTimings == BoundaryTimings(chunks[..i])
      invariant written == AudioBytes(chunks[..i])
    {
      assert chunks[..i + 1][..i] == chunks[..i];
      match chunks[i] {
        case AudioData(n) =>
          written := written + n;
        case WordBoundary(text, offset, duration) =>
          var startMs := offset as real / 10000.0;
          var durationMs := duration as real / 10000.0;
          wordTimings := wordTimings + [WordTiming(text, startMs, startMs + durationMs, durationMs)];
        case OtherChunk =>
      }
      i := i + 1;
    }
    assert chunks[..i] == chunks;
  }

  // --------------------------------------------------------- elastic timing

  /** Total length of the words. */
  function SumLen(words: seq<string>): nat {
    if words == [] then 0 else SumLen(words[..|words| - 1]) + |words[|words| - 1]|
  }

  /** Non-empty words have at least one character each. */
  lemma {:induction false} SumLenAtLeastCount(words: seq<string>)
    requires forall k :: 0 <= k < |words| ==> words[k] != []
    ensures SumLen(words) >= |words|
    decreases |words|
  {
    if words != [] {
      SumLenAtLeastCount(words[..|words| - 1]);
    }
  }

  /** The weight of the whole text: its characters plus two per gap between words. */
  function TotalWeight(words: seq<string>): int {
    SumLen(words) + (|words| - 1) * 2
  }

  /** `total_duration_ms / max(1, total_weight)`. */
  function MsPerUnit(words: seq<string>, totalMs: real): real {
    var weight := TotalWeight(words);
    totalMs / (if weight < 1 then 1 else weight) as real
  }

  /**
   * The running `current_time` after `words`: each word adds one unit per
   * character and the gap after it two units.
   */
  function ElasticElapsed(words: seq<string>, unit: real): real {
    if words == [] then 0.0
    else ElasticElapsed(words[..|words| - 1], unit) + |words[|words| - 1]| as real * unit + 2.0 * unit
  }

  lemma ElasticElapsedSnoc(words: seq<string>, unit: real, i: nat)
    requires i < |words|
    ensures ElasticElapsed(words[..i + 1], unit) == ElasticElapsed(words[..i], unit) + |words[i]| as real * unit + 2.0 * unit
  {
    assert words[..i + 1][..i] == words[..i];
  }

  /** Row `k` as the loop writes it, before the last end is patched. */
  function ElasticRow(words: seq<string>, unit: real, k: nat): (w: WordTiming)
    requires k < |words|
  {
    var startMs := ElasticElapsed(words[..k], unit);
    var durationMs := |words[k]| as real * unit;
    WordTiming(words[k], startMs, startMs + durationMs, durationMs)
  }

  /** The elastic table: the rows above with the last end pinned to the total. */
  function ElasticTable(words: seq<string>, totalMs: real): (t: seq<WordTiming>)
    requires words != []
    ensures |t| == |words|
  {
    var unit := MsPerUnit(words, totalMs);
    seq(|words|, k requires 0 <= k < |words| =>
      if k == |words| - 1 then ElasticRow(words, unit, k).(endMs := totalMs) else ElasticRow(words, unit, k))
  }

  /** The elastic-alignment loop with its running `current_time`, then the patch of the last end. */
  method ElasticTimings(words: seq<string>, totalMs: real) returns (wordTimings: seq<WordTiming>)
    requires words != []
    ensures wordTimings == ElasticTable(words, totalMs)
  {
    var totalChars := SumLen(words);
    var totalWeight := totalChars + (|words| - 1) * 2;
    var msPerUnit := totalMs / (if totalWeight < 1 then 1 else totalWeight) as real;
    wordTimings := [];
    var currentTime := 0.0;
    var i := 0;
    while i < |words|
      invariant 0 <= i <= |words|
      invariant |wordTimings| == i
      invariant forall k :: 0 <= k < i ==> wordTimings[k] == ElasticRow(words, msPerUnit, k)
      invariant i < |words| ==> currentTime == ElasticElapsed(words[..i], msPerUnit)
    {
      var wordDuration := |words[i]| as real * msPerUnit;
      wordTimings := wordTimings + [WordTiming(words[i], currentTime, currentTime + wordDuration, wordDuration)];
      currentTime := currentTime + wordDuration;
      if i < |words| - 1 {
        currentTime := currentTime + 2.0 * msPerUnit;
        ElasticElapsedSnoc(words, msPerUnit, i);
      }
      i := i + 1;
    }
    var last := |wordTimings| - 1;
    wordTimings := wordTimings[last := wordTimings[last].(endMs := totalMs)];
    ElasticTableRows(words, totalMs, wordTimings);
  }

  lemma ElasticTableRows(words: seq<string>, totalMs: real, t: seq<WordTiming>)
    requires words != [] && |t| == |words|
    requires forall k :: 0 <= k < |words| - 1 ==> t[k] == ElasticRow(words, MsPerUnit(words, totalMs), k)
    requires t[|words| - 1] == ElasticRow(words, MsPerUnit(words, totalMs), |words| - 1).(endMs := totalMs)
    ensures t == ElasticTable(words, totalMs)
  {
  }

  /**
   * The shape of the elastic table: one row per word, in order, starting at
   * 0; each row lasts one unit per character; the next word starts two units
   * after the previous one ends; the last row ends at the total.
   */
  lemma ElasticShape(words: seq<string>, totalMs: real, k: nat)
    requires words != [] && k < |words|
    ensures var t := ElasticTable(words, totalMs);
            var unit := MsPerUnit(words, totalMs);
            && t[0].startMs == 0.0
            && t[k].word == words[k]
            && t[k].durationMs == |words[k]| as real * unit
            && (k + 1 < |words| ==> t[k + 1].startMs == t[k].endMs + 2.0 * unit)
            && t[|words| - 1].endMs == totalMs
  {
    assert words[..0] == [];
    if k + 1 < |words| {
      ElasticElapsedSnoc(words, MsPerUnit(words, totalMs), k);
    }
  }

  /** The running time in closed form: one unit per character and two per word. */
  lemma {:induction false} ElasticElapsedClosedForm(words: seq<string>, unit: real)
    ensures ElasticElapsed(words, unit) == unit * (SumLen(words) + 2 * |words|) as real
    decreases |words|
  {
    if words != [] {
      var init := words[..|words| - 1];
      ElasticElapsedClosedForm(init, unit);
      Distribute(unit, (SumLen(init) + 2 * |init|) as real, |words[|words| - 1]| as real + 2.0);
    }
  }

  lemma Distribute(u: real, a: real, b: real)
    ensures u * a + u * b == u * (a + b)
  {
  }

  /**
   * With exact arithmetic the pin changes nothing: the last word's natural
   * end already is the total, since the weights add up to the total weight.
   */
  lemma ElasticNaturalEnd(words: seq<string>, totalMs: real)
    requires words != [] && forall k :: 0 <= k < |words| ==> words[k] != []
    ensures ElasticRow(words, MsPerUnit(words, totalMs), |words| - 1).endMs == totalMs
  {
    var n := |words|;
    var unit := MsPerUnit(words, totalMs);
    ElasticElapsedSnoc(words, unit, n - 1);
    assert words[..n] == words;
    ElasticElapsedClosedForm(words, unit);
    SumLenAtLeastCount(words);
    var weight := TotalWeight(words);
    assert weight >= 1;
    Distribute(unit, weight as real, 2.0);
    assert unit * weight as real == totalMs;
  }

  /** For non-empty words and a positive total, the elastic table is well formed. */
  lemma ElasticWellFormed(words: seq<string>, totalMs: real)
    requires words != [] && forall k :: 0 <= k < |words| ==> words[k] != []
    requires totalMs > 0.0
    ensures WellFormed(ElasticTable(words, totalMs))
  {
    var t := ElasticTable(words, totalMs);
    forall k | 0 <= k < |words| ensures t[k].startMs < t[k].endMs {
      ElasticRowNonEmpty(words, totalMs, k);
    }
    forall i, j | 0 <= i < j < |words| ensures t[i].endMs <= t[j].startMs {
      ElasticPairOrdered(words, totalMs, i, j);
    }
  }

  lemma ElasticUnitPositive(words: seq<string>, totalMs: real)
    requires words != [] && forall k :: 0 <= k < |words| ==> words[k] != []
    requires totalMs > 0.0
    ensures MsPerUnit(words, totalMs) > 0.0
  {
    SumLenAtLeastCount(words);
  }

  lemma ElasticRowNonEmpty(words: seq<string>, totalMs: real, k: nat)
    requires words != [] && forall k :: 0 <= k < |words| ==> words[k] != []
    requires totalMs > 0.0 && k < |words|
    ensures ElasticTable(words, totalMs)[k].startMs < ElasticTable(words, totalMs)[k].endMs
  {
    var unit := MsPerUnit(words, totalMs);
    ElasticUnitPositive(words, totalMs);
    assert |words[k]| as real * unit > 0.0;
    if k == |words| - 1 {
      ElasticNaturalEnd(words, totalMs);
    }
  }

  lemma ElasticPairOrdered(words: seq<string>, totalMs: real, i: nat, j: nat)
    requires words != [] && forall k :: 0 <= k < |words| ==> words[k] != []
    requires totalMs > 0.0 && i < j < |words|
    ensures ElasticTable(words, totalMs)[i].endMs <= ElasticTable(words, totalMs)[j].startMs
  {
    var unit := MsPerUnit(words, totalMs);
    ElasticUnitPositive(words, totalMs);
    ElasticElapsedSnoc(words, unit, i);
    ElasticElapsedGrows(words, unit, i + 1, j);
  }

  /** With a positive unit, time only moves forward along the words. */
  lemma {:induction false} ElasticElapsedGrows(words: seq<string>, unit: real, i: nat, j: nat)
    requires i <= j <= |words| && unit > 0.0
    ensures ElasticElapsed(words[..i], unit) <= ElasticElapsed(words[..j], unit)
    decreases j - i
  {
    if i < j {
      ElasticElapsedGrows(words, unit, i, j - 1);
      ElasticElapsedSnoc(words, unit, j - 1);
      assert |words[j - 1]| as real * unit >= 0.0;
    }
  }

  // ------------------------------------------------------ estimation timing

  /** The running `curr` after `words`: each word adds `(400/speed) * (len/5)` and 50 ms. */
  function EstimatedElapsed(words: seq<string>, avgWord: real): real {
    if words == [] then 0.0
    else EstimatedElapsed(words[..|words| - 1], avgWord) + avgWord * (|words[|words| - 1]| as real / 5.0) + 50.0
  }

  lemma EstimatedElapsedSnoc(words: seq<string>, avgWord: real, i: nat)
    requires i < |words|
    ensures EstimatedElapsed(words[..i + 1], avgWord)
            == EstimatedElapsed(words[..i], avgWord) + avgWord * (|words[i]| as real / 5.0) + 50.0
  {
    assert words[..i + 1][..i] == words[..i];
  }

  function EstimatedRow(words: seq<string>, avgWord: real, k: nat): WordTiming
    requires k < |words|
  {
    var startMs := EstimatedElapsed(words[..k], avgWord);
    var durationMs := avgWord * (|words[k]| as real / 5.0);
    WordTiming(words[k], startMs, startMs + durationMs, durationMs)
  }

  function EstimatedTable(words: seq<string>, speed: real): (t: seq<WordTiming>)
    requires speed != 0.0
    ensures |t| == |words|
  {
    seq(|words|, k requires 0 <= k < |words| => EstimatedRow(words, 400.0 / speed, k))
  }

  /** The estimation loop with its running `curr`. */
  method EstimatedTimings(words: seq<string>, speed: real) returns (wordTimings: seq<WordTiming>)
    requires speed != 0.0
    ensures wordTimings == EstimatedTable(words, speed)
  {
    var avgWord := 400.0 / speed;
    var curr := 0.0;
    wordTimings := [];
    var i := 0;
    while i < |words|
      invariant 0 <= i <= |words|
      invariant |wordTimings| == i
      invariant forall k :: 0 <= k < i ==> wordTimings[k] == EstimatedRow(words, avgWord, k)
      invariant curr == EstimatedElapsed(words[..i], avgWord)
    {
      var dur := avgWord * (|words[i]| as real / 5.0);
      wordTimings := wordTimings + [WordTiming(words[i], curr, curr + dur, dur)];
      curr := curr + dur + 50.0;
      EstimatedElapsedSnoc(words, avgWord, i);
      i := i + 1;
    }
  }

  /**
   * Each estimated word lasts `(400/speed) * (len/5)` ms and starts 50 ms
   * after the previous one ends; the first starts at 0.
   */
  lemma EstimatedGaps(words: seq<string>, speed: real, k: nat)
    requires speed != 0.0 && k < |words|
    ensures var t := EstimatedTable(words, speed);
            && t[0].startMs == 0.0
            && t[k].durationMs == (400.0 / speed) * (|words[k]| as real / 5.0)
            && (k + 1 < |words| ==> t[k + 1].startMs == t[k].endMs + 50.0)
  {
    assert words[..0] == [];
    if k + 1 < |words| {
      EstimatedElapsedSnoc(words, 400.0 / speed, k);
    }
  }

  /** The running time in closed form: `(400/speed)/5` per character and 50 ms per word. */
  lemma {:induction false} EstimatedElapsedClosedForm(words: seq<string>, avgWord: real)
    ensures EstimatedElapsed(words, avgWord) == avgWord * (SumLen(words) as real / 5.0) + 50.0 * |words| as real
    decreases |words|
  {
    if words != [] {
      var init := words[..|words| - 1];
      EstimatedElapsedClosedForm(init, avgWord);
      Distribute(avgWord, SumLen(init) as real / 5.0, |words[|words| - 1]| as real / 5.0);
    }
  }

  /** For non-empty words and a positive speed, the estimated table is well formed. */
  lemma EstimatedWellFormed(words: seq<string>, speed: real)
    requires speed > 0.0 && forall k :: 0 <= k < |words| ==> words[k] != []
    ensures WellFormed(EstimatedTable(words, speed))
  {
    var t := EstimatedTable(words, speed);
    var avg := 400.0 / speed;
    forall k | 0 <= k < |words| ensures t[k].startMs < t[k].endMs {
      PositiveDuration(avg, |words[k]|);
    }
    forall i, j | 0 <= i < j < |words| ensures t[i].endMs <= t[j].startMs {
      EstimatedElapsedSnoc(words, avg, i);
      EstimatedElapsedGrows(words, avg, i + 1, j);
    }
  }

  lemma PositiveDuration(avg: real, len: nat)
    requires avg > 0.0 && len > 0
    ensures avg * (len as real / 5.0) > 0.0
  {
  }

  /** With a positive speed, time only moves forward along the words. */
  lemma {:induction false} EstimatedElapsedGrows(words: seq<string>, avgWord: real, i: nat, j: nat)
    requires i <= j <= |words| && avgWord > 0.0
    ensures EstimatedElapsed(words[..i], avgWord) <= EstimatedElapsed(words[..j], avgWord)
    decreases j - i
  {
    if i < j {
      EstimatedElapsedGrows(words, avgWord, i, j - 1);
      EstimatedElapsedSnoc(words, avgWord, j - 1);
      assert avgWord * (|words[j - 1]| as real / 5.0) >= 0.0;
    }
  }

  // ------------------------------------------------------------ the request

  datatype TtsResult =
    | TtsFailure(error: string)
    | TtsSuccess(audioUrl: string, audioId: string, wordTimings: seq<WordTiming>,
                 language: string, langCode: string, totalWords: nat)

  /** The request handed to the synthesiser for these arguments. */
  function RequestFor(text: string, language: string, speed: real): SynthRequest {
    SynthRequest(text, LanguageConfig(language).voice, RateString(speed))
  }

  /** The probed length in ms, or 0 when the probe failed. */
  function ProbedMs(probedSeconds: Option<real>): real {
    match probedSeconds
    case Some(seconds) => seconds * 1000.0
    case None => 0.0
  }

  /**
   * What `text_to_speech` returns for a synthesiser outcome: blank text is
   * refused before anything else; an exception from the synthesiser becomes
   * "TTS Error: …"; an empty audio file is refused; otherwise the boundaries
   * give the table, or else elastic alignment against the probed length, or
   * else the estimate (whose division by a zero speed is caught like any
   * other exception).
   */
  function TtsOutcome(text: string, language: string, speed: real, audioId: string,
                      outcome: SynthOutcome, probedSeconds: Option<real>): TtsResult
  {
    if IsBlank(PySpace, text) then TtsFailure("Please provide text to convert")
    else match outcome
      case Raised(message) => TtsFailure("TTS Error: " + message)
      case Streamed(chunks) =>
        if AudioBytes(chunks) == 0 then TtsFailure("Generated audio file is empty")
        else if Boundaries(chunks) != [] then Succeeded(language, audioId, BoundaryTimings(chunks))
        else if ProbedMs(probedSeconds) > 0.0 then
          WordsEmptyIffBlank(text);
          Succeeded(language, audioId, ElasticTable(Words(text), ProbedMs(probedSeconds)))
        else if speed == 0.0 then TtsFailure("TTS Error: float division by zero")
        else Succeeded(language, audioId, EstimatedTable(Words(text), speed))
  }

  /** The success record for a finished table. */
  function Succeeded(language: string, audioId: string, wordTimings: seq<WordTiming>): (r: TtsResult)
    ensures r.TtsSuccess? && r.wordTimings == wordTimings
    ensures r.totalWords == |wordTimings|
    ensures r.audioUrl == "/audio/" + audioId + ".mp3" && r.audioId == audioId
    ensures r.language == language && r.langCode == LanguageConfig(language).code
  {
    TtsSuccess("/audio/" + audioId + ".mp3", audioId, wordTimings, language, LanguageConfig(language).code, |wordTimings|)
  }

  /**
   * `text_to_speech`: asks the synthesiser for the text with the language's
   * voice and the rate string, reads the stream, and falls back as
   * `TtsOutcome` describes.
   */
  method TextToSpeech(text: string, language: string, speed: real, audioId: string,
                      synthesize: SynthRequest -> SynthOutcome, probedSeconds: Option<real>)
    returns (r: TtsResult)
    ensures r == TtsOutcome(text, language, speed, audioId, synthesize(RequestFor(text, language, speed)), probedSeconds)
  {
    if IsBlank(PySpace, text) {
      return TtsFailure("Please provide text to convert");
    }
    // the language's voice and the rate string
    var request := RequestFor(text, language, speed);
    var outcome := synthesize(request);
    if outcome.Raised? {
      return TtsFailure("TTS Error: " + outcome.message);
    }
    var wordTimings, written := ReadStream(outcome.chunks);
    if written == 0 {
      return TtsFailure("Generated audio file is empty");
    }
    if wordTimings == [] {
      var totalDurationMs := ProbedMs(probedSeconds);
      var words := Words(text);
      // `words` is never empty here: the text is not blank.
      WordsEmptyIffBlank(text);
      if totalDurationMs > 0.0 {
        wordTimings := ElasticTimings(words, totalDurationMs);
      } else {
        if speed == 0.0 {
          return TtsFailure("TTS Error: float division by zero");
        }
        wordTimings := EstimatedTimings(words, speed);
      }
    }
    return Succeeded(language, audioId, wordTimings);
  }

  /**
   * The checks come in order: blank text is refused whatever the
   * synthesiser would do, and an empty file is refused whatever the probe
   * says; every success reports as many words as its table has rows.
   */
  lemma TtsCheckOrder(text: string, language: string, speed: real, audioId: string,
                      outcome: SynthOutcome, probedSeconds: Option<real>)
    ensures IsBlank(PySpace, text) ==>
              TtsOutcome(text, language, speed, audioId, outcome, probedSeconds) == TtsFailure("Please provide text to convert")
    ensures !IsBlank(PySpace, text) && outcome.Streamed? && AudioBytes(outcome.chunks) == 0 ==>
              TtsOutcome(text, language, speed, audioId, outcome, probedSeconds) == TtsFailure("Generated audio file is empty")
    ensures var r := TtsOutcome(text, language, speed, audioId, outcome, probedSeconds);
            r.TtsSuccess? ==> r.totalWords == |r.wordTimings| && r.langCode == LanguageConfig(language).code
  {
  }

  /**
   * A table made without boundaries has one row per word of the text, in
   * order, and is well formed whenever the speed is positive.
   */
  lemma FallbackTables(text: string, language: string, speed: real, audioId: string,
                       chunks: seq<Chunk>, probedSeconds: Option<real>)
    requires !IsBlank(PySpace, text) && AudioBytes(chunks) > 0 && Boundaries(chunks) == []
    requires ProbedMs(probedSeconds) > 0.0 || speed > 0.0
    ensures var r := TtsOutcome(text, language, speed, audioId, Streamed(chunks), probedSeconds);
            && r.TtsSuccess?
            && |r.wordTimings| == |Words(text)|
            && (forall k :: 0 <= k < |r.wordTimings| ==> r.wordTimings[k].word == Words(text)[k])
            && WellFormed(r.wordTimings)
  {
    WordsEmptyIffBlank(text);
    var words := Words(text);
    if ProbedMs(probedSeconds) > 0.0 {
      ElasticWellFormed(words, ProbedMs(probedSeconds));
    } else {
      EstimatedWellFormed(words, speed);
    }
  }

  // ------------------------------------------------------- language listing

  datatype LanguageInfo = LanguageInfo(code: string, name: string, langCode: string)

  /** One entry per table key, in table order. */
  function Listing(entries: seq<(string, LangConfig)>): (r: seq<LanguageInfo>)
    ensures |r| == |entries|
  {
    seq(|entries|, i requires 0 <= i < |entries| =>
      LanguageInfo(entries[i].0, entries[i].1.description, entries[i].1.code))
  }

  /** Python's string order: code point by code point, a proper prefix first. */
  predicate CodeLe(a: string, b: string)
    decreases |a|
  {
    a == [] || (b != [] && (a[0] < b[0] || (a[0] == b[0] && CodeLe(a[1..], b[1..]))))
  }

  lemma {:induction false} CodeLeTotal(a: string, b: string)
    ensures CodeLe(a, b) || CodeLe(b, a)
    decreases |a|
  {
    if a != [] && b != [] && a[0] == b[0] {
      CodeLeTotal(a[1..], b[1..]);
    }
  }

  lemma {:induction false} CodeLeTransitive(a: string, b: string, c: string)
    requires CodeLe(a, b) && CodeLe(b, c)
    ensures CodeLe(a, c)
    decreases |a|
  {
    if a != [] && a[0] == b[0] && b[0] == c[0] {
      CodeLeTransitive(a[1..], b[1..], c[1..]);
    }
  }

  lemma {:induction false} CodeLeAntisymmetric(a: string, b: string)
    requires CodeLe(a, b) && CodeLe(b, a)
    ensures a == b
    decreases |a|
  {
    if a != [] {
      CodeLeAntisymmetric(a[1..], b[1..]);
      assert a == [a[0]] + a[1..] && b == [b[0]] + b[1..];
    }
  }

  predicate SortedByCode(s: seq<LanguageInfo>) {
    forall i, j :: 0 <= i < j < |s| ==> CodeLe(s[i].code, s[j].code)
  }

  /** Inserts `x` before the first entry whose code is not below it. */
  function Insert(x: LanguageInfo, s: seq<LanguageInfo>): (r: seq<LanguageInfo>)
    requires SortedByCode(s)
    ensures SortedByCode(r)
    ensures multiset(r) == multiset(s) + multiset{x}
  {
    if s == [] then [x]
    else if CodeLe(x.code, s[0].code) then
      InsertFrontSorted(x, s);
      [x] + s
    else
      var rest := Insert(x, s[1..]);
      CodeLeTotal(x.code, s[0].code);
      InsertConsSorted(x, s, rest);
      assert s == [s[0]] + s[1..];
      [s[0]] + rest
  }

  lemma InsertFrontSorted(x: LanguageInfo, s: seq<LanguageInfo>)
    requires SortedByCode(s) && s != [] && CodeLe(x.code, s[0].code)
    ensures SortedByCode([x] + s)
  {
    forall j | 0 <= j < |s| ensures CodeLe(x.code, s[j].code) {
      if j > 0 {
        CodeLeTransitive(x.code, s[0].code, s[j].code);
      }
    }
  }

  lemma InsertConsSorted(x: LanguageInfo, s: seq<LanguageInfo>, rest: seq<LanguageInfo>)
    requires SortedByCode(s) && s != [] && CodeLe(s[0].code, x.code)
    requires SortedByCode(rest) && multiset(rest) == multiset(s[1..]) + multiset{x}
    ensures SortedByCode([s[0]] + rest)
  {
    forall j | 0 <= j < |rest| ensures CodeLe(s[0].code, rest[j].code) {
      assert rest[j] in multiset(rest);
      if rest[j] != x {
        assert rest[j] in multiset(s[1..]);
        var m :| 0 <= m < |s[1..]| && s[1..][m] == rest[j];
        assert s[m + 1] == rest[j];
      }
    }
  }

  /** Sorting by code: sorted, and a permutation of the input. */
  function SortByCode(s: seq<LanguageInfo>): (r: seq<LanguageInfo>)
    ensures SortedByCode(r)
    ensures multiset(r) == multiset(s)
  {
    if s == [] then []
    else
      assert s == s[..|s| - 1] + [s[|s| - 1]];
      Insert(s[|s| - 1], SortByCode(s[..|s| - 1]))
  }

  /** `get_available_languages`: the append loop over the table, then the sort by code. */
  method GetAvailableLanguages() returns (languages: seq<LanguageInfo>)
    ensures SortedByCode(languages)
    ensures multiset(languages) == multiset(Listing(LanguageMap))
  {
    var listing := [];
    var i := 0;
    while i < |LanguageMap|
      invariant 0 <= i <= |LanguageMap|
      invariant listing == Listing(LanguageMap)[..i]
    {
      var (code, config) := LanguageMap[i];
      listing := listing + [LanguageInfo(code, config.description, config.code)];
      i := i + 1;
    }
    assert listing == Listing(LanguageMap);
    languages := SortByCode(listing);
  }

  /**
   * The listing has exactly one entry per table key, carrying that key's
   * description and code.
   */
  lemma ListedLanguages(languages: seq<LanguageInfo>)
    requires multiset(languages) == multiset(Listing(LanguageMap))
    ensures |languages| == |LanguageMap|
    ensures forall k :: 0 <= k < |LanguageMap| ==>
              LanguageInfo(LanguageMap[k].0, LanguageMap[k].1.description, LanguageMap[k].1.code) in languages
    ensures forall info :: info in languages ==>
              exists k :: 0 <= k < |LanguageMap| && info.code == LanguageMap[k].0
                          && info.name == LanguageMap[k].1.description
                          && info.langCode == LanguageMap[k].1.code
  {
    var listing := Listing(LanguageMap);
    assert |languages| == |multiset(languages)| == |multiset(listing)| == |listing|;
    forall k | 0 <= k < |LanguageMap|
      ensures LanguageInfo(LanguageMap[k].0, LanguageMap[k].1.description, LanguageMap[k].1.code) in languages
    {
      assert listing[k] in multiset(listing);
    }
    forall info | info in languages
      ensures exists k :: 0 <= k < |LanguageMap| && info.code == LanguageMap[k].0
                          && info.name == LanguageMap[k].1.description
                          && info.langCode == LanguageMap[k].1.code
    {
      assert info in multiset(languages);
      assert info in listing;
    }
  }
}
