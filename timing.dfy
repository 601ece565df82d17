/**
 * The word-timing table and the lookup that maps a playback position onto it.
 *
 * A table row is `{word, start_ms, end_ms, duration_ms}`. Nothing in the
 * frontend validates a table; the lookup is a linear scan that takes the
 * FIRST row whose half-open interval `[start_ms, end_ms)` contains the
 * position, and -1 stands for "no row".
 */
module Timing {

  datatype WordTiming = WordTiming(word: string, startMs: real, endMs: real, durationMs: real)

  /** The half-open interval of `w` contains `ms`. */
  predicate Covers(w: WordTiming, ms: real) {
    w.startMs <= ms < w.endMs
  }

  /** Index of the first row covering `ms`, or -1 when no row does. */
  function FirstCovering(table: seq<WordTiming>, ms: real): (r: int)
    ensures -1 <= r < |table|
    ensures r >= 0 ==> Covers(table[r], ms)
    ensures r >= 0 ==> forall j :: 0 <= j < r ==> !Covers(table[j], ms)
    ensures r == -1 ==> forall j :: 0 <= j < |table| ==> !Covers(table[j], ms)
  {
    if table == [] then -1
    else if Covers(table[0], ms) then 0
    else
      var rest := FirstCovering(table[1..], ms);
      if rest == -1 then -1 else rest + 1
  }

  /**
   * The per-frame scan: walk the table from the front and stop at the first
   * row that covers `ms`.
   */
  method FindCurrentWord(table: seq<WordTiming>, ms: real) returns (found: int)
    ensures found == FirstCovering(table, ms)
  {
    found := -1;
    var i := 0;
    while i < |table|
      invariant 0 <= i <= |table|
      invariant forall j :: 0 <= j < i ==> !Covers(table[j], ms)
    {
      if ms >= table[i].startMs && ms < table[i].endMs {
        found := i;
        break;
      }
      i := i + 1;
    }
  }

  /**
   * The cursor after looking up `ms`: the covering row if there is one,
   * otherwise the cursor is left as it was.
   */
  function NextCursor(table: seq<WordTiming>, ms: real, cursor: int): (r: int)
    ensures r == cursor || (0 <= r < |table| && Covers(table[r], ms))
    ensures (exists j :: 0 <= j < |table| && Covers(table[j], ms)) ==> r == FirstCovering(table, ms)
    ensures (forall j :: 0 <= j < |table| ==> !Covers(table[j], ms)) ==> r == cursor
  {
    var k := FirstCovering(table, ms);
    if k >= 0 then k else cursor
  }

  // ----------------------------------------------------- well-formed tables

  /** Every interval is non-empty. */
  predicate NonEmptyIntervals(table: seq<WordTiming>) {
    forall i :: 0 <= i < |table| ==> table[i].startMs < table[i].endMs
  }

  /** Rows are in time order and do not overlap (gaps are allowed). */
  predicate Ordered(table: seq<WordTiming>) {
    forall i, j :: 0 <= i < j < |table| ==> table[i].endMs <= table[j].startMs
  }

  predicate WellFormed(table: seq<WordTiming>) {
    NonEmptyIntervals(table) && Ordered(table)
  }

  /** In an ordered table the lookup finds THE row covering `ms`, whichever it is. */
  lemma LookupFindsCoveringRow(table: seq<WordTiming>, ms: real, k: nat)
    requires Ordered(table)
    requires k < |table| && Covers(table[k], ms)
    ensures FirstCovering(table, ms) == k
  {
  }

  /** Half-open semantics: a row's start resolves to that row. */
  lemma LookupAtStart(table: seq<WordTiming>, k: nat)
    requires WellFormed(table) && k < |table|
    ensures FirstCovering(table, table[k].startMs) == k
  {
    LookupFindsCoveringRow(table, table[k].startMs, k);
  }

  /**
   * Half-open semantics: a row's end belongs to the next row when that row
   * starts right there, and to no row otherwise.
   */
  lemma LookupAtEnd(table: seq<WordTiming>, k: nat)
    requires WellFormed(table) && k < |table|
    ensures FirstCovering(table, table[k].endMs) ==
            if k + 1 < |table| && table[k + 1].startMs == table[k].endMs then k + 1 else -1
  {
    var e := table[k].endMs;
    if k + 1 < |table| && table[k + 1].startMs == e {
      LookupFindsCoveringRow(table, e, k + 1);
    } else {
      forall j | 0 <= j < |table| ensures !Covers(table[j], e) {
        if j > k + 1 {
          assert table[k + 1].startMs < table[k + 1].endMs <= table[j].startMs;
          assert table[k].endMs <= table[k + 1].startMs;
        }
      }
    }
  }

  /** Under increasing position the highlighted index never moves backwards. */
  lemma LookupMonotonic(table: seq<WordTiming>, ms1: real, ms2: real)
    requires Ordered(table)
    requires ms1 <= ms2
    requires FirstCovering(table, ms1) >= 0 && FirstCovering(table, ms2) >= 0
    ensures FirstCovering(table, ms1) <= FirstCovering(table, ms2)
  {
  }

  /** The worked example: a gap between two words resolves to no word. */
  lemma LookupExample()
    ensures var t := [WordTiming("Hi", 0.0, 500.0, 500.0), WordTiming("there", 600.0, 1000.0, 400.0)];
            && FirstCovering(t, 550.0) == -1
            && FirstCovering(t, 0.0) == 0
            && FirstCovering(t, 600.0) == 1
            && FirstCovering(t, 1000.0) == -1
  {
  }
}
