/**
 * Text helpers shared by the frontend and the backend: the whitespace class,
 * Python's `str.split()` / `str.strip()`, JavaScript's `split(/(\s+)/)`
 * (which keeps the separators).
 */
module Text {

  // -------------------------------------------------------------- whitespace

  /** The whitespace characters JavaScript's `\s` and Python's `str.isspace` share. */
  predicate CommonSpace(c: char) {
    || ('\t' <= c <= '\r') || c == ' ' || c == '\U{00A0}' || c == '\U{1680}'
    || ('\U{2000}' <= c <= '\U{200A}') || c == '\U{2028}' || c == '\U{2029}'
    || c == '\U{202F}' || c == '\U{205F}' || c == '\U{3000}'
  }

  /**
   * Python's `str.isspace`, the class `split()` and `strip()` use: the shared
   * characters plus the separators U+001C to U+001F and NEXT LINE (U+0085).
   */
  predicate PySpace(c: char) {
    CommonSpace(c) || ('\U{001C}' <= c <= '\U{001F}') || c == '\U{0085}'
  }

  /** JavaScript's `\s`: the shared characters plus the byte-order mark U+FEFF. */
  predicate JsSpace(c: char) {
    CommonSpace(c) || c == '\U{FEFF}'
  }

  /** The two classes differ on exactly six characters. */
  lemma SpaceClassesDiffer(c: char)
    ensures PySpace(c) != JsSpace(c) <==> ('\U{001C}' <= c <= '\U{001F}') || c == '\U{0085}' || c == '\U{FEFF}'
  {
  }

  /** The two classes agree on every character of `s`. */
  predicate SameSpaces(s: string) {
    forall i :: 0 <= i < |s| ==> PySpace(s[i]) == JsSpace(s[i])
  }

  /** Every character is whitespace (for Python, `not s.strip()`). */
  predicate IsBlank(isSpace: char -> bool, s: string) {
    forall i :: 0 <= i < |s| ==> isSpace(s[i])
  }

  /** No character is whitespace. */
  predicate NoSpace(isSpace: char -> bool, s: string) {
    forall i :: 0 <= i < |s| ==> !isSpace(s[i])
  }

  lemma BlankAppend(isSpace: char -> bool, a: string, b: string)
    ensures IsBlank(isSpace, a + b) <==> IsBlank(isSpace, a) && IsBlank(isSpace, b)
  {
    if IsBlank(isSpace, a + b) {
      forall i | 0 <= i < |a| ensures isSpace(a[i]) {
        assert a[i] == (a + b)[i];
      }
      forall i | 0 <= i < |b| ensures isSpace(b[i]) {
        assert b[i] == (a + b)[|a| + i];
      }
    }
    if IsBlank(isSpace, a) && IsBlank(isSpace, b) {
      forall i | 0 <= i < |a + b| ensures isSpace((a + b)[i]) {
        if i < |a| {
          assert (a + b)[i] == a[i];
        } else {
          assert (a + b)[i] == b[i - |a|];
        }
      }
    }
  }

  // -------------------------------------------------------------------- runs

  /** Length of the longest prefix of `s` whose characters are all of the class of `s[0]`. */
  function RunLength(isSpace: char -> bool, s: string): (n: nat)
    requires s != []
    ensures 1 <= n <= |s|
    ensures forall i :: 0 <= i < n ==> isSpace(s[i]) == isSpace(s[0])
    ensures n < |s| ==> isSpace(s[n]) != isSpace(s[0])
    decreases |s|
  {
    if |s| == 1 || isSpace(s[1]) != isSpace(s[0]) then 1 else 1 + RunLength(isSpace, s[1..])
  }

  /** Where the two classes agree on `s`, they cut the same first run. */
  lemma {:induction false} RunLengthSame(s: string)
    requires s != [] && SameSpaces(s)
    ensures RunLength(PySpace, s) == RunLength(JsSpace, s)
    decreases |s|
  {
    if |s| > 1 {
      assert SameSpaces(s[1..]) by {
        forall i | 0 <= i < |s[1..]| ensures PySpace(s[1..][i]) == JsSpace(s[1..][i]) {
          assert s[1..][i] == s[i + 1];
        }
      }
      RunLengthSame(s[1..]);
    }
  }

  /** The concatenation of a sequence of strings. */
  function Concat(parts: seq<string>): string {
    if parts == [] then "" else parts[0] + Concat(parts[1..])
  }

  lemma {:induction false} ConcatAppend(a: seq<string>, b: seq<string>)
    ensures Concat(a + b) == Concat(a) + Concat(b)
  {
    if a == [] {
      assert a + b == b;
    } else {
      assert (a + b)[1..] == a[1..] + b;
      ConcatAppend(a[1..], b);
    }
  }

  /**
   * The maximal runs of same-class characters, in order: every run is
   * non-empty and all whitespace or free of it, the first starts `s`, and
   * neighbouring runs are of different classes. (For JavaScript these are the
   * non-empty tokens of `s.split(/(\s+)/)`.)
   */
  function Runs(isSpace: char -> bool, s: string): (r: seq<string>)
    ensures forall k :: 0 <= k < |r| ==> r[k] != [] && (IsBlank(isSpace, r[k]) || NoSpace(isSpace, r[k]))
    ensures s != [] <==> r != []
    ensures s != [] ==> r[0][0] == s[0]
    ensures forall k :: 0 <= k < |r| - 1 ==> isSpace(r[k][0]) != isSpace(r[k + 1][0])
    decreases |s|
  {
    if s == [] then []
    else
      var n := RunLength(isSpace, s);
      [s[..n]] + Runs(isSpace, s[n..])
  }

  /** The runs concatenate back to `s`. */
  lemma {:induction false} RunsConcat(isSpace: char -> bool, s: string)
    ensures Concat(Runs(isSpace, s)) == s
    decreases |s|
  {
    if s != [] {
      var n := RunLength(isSpace, s);
      RunsConcat(isSpace, s[n..]);
      assert s[..n] + s[n..] == s;
    }
  }

  /**
   * JavaScript's `s.split(/(\s+)/)`: the runs, preceded by an empty token when
   * `s` is empty or starts with whitespace, and followed by one when `s` ends
   * with whitespace.
   */
  function SplitKeepingSpaces(s: string): seq<string> {
    (if s == [] || JsSpace(s[0]) then [""] else [])
    + Runs(JsSpace, s)
    + (if s != [] && JsSpace(s[|s| - 1]) then [""] else [])
  }

  /** Splitting with the separators kept loses nothing: the tokens concatenate back to `s`. */
  lemma SplitKeepingSpacesConcat(s: string)
    ensures Concat(SplitKeepingSpaces(s)) == s
  {
    var pre: seq<string> := if s == [] || JsSpace(s[0]) then [""] else [];
    var post: seq<string> := if s != [] && JsSpace(s[|s| - 1]) then [""] else [];
    EmptyTokensConcat(pre);
    EmptyTokensConcat(post);
    RunsConcat(JsSpace, s);
    ConcatThree(pre, Runs(JsSpace, s), post);
  }

  lemma ConcatThree(a: seq<string>, b: seq<string>, c: seq<string>)
    requires Concat(a) == [] && Concat(c) == []
    ensures Concat(a + b + c) == Concat(b)
  {
    ConcatAppend(a + b, c);
    ConcatAppend(a, b);
  }

  lemma EmptyTokensConcat(parts: seq<string>)
    requires parts == [] || parts == [""]
    ensures Concat(parts) == ""
  {
    if parts != [] {
      assert parts[1..] == [];
    }
  }

  // ---------------------------------------------------- Python split / strip

  /** Python's `s.split()` with no argument. */
  function Words(s: string): (r: seq<string>)
    ensures forall k :: 0 <= k < |r| ==> r[k] != [] && NoSpace(PySpace, r[k])
    decreases |s|
  {
    if s == [] then []
    else
      var n := RunLength(PySpace, s);
      if PySpace(s[0]) then Words(s[n..]) else [s[..n]] + Words(s[n..])
  }

  /** The tokens that are not whitespace, in order. */
  function NonBlank(isSpace: char -> bool, tokens: seq<string>): seq<string> {
    if tokens == [] then []
    else (if IsBlank(isSpace, tokens[0]) then [] else [tokens[0]]) + NonBlank(isSpace, tokens[1..])
  }

  /** The words of `split()` are exactly the non-whitespace maximal runs of `s`, in order. */
  lemma {:induction false} WordsAreRuns(s: string)
    ensures Words(s) == NonBlank(PySpace, Runs(PySpace, s))
    decreases |s|
  {
    if s != [] {
      var n := RunLength(PySpace, s);
      WordsAreRuns(s[n..]);
      var r := Runs(PySpace, s);
      assert r[1..] == Runs(PySpace, s[n..]);
      assert IsBlank(PySpace, s[..n]) <==> PySpace(s[0]);
    }
  }

  /** A text has no words exactly when it is blank. */
  lemma {:induction false} WordsEmptyIffBlank(s: string)
    ensures Words(s) == [] <==> IsBlank(PySpace, s)
    decreases |s|
  {
    if s != [] {
      var n := RunLength(PySpace, s);
      WordsEmptyIffBlank(s[n..]);
      assert s == s[..n] + s[n..];
      BlankAppend(PySpace, s[..n], s[n..]);
    }
  }

  /** Number of leading whitespace characters. */
  function LeadingSpaces(s: string): (n: nat)
    ensures n <= |s| && IsBlank(PySpace, s[..n])
    ensures n < |s| ==> !PySpace(s[n])
    decreases |s|
  {
    if s == [] || !PySpace(s[0]) then 0
    else
      var m := LeadingSpaces(s[1..]);
      assert s[..m + 1] == [s[0]] + s[1..][..m];
      BlankAppend(PySpace, [s[0]], s[1..][..m]);
      m + 1
  }

  /** Number of trailing whitespace characters. */
  function TrailingSpaces(s: string): (n: nat)
    ensures n <= |s| && IsBlank(PySpace, s[|s| - n..])
    ensures n < |s| ==> !PySpace(s[|s| - n - 1])
    decreases |s|
  {
    if s == [] || !PySpace(s[|s| - 1]) then 0
    else
      var init := s[..|s| - 1];
      var m := TrailingSpaces(init);
      assert s[|s| - (m + 1)..] == init[|init| - m..] + [s[|s| - 1]];
      BlankAppend(PySpace, init[|init| - m..], [s[|s| - 1]]);
      m + 1
  }

  /**
   * Python's `s.strip()`: the slice of `s` left after removing its leading
   * and trailing whitespace.
   */
  function Strip(s: string): (r: string)
    ensures exists i, j :: 0 <= i <= j <= |s| && r == s[i..j] && IsBlank(PySpace, s[..i]) && IsBlank(PySpace, s[j..])
    ensures r == [] || (!PySpace(r[0]) && !PySpace(r[|r| - 1]))
  {
    var i := LeadingSpaces(s);
    var j := i + |s[i..]| - TrailingSpaces(s[i..]);
    StripBounds(s);
    s[i..j]
  }

  /** The slice `Strip` keeps, with the facts about its edges. */
  lemma StripBounds(s: string)
    ensures var i := LeadingSpaces(s);
            var j := i + |s[i..]| - TrailingSpaces(s[i..]);
            && i <= j <= |s|
            && IsBlank(PySpace, s[..i]) && IsBlank(PySpace, s[j..])
            && (i < j ==> !PySpace(s[i]) && !PySpace(s[j - 1]))
  {
    var i := LeadingSpaces(s);
    var t := s[i..];
    var m := TrailingSpaces(t);
    var j := i + |t| - m;
    assert s[j..] == t[|t| - m..];
    if i < j {
      assert s[j - 1] == t[|t| - m - 1];
    }
  }
}
