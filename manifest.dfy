/**
 * Reading a `job_data.json` manifest: the text-mode read, `str.splitlines`,
 * `"\n".join` and the legacy-header test of build.py.
 */
module Manifest {
  import opened Wrappers

  /** The characters at which Python's `str.splitlines` ends a line. */
  predicate IsLineBreak(c: char) {
    c == '\n' || c == '\r' || c == '\U{0B}' || c == '\U{0C}' || c == '\U{1C}' ||
    c == '\U{1D}' || c == '\U{1E}' || c == '\U{85}' || c == '\U{2028}' || c == '\U{2029}'
  }

  /** A string that holds no line break: one line of a split. */
  predicate BreakFree(s: string) {
    forall k :: 0 <= k < |s| ==> !IsLineBreak(s[k])
  }

  /** Text whose only line break character is '\n'. */
  predicate NewlineBreaksOnly(s: string) {
    forall k :: 0 <= k < |s| ==> IsLineBreak(s[k]) ==> s[k] == '\n'
  }

  /** Text whose only line break is '\n' and that does not end with one. */
  predicate Normalized(s: string) {
    NewlineBreaksOnly(s) && (s == [] || s[|s| - 1] != '\n')
  }

  /** Index of the first line break of `s`, or `|s|` when there is none. */
  function LineEnd(s: string): (i: nat)
    ensures i <= |s|
    ensures BreakFree(s[..i])
    ensures i < |s| ==> IsLineBreak(s[i])
  {
    if s == [] || IsLineBreak(s[0]) then 0 else 1 + LineEnd(s[1..])
  }

  /**
   * Python's `str.splitlines()`: the lines of `s` without their breaks,
   * "\r\n" counting as one break and a final break opening no empty line.
   */
  function SplitLines(s: string): (lines: seq<string>)
    ensures forall l :: l in lines ==> BreakFree(l)
    ensures lines == [] <==> s == []
    ensures lines != [] ==> (lines[0] == [] <==> IsLineBreak(s[0]))
    ensures lines != [] && lines[0] != [] ==> lines[0][0] == s[0]
    decreases |s|
  {
    if s == [] then []
    else
      var i := LineEnd(s);
      if i == |s| then [s]
      else
        [s[..i]] + SplitLines(s[i + BreakWidth(s, i)..])
  }

  /** The length of the line break at `s[i]`: 2 for "\r\n", otherwise 1. */
  function BreakWidth(s: string, i: nat): nat
    requires i < |s|
  {
    if s[i] == '\r' && i + 1 < |s| && s[i + 1] == '\n' then 2 else 1
  }

  /** The number of characters in all the lines together. */
  function TotalLength(lines: seq<string>): nat {
    if lines == [] then 0 else |lines[0]| + TotalLength(lines[1..])
  }

  /** Python's `"\n".join(lines)`. */
  function JoinLines(lines: seq<string>): string {
    if lines == [] then []
    else if |lines| == 1 then lines[0]
    else lines[0] + "\n" + JoinLines(lines[1..])
  }

  /** The joined text holds the lines' characters plus one separator between each two of them. */
  lemma {:induction false} JoinLength(lines: seq<string>)
    requires lines != []
    ensures |JoinLines(lines)| == TotalLength(lines) + |lines| - 1
  {
    if |lines| > 1 {
      JoinLength(lines[1..]);
    }
  }

  /** Joining break-free lines puts no break other than '\n' into the text. */
  lemma {:induction false} JoinBreaks(lines: seq<string>)
    requires forall l :: l in lines ==> BreakFree(l)
    ensures NewlineBreaksOnly(JoinLines(lines))
  {
    if |lines| == 1 {
      assert lines[0] in lines;
    } else if |lines| > 1 {
      var rest := lines[1..];
      assert forall l :: l in rest ==> l in lines;
      JoinBreaks(rest);
      var first, text := lines[0], JoinLines(lines);
      assert BreakFree(first) by { assert first in lines; }
      assert text == first + "\n" + JoinLines(rest);
      forall k | 0 <= k < |text| && IsLineBreak(text[k]) ensures text[k] == '\n' {
        if k > |first| {
          assert text[k] == JoinLines(rest)[k - |first| - 1];
        }
      }
    }
  }

  /**
   * Reading a file opened with mode 'r': universal-newline translation turns
   * "\r\n" and a lone "\r" into "\n".
   */
  function UniversalNewlines(raw: string): (text: string)
    ensures forall k :: 0 <= k < |text| ==> text[k] != '\r'
    ensures |text| <= |raw|
  {
    if raw == [] then []
    else if raw[0] == '\r' then
      "\n" + UniversalNewlines(if |raw| > 1 && raw[1] == '\n' then raw[2..] else raw[1..])
    else [raw[0]] + UniversalNewlines(raw[1..])
  }

  /** Why the first-character test could not be made: both are an IndexError in Python. */
  datatype HeaderError =
    | EmptyManifest    // `lines[0]` on a file with no lines
    | EmptyFirstLine   // `lines[0][0]` on an empty first line

  /**
   * The text handed to the JSON parser: the whole file when its first line
   * starts with '{', otherwise everything after the first (header) line.
   */
  function ExtractJson(text: string): (r: Result<string, HeaderError>)
    ensures r.Ok? ==> NewlineBreaksOnly(r.value) && |r.value| <= |text|
  {
    var lines := SplitLines(text);
    if lines == [] then Err(EmptyManifest)
    else if lines[0] == [] then Err(EmptyFirstLine)
    else
      SplitJoinShorter(text);
      if lines[0][0] == '{' then JoinBreaks(lines); Ok(JoinLines(lines))
      else
        JoinDropFirst(lines);
        JoinBreaks(lines[1..]);
        Ok(JoinLines(lines[1..]))
  }

  /** Rejoining the lines of a text never makes it longer: breaks become single '\n's. */
  lemma {:induction false} SplitJoinShorter(s: string)
    ensures |JoinLines(SplitLines(s))| <= |s|
    decreases |s|
  {
    if s != [] {
      var i := LineEnd(s);
      if i < |s| {
        var next := i + BreakWidth(s, i);
        var rest := SplitLines(s[next..]);
        assert SplitLines(s) == [s[..i]] + rest;
        SplitJoinShorter(s[next..]);
        if rest != [] {
          JoinCons(s[..i], rest);
        } else {
          assert JoinLines([s[..i]]) == s[..i];
        }
      }
    }
  }

  /** Dropping the first line never makes the joined text longer. */
  lemma JoinDropFirst(lines: seq<string>)
    requires lines != []
    ensures |JoinLines(lines[1..])| <= |JoinLines(lines)|
  {
  }

  /** A break-free line followed by a break other than '\r' is split off as it is. */
  lemma SplitAfterLine(a: string, c: char, b: string)
    requires BreakFree(a) && IsLineBreak(c) && c != '\r'
    ensures SplitLines(a + ([c] + b)) == [a] + SplitLines(b)
  {
    var s := a + ([c] + b);
    LineEndOf(a, c, b);
    assert s[..|a|] == a;
    assert s[|a| + 1..] == b;
  }

  lemma {:induction false} LineEndOf(a: string, c: char, b: string)
    requires BreakFree(a) && IsLineBreak(c)
    ensures LineEnd(a + ([c] + b)) == |a|
    decreases |a|
  {
    if a != [] {
      assert (a + ([c] + b))[1..] == a[1..] + ([c] + b);
      LineEndOf(a[1..], c, b);
    }
  }

  /** A non-empty break-free string is one line. */
  lemma SplitOneLine(a: string)
    requires a != [] && BreakFree(a)
    ensures SplitLines(a) == [a]
  {
    LineEndAll(a);
  }

  lemma {:induction false} LineEndAll(a: string)
    requires BreakFree(a)
    ensures LineEnd(a) == |a|
    decreases |a|
  {
    if a != [] {
      LineEndAll(a[1..]);
    }
  }

  /** Splitting undoes joining, for break-free lines whose last line is not empty. */
  lemma {:induction false} SplitJoin(lines: seq<string>)
    requires forall l :: l in lines ==> BreakFree(l)
    requires lines == [] || lines[|lines| - 1] != []
    ensures SplitLines(JoinLines(lines)) == lines
  {
    if |lines| == 1 {
      SplitOneLine(lines[0]);
    } else if |lines| > 1 {
      var rest := lines[1..];
      assert rest[|rest| - 1] == lines[|lines| - 1];
      SplitJoin(rest);
      SplitAfterLine(lines[0], '\n', JoinLines(rest));
      assert lines[0] + "\n" + JoinLines(rest) == lines[0] + (['\n'] + JoinLines(rest));
      assert lines == [lines[0]] + rest;
    }
  }

  /** Joining undoes splitting, for text whose only break is '\n' and that has no final break. */
  lemma {:induction false} JoinSplit(s: string)
    requires Normalized(s)
    ensures JoinLines(SplitLines(s)) == s
    decreases |s|
  {
    if s != [] {
      var i := LineEnd(s);
      if i < |s| {
        var line, rest := s[..i], s[i + 1..];
        assert Normalized(rest) && SplitLines(rest) != [] && s[i] == '\n' by {
          NormalizedTail(s, i);
        }
        assert JoinLines(SplitLines(rest)) == rest by {
          JoinSplit(rest);
        }
        assert SplitLines(s) == [line] + SplitLines(rest) by {
          SplitAtBreak(s, i);
        }
        assert JoinLines([line] + SplitLines(rest)) == line + "\n" + rest by {
          JoinCons(line, SplitLines(rest));
        }
        Around(s, i);
      } else {
        assert SplitLines(s) == [s];
      }
    }
  }

  /** A string is what comes before position `i`, the character at `i`, and what follows. */
  lemma Around(s: string, i: nat)
    requires i < |s|
    ensures s == s[..i] + [s[i]] + s[i + 1..]
  {
  }

  /** Joining a line in front of non-empty lines puts a '\n' between them. */
  lemma JoinCons(line: string, lines: seq<string>)
    requires lines != []
    ensures JoinLines([line] + lines) == line + "\n" + JoinLines(lines)
  {
    assert ([line] + lines)[1..] == lines;
  }

  /** After the first '\n' of normalized text comes a non-empty normalized rest. */
  lemma NormalizedTail(s: string, i: nat)
    requires Normalized(s) && i < |s| && IsLineBreak(s[i])
    ensures s[i] == '\n' && i + 1 < |s| && Normalized(s[i + 1..])
  {
    var rest := s[i + 1..];
    forall k | 0 <= k < |rest| && IsLineBreak(rest[k]) ensures rest[k] == '\n' {
      assert rest[k] == s[i + 1 + k];
    }
    if rest != [] {
      assert rest[|rest| - 1] == s[|s| - 1];
    }
  }

  /** One step of `SplitLines`: the first line, then the lines after its break. */
  lemma SplitLinesStep(s: string, i: nat)
    requires i == LineEnd(s) && i < |s|
    ensures SplitLines(s) == [s[..i]] + SplitLines(s[i + BreakWidth(s, i)..])
  {
  }

  /** A line ended by a break other than '\r' is split off before what follows the break. */
  lemma SplitAtBreak(s: string, i: nat)
    requires i == LineEnd(s) && i < |s| && s[i] != '\r'
    ensures SplitLines(s) == [s[..i]] + SplitLines(s[i + 1..])
  {
    SplitLinesStep(s, i);
    assert BreakWidth(s, i) == 1;
  }

  /** The extraction fails exactly on an empty file or a file whose first line is empty. */
  lemma ExtractFailsExactly(text: string)
    ensures ExtractJson(text).Err? <==> text == [] || IsLineBreak(text[0])
    ensures ExtractJson(text) == Err(EmptyManifest) <==> text == []
  {
  }

  /** A header-free manifest in normal form reaches the parser unchanged. */
  lemma HeaderFreeUnchanged(text: string)
    requires text != [] && text[0] == '{' && Normalized(text)
    ensures ExtractJson(text) == Ok(text)
  {
    JoinSplit(text);
  }

  /**
   * One legacy header line that does not start with '{' is dropped: what reaches
   * the parser is the body's lines rejoined, the same as for the body alone
   * when the body's first line starts with '{'.
   */
  lemma LegacyHeaderDropped(header: string, body: string)
    requires header != [] && BreakFree(header) && header[0] != '{'
    ensures ExtractJson(header + "\n" + body) == Ok(JoinLines(SplitLines(body)))
    ensures body != [] && body[0] == '{' ==> ExtractJson(header + "\n" + body) == ExtractJson(body)
  {
    var text := header + (['\n'] + body);
    assert header + "\n" + body == text;
    SplitAfterLine(header, '\n', body);
    assert SplitLines(text)[0] == header;
  }

  /** Splitting is not affected by the text-mode newline translation. */
  lemma {:induction false} SplitIgnoresTranslation(raw: string)
    ensures SplitLines(UniversalNewlines(raw)) == SplitLines(raw)
    decreases |raw|
  {
    if raw != [] {
      var i := LineEnd(raw);
      var line, rest := raw[..i], raw[i..];
      assert raw == line + rest;
      TranslateBreakFree(line, rest);
      if i == |raw| {
        SplitOneLine(line);
      } else if raw[i] == '\r' {
        var tail := if |rest| > 1 && rest[1] == '\n' then rest[2..] else rest[1..];
        SplitIgnoresTranslation(tail);
        SplitAtCarriageReturn(raw, tail);
        assert UniversalNewlines(rest) == "\n" + UniversalNewlines(tail);
        SplitAfterLine(line, '\n', UniversalNewlines(tail));
      } else {
        var tail := raw[i + 1..];
        SplitIgnoresTranslation(tail);
        SplitAtBreak(raw, i);
        assert rest == [raw[i]] + tail;
        assert UniversalNewlines(rest) == [raw[i]] + UniversalNewlines(tail);
        SplitAfterLine(line, raw[i], UniversalNewlines(tail));
      }
    }
  }

  /** A line ended by "\r" or "\r\n" is split off before what follows the break. */
  lemma SplitAtCarriageReturn(raw: string, tail: string)
    requires LineEnd(raw) < |raw| && raw[LineEnd(raw)] == '\r'
    requires var rest := raw[LineEnd(raw)..];
      tail == if |rest| > 1 && rest[1] == '\n' then rest[2..] else rest[1..]
    ensures SplitLines(raw) == [raw[..LineEnd(raw)]] + SplitLines(tail)
  {
    var i := LineEnd(raw);
    var next := if i + 1 < |raw| && raw[i + 1] == '\n' then i + 2 else i + 1;
    assert raw[next..] == tail;
  }

  /** Translating a break-free prefix changes nothing in it. */
  lemma {:induction false} TranslateBreakFree(a: string, b: string)
    requires BreakFree(a)
    ensures UniversalNewlines(a + b) == a + UniversalNewlines(b)
    decreases |a|
  {
    if a != [] {
      assert (a + b)[0] == a[0] && a[0] != '\r';
      assert (a + b)[1..] == a[1..] + b;
      TranslateBreakFree(a[1..], b);
      calc {
        UniversalNewlines(a + b);
        [a[0]] + UniversalNewlines(a[1..] + b);
        [a[0]] + (a[1..] + UniversalNewlines(b));
        { assert a == [a[0]] + a[1..]; }
        a + UniversalNewlines(b);
      }
    } else {
      assert a + b == b;
    }
  }

  /** Reading the manifest in text mode hands the parser the same text as the raw file. */
  lemma TextModeInvisible(raw: string)
    ensures ExtractJson(UniversalNewlines(raw)) == ExtractJson(raw)
  {
    SplitIgnoresTranslation(raw);
  }
}
