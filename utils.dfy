/**
 * `IndentText` from the utilities package: every newline of a text is
 * followed by an indent, so that a multi-line text can be nested inside
 * indented output. It is one call of Go's `strings.ReplaceAll`, modelled
 * here on strings of characters (one byte per character).
 */
module Utils {

  /**
   * Go's `strings.ReplaceAll`: the non-overlapping occurrences of `pattern`,
   * found left to right, are replaced by `replacement`. An empty pattern
   * matches at the start and after every character.
   */
  function ReplaceAll(s: string, pattern: string, replacement: string): string
    decreases |s|
  {
    if pattern == [] then
      if s == [] then replacement else replacement + [s[0]] + ReplaceAll(s[1..], pattern, replacement)
    else if |s| < |pattern| then s
    else if s[..|pattern|] == pattern then replacement + ReplaceAll(s[|pattern|..], pattern, replacement)
    else [s[0]] + ReplaceAll(s[1..], pattern, replacement)
  }

  function IndentText(text: string, indent: string): string {
    ReplaceAll(text, "\n", "\n" + indent)
  }

  /** What one input character becomes in the output. */
  function Expand(c: char, indent: string): string {
    if c == '\n' then "\n" + indent else [c]
  }

  function CountNewlines(s: string): nat {
    if s == [] then 0 else (if s[0] == '\n' then 1 else 0) + CountNewlines(s[1..])
  }

  /** Removes the `indent` that directly follows each newline. */
  function Unindent(s: string, indent: string): string
    decreases |s|
  {
    if s == [] then []
    else if s[0] == '\n' && indent <= s[1..] then "\n" + Unindent(s[1 + |indent|..], indent)
    else [s[0]] + Unindent(s[1..], indent)
  }

  /** With an empty pattern every gap between characters receives `replacement`. */
  lemma {:induction false} ReplaceEmptyPatternLength(s: string, replacement: string)
    ensures |ReplaceAll(s, [], replacement)| == |s| + (|s| + 1) * |replacement|
  {
    if s != [] {
      ReplaceEmptyPatternLength(s[1..], replacement);
    }
  }

  /** A one-character pattern is replaced character by character. */
  lemma IndentCons(c: char, t: string, indent: string)
    ensures IndentText([c] + t, indent) == Expand(c, indent) + IndentText(t, indent)
  {
    var s := [c] + t;
    assert s[..1] == [c] && s[1..] == t;
  }

  /** A text without a newline is returned unchanged. */
  lemma {:induction false} IndentNoNewline(text: string, indent: string)
    requires '\n' !in text
    ensures IndentText(text, indent) == text
  {
    if text != [] {
      assert text == [text[0]] + text[1..];
      IndentCons(text[0], text[1..], indent);
      IndentNoNewline(text[1..], indent);
    }
  }

  /** An empty indent changes nothing. */
  lemma {:induction false} IndentEmpty(text: string)
    ensures IndentText(text, "") == text
  {
    if text != [] {
      assert text == [text[0]] + text[1..];
      IndentCons(text[0], text[1..], "");
      IndentEmpty(text[1..]);
    }
  }

  /** Each newline grows the text by the length of the indent, and nothing else does. */
  lemma {:induction false} IndentLength(text: string, indent: string)
    ensures |IndentText(text, indent)| == |text| + CountNewlines(text) * |indent|
  {
    if text != [] {
      assert text == [text[0]] + text[1..];
      IndentCons(text[0], text[1..], indent);
      IndentLength(text[1..], indent);
    }
  }

  /** Indenting distributes over concatenation, since the pattern is one character. */
  lemma {:induction false} IndentAppend(a: string, b: string, indent: string)
    ensures IndentText(a + b, indent) == IndentText(a, indent) + IndentText(b, indent)
  {
    if a == [] {
      assert a + b == b;
    } else {
      assert a == [a[0]] + a[1..];
      assert a + b == [a[0]] + (a[1..] + b);
      IndentCons(a[0], a[1..] + b, indent);
      IndentCons(a[0], a[1..], indent);
      IndentAppend(a[1..], b, indent);
    }
  }

  /**
   * Character `k` of the text lands at offset `k` plus the indents inserted
   * before it, so nothing is put in front of the first line and the characters
   * keep their order; a newline is directly followed by the indent.
   */
  lemma IndentPositions(text: string, indent: string, k: nat)
    requires k < |text|
    ensures k + CountNewlines(text[..k]) * |indent| < |IndentText(text, indent)|
    ensures IndentText(text, indent)[k + CountNewlines(text[..k]) * |indent|] == text[k]
    ensures text[k] == '\n' ==>
      var p := k + CountNewlines(text[..k]) * |indent|;
      p + |indent| < |IndentText(text, indent)| &&
      IndentText(text, indent)[p + 1..p + 1 + |indent|] == indent
  {
    var before, rest := text[..k], text[k + 1..];
    assert text == before + ([text[k]] + rest);
    IndentAppend(before, [text[k]] + rest, indent);
    IndentLength(before, indent);
    IndentCons(text[k], rest, indent);
  }

  /** Round trip: removing the indent after each newline gives back the text. */
  lemma {:induction false} UnindentIndent(text: string, indent: string)
    ensures Unindent(IndentText(text, indent), indent) == text
  {
    if text != [] {
      var rest := IndentText(text[1..], indent);
      assert text == [text[0]] + text[1..];
      IndentCons(text[0], text[1..], indent);
      UnindentIndent(text[1..], indent);
      var out := Expand(text[0], indent) + rest;
      if text[0] == '\n' {
        assert out[1..] == indent + rest;
        assert out[1 + |indent|..] == rest;
      } else {
        assert out[1..] == rest;
      }
    }
  }
}
