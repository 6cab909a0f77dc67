/**
 * Bubble's line breaking (maybeBreakLines): a greedy word wrap of the
 * bubble text against a 400-pixel line, over Java's String.split(" ").
 * Text measurement is abstract: `measure` gives the width of one string,
 * `fullExtent` the width of the whole text as drawn with line delimiters,
 * which need not be the sum of its words' widths.
 */
module LineBreaking {

  /** MAX_STRING_LENGTH, in pixels. */
  const MaxStringLength := 400

  // ---- Java's String.split(" ") ----

  /** The pieces joined back together, `sep` between each two. */
  function Join(pieces: seq<string>, sep: string): string {
    if |pieces| == 0 then ""
    else if |pieces| == 1 then pieces[0]
    else pieces[0] + sep + Join(pieces[1..], sep)
  }

  /** Every piece between two spaces, empty pieces included. */
  function SplitOnSpace(s: string): (pieces: seq<string>)
    ensures |pieces| >= 1
    ensures forall i :: 0 <= i < |pieces| ==> ' ' !in pieces[i]
    ensures forall i, c :: 0 <= i < |pieces| && c in pieces[i] ==> c in s
    ensures Join(pieces, " ") == s
  {
    if |s| == 0 then [""]
    else
      var rest := SplitOnSpace(s[1..]);
      TailChars(s);
      if s[0] == ' ' then
        [""] + rest
      else
        var r := [[s[0]] + rest[0]] + rest[1..];
        assert r[1..] == rest[1..];
        assert Join(r, " ") == [s[0]] + Join(rest, " ");
        assert forall i :: 1 <= i < |r| ==> r[i] == rest[i];
        r
  }

  lemma TailChars(s: string)
    requires |s| > 0
    ensures forall c :: c in s[1..] ==> c in s
  {
    forall c | c in s[1..] ensures c in s {
      var k :| 0 <= k < |s[1..]| && s[1..][k] == c;
      assert s[k + 1] == c;
    }
  }

  /** The pieces with every trailing empty piece removed. */
  function DropTrailingEmpty(pieces: seq<string>): (r: seq<string>)
    ensures |r| <= |pieces| && r == pieces[..|r|]
    ensures r == [] || r[|r| - 1] != ""
    ensures forall k :: |r| <= k < |pieces| ==> pieces[k] == ""
  {
    if |pieces| > 0 && pieces[|pieces| - 1] == "" then DropTrailingEmpty(pieces[..|pieces| - 1])
    else pieces
  }

  /** String.split(" ") with no limit: a text without a space is its own
      single piece; otherwise the pieces between spaces, trailing empty
      pieces dropped. */
  function JavaSplitSpace(s: string): seq<string> {
    if ' ' !in s then [s] else DropTrailingEmpty(SplitOnSpace(s))
  }

  /** What split(" ") promises: no word holds a space or a character the
      text lacks, and only a text without spaces can end in an empty word. */
  lemma JavaSplitSpaceWords(s: string)
    ensures var words := JavaSplitSpace(s);
            && (' ' !in s ==> words == [s])
            && (' ' in s ==> words == [] || words[|words| - 1] != "")
            && (forall i :: 0 <= i < |words| ==> ' ' !in words[i])
            && (forall i, c :: 0 <= i < |words| && c in words[i] ==> c in s)
  {
  }

  // ---- The wrap ----

  /** Every word followed by one space: the wrapped text without its line breaks. */
  function Spaced(words: seq<string>): string {
    if words == [] then "" else words[0] + " " + Spaced(words[1..])
  }

  function WithoutNewlines(s: string): string {
    if s == [] then [] else (if s[0] == '\n' then [] else [s[0]]) + WithoutNewlines(s[1..])
  }

  /** What the loop of maybeBreakLines appends for `words` when it reaches
      them with `current` pixels already on the line. */
  function Layout(words: seq<string>, measure: string -> int, space: int, current: int): string
    decreases |words|
  {
    if words == [] then ""
    else
      var width := measure(words[0]);
      if current + width + space < MaxStringLength then
        words[0] + " " + Layout(words[1..], measure, space, current + width + space)
      else
        "\n" + words[0] + " " + Layout(words[1..], measure, space, width + space)
  }

  /** The text maybeBreakLines returns: unchanged unless it is wider than
      MaxStringLength and has no line break of its own. */
  function BrokenLines(raw: string, measure: string -> int, fullExtent: string -> int): string {
    if fullExtent(raw) > MaxStringLength && '\n' !in raw then
      Layout(JavaSplitSpace(raw), measure, measure(" "), 0)
    else
      raw
  }

  method MaybeBreakLines(raw: string, measure: string -> int, fullExtent: string -> int)
    returns (r: string)
    ensures r == BrokenLines(raw, measure, fullExtent)
    ensures fullExtent(raw) <= MaxStringLength || '\n' in raw ==> r == raw
  {
    if fullExtent(raw) > MaxStringLength && '\n' !in raw {
      var words := JavaSplitSpace(raw);
      var spaceInPixels := measure(" ");
      r := BreakWords(words, measure, spaceInPixels);
    } else {
      r := raw;
    }
  }

  /** The loop of maybeBreakLines over the words of the text, appending to
      a StringBuilder and keeping the pixels on the current line. */
  method BreakWords(words: seq<string>, measure: string -> int, spaceInPixels: int)
    returns (r: string)
    ensures r == Layout(words, measure, spaceInPixels, 0)
  {
    var sb := "";
    var currentPixelCount := 0;
    assert words[0..] == words;
    for i := 0 to |words|
      invariant sb + Layout(words[i..], measure, spaceInPixels, currentPixelCount)
             == Layout(words, measure, spaceInPixels, 0)
    {
      var word := words[i];
      var wordPixelWidth := measure(word);
      LayoutStep(words, measure, spaceInPixels, currentPixelCount, i);
      if currentPixelCount + wordPixelWidth + spaceInPixels < MaxStringLength {
        sb := sb + word + " ";
        currentPixelCount := currentPixelCount + wordPixelWidth + spaceInPixels;
      } else {
        sb := sb + "\n" + word + " ";
        currentPixelCount := wordPixelWidth + spaceInPixels;
      }
    }
    assert words[|words|..] == [];
    r := sb;
  }

  /** One turn of the loop of maybeBreakLines: what it appends for word i. */
  lemma LayoutStep(words: seq<string>, measure: string -> int, space: int, current: int, i: nat)
    requires i < |words|
    ensures var width := measure(words[i]);
            Layout(words[i..], measure, space, current)
            == if current + width + space < MaxStringLength
               then words[i] + " " + Layout(words[i + 1..], measure, space, current + width + space)
               else "\n" + words[i] + " " + Layout(words[i + 1..], measure, space, width + space)
  {
    assert words[i..][0] == words[i];
    assert words[i..][1..] == words[i + 1..];
  }

  // ---- Where the line breaks go ----

  /** currentPixelCount when the loop reaches word i. */
  function PixelCountBefore(words: seq<string>, measure: string -> int, space: int, i: nat): int
    requires i <= |words|
  {
    if i == 0 then 0
    else
      var current := PixelCountBefore(words, measure, space, i - 1);
      var width := measure(words[i - 1]) + space;
      if current + width < MaxStringLength then current + width else width
  }

  /** A line break goes in front of word i. */
  predicate BreaksBefore(words: seq<string>, measure: string -> int, space: int, i: nat)
    requires i < |words|
  {
    PixelCountBefore(words, measure, space, i) + measure(words[i]) + space >= MaxStringLength
  }

  /** Word by word from `from`: a line break exactly in front of the words
      that break, then the word, then one space. */
  function Assembled(words: seq<string>, measure: string -> int, space: int, from: nat): string
    requires from <= |words|
    decreases |words| - from
  {
    if from == |words| then ""
    else
      (if BreaksBefore(words, measure, space, from) then "\n" else "") + words[from] + " " +
      Assembled(words, measure, space, from + 1)
  }

  lemma {:induction false} LayoutFrom(words: seq<string>, measure: string -> int, space: int, from: nat)
    requires from <= |words|
    ensures Layout(words[from..], measure, space, PixelCountBefore(words, measure, space, from))
         == Assembled(words, measure, space, from)
    decreases |words| - from
  {
    if from < |words| {
      var current := PixelCountBefore(words, measure, space, from);
      var next := PixelCountBefore(words, measure, space, from + 1);
      var width := measure(words[from]);
      LayoutStep(words, measure, space, current, from);
      assert next == if current + width + space < MaxStringLength then current + width + space
                     else width + space;
      LayoutFrom(words, measure, space, from + 1);
      assert Layout(words[from..], measure, space, current)
          == (if BreaksBefore(words, measure, space, from) then "\n" else "") + words[from] + " "
             + Layout(words[from + 1..], measure, space, next);
    }
  }

  /** The wrapped text is the words in order, each followed by one space,
      with a line break in front of exactly the words that break: words are
      never split. */
  lemma LayoutIsAssembled(words: seq<string>, measure: string -> int, space: int)
    ensures Layout(words, measure, space, 0) == Assembled(words, measure, space, 0)
  {
    LayoutFrom(words, measure, space, 0);
    assert words[0..] == words;
  }

  /** The first word of the line word i is on (one that starts a line
      starts its own). */
  function LineStart(words: seq<string>, measure: string -> int, space: int, i: nat): (j: nat)
    requires i <= |words|
    ensures j <= i
  {
    if i == 0 then 0
    else if BreaksBefore(words, measure, space, i - 1) then i - 1
    else LineStart(words, measure, space, i - 1)
  }

  /** The pixels a line holding `line` takes: each word and a space. */
  function LineWidth(line: seq<string>, measure: string -> int, space: int): int {
    if line == [] then 0
    else LineWidth(line[..|line| - 1], measure, space) + measure(line[|line| - 1]) + space
  }

  /** currentPixelCount is the width of the words the current line already holds. */
  lemma {:induction false} PixelCountIsLineWidth(words: seq<string>, measure: string -> int, space: int, i: nat)
    requires i <= |words|
    ensures PixelCountBefore(words, measure, space, i)
         == LineWidth(words[LineStart(words, measure, space, i)..i], measure, space)
  {
    if i > 0 {
      var start := LineStart(words, measure, space, i);
      var line := words[start..i];
      assert line[..|line| - 1] == words[start..i - 1];
      if BreaksBefore(words, measure, space, i - 1) {
        assert line[..|line| - 1] == [];
      } else {
        PixelCountIsLineWidth(words, measure, space, i - 1);
      }
    }
  }

  /** Greedy wrapping: a word starts a new line exactly when adding it (and
      its space) to the current line would reach MaxStringLength, the first
      word included; and a word added to a line leaves that line narrower
      than MaxStringLength. */
  lemma BreakExactlyWhenLineFull(words: seq<string>, measure: string -> int, space: int, i: nat)
    requires i < |words|
    ensures var line := words[LineStart(words, measure, space, i)..i];
            BreaksBefore(words, measure, space, i)
            <==> LineWidth(line, measure, space) + measure(words[i]) + space >= MaxStringLength
    ensures i == 0 ==> (BreaksBefore(words, measure, space, 0)
                        <==> measure(words[0]) + space >= MaxStringLength)
    ensures !BreaksBefore(words, measure, space, i) ==>
            LineStart(words, measure, space, i + 1) == LineStart(words, measure, space, i) &&
            LineWidth(words[LineStart(words, measure, space, i + 1)..i + 1], measure, space) < MaxStringLength
  {
    PixelCountIsLineWidth(words, measure, space, i);
    PixelCountIsLineWidth(words, measure, space, i + 1);
  }

  /** The wrapped text starts with a line break exactly when its first word
      alone (with its space) reaches MaxStringLength. */
  lemma FirstWordBreaksWhenAloneTooWide(words: seq<string>, measure: string -> int, space: int)
    requires |words| > 0 && '\n' !in words[0]
    ensures |Layout(words, measure, space, 0)| > 0
    ensures Layout(words, measure, space, 0)[0] == '\n' <==> measure(words[0]) + space >= MaxStringLength
  {
    if |words[0]| > 0 {
      assert words[0][0] in words[0];
    }
  }

  // ---- Nothing but line breaks is added ----

  lemma {:induction false} WithoutNewlinesAppend(a: string, b: string)
    ensures WithoutNewlines(a + b) == WithoutNewlines(a) + WithoutNewlines(b)
  {
    if a == [] {
      assert a + b == b;
    } else {
      assert (a + b)[0] == a[0];
      assert (a + b)[1..] == a[1..] + b;
      WithoutNewlinesAppend(a[1..], b);
    }
  }

  lemma {:induction false} WithoutNewlinesIdentity(s: string)
    requires '\n' !in s
    ensures WithoutNewlines(s) == s
  {
    if s != [] {
      TailChars(s);
      WithoutNewlinesIdentity(s[1..]);
    }
  }

  /** Deleting every line break from the wrapped text gives each word
      followed by one space. */
  lemma {:induction false} LayoutWithoutNewlines(words: seq<string>, measure: string -> int, space: int,
                                                 current: int)
    requires forall i :: 0 <= i < |words| ==> '\n' !in words[i]
    ensures WithoutNewlines(Layout(words, measure, space, current)) == Spaced(words)
    decreases |words|
  {
    if words != [] {
      var width := measure(words[0]);
      var breaks := current + width + space >= MaxStringLength;
      var next := if breaks then width + space else current + width + space;
      var head := (if breaks then "\n" else "") + words[0] + " ";
      var rest := Layout(words[1..], measure, space, next);
      assert Layout(words, measure, space, current) == head + rest;
      LayoutWithoutNewlines(words[1..], measure, space, next);
      WordWithoutNewlines(words[0], breaks);
      WithoutNewlinesAppend(head, rest);
    }
  }

  /** What the loop emits for one word loses only its line break. */
  lemma WordWithoutNewlines(word: string, breaks: bool)
    requires '\n' !in word
    ensures WithoutNewlines((if breaks then "\n" else "") + word + " ") == word + " "
  {
    WithoutNewlinesIdentity(word + " ");
    if breaks {
      WithoutNewlinesAppend("\n", word + " ");
      assert "\n" + word + " " == "\n" + (word + " ");
    } else {
      assert "" + word + " " == word + " ";
    }
  }

  // ---- Wrapping its own output changes nothing ----

  lemma {:induction false} SplitAfterWord(a: string, b: string)
    requires ' ' !in a
    ensures SplitOnSpace(a + " " + b) == [a] + SplitOnSpace(b)
    decreases |a|
  {
    if a == [] {
      assert a + " " + b == [' '] + b;
      assert (a + " " + b)[1..] == b;
    } else {
      assert (a + " " + b)[1..] == a[1..] + " " + b;
      TailChars(a);
      SplitAfterWord(a[1..], b);
      assert [a[0]] + a[1..] == a;
    }
  }

  lemma {:induction false} SplitSpaced(words: seq<string>)
    requires forall i :: 0 <= i < |words| ==> ' ' !in words[i]
    ensures SplitOnSpace(Spaced(words)) == words + [""]
  {
    if words != [] {
      SplitSpaced(words[1..]);
      SplitAfterWord(words[0], Spaced(words[1..]));
      assert words == [words[0]] + words[1..];
    }
  }

  /** The words of an already wrapped text without line breaks are the
      words it was made from. */
  lemma SplitOfSpacedWords(words: seq<string>)
    requires |words| > 0 && words[|words| - 1] != ""
    requires forall i :: 0 <= i < |words| ==> ' ' !in words[i]
    ensures JavaSplitSpace(Spaced(words)) == words
  {
    SplitSpaced(words);
    var pieces := words + [""];
    assert Spaced(words) == words[0] + " " + Spaced(words[1..]);
    assert ' ' in Spaced(words) by {
      assert Spaced(words)[|words[0]|] == ' ';
    }
    assert pieces[..|pieces| - 1] == words;
  }

  /** maybeBreakLines applied to its own result changes nothing, provided
      the empty text is not wider than MaxStringLength. */
  lemma BrokenLinesIdempotent(raw: string, measure: string -> int, fullExtent: string -> int)
    requires fullExtent("") <= MaxStringLength
    ensures BrokenLines(BrokenLines(raw, measure, fullExtent), measure, fullExtent)
         == BrokenLines(raw, measure, fullExtent)
  {
    var once := BrokenLines(raw, measure, fullExtent);
    if fullExtent(raw) > MaxStringLength && '\n' !in raw && '\n' !in once {
      var words := JavaSplitSpace(raw);
      var space := measure(" ");
      JavaSplitSpaceWords(raw);
      assert forall i :: 0 <= i < |words| ==> '\n' !in words[i];
      LayoutWithoutNewlines(words, measure, space, 0);
      WithoutNewlinesIdentity(once);
      assert once == Spaced(words);
      if fullExtent(once) > MaxStringLength {
        assert words != [];
        assert words[|words| - 1] != "";
        SplitOfSpacedWords(words);
      }
    }
  }
}
