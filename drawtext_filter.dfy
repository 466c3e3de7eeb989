/** The compiler from the committed subtitle list to FFmpeg's `-vf` argument,
    as `transcode` builds it (src/components/VideoEditor.tsx:137-139, 159-194):
    one `drawtext` filter per subtitle, joined into a filter chain with `,`.

    How JavaScript renders a number inside a template literal is not modelled:
    every function that prints a number takes that rendering as a parameter
    `num`, about which nothing is assumed. */
module DrawtextFilter {
  import opened JsLib
  import opened SubtitleForm

  // ---------------------------------------------------------------------------
  // escapeText
  // ---------------------------------------------------------------------------

  /** `escapeText`: first every `'` becomes `\'`, then every `:` becomes `\:`. */
  function EscapeText(text: string): string {
    ReplaceAll(ReplaceAll(text, '\'', "\\'"), ':', "\\:")
  }

  /** The escape of a single character. */
  function EscapeChar(c: char): string {
    if c == '\'' then "\\'" else if c == ':' then "\\:" else [c]
  }

  /** Reference definition: escaping character by character. */
  function EscapeEach(text: string): string {
    if text == [] then [] else EscapeChar(text[0]) + EscapeEach(text[1..])
  }

  /** The two chained replacements act as one per-character map: the second
      never touches the backslashes or quotes the first inserted. */
  lemma {:induction false} EscapeTextIsPerCharacter(text: string)
    ensures EscapeText(text) == EscapeEach(text)
  {
    if text != [] {
      var c, rest := text[0], text[1..];
      assert text == [c] + rest;
      ReplaceAllAppend([c], rest, '\'', "\\'");
      var first := if c == '\'' then "\\'" else [c];
      assert ReplaceAll([c], '\'', "\\'") == first;
      ReplaceAllAppend(first, ReplaceAll(rest, '\'', "\\'"), ':', "\\:");
      assert ReplaceAll(first, ':', "\\:") == EscapeChar(c);
      EscapeTextIsPerCharacter(rest);
    }
  }

  /** Escaping adds exactly one backslash per `'` and per `:`. */
  lemma {:induction false} EscapeTextLength(text: string)
    ensures |EscapeText(text)| == |text| + multiset(text)['\''] + multiset(text)[':']
  {
    EscapeTextIsPerCharacter(text);
    EscapeEachLength(text);
  }

  lemma {:induction false} EscapeEachLength(text: string)
    ensures |EscapeEach(text)| == |text| + multiset(text)['\''] + multiset(text)[':']
  {
    if text != [] {
      assert text == [text[0]] + text[1..];
      assert multiset(text) == multiset([text[0]]) + multiset(text[1..]);
      EscapeEachLength(text[1..]);
    }
  }

  /** An escaped text never starts with a bare `'` or `:`. */
  lemma EscapeEachHead(text: string)
    ensures EscapeEach(text) == [] || (EscapeEach(text)[0] != '\'' && EscapeEach(text)[0] != ':')
  {
  }

  /** In the escaped text every `'` and every `:` is preceded by a backslash.
      Backslashes themselves are not escaped, so this alone does not keep the
      text inside its quotes: see `TrailingBackslashBeforeClosingQuote`. */
  lemma {:induction false} EscapedDelimiters(text: string)
    ensures forall k :: 0 <= k < |EscapeText(text)| && EscapeText(text)[k] in {'\'', ':'} ==>
              k > 0 && EscapeText(text)[k - 1] == '\\'
  {
    EscapeTextIsPerCharacter(text);
    EscapeEachDelimiters(text);
  }

  lemma {:induction false} EscapeEachDelimiters(text: string)
    ensures forall k :: 0 <= k < |EscapeEach(text)| && EscapeEach(text)[k] in {'\'', ':'} ==>
              k > 0 && EscapeEach(text)[k - 1] == '\\'
  {
    if text != [] {
      var head, tail := EscapeChar(text[0]), EscapeEach(text[1..]);
      var e := EscapeEach(text);
      assert e == head + tail;
      EscapeEachDelimiters(text[1..]);
      EscapeEachHead(text[1..]);
      forall k | 0 <= k < |e| && e[k] in {'\'', ':'}
        ensures k > 0 && e[k - 1] == '\\'
      {
        if k >= |head| {
          assert e[k] == tail[k - |head|];
        }
      }
    }
  }

  /** Escaping works character by character over a concatenation. */
  lemma {:induction false} EscapeEachAppend(t: string, u: string)
    ensures EscapeEach(t + u) == EscapeEach(t) + EscapeEach(u)
  {
    if t != [] {
      assert (t + u)[1..] == t[1..] + u;
      EscapeEachAppend(t[1..], u);
    } else {
      assert t + u == u;
    }
  }

  /** Reading an escaped text back: `\'` and `\:` stand for `'` and `:`, any
      other character for itself. */
  function Unescape(t: string): string
    decreases |t|
  {
    if t == [] then []
    else if |t| >= 2 && t[0] == '\\' && (t[1] == '\'' || t[1] == ':') then [t[1]] + Unescape(t[2..])
    else [t[0]] + Unescape(t[1..])
  }

  /** Escaping loses nothing: the original text can be read back. */
  lemma {:induction false} UnescapeEscapeText(text: string)
    ensures Unescape(EscapeText(text)) == text
  {
    EscapeTextIsPerCharacter(text);
    UnescapeEscapeEach(text);
  }

  lemma {:induction false} UnescapeEscapeEach(text: string)
    ensures Unescape(EscapeEach(text)) == text
  {
    if text != [] {
      var c, tail := text[0], EscapeEach(text[1..]);
      UnescapeEscapeEach(text[1..]);
      EscapeEachHead(text[1..]);
      var e := EscapeChar(c) + tail;
      assert EscapeEach(text) == e;
      if c == '\'' || c == ':' {
        assert e[2..] == tail;
      } else {
        assert e[1..] == tail;
      }
      assert text == [c] + text[1..];
    }
  }

  // ---------------------------------------------------------------------------
  // The pieces of one drawtext clause
  // ---------------------------------------------------------------------------

  /** The font file staged next to the input video. */
  const FontFile := "CookieRunRegular.ttf"

  /** Horizontal placement: always centred. */
  const CenteredX := "(w-text_w)/2"

  /** The semi-transparent background box closing every clause. */
  const BoxOptions := ":box=1:boxcolor=black@0.5:boxborderw=5"

  /** Everything before the escaped text: the filter name, the font file and
      the opening quote of the text value. */
  const ClauseHead := "drawtext=" + "fontfile=" + FontFile + ":text='"

  /** The vertical placement expression of a position. */
  function YExpr(position: Position): string {
    if position == Top then "text_h"
    else if position == Bottom then "h-text_h"
    else "(h-text_h)/2"
  }

  /** FFmpeg's reading of the three y expressions: in a `drawtext` expression
      `h` is the frame height and `text_h` the height of the rendered text,
      and `y` is the row of the text's top edge. Any other string is not one
      of the three and has no value here. */
  function EvalY(e: string, h: real, textH: real): Option<real> {
    if e == "text_h" then Some(textH)
    else if e == "h-text_h" then Some(h - textH)
    else if e == "(h-text_h)/2" then Some((h - textH) / 2.0)
    else None
  }

  /** Top text sits one text height below the frame's top edge, bottom text
      touches the bottom edge, middle text is vertically centred; for a frame
      more than three text heights tall they come in that order. */
  lemma YExprPlacement(h: real, textH: real)
    ensures EvalY(YExpr(Top), h, textH) == Some(textH)
    ensures EvalY(YExpr(Bottom), h, textH) == Some(h - textH)
    ensures EvalY(YExpr(Middle), h, textH).Some?
    ensures EvalY(YExpr(Middle), h, textH).value + textH / 2.0 == h / 2.0
    ensures 0.0 < textH && 3.0 * textH < h ==>
              EvalY(YExpr(Top), h, textH).value < EvalY(YExpr(Middle), h, textH).value
              < EvalY(YExpr(Bottom), h, textH).value
  {
  }

  /** The colour token: `fontColor.replace("#", "0x")`, a plain-string
      pattern, so only the first `#` is replaced. */
  function ColorToken(fontColor: string): (r: string)
    ensures '#' !in fontColor ==> r == fontColor
    ensures '#' in fontColor ==> |r| == |fontColor| + 1 && r[..IndexOf(fontColor, '#')] == fontColor[..IndexOf(fontColor, '#')]
  {
    ReplaceFirst(fontColor, '#', "0x")
  }

  /** A `#RRGGBB` colour becomes `0xRRGGBB`; any other `#` stays. */
  lemma {:induction false} ColorTokenReplacesFirstHash(fontColor: string)
    ensures |fontColor| > 0 && fontColor[0] == '#' ==> ColorToken(fontColor) == "0x" + fontColor[1..]
    ensures '#' !in fontColor ==> ColorToken(fontColor) == fontColor
    ensures '#' in fontColor ==> multiset(ColorToken(fontColor))['#'] == multiset(fontColor)['#'] - 1
  {
    if '#' in fontColor {
      var k := IndexOf(fontColor, '#');
      var before, after := fontColor[..k], fontColor[k + 1..];
      assert fontColor == before + [fontColor[k]] + after;
      assert multiset(fontColor) == multiset(before) + multiset(['#']) + multiset(after);
      assert multiset(ColorToken(fontColor)) == multiset(before) + multiset("0x") + multiset(after);
    }
  }

  lemma GreenColorToken()
    ensures ColorToken("#00FF00") == "0x00FF00"
  {
    assert "#00FF00"[1..] == "00FF00";
  }

  /** The `enable` predicate: the clause draws while `startTime <= t <= endTime`. */
  function EnableExpr(startTime: real, endTime: real, num: real -> string): string {
    "between(t," + num(startTime) + "," + num(endTime) + ")"
  }

  /** The options between the quoted text and the box: colour, size,
      placement and the enable window. */
  function ClauseOptions(s: Subtitle, num: real -> string): string {
    ":fontcolor=" + ColorToken(s.fontColor)
    + ":fontsize=" + num(s.fontSize as real)
    + ":x=" + CenteredX + ":y=" + YExpr(s.position)
    + ":enable='" + EnableExpr(s.startTime, s.endTime, num) + "'"
  }

  /** The `drawtext` clause of one subtitle. */
  function Clause(s: Subtitle, num: real -> string): string {
    ClauseHead + EscapeText(s.text) + "'" + ClauseOptions(s, num) + BoxOptions
  }

  /** Every clause starts with `drawtext=` and the font file, carries the
      escaped text right after `text='` and follows it with a `'`, and ends
      with the box options. */
  lemma ClauseFraming(s: Subtitle, num: real -> string)
    ensures var c, e := Clause(s, num), EscapeText(s.text);
      && |ClauseHead| + |e| < |c|
      && c[..|ClauseHead|] == ClauseHead
      && c[..9] == "drawtext="
      && c[|ClauseHead|..|ClauseHead| + |e|] == e
      && c[|ClauseHead| + |e|] == '\''
      && |BoxOptions| <= |c| && c[|c| - |BoxOptions|..] == BoxOptions
  {
    TemplateFraming(EscapeText(s.text), ClauseOptions(s, num));
  }

  /** A text ending in a backslash keeps that backslash, unescaped, directly
      before the quote that is meant to close the `text='...'` value. */
  lemma TrailingBackslashBeforeClosingQuote(s: Subtitle, num: real -> string)
    requires |s.text| > 0 && s.text[|s.text| - 1] == '\\'
    ensures var c, e := Clause(s, num), EscapeText(s.text);
      && 0 < |e| && |ClauseHead| + |e| < |c|
      && c[|ClauseHead| + |e| - 1] == '\\' && c[|ClauseHead| + |e|] == '\''
  {
    var t, n := s.text, |s.text|;
    var c, e := Clause(s, num), EscapeText(t);
    assert t == t[..n - 1] + ['\\'];
    EscapeTextIsPerCharacter(t);
    EscapeEachAppend(t[..n - 1], ['\\']);
    assert EscapeEach(['\\']) == ['\\'];
    ClauseFraming(s, num);
    assert c[|ClauseHead| + |e| - 1] == c[|ClauseHead|..|ClauseHead| + |e|][|e| - 1];
  }

  /** The clause template filled with any text `e` and any options `opts`. */
  lemma TemplateFraming(e: string, opts: string)
    ensures var c := ClauseHead + e + "'" + opts + BoxOptions;
      && |ClauseHead| + |e| < |c|
      && c[..|ClauseHead|] == ClauseHead
      && c[..9] == "drawtext="
      && c[|ClauseHead|..|ClauseHead| + |e|] == e
      && c[|ClauseHead| + |e|] == '\''
      && |BoxOptions| <= |c| && c[|c| - |BoxOptions|..] == BoxOptions
  {
    var c := ClauseHead + e + "'" + opts + BoxOptions;
    Framed(ClauseHead, e, "'" + opts, BoxOptions);
    HeadName();
    assert c[..9] == c[..|ClauseHead|][..9];
  }

  lemma HeadName()
    ensures |ClauseHead| >= 9 && ClauseHead[..9] == "drawtext="
  {
    var afterName := "fontfile=" + FontFile + ":text='";
    assert ClauseHead == "drawtext=" + afterName;
  }

  /** Where the four pieces of `a + e + rest + b` sit. */
  lemma Framed<T>(a: seq<T>, e: seq<T>, rest: seq<T>, b: seq<T>)
    requires |rest| > 0
    ensures var c := a + e + rest + b;
      && |a| + |e| < |c|
      && c[..|a|] == a
      && c[|a|..|a| + |e|] == e
      && c[|a| + |e|] == rest[0]
      && c[|c| - |b|..] == b
  {
    var c := a + e + rest + b;
    assert c == a + (e + (rest + b));
    assert c[|a|..] == e + (rest + b);
    assert (e + (rest + b))[..|e|] == e;
  }

  // ---------------------------------------------------------------------------
  // The filter chain and the FFmpeg argument vector
  // ---------------------------------------------------------------------------

  /** `subtitles.map(...)`: one clause per subtitle, in list order. */
  function Clauses(subtitles: seq<Subtitle>, num: real -> string): seq<string> {
    seq(|subtitles|, i requires 0 <= i < |subtitles| => Clause(subtitles[i], num))
  }

  /** `drawtextFilters.join(",")`: empty exactly when there are no subtitles,
      and otherwise opening with the first subtitle's clause. */
  function FilterGraph(subtitles: seq<Subtitle>, num: real -> string): (r: string)
    ensures r == "" <==> subtitles == []
    ensures subtitles != [] ==> |Clause(subtitles[0], num)| <= |r|
                                && r[..|Clause(subtitles[0], num)|] == Clause(subtitles[0], num)
  {
    var parts := Clauses(subtitles, num);
    if subtitles != [] then
      ClauseFraming(subtitles[0], num);
      assert parts[0] == Clause(subtitles[0], num);
      Join(parts, ",")
    else
      Join(parts, ",")
  }

  /** The chain grows clause by clause: one more subtitle at the end of the
      list adds `,` and exactly that subtitle's clause at the end of the chain. */
  lemma FilterGraphAppend(subtitles: seq<Subtitle>, s: Subtitle, num: real -> string)
    ensures FilterGraph(subtitles + [s], num)
         == if subtitles == [] then Clause(s, num) else FilterGraph(subtitles, num) + "," + Clause(s, num)
  {
    var cs, more := Clauses(subtitles, num), Clauses(subtitles + [s], num);
    assert |more| == |cs| + 1;
    assert forall i :: 0 <= i < |cs| ==> more[i] == cs[i];
    assert more == cs + [more[|cs|]];
    JoinAppend(cs, more[|cs|], ",");
    assert FilterGraph(subtitles + [s], num) == Join(more, ",");
  }

  /** The argument vector handed to `ffmpeg.exec`. */
  function ExecArgs(filter: string): seq<string> {
    ["-i", "input.mp4", "-vf", filter, "-c:a", "copy", "output.mp4"]
  }

  /** An empty subtitle list still passes `-vf` followed by an empty filter. */
  lemma EmptyListStillPassesFilter(num: real -> string)
    ensures ExecArgs(FilterGraph([], num)) == ["-i", "input.mp4", "-vf", "", "-c:a", "copy", "output.mp4"]
  {
  }
}
