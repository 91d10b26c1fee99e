/** Loading the prompt files of the web tool (app.py): the base prompt, read
    whole and stripped, and the pattern file, one pattern per line with blank
    lines and `#` comments dropped. A file that cannot be found is a value of
    its own rather than an exception. */
module Patterns {
  import opened Text

  /** What opening a prompt file yields: nothing, or its decoded text. */
  datatype FileRead = Missing | Contents(text: string)

  /** A line survives when, once stripped, it is non-empty and does not open
      with `#`. Stripping comes first, so an indented `#` is a comment too. */
  predicate IsPatternLine(line: string) {
    var t := Strip(line);
    t != [] && t[0] != '#'
  }

  /** What every loaded pattern looks like. */
  predicate IsPattern(p: string) {
    p != [] && p[0] != '#' && IsStripped(p)
  }

  /** `f.readlines()` in text mode: newlines translated, the text cut at each
      `'\n'`. Python keeps the `'\n'` on each line and has no empty piece after
      a final newline; both differences vanish once lines are stripped,
      because `'\n'` is whitespace and an empty piece is blank. */
  function ReadLines(text: string): (lines: seq<string>)
    ensures forall k :: 0 <= k < |lines| ==> '\n' !in lines[k] && '\r' !in lines[k]
    ensures Join(lines, '\n') == TranslateNewlines(text)
  {
    var translated := TranslateNewlines(text);
    var lines := Split(translated, '\n');
    JoinSplit(translated, '\n');
    assert forall k :: 0 <= k < |lines| ==> '\r' !in lines[k] by {
      SplitWithin(translated, '\n', '\r');
    }
    lines
  }

  lemma {:induction false} SplitWithin(s: string, sep: char, c: char)
    requires c !in s
    ensures forall k :: 0 <= k < |Split(s, sep)| ==> c !in Split(s, sep)[k]
  {
    if s != [] {
      SplitWithin(s[1..], sep, c);
    }
  }

  /** The loop of `load_patterns` over already-read lines, as a definition:
      the stripped pattern lines, in their order. */
  function ParsePatterns(lines: seq<string>): (ps: seq<string>)
    ensures |ps| <= |lines|
  {
    if lines == [] then []
    else
      var last := lines[|lines| - 1];
      ParsePatterns(lines[..|lines| - 1]) + (if IsPatternLine(last) then [Strip(last)] else [])
  }

  /** Every parsed pattern is non-empty, stripped and not a comment. */
  lemma {:induction false} ParsedArePatterns(lines: seq<string>)
    ensures forall k :: 0 <= k < |ParsePatterns(lines)| ==> IsPattern(ParsePatterns(lines)[k])
  {
    if lines != [] {
      var init := lines[..|lines| - 1];
      ParsedArePatterns(init);
      var last := lines[|lines| - 1];
      assert ParsePatterns(lines) == ParsePatterns(init) + (if IsPatternLine(last) then [Strip(last)] else []);
    }
  }

  /** `load_patterns`, written as the loop of app.py. */
  method CollectPatterns(lines: seq<string>) returns (patterns: seq<string>)
    ensures patterns == ParsePatterns(lines)
    ensures forall k :: 0 <= k < |patterns| ==> IsPattern(patterns[k])
  {
    patterns := [];
    var i := 0;
    while i < |lines|
      invariant 0 <= i <= |lines|
      invariant patterns == ParsePatterns(lines[..i])
    {
      ParseStep(lines, i);
      var line := Strip(lines[i]);
      if line != [] && line[0] != '#' {
        patterns := patterns + [line];
      }
      i := i + 1;
    }
    assert lines[..i] == lines;
    ParsedArePatterns(lines);
  }

  /** One more line extends the parse of the lines before it. */
  lemma ParseStep(lines: seq<string>, i: nat)
    requires i < |lines|
    ensures ParsePatterns(lines[..i + 1])
         == ParsePatterns(lines[..i]) + (if IsPatternLine(lines[i]) then [Strip(lines[i])] else [])
  {
    assert lines[..i + 1][..i] == lines[..i];
    assert lines[..i + 1][i] == lines[i];
  }

  /** `load_patterns`: a missing file yields no patterns. */
  function LoadPatterns(f: FileRead): (ps: seq<string>)
    ensures f.Missing? ==> ps == []
    ensures f.Contents? ==> ps == ParsePatterns(ReadLines(f.text))
    ensures forall k :: 0 <= k < |ps| ==> IsPattern(ps[k]) && '\n' !in ps[k] && '\r' !in ps[k]
  {
    match f
    case Missing => []
    case Contents(text) =>
      var lines := ReadLines(text);
      var ps := ParsePatterns(lines);
      ParsedArePatterns(lines);
      ParseKeepsAbsent(lines, '\n');
      ParseKeepsAbsent(lines, '\r');
      ps
  }

  /** `load_base_prompt`: the whole text, stripped; `""` for a missing file. */
  function LoadBasePrompt(f: FileRead): (base: string)
    ensures f.Missing? ==> base == []
    ensures IsStripped(base)
    ensures f.Contents? ==> (base == [] <==> AllSpace(TranslateNewlines(f.text)))
    ensures f.Contents? ==>
              var t := TranslateNewlines(f.text);
              exists i ::
                && 0 <= i <= |t| - |base|
                && base == t[i..i + |base|]
                && AllSpace(t[..i])
                && AllSpace(t[i + |base|..])
  {
    match f
    case Missing => []
    case Contents(text) =>
      StripIsSlice(TranslateNewlines(text));
      Strip(TranslateNewlines(text))
  }

  /** A character no line holds is held by no pattern. */
  lemma {:induction false} ParseKeepsAbsent(lines: seq<string>, c: char)
    requires forall k :: 0 <= k < |lines| ==> c !in lines[k]
    ensures forall k :: 0 <= k < |ParsePatterns(lines)| ==> c !in ParsePatterns(lines)[k]
  {
    if lines != [] {
      var last := lines[|lines| - 1];
      ParseKeepsAbsent(lines[..|lines| - 1], c);
      StripKeepsAbsent(last, c);
    }
  }

  /** `p` is what some pattern line of `lines` strips to. */
  predicate StripsFromLine(lines: seq<string>, p: string) {
    exists j :: 0 <= j < |lines| && IsPatternLine(lines[j]) && Strip(lines[j]) == p
  }

  /** Every pattern is a pattern line of the input, stripped. */
  lemma {:induction false} ParsedFromLine(lines: seq<string>, p: string)
    requires p in ParsePatterns(lines)
    ensures StripsFromLine(lines, p)
  {
    var n := |lines| - 1;
    var init := lines[..n];
    var tail := if IsPatternLine(lines[n]) then [Strip(lines[n])] else [];
    assert ParsePatterns(lines) == ParsePatterns(init) + tail;
    if p in ParsePatterns(init) {
      ParsedFromLine(init, p);
      var j :| 0 <= j < |init| && IsPatternLine(init[j]) && Strip(init[j]) == p;
      assert lines[j] == init[j];
    } else {
      assert p in tail;
      assert IsPatternLine(lines[n]) && Strip(lines[n]) == p;
    }
  }

  /** Every pattern line of the input contributes its stripped self, right
      after the patterns of the lines before it. */
  lemma LineIsParsed(lines: seq<string>, j: nat)
    requires j < |lines| && IsPatternLine(lines[j])
    ensures |ParsePatterns(lines[..j])| < |ParsePatterns(lines)|
    ensures ParsePatterns(lines)[|ParsePatterns(lines[..j])|] == Strip(lines[j])
  {
    var a, b := lines[..j], lines[j + 1..];
    assert lines == a + [lines[j]] + b;
    ParseAround(a, lines[j], b);
    ParseSingle(lines[j]);
  }

  lemma ParseAround(a: seq<string>, line: string, b: seq<string>)
    ensures ParsePatterns(a + [line] + b) == ParsePatterns(a) + ParsePatterns([line]) + ParsePatterns(b)
  {
    ParseAppend(a + [line], b);
    ParseAppend(a, [line]);
  }


  /** The patterns are exactly the stripped pattern lines. */
  lemma ParsedIff(lines: seq<string>, p: string)
    ensures p in ParsePatterns(lines) <==> StripsFromLine(lines, p)
  {
    if p in ParsePatterns(lines) {
      ParsedFromLine(lines, p);
    }
    if StripsFromLine(lines, p) {
      var j :| 0 <= j < |lines| && IsPatternLine(lines[j]) && Strip(lines[j]) == p;
      LineIsParsed(lines, j);
      assert ParsePatterns(lines)[|ParsePatterns(lines[..j])|] == p;
    }
  }

  /** Parsing a concatenation is concatenating the parses: the order of the
      lines is kept and each line is judged on its own. */
  lemma {:induction false} ParseAppend(a: seq<string>, b: seq<string>)
    ensures ParsePatterns(a + b) == ParsePatterns(a) + ParsePatterns(b)
    decreases |b|
  {
    if b != [] {
      var init := b[..|b| - 1];
      var last := b[|b| - 1];
      var tail := if IsPatternLine(last) then [Strip(last)] else [];
      assert (a + b)[..|a + b| - 1] == a + init;
      assert (a + b)[|a + b| - 1] == last;
      assert ParsePatterns(a + b) == ParsePatterns(a + init) + tail;
      assert ParsePatterns(b) == ParsePatterns(init) + tail;
      ParseAppend(a, init);
    } else {
      assert a + b == a;
    }
  }

  /** One line on its own: kept, stripped, exactly when it is a pattern line. */
  lemma ParseSingle(line: string)
    ensures ParsePatterns([line]) == (if IsPatternLine(line) then [Strip(line)] else [])
  {
    assert [line][..0] == [];
  }

  /** Lines that already are patterns come through unchanged. */
  lemma {:induction false} ParseKeepsPatterns(ps: seq<string>)
    requires forall k :: 0 <= k < |ps| ==> IsPattern(ps[k])
    ensures ParsePatterns(ps) == ps
  {
    if ps != [] {
      var init, last := ps[..|ps| - 1], ps[|ps| - 1];
      assert forall k :: 0 <= k < |init| ==> init[k] == ps[k];
      ParseKeepsPatterns(init);
      PatternIsOwnLine(last);
      assert ParsePatterns(ps) == ParsePatterns(init) + [last];
      assert init + [last] == ps;
    }
  }

  /** A pattern, read as a line, is a pattern line that strips to itself. */
  lemma PatternIsOwnLine(p: string)
    requires IsPattern(p)
    ensures IsPatternLine(p) && Strip(p) == p
  {
    assert [] + p + [] == p;
    StripSurrounded([], p, []);
  }

  /** Parsing is idempotent on lines. */
  lemma ParseIdempotent(lines: seq<string>)
    ensures ParsePatterns(ParsePatterns(lines)) == ParsePatterns(lines)
  {
    ParsedArePatterns(lines);
    ParseKeepsPatterns(ParsePatterns(lines));
  }

  /** Writing the loaded patterns back one per line and loading that file
      gives the same patterns. */
  lemma LoadRewriteIdempotent(f: FileRead)
    ensures LoadPatterns(Contents(Join(LoadPatterns(f), '\n'))) == LoadPatterns(f)
  {
    var ps := LoadPatterns(f);
    var text := Join(ps, '\n');
    assert '\r' !in text by {
      JoinWithout(ps, '\n', '\r');
    }
    if ps == [] {
      assert ReadLines(text) == [[]];
      assert ParsePatterns([[]]) == [] by {
        ParseSingle([]);
      }
    } else {
      SplitJoin(ps, '\n');
      assert ReadLines(text) == ps;
      ParseKeepsPatterns(ps);
    }
  }

  lemma {:induction false} JoinWithout(xs: seq<string>, sep: char, c: char)
    requires c != sep
    requires forall k :: 0 <= k < |xs| ==> c !in xs[k]
    ensures c !in Join(xs, sep)
    decreases |xs|
  {
    if |xs| > 1 {
      JoinWithout(xs[1..], sep, c);
    }
  }
}
