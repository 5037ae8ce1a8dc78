/** The two ways in which a goose directive is recognized, as shapes of text: on a line of its own in any letter case,
    which opens a section, and at the start of a line in its exact case, which the layout check looks for. */
module MigrationDirectives {
  import opened Text
  import opened MigrationSections

  /// On one line

  /** Space, two dashes, space, the goose mark, some space, the word, and space. */
  datatype Parts = Parts(before: string, gap: string, goose: string, space: string, word: string, after: string)

  predicate Spells(parts: Parts, line: string, s: Section) {
    && line == parts.before + ("--" + (parts.gap + (parts.goose + (parts.space + (parts.word + parts.after)))))
    && AllSpace(parts.before) && AllSpace(parts.gap) && AllSpace(parts.space) && AllSpace(parts.after)
    && parts.space != "" && Lower(parts.goose) == "+goose" && Lower(parts.word) == Lower(Word(s))
  }

  lemma LowerSpace(c: char)
    ensures IsSpace(LowerChar(c)) <==> IsSpace(c)
  {
  }

  lemma {:induction false} TrimLowered(s: string)
    ensures TrimLeft(Lower(s)) == Lower(TrimLeft(s))
  {
    if s != "" {
      LowerSpace(s[0]);
      assert Lower(s)[0] == LowerChar(s[0]) && Lower(s)[1..] == Lower(s[1..]);
      TrimLowered(s[1..]);
    }
  }

  lemma LowerSlices(s: string, n: nat)
    requires n <= |s|
    ensures Lower(s)[..n] == Lower(s[..n]) && Lower(s)[n..] == Lower(s[n..])
  {
    hide Lower;
    LowerConcat(s[..n], s[n..]);
    assert s == s[..n] + s[n..];
  }

  lemma DirectiveHasParts(line: string, s: Section) returns (parts: Parts)
    requires IsDirective(line, s)
    ensures Spells(parts, line, s)
  {
    hide IsSpace, TrimLeft, TrimRight, Lower, AllSpace;
    var before := TrimLeftSplits(line);
    var after := TrimRightSplits(TrimLeft(line));
    var t := Trim(line);
    var gap := TrimLeftSplits(t[2..]);
    var u := TrimLeft(t[2..]);
    LowerSlices(u, 6);
    TrimLowered(u[6..]);
    var space := TrimLeftSplits(u[6..]);
    LowerAt(u, 6);
    LowerSpace(u[6]);
    NonSpaceStart(u[6..]);
    parts := Parts(before, gap, u[..6], space, TrimLeft(u[6..]), after);
    assert u == u[..6] + (space + TrimLeft(u[6..]));
    assert t == "--" + (gap + u);
    assert line == before + (t + after);
    assert t + after == "--" + (gap + (u[..6] + (space + (TrimLeft(u[6..]) + after))));
  }

  lemma NonSpaceStart(s: string)
    ensures s != "" && IsSpace(s[0]) ==> TrimLeft(s) != s
  {
    TrimLeftKeepsInside(s);
  }

  lemma VisibleLetter(c: char, letter: char)
    requires LowerChar(c) == LowerChar(letter) && letter in "UDpn"
    ensures !IsSpace(c)
  {
  }

  lemma WordsAreVisible(s: Section, w: string)
    requires Lower(w) == Lower(Word(s))
    ensures w != "" && !IsSpace(w[0]) && !IsSpace(w[|w| - 1])
  {
    hide Lower, IsSpace, LowerChar;
    var word := Word(s);
    assert |w| == |word| && word[0] in "UDpn" && word[|word| - 1] in "UDpn";
    LowerAt(w, 0);
    LowerAt(w, |w| - 1);
    LowerAt(word, 0);
    LowerAt(word, |word| - 1);
    VisibleLetter(w[0], word[0]);
    VisibleLetter(w[|w| - 1], word[|word| - 1]);
  }

  lemma MarkIsVisible(g: string)
    requires Lower(g) == "+goose"
    ensures |g| == 6 && !IsSpace(g[0])
  {
    hide Lower;
    LowerAt(g, 0);
    LowerSpace(g[0]);
  }

  lemma TrimmedParts(parts: Parts, line: string, s: Section)
    requires Spells(parts, line, s)
    ensures Trim(line) == "--" + (parts.gap + (parts.goose + (parts.space + parts.word)))
  {
    hide TrimLeft, TrimRight, Lower, AllSpace;
    var t := "--" + (parts.gap + (parts.goose + (parts.space + parts.word)));
    WordsAreVisible(s, parts.word);
    assert t[|t| - 1] == parts.word[|parts.word| - 1];
    assert "--" + (parts.gap + (parts.goose + (parts.space + (parts.word + parts.after)))) == t + parts.after;
    TrimLeftAfterSpace(parts.before, t + parts.after);
    TrimRightBeforeSpace(t, parts.after);
  }

  lemma PartsMakeDirective(parts: Parts, line: string, s: Section)
    requires Spells(parts, line, s)
    ensures IsDirective(line, s)
  {
    hide Trim, TrimLeft, Lower, AllSpace;
    TrimmedParts(parts, line, s);
    var t, u := Trim(line), parts.goose + (parts.space + parts.word);
    assert t[2..] == parts.gap + u;
    MarkIsVisible(parts.goose);
    TrimLeftAfterSpace(parts.gap, u);
    LowerSlices(u, 6);
    assert u[..6] == parts.goose && u[6..] == parts.space + parts.word;
    WordsAreVisible(s, parts.word);
    TrimLeftAfterSpace(parts.space, parts.word);
    TrimLowered(u[6..]);
    LowerAt(u, 6);
    SpaceHasSpace(parts.space);
    assert u[6] == parts.space[0];
    LowerSpace(u[6]);
  }

  lemma SpaceHasSpace(space: string)
    requires AllSpace(space) && space != ""
    ensures IsSpace(space[0])
  {
    assert space[0] in space;
  }

  /** A line opens a section exactly when it spells the directive, in any letter case and with any space around. */
  lemma IsDirectiveIff(line: string, s: Section)
    ensures IsDirective(line, s) <==> exists parts :: Spells(parts, line, s)
  {
    hide IsDirective, Spells;
    if IsDirective(line, s) {
      var parts := DirectiveHasParts(line, s);
    }
    if parts :| Spells(parts, line, s) {
      PartsMakeDirective(parts, line, s);
    }
  }

  /// In a text

  /** From a place on: two dashes, space, the goose mark, some space, the word in its exact case, and space up to the
      end of a line. */
  predicate SpellsAt(gap: string, space: string, after: string, rest: string, text: string, word: string) {
    && text == "--" + (gap + ("+goose" + (space + (word + (after + rest)))))
    && AllSpace(gap) && AllSpace(space) && AllSpace(after) && space != "" && (rest == "" || rest[0] == '\n')
  }

  lemma {:induction false} LineEndHasSpace(text: string) returns (after: string, rest: string)
    requires LineEndsAfterSpace(text)
    ensures text == after + rest && AllSpace(after) && (rest == "" || rest[0] == '\n')
  {
    if text == "" || text[0] == '\n' {
      after, rest := "", text;
    } else {
      after, rest := LineEndHasSpace(text[1..]);
      after := [text[0]] + after;
      assert text == [text[0]] + text[1..];
    }
  }

  lemma {:induction false} SpaceEndsLine(after: string, rest: string)
    requires AllSpace(after) && (rest == "" || rest[0] == '\n')
    ensures LineEndsAfterSpace(after + rest)
  {
    if after == "" {
      assert after + rest == rest;
    } else {
      assert after[0] in after && forall c <- after[1..] :: c in after;
      SpaceEndsLine(after[1..], rest);
      assert (after + rest)[1..] == after[1..] + rest;
    }
  }

  /** The layout check finds the directive at a place exactly when the text spells it there. */
  lemma DirectiveAtIff(text: string, s: Section)
    ensures DirectiveAt(text, Word(s)) <==>
            exists gap, space, after, rest :: SpellsAt(gap, space, after, rest, text, Word(s))
  {
    hide SpellsAt, DirectiveAt;
    if DirectiveAt(text, Word(s)) {
      FoundIsSpelled(text, s);
    }
    if gap, space, after, rest :| SpellsAt(gap, space, after, rest, text, Word(s)) {
      SpelledIsFound(gap, space, after, rest, text, s);
    }
  }

  lemma FoundIsSpelled(text: string, s: Section)
    requires DirectiveAt(text, Word(s))
    ensures exists gap, space, after, rest :: SpellsAt(gap, space, after, rest, text, Word(s))
  {
    hide TrimLeft, AllSpace, LineEndsAfterSpace, IsSpace;
    var gap := TrimLeftSplits(text[2..]);
    var goose := TrimLeft(text[2..]);
    var space := TrimLeftSplits(goose[6..]);
    var found := TrimLeft(goose[6..]);
    NonSpaceStart(goose[6..]);
    var after, rest := LineEndHasSpace(found[|Word(s)|..]);
    assert goose == "+goose" + goose[6..];
    assert found == Word(s) + (after + rest);
    assert text == "--" + (gap + ("+goose" + (space + (Word(s) + (after + rest)))));
    assert SpellsAt(gap, space, after, rest, text, Word(s));
  }

  lemma SpelledIsFound(gap: string, space: string, after: string, rest: string, text: string, s: Section)
    requires SpellsAt(gap, space, after, rest, text, Word(s))
    ensures DirectiveAt(text, Word(s))
  {
    hide TrimLeft, AllSpace, LineEndsAfterSpace;
    var goose := "+goose" + (space + (Word(s) + (after + rest)));
    var found := Word(s) + (after + rest);
    assert text[2..] == gap + goose && goose[0] == '+';
    TrimLeftAfterSpace(gap, goose);
    assert goose[6..] == space + found;
    WordsAreVisible(s, Word(s));
    TrimLeftAfterSpace(space, found);
    SpaceHasSpace(space);
    assert goose[6] == space[0];
    assert found[|Word(s)|..] == after + rest;
    SpaceEndsLine(after, rest);
  }

  /// Lines

  predicate IsSeparator(sep: string) {
    sep == "\n" || sep == "\r\n"
  }

  function JoinedBy(lines: seq<string>, sep: string): string {
    if lines == [] then "" else lines[0] + (sep + JoinedBy(lines[1..], sep))
  }

  lemma {:induction false} LineEndsAt(line: string, rest: string)
    requires (forall c <- line :: !IsLineBreak(c)) && (rest == "" || IsLineBreak(rest[0]))
    ensures LineEnd(line + rest) == |line|
  {
    if line == "" {
      assert line + rest == rest;
    } else {
      assert line[0] in line && forall c <- line[1..] :: c in line;
      LineEndsAt(line[1..], rest);
      assert (line + rest)[1..] == line[1..] + rest;
    }
  }

  lemma FirstLineSplit(line: string, sep: string, rest: string)
    requires IsSeparator(sep) && forall c <- line :: !IsLineBreak(c)
    ensures SplitLines(line + (sep + rest)) == [line] + SplitLines(rest)
  {
    hide LineEnd;
    var text, n := line + (sep + rest), |line|;
    LineEndsAt(line, sep + rest);
    assert text[..n] == line && text[n..] == sep + rest;
    if sep == "\n" {
      assert (sep + rest)[0] == '\n';
      assert text[n + 1..] == rest;
    } else {
      assert (sep + rest)[..2] == "\r\n";
      assert text[n + 2..] == rest;
    }
  }

  /** Splitting gives back lines that were ended by line feeds, or by carriage return and line feed. */
  lemma {:induction false} LinesComeBack(lines: seq<string>, sep: string)
    requires IsSeparator(sep) && forall l <- lines, c <- l :: !IsLineBreak(c)
    ensures SplitLines(JoinedBy(lines, sep)) == lines
  {
    hide SplitLines;
    if lines != [] {
      assert lines[0] in lines && forall l <- lines[1..] :: l in lines;
      FirstLineSplit(lines[0], sep, JoinedBy(lines[1..], sep));
      LinesComeBack(lines[1..], sep);
    } else {
      NothingSplit();
    }
  }

  lemma NothingSplit()
    ensures SplitLines("") == []
  {
  }
}
