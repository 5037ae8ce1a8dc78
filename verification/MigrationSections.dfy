/** tools/verify_migrations.py: the Up and Down sections of a migration file. */
module MigrationSections {
  import opened Options
  import opened Text

  datatype Section = Up | Down

  function Word(s: Section): string {
    if s == Up then "Up" else "Down"
  }

  /// Directives on one line

  /** A trimmed line `-- +goose Up` or `-- +goose Down`, in any letter case. */
  predicate IsDirective(line: string, s: Section) {
    var t := Trim(line);
    && "--" <= t
    && var goose := Lower(TrimLeft(t[2..]));
       && "+goose" <= goose && |goose| > 6 && IsSpace(goose[6])
       && TrimLeft(goose[6..]) == Lower(Word(s))
  }

  function DirectiveOf(line: string): Option<Section> {
    if IsDirective(line, Up) then Some(Up) else if IsDirective(line, Down) then Some(Down) else None
  }

  /// Sections of a file

  /** The section that lines after `lines` belong to. */
  function Current(lines: seq<string>): Option<Section> {
    if lines == [] then None
    else if DirectiveOf(lines[|lines| - 1]).Some? then DirectiveOf(lines[|lines| - 1])
    else Current(lines[..|lines| - 1])
  }

  function SectionLines(lines: seq<string>, s: Section): seq<string> {
    if lines == [] then []
    else
      var last, rest := lines[|lines| - 1], lines[..|lines| - 1];
      SectionLines(rest, s) + if DirectiveOf(last).None? && Current(rest) == Some(s) then [last] else []
  }

  method SplitSections(lines: seq<string>) returns (up: seq<string>, down: seq<string>)
    ensures up == SectionLines(lines, Up) && down == SectionLines(lines, Down)
  {
    hide IsDirective;
    var current: Option<Section> := None;
    up, down := [], [];
    for i := 0 to |lines|
      invariant current == Current(lines[..i])
      invariant up == SectionLines(lines[..i], Up) && down == SectionLines(lines[..i], Down)
    {
      var line := lines[i];
      assert lines[..i + 1][..i] == lines[..i];
      if IsDirective(line, Up) {
        current := Some(Up);
      } else if IsDirective(line, Down) {
        current := Some(Down);
      } else if current == Some(Up) {
        up := up + [line];
      } else if current == Some(Down) {
        down := down + [line];
      }
    }
    assert lines[..|lines|] == lines;
  }

  /** The nearest directive above line `i` opens section `s`, and line `i` is not a directive itself. */
  ghost predicate BelongsTo(lines: seq<string>, i: int, s: Section) {
    && 0 <= i < |lines| && DirectiveOf(lines[i]).None?
    && exists j ::
         0 <= j < i && DirectiveOf(lines[j]) == Some(s) && forall k :: j < k <= i ==> DirectiveOf(lines[k]).None?
  }

  lemma {:induction false} CurrentIsNearest(lines: seq<string>, s: Section)
    ensures Current(lines) == Some(s) <==>
            exists j ::
              0 <= j < |lines| && DirectiveOf(lines[j]) == Some(s)
              && forall k :: j < k < |lines| ==> DirectiveOf(lines[k]).None?
  {
    hide DirectiveOf;
    if lines != [] {
      var n := |lines| - 1;
      CurrentIsNearest(lines[..n], s);
      if DirectiveOf(lines[n]).None? && Current(lines) == Some(s) {
        var j :| 0 <= j < n && DirectiveOf(lines[..n][j]) == Some(s)
          && forall k :: j < k < n ==> DirectiveOf(lines[..n][k]).None?;
        assert DirectiveOf(lines[j]) == Some(s);
        forall k | j < k < |lines| ensures DirectiveOf(lines[k]).None? {
          assert k < n ==> lines[..n][k] == lines[k];
        }
      } else if DirectiveOf(lines[n]).None? {
        forall j | 0 <= j < |lines| && DirectiveOf(lines[j]) == Some(s)
          ensures exists k :: j < k < |lines| && DirectiveOf(lines[k]).Some?
        {
          assert lines[..n][j] == lines[j];
          var k :| j < k < n && DirectiveOf(lines[..n][k]).Some?;
          assert lines[..n][k] == lines[k];
        }
      }
    }
  }

  function Positions(lines: seq<string>, s: Section): seq<nat> {
    if lines == [] then []
    else
      var n := |lines| - 1;
      Positions(lines[..n], s) + if DirectiveOf(lines[n]).None? && Current(lines[..n]) == Some(s) then [n] else []
  }

  lemma BelongsInPrefix(lines: seq<string>, n: nat, i: int, s: Section)
    requires n <= |lines| && i < n
    ensures BelongsTo(lines[..n], i, s) <==> BelongsTo(lines, i, s)
  {
    hide DirectiveOf;
    var prefix := lines[..n];
    if BelongsTo(lines, i, s) {
      var j :| 0 <= j < i && DirectiveOf(lines[j]) == Some(s) && forall k :: j < k <= i ==> DirectiveOf(lines[k]).None?;
      assert prefix[j] == lines[j] && forall k :: j < k <= i ==> prefix[k] == lines[k];
    }
    if BelongsTo(prefix, i, s) {
      var j :| 0 <= j < i && DirectiveOf(prefix[j]) == Some(s)
        && forall k :: j < k <= i ==> DirectiveOf(prefix[k]).None?;
      assert prefix[j] == lines[j] && forall k :: j < k <= i ==> prefix[k] == lines[k];
    }
  }

  lemma LastBelongs(lines: seq<string>, s: Section)
    requires lines != []
    ensures var n := |lines| - 1;
            BelongsTo(lines, n, s) <==> DirectiveOf(lines[n]).None? && Current(lines[..n]) == Some(s)
  {
    hide DirectiveOf, Current;
    var n := |lines| - 1;
    var prefix := lines[..n];
    CurrentIsNearest(prefix, s);
    if BelongsTo(lines, n, s) {
      var j :| 0 <= j < n && DirectiveOf(lines[j]) == Some(s) && forall k :: j < k <= n ==> DirectiveOf(lines[k]).None?;
      assert prefix[j] == lines[j] && forall k :: j < k < n ==> prefix[k] == lines[k];
    }
    if DirectiveOf(lines[n]).None? && Current(prefix) == Some(s) {
      var j :| 0 <= j < n && DirectiveOf(prefix[j]) == Some(s)
        && forall k :: j < k < n ==> DirectiveOf(prefix[k]).None?;
      assert prefix[j] == lines[j] && forall k :: j < k < n ==> prefix[k] == lines[k];
    }
  }

  lemma SectionNext(lines: seq<string>, s: Section)
    requires lines != []
    ensures var n := |lines| - 1;
            if BelongsTo(lines, n, s)
            then Positions(lines, s) == Positions(lines[..n], s) + [n]
                 && SectionLines(lines, s) == SectionLines(lines[..n], s) + [lines[n]]
            else Positions(lines, s) == Positions(lines[..n], s)
                 && SectionLines(lines, s) == SectionLines(lines[..n], s)
  {
    hide DirectiveOf, Current, BelongsTo;
    LastBelongs(lines, s);
  }

  /** The positions of a section's lines, in order and once each. */
  lemma {:induction false} PositionsAre(lines: seq<string>, s: Section)
    ensures forall i :: i in Positions(lines, s) <==> BelongsTo(lines, i, s)
    ensures forall k, l :: 0 <= k < l < |Positions(lines, s)| ==> Positions(lines, s)[k] < Positions(lines, s)[l]
    ensures forall k :: 0 <= k < |Positions(lines, s)| ==> Positions(lines, s)[k] < |lines|
  {
    hide DirectiveOf, Current, BelongsTo, SectionLines;
    if lines == [] {
      forall i: int ensures !BelongsTo(lines, i, s) {
        OnlyInside(lines, i, s);
      }
    } else {
      var n := |lines| - 1;
      PositionsAre(lines[..n], s);
      SectionNext(lines, s);
      hide Positions;
      forall i ensures i in Positions(lines, s) <==> BelongsTo(lines, i, s) {
        OnlyInside(lines, i, s);
        OnlyInside(lines[..n], i, s);
        if 0 <= i < n {
          BelongsInPrefix(lines, n, i, s);
        }
      }
    }
  }

  lemma {:induction false} LinesAtPositions(lines: seq<string>, s: Section)
    ensures |SectionLines(lines, s)| == |Positions(lines, s)|
    ensures forall k :: 0 <= k < |Positions(lines, s)| ==>
              Positions(lines, s)[k] < |lines| && SectionLines(lines, s)[k] == lines[Positions(lines, s)[k]]
  {
    hide DirectiveOf, Current, BelongsTo;
    if lines != [] {
      LinesAtPositions(lines[..|lines| - 1], s);
      SectionNext(lines, s);
      hide Positions, SectionLines;
    }
  }

  /** The splitting loop gives each section, in order and once each, exactly the lines whose nearest directive above
      opens it. */
  lemma SectionsAreExact(lines: seq<string>, s: Section)
    ensures var at := Positions(lines, s);
            && |SectionLines(lines, s)| == |at|
            && (forall i :: i in at <==> BelongsTo(lines, i, s))
            && (forall k :: 0 <= k < |at| ==> at[k] < |lines| && SectionLines(lines, s)[k] == lines[at[k]])
            && (forall k, l :: 0 <= k < l < |at| ==> at[k] < at[l])
  {
    hide DirectiveOf, Current, BelongsTo, Positions, SectionLines;
    PositionsAre(lines, s);
    LinesAtPositions(lines, s);
  }

  lemma OnlyInside(lines: seq<string>, i: int, s: Section)
    ensures BelongsTo(lines, i, s) ==> 0 <= i < |lines|
  {
  }

  /// Texts

  predicate IsLineBreak(c: char) {
    c in "\n\r\U{0B}\U{0C}\U{1C}\U{1D}\U{1E}\U{85}\U{2028}\U{2029}"
  }

  function LineEnd(text: string): (n: nat)
    ensures n <= |text|
  {
    if text == "" || IsLineBreak(text[0]) then 0 else 1 + LineEnd(text[1..])
  }

  /** A carriage return and a line feed break one line together. */
  function SplitLines(text: string): seq<string>
    decreases |text|
  {
    if text == "" then []
    else
      var n := LineEnd(text);
      if n == |text| then [text]
      else [text[..n]] + SplitLines(text[if "\r\n" <= text[n..] then n + 2 else n + 1..])
  }

  /** The text of a section, with line feeds between its lines and trimmed. */
  function Body(text: string, s: Section): string {
    var lines := SectionLines(SplitLines(text), s);
    if lines == [] then "" else Trim(Join(lines, '\n'))
  }

  /** White space up to the end of a line or of the text follows. */
  predicate LineEndsAfterSpace(text: string) {
    text == "" || text[0] == '\n' || (IsSpace(text[0]) && LineEndsAfterSpace(text[1..]))
  }

  /** The directive starts here: two dashes, the goose mark and the word in its exact case. White space in between
      may contain line feeds. */
  predicate DirectiveAt(text: string, word: string) {
    && "--" <= text
    && var goose := TrimLeft(text[2..]);
       && "+goose" <= goose && |goose| > 6 && IsSpace(goose[6])
       && var rest := TrimLeft(goose[6..]);
          word <= rest && LineEndsAfterSpace(rest[|word|..])
  }

  /** Some line of the text starts the directive. */
  predicate HasDirective(text: string, word: string) {
    exists p :: 0 <= p <= |text| && (p == 0 || text[p - 1] == '\n') && DirectiveAt(text[p..], word)
  }

  /// What a non-empty body means

  lemma {:induction false} JoinedSpace(lines: seq<string>)
    requires lines != [] && forall l <- lines :: AllSpace(l)
    ensures AllSpace(Join(lines, '\n'))
  {
    hide IsSpace;
    assert lines[0] in lines;
    assert IsSpace('\n') by { SpaceBreaks(); }
    if |lines| > 1 {
      JoinedSpace(lines[1..]);
    }
  }

  lemma SpaceBreaks()
    ensures IsSpace('\n')
  {
  }

  lemma BlankSection(section: seq<string>)
    requires section != [] && forall l <- section :: AllSpace(l)
    ensures Trim(Join(section, '\n')) == ""
  {
    hide AllSpace, Trim;
    JoinedSpace(section);
    TrimmedToNothing(Join(section, '\n'));
  }

  predicate Shows(lines: seq<string>, i: int) {
    0 <= i < |lines| && !AllSpace(lines[i])
  }

  /** A line with visible text whose nearest directive above opens the section. */
  ghost predicate HasVisibleLine(text: string, s: Section) {
    exists i :: BelongsTo(SplitLines(text), i, s) && Shows(SplitLines(text), i)
  }

  lemma {:induction false} VisibleJoin(lines: seq<string>, i: nat)
    requires i < |lines| && !AllSpace(lines[i])
    ensures !AllSpace(Join(lines, '\n'))
  {
    hide IsSpace;
    var c :| c in lines[i] && !IsSpace(c);
    if |lines| > 1 {
      if i == 0 {
        assert c in Join(lines, '\n');
      } else {
        VisibleJoin(lines[1..], i - 1);
        var d :| d in Join(lines[1..], '\n') && !IsSpace(d);
        assert d in Join(lines, '\n');
      }
    }
  }

  /** A section body is empty exactly when no line of the section shows anything. */
  lemma BodyIffVisibleLine(text: string, s: Section)
    ensures Body(text, s) != "" <==> HasVisibleLine(text, s)
  {
    hide Trim, BelongsTo, SplitLines, SectionLines, AllSpace, Body;
    if Body(text, s) != "" {
      BodyHasVisibleLine(text, s);
    }
    if HasVisibleLine(text, s) {
      VisibleLineShows(text, s);
    }
  }

  lemma VisibleLineShows(text: string, s: Section)
    requires HasVisibleLine(text, s)
    ensures Body(text, s) != ""
  {
    hide Trim, BelongsTo, SplitLines, SectionLines, AllSpace;
    var lines := SplitLines(text);
    var i :| BelongsTo(lines, i, s) && Shows(lines, i);
    SectionsAreExact(lines, s);
    var positions := Positions(lines, s);
    assert i in positions;
    var k :| 0 <= k < |positions| && positions[k] == i;
    VisibleJoin(SectionLines(lines, s), k);
    TrimmedToNothing(Join(SectionLines(lines, s), '\n'));
  }

  lemma BodyHasVisibleLine(text: string, s: Section)
    requires Body(text, s) != ""
    ensures HasVisibleLine(text, s)
  {
    hide Trim, BelongsTo, SplitLines, SectionLines, AllSpace;
    var lines := SplitLines(text);
    var section := SectionLines(lines, s);
    if forall l <- section :: AllSpace(l) {
      BlankSection(section);
    }
    var k :| 0 <= k < |section| && !AllSpace(section[k]);
    SectionsAreExact(lines, s);
    var i := Positions(lines, s)[k];
    assert i in Positions(lines, s);
    assert BelongsTo(lines, i, s) && Shows(lines, i);
  }
}
