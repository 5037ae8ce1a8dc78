/** String operations of the host languages, written out so that laws about them can be proved:
    substring search, left-to-right replacement, splitting, trimming and ASCII lower-casing. */
module Text {

  predicate Contains(s: string, t: string) {
    t <= s || (s != [] && Contains(s[1..], t))
  }

  /** Replaces the non-overlapping occurrences of `a`, scanning from the left. */
  function ReplaceAll(s: string, a: string, b: string): string
    requires a != ""
  {
    if a <= s then b + ReplaceAll(s[|a|..], a, b)
    else if s == "" then ""
    else [s[0]] + ReplaceAll(s[1..], a, b)
  }

  function Split(s: string, sep: char): (parts: seq<string>)
    ensures parts != []
  {
    if s == "" then [""]
    else
      var rest := Split(s[1..], sep);
      if s[0] == sep then [""] + rest else [[s[0]] + rest[0]] + rest[1..]
  }

  function Join(parts: seq<string>, sep: char): string
    requires parts != []
  {
    if |parts| == 1 then parts[0] else parts[0] + [sep] + Join(parts[1..], sep)
  }

  predicate IsSpace(c: char) {
    c in " \t\n\r" || c == 11 as char || c == 12 as char
  }

  function TrimLeft(s: string): string {
    if s != "" && IsSpace(s[0]) then TrimLeft(s[1..]) else s
  }

  function TrimRight(s: string): string {
    if s != "" && IsSpace(s[|s| - 1]) then TrimRight(s[..|s| - 1]) else s
  }

  function Trim(s: string): string {
    TrimRight(TrimLeft(s))
  }

  function LowerChar(c: char): char {
    if 'A' <= c <= 'Z' then (c as int + 32) as char else c
  }

  function Lower(s: string): (r: string)
    ensures |r| == |s|
  {
    if s == "" then "" else [LowerChar(s[0])] + Lower(s[1..])
  }

  lemma {:induction false} TrimLeftKeepsInside(s: string)
    ensures TrimLeft(s) == "" || !IsSpace(TrimLeft(s)[0])
    ensures TrimLeft(s) == s <==> s == "" || !IsSpace(s[0])
    ensures |TrimLeft(s)| <= |s|
  {
    if s != "" && IsSpace(s[0]) {
      TrimLeftKeepsInside(s[1..]);
    }
  }

  lemma {:induction false} TrimRightKeepsInside(s: string)
    ensures TrimRight(s) <= s
    ensures TrimRight(s) == "" || !IsSpace(TrimRight(s)[|TrimRight(s)| - 1])
    ensures TrimRight(s) == s <==> s == "" || !IsSpace(s[|s| - 1])
  {
    if s != "" && IsSpace(s[|s| - 1]) {
      TrimRightKeepsInside(s[..|s| - 1]);
    }
  }

  /** A text is trimmed exactly when it neither begins nor ends with white space. */
  lemma TrimmedIff(s: string)
    ensures Trim(s) == s <==> s == "" || (!IsSpace(s[0]) && !IsSpace(s[|s| - 1]))
  {
    hide IsSpace;
    TrimLeftKeepsInside(s);
    TrimRightKeepsInside(TrimLeft(s));
    TrimRightKeepsInside(s);
  }

  lemma TrimIsIdempotent(s: string)
    ensures Trim(Trim(s)) == Trim(s)
  {
    hide IsSpace, TrimLeft, TrimRight;
    TrimLeftKeepsInside(s);
    TrimRightKeepsInside(TrimLeft(s));
    TrimmedIff(Trim(s));
  }

  lemma TrimPrefixed(prefix: string, s: string)
    requires Trim(s) == s && Trim(prefix) == prefix && prefix != ""
    ensures Trim(prefix + s) == prefix + s
  {
    hide IsSpace, Trim;
    TrimmedIff(s);
    TrimmedIff(prefix);
    TrimmedIff(prefix + s);
  }

  predicate AllSpace(s: string) {
    forall c <- s :: IsSpace(c)
  }

  lemma {:induction false} TrimRightKeepsFirst(s: string)
    requires s != "" && !IsSpace(s[0])
    ensures TrimRight(s) != ""
  {
    if IsSpace(s[|s| - 1]) {
      assert s[..|s| - 1][0] == s[0];
      TrimRightKeepsFirst(s[..|s| - 1]);
    }
  }

  /** Trimming leaves nothing exactly of white space. */
  lemma {:induction false} TrimmedToNothing(s: string)
    ensures Trim(s) == "" <==> AllSpace(s)
  {
    if s == "" {
    } else if IsSpace(s[0]) {
      TrimmedToNothing(s[1..]);
      assert s == [s[0]] + s[1..];
    } else {
      assert s[0] in s && TrimLeft(s) == s;
      TrimRightKeepsFirst(s);
    }
  }

  /** White space at the left is all that trimming takes off there. */
  lemma {:induction false} TrimLeftSplits(s: string) returns (space: string)
    ensures AllSpace(space) && s == space + TrimLeft(s)
  {
    if s != "" && IsSpace(s[0]) {
      var rest := TrimLeftSplits(s[1..]);
      space := [s[0]] + rest;
    } else {
      space := "";
    }
  }

  lemma {:induction false} TrimRightSplits(s: string) returns (space: string)
    ensures AllSpace(space) && s == TrimRight(s) + space
  {
    if s != "" && IsSpace(s[|s| - 1]) {
      var rest := TrimRightSplits(s[..|s| - 1]);
      space := rest + [s[|s| - 1]];
    } else {
      space := "";
    }
  }

  lemma {:induction false} TrimLeftAfterSpace(space: string, s: string)
    requires AllSpace(space) && (s == "" || !IsSpace(s[0]))
    ensures TrimLeft(space + s) == s
  {
    if space == "" {
      assert space + s == s;
    } else {
      assert space[0] in space && forall c <- space[1..] :: c in space;
      TrimLeftAfterSpace(space[1..], s);
      assert (space + s)[1..] == space[1..] + s;
    }
  }

  lemma {:induction false} TrimRightBeforeSpace(s: string, space: string)
    requires AllSpace(space) && (s == "" || !IsSpace(s[|s| - 1]))
    ensures TrimRight(s + space) == s
  {
    if space == "" {
      assert s + space == s;
    } else {
      var n := |space| - 1;
      assert space[n] in space && forall c <- space[..n] :: c in space;
      TrimRightBeforeSpace(s, space[..n]);
      assert (s + space)[..|s + space| - 1] == s + space[..n];
    }
  }

  lemma {:induction false} LowerConcat(a: string, b: string)
    ensures Lower(a + b) == Lower(a) + Lower(b)
  {
    if a == "" {
      assert a + b == b;
    } else {
      LowerConcat(a[1..], b);
      assert (a + b)[0] == a[0] && (a + b)[1..] == a[1..] + b;
    }
  }

  lemma {:induction false} LowerAt(s: string, i: nat)
    requires i < |s|
    ensures Lower(s)[i] == LowerChar(s[i])
  {
    if i > 0 {
      LowerAt(s[1..], i - 1);
    }
  }

  lemma {:induction false} LowerLeavesLower(s: string)
    requires forall c <- s :: LowerChar(c) == c
    ensures Lower(s) == s
  {
    if s != "" {
      assert s[0] in s;
      LowerLeavesLower(s[1..]);
    }
  }

  lemma {:induction false} AbsentCharacter(s: string, c: char)
    requires c !in s
    ensures !Contains(s, [c])
  {
    if s != "" {
      assert s[0] in s;
      AbsentCharacter(s[1..], c);
    }
  }

  /// Replacement

  /** `x` read from position `i` and `y` differ within their first three characters. */
  predicate ApartAt(x: string, i: nat, y: string) {
    i < |x| && y != "" &&
    ( || x[i] != y[0]
      || (i + 1 < |x| && 1 < |y| && x[i + 1] != y[1])
      || (i + 2 < |x| && 2 < |y| && x[i + 2] != y[2]))
  }

  /** No occurrence of `t` in any text can share a character with a copy of `b`. */
  predicate Inert(b: string, t: string) {
    && (forall i :: 0 <= i < |t| ==> ApartAt(t, i, b))
    && (forall i :: 0 <= i < |b| ==> ApartAt(b, i, t))
  }

  lemma {:induction false} AbsentFromSuffix(s: string, t: string, k: nat)
    requires k <= |s| && !Contains(s, t)
    ensures !Contains(s[k..], t)
  {
    if k > 0 {
      AbsentFromSuffix(s[1..], t, k - 1);
      assert s[1..][k - 1..] == s[k..];
    }
  }

  lemma {:induction false} AbsentAfterInertText(b: string, k: nat, rest: string, t: string)
    requires k <= |b| && Inert(b, t) && !Contains(rest, t)
    ensures !Contains(b[k..] + rest, t)
    decreases |b| - k
  {
    var s := b[k..] + rest;
    if k == |b| {
      assert s == rest;
    } else {
      assert ApartAt(b, k, t);
      assert forall j :: 0 <= j < |b| - k ==> s[j] == b[k + j];
      AbsentAfterInertText(b, k + 1, rest, t);
      assert s[1..] == b[k + 1..] + rest;
    }
  }

  /** A prefix that cannot touch the replacement text was there before the replacement. */
  lemma {:induction false} PrefixPredatesReplacement(s: string, a: string, b: string, t: string, k: nat)
    requires a != "" && k <= |t| && Inert(b, t) && t[k..] <= ReplaceAll(s, a, b)
    ensures t[k..] <= s
    decreases |t| - k
  {
    if k < |t| {
      var r := ReplaceAll(s, a, b);
      assert ApartAt(t, k, b);
      assert forall j :: 0 <= j < |t| - k ==> t[k + j] == t[k..][j] == r[j];
      if !(a <= s) {
        assert r[1..] == ReplaceAll(s[1..], a, b);
        assert t[k + 1..] == t[k..][1..] <= r[1..];
        PrefixPredatesReplacement(s[1..], a, b, t, k + 1);
        assert t[k..] == [t[k]] + t[k + 1..];
        assert s == [s[0]] + s[1..];
      }
    }
  }

  /** Replacing by a text that cannot overlap `t` creates no occurrence of `t`. */
  lemma {:induction false} ReplacementCreatesNone(s: string, a: string, b: string, t: string)
    requires a != "" && t != "" && Inert(b, t) && !Contains(s, t)
    ensures !Contains(ReplaceAll(s, a, b), t)
  {
    if a <= s {
      AbsentFromSuffix(s, t, |a|);
      ReplacementCreatesNone(s[|a|..], a, b, t);
      AbsentAfterInertText(b, 0, ReplaceAll(s[|a|..], a, b), t);
    } else if s != "" {
      var r := ReplaceAll(s, a, b);
      assert r[1..] == ReplaceAll(s[1..], a, b);
      ReplacementCreatesNone(s[1..], a, b, t);
      if t <= r {
        PrefixPredatesReplacement(s, a, b, t, 0);
      }
    }
  }

  lemma {:induction false} ReplacementRemovesAll(s: string, a: string, b: string)
    requires a != "" && Inert(b, a)
    ensures !Contains(ReplaceAll(s, a, b), a)
  {
    if a <= s {
      ReplacementRemovesAll(s[|a|..], a, b);
      AbsentAfterInertText(b, 0, ReplaceAll(s[|a|..], a, b), a);
    } else if s != "" {
      var r := ReplaceAll(s, a, b);
      assert r[1..] == ReplaceAll(s[1..], a, b);
      ReplacementRemovesAll(s[1..], a, b);
      if a <= r {
        PrefixPredatesReplacement(s, a, b, a, 0);
      }
    }
  }

  lemma {:induction false} ReplacingNothing(s: string, a: string, b: string)
    requires a != "" && !Contains(s, a)
    ensures ReplaceAll(s, a, b) == s
  {
    if s != "" {
      ReplacingNothing(s[1..], a, b);
    }
  }

  /// Splitting

  lemma {:induction false} SplitWithoutSeparator(s: string, sep: char)
    requires sep !in s
    ensures Split(s, sep) == [s]
  {
    if s != "" {
      SplitWithoutSeparator(s[1..], sep);
      assert s == [s[0]] + s[1..];
    }
  }

  lemma {:induction false} SplitFirst(s: string, sep: char, rest: string)
    requires sep !in s
    ensures Split(s + [sep] + rest, sep) == [s] + Split(rest, sep)
  {
    var whole := s + [sep] + rest;
    if s == "" {
      assert whole[1..] == rest;
    } else {
      SplitFirst(s[1..], sep, rest);
      assert whole[1..] == s[1..] + [sep] + rest;
      assert s == [s[0]] + s[1..];
    }
  }

  lemma {:induction false} SplitJoin(parts: seq<string>, sep: char)
    requires parts != [] && forall p <- parts :: sep !in p
    ensures Split(Join(parts, sep), sep) == parts
  {
    assert parts[0] in parts;
    if |parts| == 1 {
      SplitWithoutSeparator(parts[0], sep);
    } else {
      SplitJoin(parts[1..], sep);
      SplitFirst(parts[0], sep, Join(parts[1..], sep));
    }
  }

  /** Every piece of a split text occurs in the text. */
  lemma {:induction false} SplitPartOccurs(s: string, sep: char, part: string)
    requires part in Split(s, sep)
    ensures Contains(s, part)
  {
    if s != "" {
      var rest := Split(s[1..], sep);
      if s[0] != sep && part == [s[0]] + rest[0] {
        SplitHeadIsPrefix(s[1..], sep);
        assert part <= s;
      } else if part != "" {
        assert part in rest;
        SplitPartOccurs(s[1..], sep, part);
      }
    }
  }

  lemma {:induction false} SplitHeadIsPrefix(s: string, sep: char)
    ensures Split(s, sep)[0] <= s
  {
    if s != "" {
      SplitHeadIsPrefix(s[1..], sep);
    }
  }
}
