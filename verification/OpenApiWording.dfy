/** What rewriting makes of a text: which wording replaces which, in what order, and that it works word by word. */
module OpenApiWording {
  import opened Sequences
  import opened Text
  import opened OpenApiStrip
  import opened OpenApiRedaction

  /** The nine legacy keys become "company"; a role and two adjectives have wordings of their own. */
  lemma WordingOf(r: Replacement)
    requires r in REPLACEMENTS
    ensures r.text == match r.token
                      case "org_admin" => "platform_admin"
                      case "tenant-scoped" => "single-company"
                      case "org-scoped" => "single-company"
                      case _ => "company"
    ensures r.token in LEGACY_KEYS || r.token in ["org_admin", "tenant-scoped", "org-scoped"]
  {
  }

  /// One replacement

  lemma StepOver(c: char, rest: string, token: string, text: string)
    requires token != "" && !(token <= [c] + rest)
    ensures ReplaceAll([c] + rest, token, text) == [c] + ReplaceAll(rest, token, text)
  {
    assert ([c] + rest)[1..] == rest;
  }

  lemma Replaced(token: string, rest: string, text: string)
    requires token != ""
    ensures ReplaceAll(token + rest, token, text) == text + ReplaceAll(rest, token, text)
  {
    assert (token + rest)[|token|..] == rest;
  }

  lemma NotYet(before: string, token: string, after: string)
    requires before != "" && token != "" && !Contains(before + token[..|token| - 1], token)
    ensures !(token <= before + token + after)
    ensures !Contains(before[1..] + token[..|token| - 1], token)
  {
    var s, known := before + token + after, before + token[..|token| - 1];
    assert s[..|known|] == known;
    assert known[1..] == before[1..] + token[..|token| - 1];
  }

  /** The first occurrence is replaced and the search goes on behind it. */
  lemma {:induction false} FirstOccurrence(before: string, token: string, text: string, after: string)
    requires token != "" && !Contains(before + token[..|token| - 1], token)
    ensures ReplaceAll(before + token + after, token, text) == before + text + ReplaceAll(after, token, text)
  {
    hide ReplaceAll, Contains;
    if before == "" {
      Replaced(token, after, text);
      assert before + token + after == token + after;
    } else {
      NotYet(before, token, after);
      FirstOccurrence(before[1..], token, text, after);
      var rest := before[1..] + token + after;
      assert before + token + after == [before[0]] + rest;
      StepOver(before[0], rest, token, text);
      assert before == [before[0]] + before[1..];
    }
  }

  /// The replacements in order

  /** A list of replacements is done one part after the other. */
  lemma {:induction false} OneAfterTheOther(s: string, first: seq<Replacement>, second: seq<Replacement>)
    requires Usable(first) && Usable(second)
    ensures Usable(first + second)
    ensures ReplaceEach(s, first + second) == ReplaceEach(ReplaceEach(s, first), second)
    decreases first
  {
    if first == [] {
      assert first + second == second;
    } else {
      var r := first[0];
      OneAfterTheOther(ReplaceAll(s, r.token, r.text), first[1..], second);
      assert (first + second)[1..] == first[1..] + second;
    }
  }

  lemma SingleReplacement(s: string, r: Replacement)
    requires r.token != ""
    ensures ReplaceEach(s, [r]) == ReplaceAll(s, r.token, r.text)
  {
    assert [r][1..] == [];
  }

  /// Word by word

  lemma StartsBefore(a: string, c: char, b: string, token: string)
    requires token != "" && c !in token
    ensures token <= a + [c] + b <==> token <= a
  {
    var s := a + [c] + b;
    assert s[..|a|] == a && s[|a|] == c;
  }

  lemma {:induction false} ReplacedApart(a: string, c: char, b: string, token: string, text: string)
    requires token != "" && c !in token
    ensures ReplaceAll(a + [c] + b, token, text) == ReplaceAll(a, token, text) + [c] + ReplaceAll(b, token, text)
  {
    hide ReplaceAll;
    StartsBefore(a, c, b, token);
    var end := [c] + ReplaceAll(b, token, text);
    if a == "" {
      assert a + [c] + b == [c] + b;
      StepOver(c, b, token, text);
      NothingReplaced(token, text);
    } else if token <= a {
      var rest := a[|token|..];
      ReplacedApart(rest, c, b, token, text);
      assert a == token + rest && a + [c] + b == token + (rest + [c] + b);
      Replaced(token, rest, text);
      Replaced(token, rest + [c] + b, text);
      Regroup(text, ReplaceAll(rest, token, text), end);
    } else {
      var rest := a[1..];
      ReplacedApart(rest, c, b, token, text);
      assert a == [a[0]] + rest && a + [c] + b == [a[0]] + (rest + [c] + b);
      StepOver(a[0], rest, token, text);
      StepOver(a[0], rest + [c] + b, token, text);
      Regroup([a[0]], ReplaceAll(rest, token, text), end);
    }
    Regroup(ReplaceAll(a, token, text), [c], ReplaceAll(b, token, text));
  }

  lemma NothingReplaced(token: string, text: string)
    requires token != ""
    ensures ReplaceAll("", token, text) == ""
  {
  }

  lemma {:induction false} EachReplacedApart(a: string, c: char, b: string, repl: seq<Replacement>)
    requires Usable(repl) && forall r <- repl :: c !in r.token
    ensures ReplaceEach(a + [c] + b, repl) == ReplaceEach(a, repl) + [c] + ReplaceEach(b, repl)
    decreases repl
  {
    if repl != [] {
      var r := repl[0];
      assert r in repl;
      ReplacedApart(a, c, b, r.token, r.text);
      EachReplacedApart(ReplaceAll(a, r.token, r.text), c, ReplaceAll(b, r.token, r.text), repl[1..]);
    }
  }

  /** A character no token holds, such as a space or a slash, cuts a text into parts that are rewritten each by
      itself. */
  lemma RewrittenWordByWord(a: string, c: char, b: string)
    requires forall r <- REPLACEMENTS :: c !in r.token
    ensures RedactText(a + [c] + b) == RedactText(a) + [c] + RedactText(b)
  {
    ReplacementsDoNotOverlap();
    EachReplacedApart(a, c, b, REPLACEMENTS);
  }
}
