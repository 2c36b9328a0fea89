/** The `{{KEY}}` renderer: one left-to-right pass over the template. */
module EmailTemplate {
  import opened Common

  /** \w */
  predicate IsWord(c: char) {
    'a' <= c <= 'z' || 'A' <= c <= 'Z' || '0' <= c <= '9' || c == '_'
  }

  /** The length of the longest run of word characters at the front. */
  function WordRun(s: string): (n: nat)
    ensures n <= |s|
    ensures forall k :: 0 <= k < n ==> IsWord(s[k])
    ensures n < |s| ==> !IsWord(s[n])
  {
    if s != [] && IsWord(s[0]) then 1 + WordRun(s[1..]) else 0
  }

  lemma WordRunEnds(s: string, n: nat)
    requires n < |s| && !IsWord(s[n]) && forall k :: 0 <= k < n ==> IsWord(s[k])
    ensures WordRun(s) == n
  {
  }

  datatype Piece = Literal(c: char) | Hole(key: string)

  predicate IsKey(key: string) {
    key != [] && forall k :: 0 <= k < |key| ==> IsWord(key[k])
  }

  lemma WordIsKey(key: string)
    requires key != "" && forall c :: c in key ==> 'a' <= c <= 'z' || 'A' <= c <= 'Z' || '0' <= c <= '9' || c == '_'
    ensures IsKey(key)
  {
    forall k | 0 <= k < |key|
      ensures IsWord(key[k])
    {
      assert key[k] in key;
    }
  }

  function Print(pieces: seq<Piece>): string {
    if pieces == [] then ""
    else (if pieces[0].Literal? then [pieces[0].c] else "{{" + pieces[0].key + "}}") + Print(pieces[1..])
  }

  /** Some placeholder starts at the front of the text. */
  ghost predicate StartsWithHole(s: string) {
    exists key :: IsKey(key) && "{{" + key + "}}" <= s
  }

  /**
   * The pieces print the template, every hole has a word as its key, and no literal character is the start of a
   * placeholder: the holes are the leftmost ones.
   */
  ghost predicate Splits(tpl: string, pieces: seq<Piece>)
    decreases |pieces|
  {
    && Print(pieces) == tpl
    && (pieces != [] ==>
          && (if pieces[0].Hole? then IsKey(pieces[0].key) else !StartsWithHole(tpl))
          && Splits(Print(pieces[1..]), pieces[1..]))
  }

  // ---------- Matching ----------

  /** The regular expression at the front: the length of its match, or 0. */
  function MatchLength(s: string): nat {
    if |s| >= 2 && s[0] == '{' && s[1] == '{' then
      var n := WordRun(s[2..]);
      if n > 0 && |s| >= n + 4 && s[n + 2] == '}' && s[n + 3] == '}' then n + 4 else 0
    else 0
  }

  /** Greedy matching needs no backtracking: any placeholder at the front is the one it finds. */
  lemma MatchIsTheOnlyHole(s: string, key: string)
    requires IsKey(key) && "{{" + key + "}}" <= s
    ensures MatchLength(s) == |key| + 4 && s[2..MatchLength(s) - 2] == key
  {
    var p := "{{" + key + "}}";
    assert p[0] == '{' && p[1] == '{' && p[|key| + 2] == '}' && p[|key| + 3] == '}';
    assert s[..|p|] == p;
    forall k | 0 <= k < |key|
      ensures s[2..][k] == key[k]
    {
      assert s[k + 2] == p[k + 2];
    }
    assert s[2..][|key|] == s[|key| + 2] == '}';
    WordRunEnds(s[2..], |key|);
    assert s[2..|key| + 2] == s[2..][..|key|] == key;
  }

  lemma MatchIsHole(s: string)
    ensures MatchLength(s) > 0 <==> StartsWithHole(s)
    ensures MatchLength(s) > 0 ==>
              4 < MatchLength(s) <= |s| && IsKey(s[2..MatchLength(s) - 2])
              && s == "{{" + s[2..MatchLength(s) - 2] + "}}" + s[MatchLength(s)..]
  {
    var n := MatchLength(s);
    if n > 0 {
      var key := s[2..n - 2];
      assert key == s[2..][..n - 4];
      assert s == "{{" + key + "}}" + s[n..];
      assert IsKey(key) && "{{" + key + "}}" <= s;
    }
    if key :| IsKey(key) && "{{" + key + "}}" <= s {
      MatchIsTheOnlyHole(s, key);
    }
  }

  /** The split of a template. */
  function Split(tpl: string): (pieces: seq<Piece>)
    decreases |tpl|
  {
    if tpl == "" then []
    else
      var n := MatchLength(tpl);
      if 4 < n <= |tpl| then [Hole(tpl[2..n - 2])] + Split(tpl[n..]) else [Literal(tpl[0])] + Split(tpl[1..])
  }

  lemma {:induction false} SplitSplits(tpl: string)
    ensures Splits(tpl, Split(tpl))
    decreases |tpl|
  {
    if tpl != "" {
      MatchIsHole(tpl);
      var n := MatchLength(tpl);
      var pieces := Split(tpl);
      if 4 < n <= |tpl| {
        SplitSplits(tpl[n..]);
        assert pieces[1..] == Split(tpl[n..]);
      } else {
        SplitSplits(tpl[1..]);
        assert pieces[1..] == Split(tpl[1..]);
        assert [tpl[0]] + tpl[1..] == tpl;
      }
    }
  }

  /** The split is the only one, and printing it gives the template back. */
  lemma {:induction false} SplitIsUnique(tpl: string, pieces: seq<Piece>)
    ensures Splits(tpl, pieces) <==> pieces == Split(tpl)
    decreases |pieces|
  {
    SplitSplits(tpl);
    if Splits(tpl, pieces) && pieces != [] {
      var rest := Print(pieces[1..]);
      SplitIsUnique(rest, pieces[1..]);
      MatchIsHole(tpl);
      if pieces[0].Hole? {
        var p := "{{" + pieces[0].key + "}}";
        assert tpl == p + rest;
        MatchIsTheOnlyHole(tpl, pieces[0].key);
        assert tpl[|p|..] == rest;
      } else {
        assert tpl == [pieces[0].c] + rest;
        assert tpl[1..] == rest;
      }
      assert pieces == [pieces[0]] + pieces[1..];
    }
  }

  /** Text without an opening brace has no placeholder. */
  lemma {:induction false} PlainTextIsLiteral(text: string, rest: string)
    requires '{' !in text
    ensures Split(text + rest) == Literals(text) + Split(rest)
  {
    if text == "" {
      assert text + rest == rest;
    } else {
      assert (text + rest)[1..] == text[1..] + rest;
      PlainTextIsLiteral(text[1..], rest);
      assert [Literal(text[0])] + (Literals(text[1..]) + Split(rest)) == [Literal(text[0])] + Literals(text[1..]) + Split(rest);
    }
  }

  function Literals(text: string): seq<Piece> {
    if text == "" then [] else [Literal(text[0])] + Literals(text[1..])
  }

  // ---------- Rendering ----------

  /** `vars[key]`: absent properties read as None, inherited ones as whatever they hold. */
  type Vars = string -> Option<string>

  function Value(vars: Vars, key: string): string {
    if vars(key).Some? then vars(key).value else ""
  }

  /** Every piece on its own: literals stay, holes become values, values are not looked at again. */
  function Fill(pieces: seq<Piece>, vars: Vars): string {
    if pieces == [] then ""
    else (if pieces[0].Literal? then [pieces[0].c] else Value(vars, pieces[0].key)) + Fill(pieces[1..], vars)
  }

  lemma FillCons(piece: Piece, rest: seq<Piece>, vars: Vars)
    ensures Fill([piece] + rest, vars)
            == (if piece.Literal? then [piece.c] else Value(vars, piece.key)) + Fill(rest, vars)
  {
  }

  lemma {:induction false} FillSplit(pre: seq<Piece>, post: seq<Piece>, vars: Vars)
    ensures Fill(pre + post, vars) == Fill(pre, vars) + Fill(post, vars)
  {
    if pre == [] {
      assert pre + post == post;
    } else {
      assert pre + post == [pre[0]] + (pre[1..] + post);
      FillSplit(pre[1..], post, vars);
      FillCons(pre[0], pre[1..] + post, vars);
    }
  }

  lemma FillAround(pre: seq<Piece>, piece: Piece, post: seq<Piece>, vars: Vars)
    ensures Fill(pre + [piece] + post, vars) == Fill(pre, vars) + Fill([piece], vars) + Fill(post, vars)
  {
    FillSplit(pre + [piece], post, vars);
    FillSplit(pre, [piece], vars);
  }

  /** A literal stays; what comes before and after is rendered on its own. */
  lemma LiteralStays(tpl: string, pre: seq<Piece>, c: char, post: seq<Piece>, vars: Vars)
    requires Split(tpl) == pre + [Literal(c)] + post
    ensures Fill(Split(tpl), vars) == Fill(pre, vars) + [c] + Fill(post, vars)
  {
    FillAround(pre, Literal(c), post, vars);
    FillCons(Literal(c), [], vars);
    assert [Literal(c)] + [] == [Literal(c)] && [c] + "" == [c];
  }

  /** A placeholder is replaced by its variable, or by nothing when there is none. */
  lemma HoleIsReplaced(tpl: string, pre: seq<Piece>, key: string, post: seq<Piece>, v: string, vars: Vars)
    requires Split(tpl) == pre + [Hole(key)] + post
    requires vars(key) == Some(v) || (vars(key) == None && v == "")
    ensures Fill(Split(tpl), vars) == Fill(pre, vars) + v + Fill(post, vars)
  {
    FillAround(pre, Hole(key), post, vars);
    FillCons(Hole(key), [], vars);
    assert [Hole(key)] + [] == [Hole(key)] && v + "" == v;
  }

  /** One step of the pass: a match is replaced, any other character is copied. */
  lemma FillStep(s: string, vars: Vars)
    requires s != ""
    ensures var n := MatchLength(s);
            if n > 0 then
              4 < n <= |s| && Fill(Split(s), vars) == Value(vars, s[2..n - 2]) + Fill(Split(s[n..]), vars)
            else
              Fill(Split(s), vars) == [s[0]] + Fill(Split(s[1..]), vars)
  {
  }

  /** String.prototype.replace with a global pattern, as the scan it performs over the rest of the template. */
  method RenderTemplate(tpl: string, vars: Vars) returns (out: string)
    ensures out == Fill(Split(tpl), vars)
  {
    if tpl == "" { return ""; }
    out := "";
    var rest := tpl;
    ghost var result := Fill(Split(tpl), vars);
    while rest != ""
      invariant out + Fill(Split(rest), vars) == result
      decreases |rest|
    {
      var n := MatchLength(rest);
      FillStep(rest, vars);
      var piece := if n > 0 then Value(vars, rest[2..n - 2]) else [rest[0]];
      var next := if n > 0 then rest[n..] else rest[1..];
      ConcatAssociates(out, piece, Fill(Split(next), vars));
      out := out + piece;
      rest := next;
    }
  }

  lemma {:induction false} PlaceholdersFillAsPrinted(pieces: seq<Piece>, vars: Vars)
    requires forall key :: vars(key) == Some("{{" + key + "}}")
    ensures Fill(pieces, vars) == Print(pieces)
  {
    if pieces != [] {
      PlaceholdersFillAsPrinted(pieces[1..], vars);
    }
  }

  /** Rendering any template with every key as its own placeholder gives the template back: no text is dropped. */
  lemma {:induction false} RenderingPlaceholdersIsIdentity(tpl: string, vars: Vars)
    requires forall key :: vars(key) == Some("{{" + key + "}}")
    ensures Fill(Split(tpl), vars) == tpl
  {
    PlaceholdersFillAsPrinted(Split(tpl), vars);
    SplitSplits(tpl);
  }

  lemma {:induction false} FillLiterals(text: string, vars: Vars)
    ensures Fill(Literals(text), vars) == text
  {
    if text != "" {
      FillLiterals(text[1..], vars);
      FillCons(Literal(text[0]), Literals(text[1..]), vars);
    }
  }

  lemma HoleThenRest(key: string, rest: string)
    requires IsKey(key)
    ensures Split("{{" + key + "}}" + rest) == [Hole(key)] + Split(rest)
  {
    var tpl := "{{" + key + "}}" + rest;
    assert "{{" + key + "}}" <= tpl;
    MatchIsTheOnlyHole(tpl, key);
    assert tpl[|key| + 4..] == rest;
  }

  /** `Hi {{NAME}}, ...`: the text before the first placeholder stays, and the value stands in its place. */
  lemma FirstHoleIsReplaced(text: string, key: string, rest: string, v: string, vars: Vars)
    requires key != "" && forall c :: c in key ==> 'a' <= c <= 'z' || 'A' <= c <= 'Z' || '0' <= c <= '9' || c == '_'
    requires '{' !in text && (vars(key) == Some(v) || (vars(key) == None && v == ""))
    ensures Fill(Split(text + ("{{" + key + "}}" + rest)), vars) == text + v + Fill(Split(rest), vars)
  {
    WordIsKey(key);
    var tail := "{{" + key + "}}" + rest;
    PlainTextIsLiteral(text, tail);
    HoleThenRest(key, rest);
    FillSplit(Literals(text), Split(tail), vars);
    FillLiterals(text, vars);
    FillCons(Hole(key), Split(rest), vars);
    ConcatAssociates(text, v, Fill(Split(rest), vars));
  }

  /** Two braces around anything that is not a word stay as they are. */
  lemma OtherBracesStay(text: string, at: nat, vars: Vars)
    requires '{' !in text && '}' !in text && at < |text|
    requires var c := text[at]; !('a' <= c <= 'z' || 'A' <= c <= 'Z' || '0' <= c <= '9' || c == '_')
    ensures Fill(Split("{{" + text + "}}"), vars) == "{{" + text + "}}"
  {
    var tail := text + "}}";
    assert "{{" + text + "}}" == "{" + ("{" + tail);
    NotAKey(text, at);
    BraceRenders("{" + tail, vars);
    assert ("{" + tail)[1] == text[0] && text[0] in text;
    BraceRenders(tail, vars);
    PlainTextRenders(tail, vars);
  }

  lemma PlainTextRenders(text: string, vars: Vars)
    requires '{' !in text
    ensures Fill(Split(text), vars) == text
  {
    PlainTextIsLiteral(text, "");
    assert text + "" == text && Literals(text) + [] == Literals(text);
    FillLiterals(text, vars);
  }

  lemma BraceRenders(rest: string, vars: Vars)
    requires MatchLength("{" + rest) == 0
    ensures Fill(Split("{" + rest), vars) == "{" + Fill(Split(rest), vars)
  {
    BraceStays(rest);
    FillCons(Literal('{'), Split(rest), vars);
  }

  /** A brace at which no placeholder starts is a literal. */
  lemma BraceStays(rest: string)
    requires MatchLength("{" + rest) == 0
    ensures Split("{" + rest) == [Literal('{')] + Split(rest)
  {
    assert ("{" + rest)[1..] == rest;
  }

  lemma NotAKey(text: string, at: nat)
    requires '}' !in text && at < |text| && !IsWord(text[at])
    ensures MatchLength("{" + ("{" + (text + "}}"))) == 0
  {
    var tail := text + "}}";
    var tpl := "{" + ("{" + tail);
    assert tpl[2..] == tail;
    WordRunStopsBefore(tail, at);
    var n := WordRun(tail);
    assert n <= at && tpl[n + 2] == tail[n] == text[n];
    assert text[n] in text;
  }

  lemma {:induction false} WordRunStopsBefore(s: string, at: nat)
    requires at < |s| && !IsWord(s[at])
    ensures WordRun(s) <= at
  {
  }

  /** An extra brace is a literal: `{{{NAME}}}` renders to a brace, the variable or nothing, and a brace. */
  lemma TripleBraces(key: string, v: string, vars: Vars)
    requires key != "" && forall c :: c in key ==> 'a' <= c <= 'z' || 'A' <= c <= 'Z' || '0' <= c <= '9' || c == '_'
    requires vars(key) == Some(v) || (vars(key) == None && v == "")
    ensures Fill(Split("{{{" + key + "}}}"), vars) == "{" + v + "}"
  {
    var hole := "{{" + key + "}}" + "}";
    assert "{{{" + key + "}}}" == "{" + hole;
    assert hole == "{" + ("{" + (key + "}}" + "}"));
    BraceBeforeBraces(key + "}}" + "}", vars);
    FirstHoleIsReplaced("", key, "}", v, vars);
    assert "" + hole == hole && "" + v == v;
    PlainTextRenders("}", vars);
  }

  lemma BraceBeforeBraces(rest: string, vars: Vars)
    ensures Fill(Split("{" + ("{" + ("{" + rest))), vars) == "{" + Fill(Split("{" + ("{" + rest)), vars)
  {
    var s := "{" + ("{" + ("{" + rest));
    assert s[2..][0] == '{';
    BraceRenders("{" + ("{" + rest), vars);
  }
}
