/** String.prototype.trim and substring search. */
module Text {
  /** The characters that String.prototype.trim removes. */
  predicate IsSpace(c: char) {
    var n := c as int;
    n in {0x9, 0xA, 0xB, 0xC, 0xD, 0x20, 0xA0, 0x1680, 0x2028, 0x2029, 0x202F, 0x205F, 0x3000, 0xFEFF}
    || 0x2000 <= n <= 0x200A
  }

  /** Of the ASCII characters, blank, tab, line feed, vertical tab, form feed and carriage return are white space. */
  lemma AsciiWhiteSpace(c: char)
    requires c as int <= 0x7F
    ensures IsSpace(c) <==> c in [' ', '\t', '\n', '\r', '\U{B}', '\U{C}']
  {
  }

  function TrimStart(s: string): string {
    if s != [] && IsSpace(s[0]) then TrimStart(s[1..]) else s
  }

  function TrimEnd(s: string): string {
    if s != [] && IsSpace(s[|s| - 1]) then TrimEnd(s[..|s| - 1]) else s
  }

  function Trim(s: string): string {
    TrimEnd(TrimStart(s))
  }

  predicate IsTrimmed(s: string) {
    s != [] ==> !IsSpace(s[0]) && !IsSpace(s[|s| - 1])
  }

  lemma {:induction false} TrimEndKeepsStart(s: string)
    ensures TrimEnd(s) <= s
    ensures TrimEnd(s) != [] ==> !IsSpace(TrimEnd(s)[|TrimEnd(s)| - 1])
  {
    if s != [] && IsSpace(s[|s| - 1]) {
      TrimEndKeepsStart(s[..|s| - 1]);
    }
  }

  lemma {:induction false} TrimStartCutsSpace(s: string)
    ensures TrimStart(s) != [] ==> !IsSpace(TrimStart(s)[0])
  {
    if s != [] && IsSpace(s[0]) {
      TrimStartCutsSpace(s[1..]);
    }
  }

  lemma TrimTrims(s: string)
    ensures IsTrimmed(Trim(s))
  {
    TrimStartCutsSpace(s);
    TrimEndKeepsStart(TrimStart(s));
  }

  predicate AllSpace(s: string) {
    forall k :: 0 <= k < |s| ==> IsSpace(s[k])
  }

  lemma {:induction false} TrimStartSkips(w: string, s: string)
    requires AllSpace(w) && (s != [] ==> !IsSpace(s[0]))
    ensures TrimStart(w + s) == s
  {
    if w == [] {
      assert w + s == s;
    } else {
      assert (w + s)[1..] == w[1..] + s;
      TrimStartSkips(w[1..], s);
    }
  }

  lemma {:induction false} TrimEndSkips(s: string, w: string)
    requires AllSpace(w) && (s != [] ==> !IsSpace(s[|s| - 1]))
    ensures TrimEnd(s + w) == s
  {
    if w == [] {
      assert s + w == s;
    } else {
      assert (s + w)[..|s + w| - 1] == s + w[..|w| - 1];
      TrimEndSkips(s, w[..|w| - 1]);
    }
  }

  /** Trimming drops exactly the white space around a text that starts and ends with something else. */
  lemma TrimDropsWhiteSpace(before: string, s: string, after: string)
    requires AllSpace(before) && AllSpace(after) && s != [] && IsTrimmed(s)
    ensures Trim(before + s + after) == s
  {
    assert before + s + after == before + (s + after);
    TrimStartSkips(before, s + after);
    TrimEndSkips(s, after);
  }

  /** s.indexOf(t): the first position at which `t` occurs, or -1. */
  function IndexOf(s: string, t: string): (i: int)
    ensures -1 <= i <= |s|
    ensures i >= 0 ==> t <= s[i..]
    ensures forall j :: 0 <= j < (if i < 0 then |s| + 1 else i) ==> !(t <= s[j..])
  {
    if t <= s then 0
    else if s == "" then -1
    else
      var rest := IndexOf(s[1..], t);
      assert forall j :: 0 < j <= |s| ==> s[j..] == s[1..][j - 1..];
      if rest < 0 then -1 else rest + 1
  }
}
