/** Finding the caller in a stack trace: `path:line:col` parsing and the line loop. */
module StackLine {
  import opened Common
  import opened Text

  const NOT_FOUND := -1

  /** s.lastIndexOf(c, from): a negative start counts as 0, one past the end as the end. */
  function LastIndex(s: string, c: char, from: int): (i: int)
    ensures -1 <= i < |s|
    ensures i >= 0 ==> s[i] == c && (i <= from || i == 0)
    ensures forall j :: i < j < |s| && (j <= from || j == 0) ==> s[j] != c
    decreases if from < 0 then 0 else from
  {
    var start := if from < 0 then 0 else if from >= |s| then |s| - 1 else from;
    if s == [] then NOT_FOUND
    else if s[start] == c then start
    else if start == 0 then NOT_FOUND
    else LastIndex(s, c, start - 1)
  }

  /** The same, as the backward scan it is. */
  method LastIndexOf(s: string, c: char, from: int) returns (i: int)
    ensures i == LastIndex(s, c, from)
  {
    if s == [] { return NOT_FOUND; }
    i := if from < 0 then 0 else if from >= |s| then |s| - 1 else from;
    while i >= 0 && s[i] != c
      invariant -1 <= i < |s|
      invariant i >= 0 ==> LastIndex(s, c, i) == LastIndex(s, c, from)
      invariant i < 0 ==> LastIndex(s, c, from) == NOT_FOUND
      decreases i
    {
      i := i - 1;
    }
  }

  /** The first index of `c`, or -1. */
  function FirstIndex(s: string, c: char): (i: int)
    ensures -1 <= i < |s|
    ensures i >= 0 ==> s[i] == c
    ensures forall j :: 0 <= j < (if i < 0 then |s| else i) ==> s[j] != c
  {
    if s == [] then NOT_FOUND
    else if s[0] == c then 0
    else
      var rest := FirstIndex(s[1..], c);
      if rest < 0 then NOT_FOUND else rest + 1
  }

  /** s.slice(from, to) for non-negative bounds: empty when they cross. */
  function Slice(s: string, from: nat, to: nat): string {
    var end := if to < |s| then to else |s|;
    if from <= end then s[from..end] else ""
  }

  /** /^\d+$/ */
  predicate IsNumber(s: string) {
    s != "" && forall k :: 0 <= k < |s| ==> '0' <= s[k] <= '9'
  }

  datatype Location = Location(path: string, line: string, col: string)

  function Print(l: Location): string {
    l.path + ":" + l.line + ":" + l.col
  }

  function ParsePathLineCol(s: string): Option<Location> {
    var last := LastIndex(s, ':', |s|);
    if last < 0 then None
    else
      var second := LastIndex(s, ':', last - 1);
      if second < 0 then None else CutAt(s, second, last)
  }

  /** The two numeric parts are checked; the rest is the path. */
  function CutAt(s: string, second: nat, last: nat): Option<Location> {
    var line, col := Slice(s, second + 1, last), Slice(s, last + 1, |s|);
    if IsNumber(line) && IsNumber(col) then Some(Location(Slice(s, 0, second), line, col)) else None
  }

  /**
   * Parsing succeeds exactly on texts that end in colon, digits, colon, digits; it recovers any path, colons
   * included, and printing the result gives the text back.
   */
  lemma ParseIffPrinted(s: string, l: Location)
    ensures ParsePathLineCol(s) == Some(l) <==> s == Print(l) && IsNumber(l.line) && IsNumber(l.col)
  {
    if ParsePathLineCol(s) == Some(l) {
      ParsedPrintsBack(s);
    }
    if s == Print(l) && IsNumber(l.line) && IsNumber(l.col) {
      PrintedParses(s, l);
    }
  }

  lemma LastIndexIs(s: string, c: char, from: nat, i: nat)
    requires i < |s| && i <= from && s[i] == c
    requires forall j :: i < j < |s| && j <= from ==> s[j] != c
    ensures LastIndex(s, c, from) == i
  {
  }

  /** A text cut at two positions. */
  predicate Cut(s: string, p: int, q: int) {
    0 <= p < q < |s| && s[p] == ':' && s[q] == ':'
  }

  lemma PrintCuts(l: Location)
    ensures var s, p, q := Print(l), |l.path|, |l.path| + 1 + |l.line|;
            Cut(s, p, q) && s[..p] == l.path && s[p + 1..q] == l.line && s[q + 1..] == l.col
  {
  }

  lemma ParsedPrintsBack(s: string)
    requires ParsePathLineCol(s).Some?
    ensures Print(ParsePathLineCol(s).value) == s
    ensures IsNumber(ParsePathLineCol(s).value.line) && IsNumber(ParsePathLineCol(s).value.col)
  {
  }

  lemma LastColons(s: string, p: int, q: int)
    requires Cut(s, p, q) && IsNumber(s[p + 1..q]) && IsNumber(s[q + 1..|s|])
    ensures LastIndex(s, ':', |s|) == q && LastIndex(s, ':', q - 1) == p
  {
  }

  lemma ParseAtCut(s: string, p: int, q: int)
    requires Cut(s, p, q) && IsNumber(s[p + 1..q]) && IsNumber(s[q + 1..])
    ensures ParsePathLineCol(s) == Some(Location(s[..p], s[p + 1..q], s[q + 1..]))
  {
    assert s[q + 1..|s|] == s[q + 1..];
    LastColons(s, p, q);
    SlicesAtCut(s, p, q);
  }

  lemma SlicesAtCut(s: string, p: int, q: int)
    requires Cut(s, p, q) && IsNumber(s[p + 1..q]) && IsNumber(s[q + 1..])
    ensures CutAt(s, p, q) == Some(Location(s[..p], s[p + 1..q], s[q + 1..]))
  {
    assert s[q + 1..|s|] == s[q + 1..];
  }

  lemma PrintedParses(s: string, l: Location)
    requires s == Print(l) && IsNumber(l.line) && IsNumber(l.col)
    ensures ParsePathLineCol(s) == Some(l)
  {
    var p, q := |l.path|, |l.path| + 1 + |l.line|;
    assert Cut(s, p, q) && s[..p] == l.path && s[p + 1..q] == l.line && s[q + 1..] == l.col by {
      PrintCuts(l);
    }
    ParseAtCut(s, p, q);
  }

  // ---------- Stack lines ----------

  /** The location in a line such as `at f (path:12:3)`. */
  function ParseParen(line: string): Option<Location> {
    var start, end := FirstIndex(line, '('), LastIndex(line, ')', |line|);
    if start < 0 || end < 0 || end <= start + 1 then None else ParsePathLineCol(Slice(line, start + 1, end))
  }

  lemma FirstIndexIs(s: string, c: char, i: nat)
    requires i < |s| && s[i] == c && c !in s[..i]
    ensures FirstIndex(s, c) == i
  {
  }

  lemma ParenAt(line: string, i: nat, j: nat)
    requires i + 1 < j < |line| && line[i] == '(' && '(' !in line[..i] && line[j] == ')' && ')' !in line[j + 1..]
    ensures ParseParen(line) == ParsePathLineCol(line[i + 1..j])
  {
    FirstIndexIs(line, '(', i);
    forall k | j < k < |line|
      ensures line[k] != ')'
    {
      assert line[k] == line[j + 1..][k - j - 1];
    }
    LastIndexIs(line, ')', |line|, j);
  }

  /** The paren parser recovers a location from between the first opening and the last closing parenthesis. */
  lemma ParenRecovers(line: string, i: nat, j: nat, l: Location)
    requires i + 1 < j < |line| && line[i] == '(' && '(' !in line[..i] && line[j] == ')' && ')' !in line[j + 1..]
    requires line[i + 1..j] == Print(l) && IsNumber(l.line) && IsNumber(l.col)
    ensures ParseParen(line) == Some(l)
  {
    ParenAt(line, i, j);
    PrintedParses(line[i + 1..j], l);
  }

  /** The location in a line such as `at path:12:3`. */
  function ParseAt(line: string): Option<Location> {
    var at := IndexOf(line, "at ");
    if at < 0 then None else ParsePathLineCol(Trim(line[at + 3..]))
  }

  lemma PrintedIsTrimmed(l: Location)
    requires IsNumber(l.line) && IsNumber(l.col) && !IsSpace(Print(l)[0])
    ensures IsTrimmed(Print(l))
  {
    var s := Print(l);
    assert s[|s| - 1] == l.col[|l.col| - 1];
  }

  lemma AtLine(front: string, before: string, s: string, after: string)
    requires s != [] && IsTrimmed(s) && AllSpace(before) && AllSpace(after)
    requires IndexOf(front + "at " + (before + s + after), "at ") == |front|
    ensures ParseAt(front + "at " + (before + s + after)) == ParsePathLineCol(s)
  {
    var rest := before + s + after;
    assert (front + "at " + rest)[|front| + 3..] == rest;
    TrimDropsWhiteSpace(before, s, after);
  }

  /** The at parser recovers a location that follows the line's first `at `, whatever white space surrounds it. */
  lemma AtRecovers(front: string, before: string, l: Location, after: string)
    requires IsNumber(l.line) && IsNumber(l.col) && !IsSpace(Print(l)[0])
    requires AllSpace(before) && AllSpace(after)
    requires IndexOf(front + "at " + (before + Print(l) + after), "at ") == |front|
    ensures ParseAt(front + "at " + (before + Print(l) + after)) == Some(l)
  {
    PrintedIsTrimmed(l);
    AtLine(front, before, Print(l), after);
    PrintedParses(Print(l), l);
  }

  function LineLocation(line: string): Option<Location> {
    var paren := ParseParen(line);
    if paren.Some? then paren else ParseAt(line)
  }

  predicate Skipped(line: string) {
    IndexOf(line, "logger") >= 0 || IndexOf(line, "node_modules") >= 0
  }

  /** `filePath.split('/').pop() || filePath` */
  function FileName(path: string): string {
    var slash := LastIndex(path, '/', |path|);
    if slash + 1 < |path| then path[slash + 1..] else path
  }

  /** `file` is what a path is shown as: the part after its last slash, or the whole path if that part is empty. */
  ghost predicate ShownAs(path: string, file: string) {
    || (path == file && '/' !in path)
    || (file != "" && '/' !in file && EndsIn(path, file))
    || (path == file && path != "" && path[|path| - 1] == '/')
  }

  ghost predicate EndsIn(path: string, file: string) {
    exists dir :: path == dir + "/" + file
  }

  lemma LastSlashOf(path: string, dir: string, file: string)
    requires path == dir + "/" + file && '/' !in file
    ensures LastIndex(path, '/', |path|) == |dir|
  {
    assert path[|dir|] == '/';
    forall j | |dir| < j < |path|
      ensures path[j] != '/'
    {
      assert path[j] == file[j - |dir| - 1];
    }
    LastIndexIs(path, '/', |path|, |dir|);
  }

  lemma CutAtLastSlash(path: string, slash: nat)
    requires slash == LastIndex(path, '/', |path|) && slash + 1 < |path|
    ensures '/' !in path[slash + 1..] && EndsIn(path, path[slash + 1..])
  {
    var file := path[slash + 1..];
    assert path == path[..slash] + "/" + file;
    forall k | 0 <= k < |file|
      ensures file[k] != '/'
    {
      assert file[k] == path[slash + 1 + k];
    }
  }

  lemma NoSlash(path: string)
    requires LastIndex(path, '/', |path|) < 0
    ensures '/' !in path
  {
  }

  lemma FileNameIsShown(path: string)
    ensures ShownAs(path, FileName(path))
  {
    var slash := LastIndex(path, '/', |path|);
    if slash < 0 {
      NoSlash(path);
      assert path[0..] == path;
    } else if slash + 1 < |path| {
      CutAtLastSlash(path, slash);
    }
  }

  /** Every path is shown in exactly one way, as its last segment. */
  lemma FileNameIsTheLastSegment(path: string, file: string)
    ensures ShownAs(path, file) <==> file == FileName(path)
  {
    FileNameIsShown(path);
    if ShownAs(path, file) {
      if file != "" && '/' !in file && EndsIn(path, file) {
        var dir :| path == dir + "/" + file;
        LastSlashOf(path, dir, file);
      } else if path == file && '/' !in path {
        assert LastIndex(path, '/', |path|) < 0;
      } else {
        LastSlashOf(path, path[..|path| - 1], "");
      }
    }
  }

  /** What one stack line says about the caller. */
  function CallerOf(line: string): Option<string> {
    var m := LineLocation(line);
    if Skipped(line) || m == None then None else Some(FileName(m.value.path) + ":" + m.value.line)
  }

  lemma {:induction false} IndexOfFinds(s: string, a: string, t: string, b: string)
    requires s == a + t + b
    ensures IndexOf(s, t) >= 0
  {
    assert s[|a|..] == t + b;
  }

  /** A line of the logger or of a dependency names nobody. */
  lemma SkippedLinesNameNobody(line: string, a: string, b: string)
    requires line == a + "logger" + b || line == a + "node_modules" + b
    ensures CallerOf(line) == None
  {
    if line == a + "logger" + b {
      IndexOfFinds(line, a, "logger", b);
    } else {
      IndexOfFinds(line, a, "node_modules", b);
    }
  }

  lemma FoundTextSplits(s: string, t: string)
    requires IndexOf(s, t) >= 0
    ensures exists a, b :: s == a + t + b
  {
    var i := IndexOf(s, t);
    assert s == s[..i] + t + s[i..][|t|..];
  }

  /** Nothing but these two words makes a line be skipped. */
  lemma SkippedContains(line: string)
    requires Skipped(line)
    ensures exists a, b :: line == a + "logger" + b || line == a + "node_modules" + b
  {
    if IndexOf(line, "logger") >= 0 {
      FoundTextSplits(line, "logger");
    } else {
      FoundTextSplits(line, "node_modules");
    }
  }

  /** A line with a location in parentheses names the file and its line number. */
  lemma ParenLineNames(line: string, i: nat, j: nat, l: Location, file: string)
    requires i + 1 < j < |line| && line[i] == '(' && '(' !in line[..i] && line[j] == ')' && ')' !in line[j + 1..]
    requires line[i + 1..j] == l.path + ":" + l.line + ":" + l.col && IsNumber(l.line) && IsNumber(l.col)
    requires !Skipped(line) && ShownAs(l.path, file)
    ensures CallerOf(line) == Some(file + ":" + l.line)
  {
    ParenRecovers(line, i, j, l);
    FileNameIsTheLastSegment(l.path, file);
  }

  /** A line without such a location, but with one after its first `at `, names that one. */
  lemma AtLineNames(front: string, before: string, l: Location, after: string, file: string)
    requires IsNumber(l.line) && IsNumber(l.col) && !IsSpace(Print(l)[0])
    requires AllSpace(before) && AllSpace(after)
    requires IndexOf(front + "at " + (before + Print(l) + after), "at ") == |front|
    requires ParseParen(front + "at " + (before + Print(l) + after)) == None
    requires !Skipped(front + "at " + (before + Print(l) + after)) && ShownAs(l.path, file)
    ensures CallerOf(front + "at " + (before + Print(l) + after)) == Some(file + ":" + l.line)
  {
    AtRecovers(front, before, l, after);
    FileNameIsTheLastSegment(l.path, file);
  }

  /** `i` is the first line, after the logger's own two, that names a caller. */
  ghost predicate FirstNamed(lines: seq<string>, name: string -> Option<string>, i: int) {
    && 2 <= i < |lines| && name(lines[i]).Some?
    && forall j :: 2 <= j < i ==> name(lines[j]) == None
  }

  method FirstCaller(lines: seq<string>, name: string -> Option<string>) returns (caller: string)
    ensures forall i :: FirstNamed(lines, name, i) ==> Some(caller) == name(lines[i])
    ensures caller != "" ==> exists i :: FirstNamed(lines, name, i)
    ensures (forall i :: 2 <= i < |lines| ==> name(lines[i]) == None) ==> caller == ""
  {
    var i := 2;
    while i < |lines|
      invariant 2 <= i
      invariant forall j :: 2 <= j < i && j < |lines| ==> name(lines[j]) == None
    {
      var m := name(lines[i]);
      if m.Some? {
        assert FirstNamed(lines, name, i);
        return m.value;
      }
      i := i + 1;
    }
    return "";
  }

  /** getCallerContext over the lines of a stack trace. */
  method GetCallerContext(lines: seq<string>) returns (caller: string)
    ensures forall i :: FirstNamed(lines, CallerOf, i) ==> Some(caller) == CallerOf(lines[i])
    ensures (forall i :: 2 <= i < |lines| ==> CallerOf(lines[i]) == None) ==> caller == ""
  {
    caller := FirstCaller(lines, CallerOf);
  }
}
