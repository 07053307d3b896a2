/** The script proposals a learner sends: which files a unified diff names, and why an accepted diff stays inside the
    paths it was confirmed for. */
module PatchPaths {
  import opened Wrappers
  import opened Text
  import Contracts

  // ----- allowed paths -----

  /** `[A-Za-z0-9._-]+` */
  predicate IsPart(part: string) {
    part != "" && forall i | 0 <= i < |part| :: IsAlnum(part[i]) || part[i] == '.' || part[i] == '_' || part[i] == '-'
  }

  /** `_relative_allowed_path` does not raise. */
  predicate Safe(path: string) {
    && path != "" && path[0] != '/' && path[0] != '\\'
    && Free(path, '\\') && ".." !in Split(path, '/')
    && forall i | 0 <= i < |Split(path, '/')| :: IsPart(Split(path, '/')[i])
  }

  // ----- lines -----

  /** The characters `splitlines` breaks at. */
  predicate IsBreak(c: char) {
    '\n' <= c <= '\r' || '\U{1C}' <= c <= '\U{1E}' || c == '\U{85}' || c == '\U{2028}' || c == '\U{2029}'
  }

  predicate Unbroken(s: string) {
    forall i | 0 <= i < |s| :: !IsBreak(s[i])
  }

  function LineEnd(s: string): (n: nat)
    ensures n <= |s| && Unbroken(s[..n]) && (n < |s| ==> IsBreak(s[n]))
  {
    if s == "" || IsBreak(s[0]) then 0
    else
      var n := LineEnd(s[1..]);
      assert s[..n + 1] == [s[0]] + s[1..][..n];
      n + 1
  }

  /** A carriage return and the newline after it are one break. */
  function BreakWidth(s: string, n: nat): nat
    requires n < |s|
  {
    if s[n] == '\r' && n + 1 < |s| && s[n + 1] == '\n' then 2 else 1
  }

  /** `text.splitlines()` */
  function SplitLines(s: string): seq<string>
    decreases |s|
  {
    var n := LineEnd(s);
    if s == "" then []
    else if n == |s| then [s]
    else [s[..n]] + SplitLines(s[n + BreakWidth(s, n)..])
  }

  // ----- the parser -----

  /** `text.split(c, 1)[0]` */
  function Cut(s: string, c: char): string {
    s[..Find(s, c)]
  }

  /** The path a line names: header lines only, up to the first tab or space, without its side. */
  function Target(line: string): Option<string> {
    if !("--- " <= line || "+++ " <= line) then None
    else
      var raw := Cut(Cut(line[4..], '\t'), ' ');
      if raw == "/dev/null" then None
      else if "a/" <= raw || "b/" <= raw then Some(raw[2..])
      else Some(raw)
  }

  function Named(lines: seq<string>): set<string> {
    set i | 0 <= i < |lines| && Target(lines[i]).Some? :: Target(lines[i]).value
  }

  function PathsIn(patch: string): set<string> {
    Named(SplitLines(patch))
  }

  /** `_patch_paths`: every named path is checked, and there has to be one. */
  method ReadPaths(patch: string) returns (paths: Option<set<string>>)
    ensures paths.Some? <==> PathsIn(patch) != {} && forall p | p in PathsIn(patch) :: Safe(p)
    ensures paths.Some? ==> paths.value == PathsIn(patch)
  {
    hide Safe, Target;
    var lines := SplitLines(patch);
    var found: set<string> := {};
    for n := 0 to |lines|
      invariant found == Named(lines[..n])
      invariant forall p | p in found :: Safe(p)
    {
      NamedStep(lines, n);
      var target := Target(lines[n]);
      if target.Some? {
        if !Safe(target.value) {
          NamedPrefix(lines, n + 1);
          return None;
        }
        found := found + {target.value};
      }
    }
    assert lines[..|lines|] == lines;
    paths := if found == {} then None else Some(found);
  }

  lemma NamedStep(lines: seq<string>, n: nat)
    requires n < |lines|
    ensures Named(lines[..n + 1]) ==
            Named(lines[..n]) + (if Target(lines[n]).Some? then {Target(lines[n]).value} else {})
  {
    hide Target;
    var shorter, longer := lines[..n], lines[..n + 1];
    assert longer == shorter + [lines[n]];
    NamedAppend(shorter, [lines[n]]);
    assert Named([lines[n]]) == if Target(lines[n]).Some? then {Target(lines[n]).value} else {} by {
      if Target(lines[n]).Some? { assert [lines[n]][0] == lines[n]; }
    }
  }

  lemma NamedAppend(a: seq<string>, b: seq<string>)
    ensures Named(a + b) == Named(a) + Named(b)
  {
    hide Target;
    forall p | p in Named(a) ensures p in Named(a + b) {
      var i :| 0 <= i < |a| && Target(a[i]) == Some(p);
      assert (a + b)[i] == a[i];
    }
    forall p | p in Named(b) ensures p in Named(a + b) {
      var i :| 0 <= i < |b| && Target(b[i]) == Some(p);
      assert (a + b)[|a| + i] == b[i];
    }
    forall p | p in Named(a + b) ensures p in Named(a) + Named(b) {
      var i :| 0 <= i < |a + b| && Target((a + b)[i]) == Some(p);
      if i < |a| { assert a[i] == (a + b)[i]; } else { assert b[i - |a|] == (a + b)[i]; }
    }
  }

  lemma NamedPrefix(lines: seq<string>, n: nat)
    requires n <= |lines|
    ensures Named(lines[..n]) <= Named(lines)
  {
    assert lines[..n] + lines[n..] == lines;
    NamedAppend(lines[..n], lines[n..]);
  }

  // ----- proposals -----

  datatype ScriptProposal = ScriptProposal(
    proposalId: string, ownerId: string, entrypointId: string, baseRecipeDigest: string, patch: string,
    allowedPaths: seq<string>, requiresConfirmation: bool, schemaVersion: int)
  {
    /** Everything about the record but its paths. */
    predicate Identified() {
      && schemaVersion == Contracts.SCHEMA_VERSION
      && Contracts.IsIdentifier(proposalId) && Contracts.IsIdentifier(ownerId) && Contracts.IsIdentifier(entrypointId)
      && Contracts.IsDigest(baseRecipeDigest) && Contracts.IsText(patch, 200000) && requiresConfirmation
    }

    predicate AllowListed() {
      && allowedPaths != [] && (forall i | 0 <= i < |allowedPaths| :: Safe(allowedPaths[i]))
      && forall i, j | 0 <= i < j < |allowedPaths| :: allowedPaths[i] != allowedPaths[j]
    }

    /** `validate` does not raise. */
    predicate Valid() {
      && Identified() && AllowListed()
      && PathsIn(patch) != {} && forall p | p in PathsIn(patch) :: Safe(p) && p in allowedPaths
    }
  }

  // ----- structured diffs -----

  /** One side of a changed file: absent, or a path with an optional tab-separated stamp behind it. */
  datatype Side = Absent | At(path: string, stamp: string)

  /** One changed file: free text before its headers (extended headers), both sides, and its hunks. */
  datatype FileChange = FileChange(before: string, from: Side, into: Side, hunks: string)

  predicate Terminated(s: string) {
    s == "" || s[|s| - 1] == '\n'
  }

  /** Nothing a header line could not carry: no space, no tab, no line boundary. */
  predicate Plain(path: string) {
    Unbroken(path) && Free(path, ' ') && Free(path, '\t')
  }

  predicate SideFormed(s: Side) {
    s.At? ==> Plain(s.path) && Unbroken(s.stamp) && (s.stamp == "" || s.stamp[0] == '\t')
  }

  /** Free text ends its lines; only the hunks of the last file may stop short. */
  predicate WellFormed(diff: seq<FileChange>) {
    forall i | 0 <= i < |diff| ::
      && SideFormed(diff[i].from) && SideFormed(diff[i].into) && Terminated(diff[i].before)
      && (i < |diff| - 1 ==> Terminated(diff[i].hunks))
  }

  function Header(marker: string, prefix: string, s: Side): string {
    marker + (if s.At? then prefix + s.path + s.stamp else "/dev/null")
  }

  function Headers(f: FileChange): string {
    (Header("--- ", "a/", f.from) + "\n") + (Header("+++ ", "b/", f.into) + "\n")
  }

  function Render(diff: seq<FileChange>): string {
    if diff == [] then "" else diff[0].before + (Headers(diff[0]) + (diff[0].hunks + Render(diff[1..])))
  }

  function TouchedBy(f: FileChange): set<string> {
    (if f.from.At? then {f.from.path} else {}) + (if f.into.At? then {f.into.path} else {})
  }

  function Touched(diff: seq<FileChange>): set<string> {
    if diff == [] then {} else TouchedBy(diff[0]) + Touched(diff[1..])
  }

  // ----- line structure -----

  lemma {:induction false} LineEndIs(s: string, n: nat)
    requires n <= |s| && Unbroken(s[..n]) && (n < |s| ==> IsBreak(s[n]))
    ensures LineEnd(s) == n
  {
    var m := LineEnd(s);
    assert forall i | 0 <= i < n :: s[..n][i] == s[i];
    assert forall i | 0 <= i < m :: s[..m][i] == s[i];
  }

  /** Lines of a terminated text and of what follows it do not mix. */
  lemma {:induction false} SplitLinesAppend(t: string, b: string)
    requires Terminated(t)
    ensures SplitLines(t + b) == SplitLines(t) + SplitLines(b)
    decreases |t|
  {
    hide Terminated, SplitLines;
    if t == "" {
      NoLines();
      assert t + b == b && [] + SplitLines(b) == SplitLines(b);
    } else {
      var head, rest := FirstLine(t, b);
      SplitLinesAppend(rest, b);
      assert [head] + (SplitLines(rest) + SplitLines(b)) == [head] + SplitLines(rest) + SplitLines(b);
    }
  }

  lemma NoLines()
    ensures SplitLines("") == []
  {
  }

  /** The first line of a terminated text does not depend on what follows the text. */
  lemma FirstLine(t: string, b: string) returns (head: string, rest: string)
    requires Terminated(t) && t != ""
    ensures |rest| < |t| && Terminated(rest)
    ensures SplitLines(t) == [head] + SplitLines(rest) && SplitLines(t + b) == [head] + SplitLines(rest + b)
  {
    var n := LineEnd(t);
    assert n < |t| by {
      assert !Unbroken(t) && t[..|t|] == t;
    }
    var w := BreakWidth(t, n);
    head, rest := t[..n], t[n + w..];
    assert (t + b)[..n] == head;
    LineEndIs(t + b, n);
    assert BreakWidth(t + b, n) == w;
    assert (t + b)[n + w..] == rest + b;
  }

  lemma OneLine(line: string)
    requires Unbroken(line)
    ensures Terminated(line + "\n") && SplitLines(line + "\n") == [line]
  {
    var s := line + "\n";
    assert s[..|line|] == line;
    LineEndIs(s, |line|);
    assert s[|line| + 1..] == "";
  }

  lemma {:induction false} LinesAreUnbroken(s: string, k: nat)
    requires k < |SplitLines(s)|
    ensures Unbroken(SplitLines(s)[k])
    decreases |s|
  {
    var n := LineEnd(s);
    assert s == "" || n == |s| ==> s[..n] == s;
    if s != "" && n < |s| && k > 0 { LinesAreUnbroken(s[n + BreakWidth(s, n)..], k - 1); }
  }

  /** Line feed, vertical tab, form feed, carriage return, three separators, next line, and the line and paragraph
      separators of Unicode. */
  const BREAKS := {'\n', '\U{B}', '\U{C}', '\r', '\U{1C}', '\U{1D}', '\U{1E}', '\U{85}', '\U{2028}', '\U{2029}'}

  /** What may end a line. */
  predicate IsEnd(e: string) {
    e == "\r\n" || (|e| == 1 && e[0] in BREAKS)
  }

  function Rejoined(lines: seq<string>, ends: seq<string>): string
    requires |ends| == |lines|
  {
    if lines == [] then "" else lines[0] + ends[0] + Rejoined(lines[1..], ends[1..])
  }

  /** `ends` end the lines: the last one may stop short, and a carriage return is not parted from its newline. */
  predicate Ends(lines: seq<string>, ends: seq<string>) {
    && |ends| == |lines|
    && (forall i | 0 <= i < |ends| :: IsEnd(ends[i]) || (i == |ends| - 1 && ends[i] == "" && lines[i] != ""))
    && (forall i | 0 <= i < |ends| - 1 && ends[i] == "\r" :: (lines[i + 1] + ends[i + 1])[..1] != "\n")
    && (forall i | 0 <= i < |lines| :: forall c | c in BREAKS :: c !in lines[i])
  }

  lemma RejoinedStarts(lines: seq<string>, ends: seq<string>)
    requires lines != [] && Ends(lines, ends)
    ensures Rejoined(lines, ends) != "" && Rejoined(lines, ends)[..1] == (lines[0] + ends[0])[..1]
  {
    hide Rejoined;
    assert lines[0] + ends[0] != "";
    RejoinedOneMore(lines, ends);
  }

  lemma RejoinedOneMore(lines: seq<string>, ends: seq<string>)
    requires lines != [] && |ends| == |lines|
    ensures Rejoined(lines, ends) == lines[0] + ends[0] + Rejoined(lines[1..], ends[1..])
  {
  }

  lemma UnbrokenMeans(s: string)
    ensures Unbroken(s) <==> forall c | c in BREAKS :: c !in s
  {
    forall i | 0 <= i < |s| ensures IsBreak(s[i]) <==> s[i] in BREAKS {}
  }

  lemma EndOfLine(s: string, n: nat)
    requires n < |s| && IsBreak(s[n])
    ensures n + BreakWidth(s, n) <= |s| && IsEnd(s[n..n + BreakWidth(s, n)])
    ensures s[n..n + BreakWidth(s, n)] == "\r" && n + 1 < |s| ==> s[n + 1] != '\n'
  {
    var w := BreakWidth(s, n);
    if w == 2 { assert s[n..n + 2] == "\r\n"; } else { assert s[n..n + 1] == [s[n]]; }
  }

  /** Main result: the lines are the text cut at its line boundaries, all of them and nothing else: with suitable ends
      between them they are the text again. */
  lemma {:induction false} LinesRejoin(s: string) returns (ends: seq<string>)
    ensures Ends(SplitLines(s), ends) && Rejoined(SplitLines(s), ends) == s
    decreases |s|
  {
    hide IsBreak, IsEnd, BreakWidth, Ends, Unbroken, BREAKS, Rejoined;
    var n := LineEnd(s);
    if s == "" {
      ends := [];
      NothingRejoined();
    } else if n == |s| {
      ends := [""];
      assert s[..n] == s;
      LastLine(s);
    } else {
      var w := BreakWidth(s, n);
      EndOfLine(s, n);
      var head, e, rest := s[..n], s[n..n + w], s[n + w..];
      var more := LinesRejoin(rest);
      ends := [e] + more;
      LineBefore(head, e, SplitLines(rest), more);
      assert s == head + e + rest;
    }
  }

  lemma NothingRejoined()
    ensures Ends([], []) && Rejoined([], []) == ""
  {
  }

  lemma LastLine(s: string)
    requires s != "" && Unbroken(s)
    ensures Ends([s], [""]) && Rejoined([s], [""]) == s
  {
    UnbrokenMeans(s);
    hide Unbroken, BREAKS;
    assert [s][1..] == [] && [""][1..] == [];
  }

  lemma LineBefore(head: string, e: string, lines: seq<string>, ends: seq<string>)
    requires Unbroken(head) && IsEnd(e) && Ends(lines, ends)
    requires e == "\r" && Rejoined(lines, ends) != "" ==> Rejoined(lines, ends)[0] != '\n'
    ensures Ends([head] + lines, [e] + ends)
    ensures Rejoined([head] + lines, [e] + ends) == head + e + Rejoined(lines, ends)
  {
    UnbrokenMeans(head);
    if lines != [] { RejoinedStarts(lines, ends); }
    hide Unbroken, BREAKS, IsEnd;
    assert ([head] + lines)[1..] == lines && ([e] + ends)[1..] == ends;
  }

  // ----- what a header line names -----

  lemma CutAtStop(s: string, tail: string, c: char)
    requires Free(s, c) && (tail == "" || tail[0] == c)
    ensures Cut(s + tail, c) == s
  {
    if tail == "" {
      assert s + tail == s;
      FindNothing(s, c);
    } else {
      FindIs(s, tail, c);
    }
  }

  lemma FreeAppend(a: string, b: string, c: char)
    ensures Free(a + b, c) <==> Free(a, c) && Free(b, c)
  {
    if Free(a + b, c) {
      forall i | 0 <= i < |a| ensures a[i] != c { assert a[i] == (a + b)[i]; }
      forall i | 0 <= i < |b| ensures b[i] != c { assert b[i] == (a + b)[|a| + i]; }
    }
  }

  lemma UnbrokenAppend(a: string, b: string)
    ensures Unbroken(a + b) <==> Unbroken(a) && Unbroken(b)
  {
    if Unbroken(a + b) {
      forall i | 0 <= i < |a| ensures !IsBreak(a[i]) { assert a[i] == (a + b)[i]; }
      forall i | 0 <= i < |b| ensures !IsBreak(b[i]) { assert b[i] == (a + b)[|a| + i]; }
    }
  }

  /** What a line with a marker names: the path in its first field. */
  lemma FieldNamed(marker: string, raw: string, stamp: string)
    requires marker in {"--- ", "+++ "}
    requires Free(raw, '\t') && Free(raw, ' ') && (stamp == "" || stamp[0] == '\t')
    ensures Target(marker + (raw + stamp)) ==
            if raw == "/dev/null" then None else if "a/" <= raw || "b/" <= raw then Some(raw[2..]) else Some(raw)
  {
    var line := marker + (raw + stamp);
    assert line[4..] == raw + stamp;
    CutAtStop(raw, stamp, '\t');
    CutAtStop(raw, "", ' ');
    assert raw + "" == raw;
    assert line[..4] == marker;
  }

  /** A header names its side's path, and nothing when the side is absent. */
  lemma HeaderNamesItsSide(marker: string, prefix: string, s: Side)
    requires marker in {"--- ", "+++ "} && prefix in {"a/", "b/"} && SideFormed(s)
    ensures Target(Header(marker, prefix, s)) == if s.At? then Some(s.path) else None
  {
    hide Target;
    if s.At? {
      var raw := prefix + s.path;
      assert Header(marker, prefix, s) == marker + (raw + s.stamp);
      FreeAppend(prefix, s.path, '\t');
      FreeAppend(prefix, s.path, ' ');
      FieldNamed(marker, raw, s.stamp);
      assert raw[2..] == s.path && raw[0] != '/' && raw[..2] == prefix;
    } else {
      FieldNamed(marker, "/dev/null", "");
      assert "/dev/null" + "" == "/dev/null";
    }
  }

  lemma HeaderIsOneLine(marker: string, prefix: string, s: Side)
    requires Unbroken(marker) && Unbroken(prefix) && SideFormed(s)
    ensures Unbroken(Header(marker, prefix, s))
  {
    if s.At? {
      assert Header(marker, prefix, s) == marker + (prefix + s.path + s.stamp);
      UnbrokenAppend(marker, prefix + s.path + s.stamp);
      UnbrokenAppend(prefix + s.path, s.stamp);
      UnbrokenAppend(prefix, s.path);
    } else {
      UnbrokenAppend(marker, "/dev/null");
    }
  }

  lemma HeadersSplit(f: FileChange)
    requires SideFormed(f.from) && SideFormed(f.into)
    ensures Terminated(Headers(f)) && Named(SplitLines(Headers(f))) == TouchedBy(f)
  {
    hide Target, Header;
    var first, second := Header("--- ", "a/", f.from), Header("+++ ", "b/", f.into);
    HeaderNamesItsSide("--- ", "a/", f.from);
    HeaderNamesItsSide("+++ ", "b/", f.into);
    HeaderIsOneLine("--- ", "a/", f.from);
    HeaderIsOneLine("+++ ", "b/", f.into);
    OneLine(first);
    OneLine(second);
    SplitLinesAppend(first + "\n", second + "\n");
    NamedAppend([first], [second]);
    NamedOne(first);
    NamedOne(second);
  }

  lemma NamedOne(line: string)
    ensures Named([line]) == if Target(line).Some? then {Target(line).value} else {}
  {
    hide Target;
    assert [line][..0] == [] && [line][..1] == [line];
    NamedStep([line], 0);
  }

  /** The paths a diff names: those of its headers, and whatever its free text happens to name. */
  lemma {:induction false} PathsOfDiff(diff: seq<FileChange>)
    requires WellFormed(diff)
    ensures Touched(diff) <= PathsIn(Render(diff))
    ensures (forall f | f in diff :: PathsIn(f.before) == {} && PathsIn(f.hunks) == {}) ==>
              PathsIn(Render(diff)) == Touched(diff)
  {
    hide PathsIn, Headers, TouchedBy, SideFormed, Terminated;
    if diff == [] {
      NoTextNoPaths();
    } else {
      var f, rest := diff[0], diff[1..];
      assert f in diff && forall g | g in rest :: g in diff;
      PathsOfDiff(rest);
      PathsOfChange(f, Render(rest));
    }
  }

  lemma NoTextNoPaths()
    ensures PathsIn("") == {}
  {
  }

  lemma PathsOfText(t: string, b: string)
    requires Terminated(t) || b == ""
    ensures PathsIn(t + b) == PathsIn(t) + PathsIn(b)
  {
    hide Terminated, Target, SplitLines, Named;
    if b == "" {
      NoTextNoPaths();
      assert t + b == t;
    } else {
      SplitLinesAppend(t, b);
      NamedAppend(SplitLines(t), SplitLines(b));
    }
  }

  /** The paths of one change, part by part. */
  lemma PathsOfChange(f: FileChange, rest: string)
    requires SideFormed(f.from) && SideFormed(f.into) && Terminated(f.before) && (Terminated(f.hunks) || rest == "")
    ensures PathsIn(f.before + (Headers(f) + (f.hunks + rest))) ==
            PathsIn(f.before) + TouchedBy(f) + PathsIn(f.hunks) + PathsIn(rest)
  {
    HeadersSplit(f);
    assert PathsIn(Headers(f)) == TouchedBy(f);
    hide PathsIn, Headers, TouchedBy, SideFormed, Terminated;
    PathsOfText(f.hunks, rest);
    PathsOfText(Headers(f), f.hunks + rest);
    PathsOfText(f.before, Headers(f) + (f.hunks + rest));
  }

  // ----- where a path leads -----

  /** Path components walked from a directory: empty and single-dot parts stay, a double-dot part goes up. */
  function Walk(at: seq<string>, parts: seq<string>): seq<string>
    decreases |parts|
  {
    if parts == [] then at
    else if parts[0] == "" || parts[0] == "." then Walk(at, parts[1..])
    else if parts[0] == ".." then Walk(if at == [] then [] else at[..|at| - 1], parts[1..])
    else Walk(at + [parts[0]], parts[1..])
  }

  /** `root / path`, an absolute path replacing the root. */
  function Resolve(root: seq<string>, path: string): seq<string> {
    Walk(if path != "" && path[0] == '/' then [] else root, Split(path, '/'))
  }

  function Kept(parts: seq<string>): seq<string> {
    if parts == [] then [] else (if parts[0] == "." then [] else [parts[0]]) + Kept(parts[1..])
  }

  lemma {:induction false} WalkDescends(at: seq<string>, parts: seq<string>)
    requires forall i | 0 <= i < |parts| :: parts[i] != "" && parts[i] != ".."
    ensures Walk(at, parts) == at + Kept(parts)
    decreases |parts|
  {
    if parts == [] {
      assert at + [] == at;
    } else if parts[0] == "." {
      WalkDescends(at, parts[1..]);
      assert [] + Kept(parts[1..]) == Kept(parts[1..]);
    } else {
      WalkDescends(at + [parts[0]], parts[1..]);
      assert at + [parts[0]] + Kept(parts[1..]) == at + ([parts[0]] + Kept(parts[1..]));
    }
  }

  lemma {:induction false} KeptIsEmpty(parts: seq<string>)
    ensures Kept(parts) == [] <==> forall i | 0 <= i < |parts| :: parts[i] == "."
  {
    if parts != [] {
      KeptIsEmpty(parts[1..]);
      assert forall i | 0 < i < |parts| :: parts[i] == parts[1..][i - 1];
    }
  }

  predicate Under(root: seq<string>, place: seq<string>) {
    root <= place && root != place
  }

  /** A path of single-dot parts only. */
  predicate OnlyDots(path: string) {
    forall i | 0 <= i < |Split(path, '/')| :: Split(path, '/')[i] == "."
  }

  /** Main result: an allowed path never leaves any root, and is strictly under it unless it consists of dots. */
  lemma SafePathsStayUnderTheRoot(root: seq<string>, path: string)
    requires Safe(path)
    ensures Resolve(root, path) == root + Kept(Split(path, '/'))
    ensures Under(root, Resolve(root, path)) <==> !OnlyDots(path)
  {
    var parts := Split(path, '/');
    forall i | 0 <= i < |parts| ensures parts[i] != "" && parts[i] != ".." {
      assert IsPart(parts[i]) && parts[i] in parts;
    }
    WalkDescends(root, parts);
    KeptIsEmpty(parts);
  }

  /** The form of an allowed path: letters, digits, dots, underscores and hyphens between single slashes, with no part
      that goes up. */
  predicate StaysPut(part: string) {
    && part != "" && part != ".."
    && forall k | 0 <= k < |part| ::
         || 'A' <= part[k] <= 'Z' || 'a' <= part[k] <= 'z' || '0' <= part[k] <= '9'
         || part[k] == '.' || part[k] == '_' || part[k] == '-'
  }

  lemma SafePathsAreJoined(path: string)
    ensures Safe(path) <==>
      exists parts :: parts != [] && path == Join(parts, '/') && forall i | 0 <= i < |parts| :: StaysPut(parts[i])
  {
    if Safe(path) {
      JoinSplit(path, '/');
      forall i | 0 <= i < |Split(path, '/')| ensures StaysPut(Split(path, '/')[i]) {
        assert IsPart(Split(path, '/')[i]) && Split(path, '/')[i] in Split(path, '/');
      }
    }
    if parts :| parts != [] && path == Join(parts, '/') && forall i | 0 <= i < |parts| :: StaysPut(parts[i]) {
      forall i | 0 <= i < |parts| ensures Free(parts[i], '/') && IsPart(parts[i]) && parts[i] != ".." {
        assert StaysPut(parts[i]);
      }
      SplitJoin(parts, '/');
      JoinStarts(parts);
      JoinedFree(parts);
    }
  }

  lemma JoinStarts(parts: seq<string>)
    requires parts != [] && parts[0] != ""
    ensures Join(parts, '/') != "" && Join(parts, '/')[0] == parts[0][0]
  {
  }

  lemma {:induction false} JoinedFree(parts: seq<string>)
    requires forall i | 0 <= i < |parts| :: IsPart(parts[i])
    ensures Free(Join(parts, '/'), '\\')
    decreases |parts|
  {
    if |parts| > 1 { JoinedFree(parts[1..]); }
    if parts != [] { assert IsPart(parts[0]); }
  }

  /** The dot itself is an allowed path, and names the root. */
  lemma DotNamesTheRoot(root: seq<string>)
    ensures Safe(".") && Resolve(root, ".") == root
  {
    SplitFree(".", '/');
    assert Split(".", '/') == ["."];
    SafePathsStayUnderTheRoot(root, ".");
    KeptIsEmpty(["."]);
    assert root + [] == root;
  }

  // ----- main results -----

  /** Main result: whatever the hunks and the free text contain, every file a valid proposal's diff touches was
      allowed, and lies under any root it is applied at. */
  lemma AcceptedPatchesStayInside(s: ScriptProposal, diff: seq<FileChange>, root: seq<string>, path: string)
    requires s.Valid() && WellFormed(diff) && s.patch == Render(diff) && path in Touched(diff)
    ensures path in s.allowedPaths
    ensures root <= Resolve(root, path)
    ensures !OnlyDots(path) ==> Under(root, Resolve(root, path))
  {
    hide Safe, Render, Touched, WellFormed, Resolve, OnlyDots, PathsIn, ScriptProposal.Identified;
    PathsOfDiff(diff);
    assert Safe(path);
    SafePathsStayUnderTheRoot(root, path);
  }

  /** Main result: when the free text holds no line that looks like a header, a diff is accepted exactly when it
      touches a file and every file it touches is allowed. */
  lemma AcceptanceIsExact(s: ScriptProposal, diff: seq<FileChange>)
    requires WellFormed(diff) && s.patch == Render(diff)
    requires forall f | f in diff :: PathsIn(f.before) == {} && PathsIn(f.hunks) == {}
    requires s.Identified() && s.AllowListed()
    ensures s.Valid() <==> Touched(diff) != {} && forall p | p in Touched(diff) :: p in s.allowedPaths
  {
    hide Safe, Render, Touched, WellFormed, PathsIn, ScriptProposal.Identified;
    PathsOfDiff(diff);
  }

  /** Everything the parser records is free of spaces, tabs and line boundaries. */
  lemma RecordedNamesArePlain(text: string, path: string)
    requires path in PathsIn(text)
    ensures Plain(path)
  {
    var lines := SplitLines(text);
    var i :| 0 <= i < |lines| && Target(lines[i]) == Some(path);
    LinesAreUnbroken(text, i);
    hide SplitLines;
    TargetsArePlain(lines[i]);
  }

  lemma TargetsArePlain(line: string)
    requires Unbroken(line) && Target(line).Some?
    ensures Plain(Target(line).value)
  {
    var field := line[4..];
    var first := Cut(field, '\t');
    var raw := Cut(first, ' ');
    assert line == line[..4] + field && field == first + field[|first|..] && first == raw + first[|raw|..];
    UnbrokenAppend(line[..4], field);
    UnbrokenAppend(first, field[|first|..]);
    UnbrokenAppend(raw, first[|raw|..]);
    FreeAppend(raw, first[|raw|..], '\t');
    var k := if "a/" <= raw || "b/" <= raw then 2 else 0;
    assert raw == raw[..k] + raw[k..];
    UnbrokenAppend(raw[..k], raw[k..]);
    FreeAppend(raw[..k], raw[k..], ' ');
    FreeAppend(raw[..k], raw[k..], '\t');
  }

  /** Main result: a header line makes the parser record the path it was written for exactly when that path has no
      space, no tab and no line boundary. */
  lemma RecordedExactlyWhenPlain(path: string)
    ensures path in PathsIn("--- a/" + path + "\n") <==> Plain(path)
  {
    hide Target;
    var text := "--- a/" + path + "\n";
    if Plain(path) {
      var side := At(path, "");
      HeaderNamesItsSide("--- ", "a/", side);
      HeaderIsOneLine("--- ", "a/", side);
      var line := Header("--- ", "a/", side);
      assert line == "--- a/" + path;
      OneLine(line);
      NamedOne(line);
    }
    if path in PathsIn(text) { RecordedNamesArePlain(text, path); }
  }
  /** A space ends the name, whatever follows it on the line. */
  lemma SpaceEndsTheName(name: string, more: string)
    requires Plain(name) && Unbroken(more)
    ensures PathsIn("--- a/" + (name + (" " + more)) + "\n") == {name}
  {
    var raw, stop := "a/" + name, " " + more;
    var line := "--- " + (raw + stop);
    assert line + "\n" == "--- a/" + (name + stop) + "\n";
    UnbrokenAppend("a/", name);
    UnbrokenAppend(" ", more);
    UnbrokenAppend(raw, stop);
    UnbrokenAppend("--- ", raw + stop);
    FreeAppend("a/", name, '\t');
    FreeAppend("a/", name, ' ');
    OneLine(line);
    NamedOne(line);
    FieldEndsAtSpace(line, raw, stop);
    assert raw[..2] == "a/" && raw[2..] == name;
  }

  lemma FieldEndsAtSpace(line: string, raw: string, stop: string)
    requires line == "--- " + (raw + stop) && Free(raw, '\t') && Free(raw, ' ')
    requires "a/" <= raw && stop != "" && stop[0] == ' '
    ensures Target(line) == Some(raw[2..])
  {
    var field := raw + stop;
    assert line[4..] == field && line[..4] == "--- ";
    var n := Find(field, '\t');
    assert n > |raw|;
    assert field[..n] == raw + field[|raw|..n] && field[|raw|..n][0] == ' ';
    CutAtStop(raw, field[|raw|..n], ' ');
  }
}
