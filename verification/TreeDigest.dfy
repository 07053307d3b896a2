/** The byte stream hashed for a directory tree: it can be decoded again, so it stands for the tree's files and links
    and nothing else, and it does not depend on the order in which the file system lists the tree. */
module TreeDigest {
  import opened Wrappers
  import opened Text
  import opened Decimal

  const NUL := '\0'
  const NEWLINE := '\n'

  // ----- records and their encoding -----

  datatype Record = LinkRecord(name: string, target: string) | FileRecord(name: string, size: nat, digest: string)

  /** Names and link targets hold no NUL (they may hold newlines); a digest is 64 hexadecimal digits. */
  predicate ValidRecord(r: Record) {
    Free(r.name, NUL) && (r.LinkRecord? ==> Free(r.target, NUL)) && (r.FileRecord? ==> |r.digest| == 64)
  }

  function EncodeRecord(r: Record): string {
    match r
    case LinkRecord(name, target) => ['L', NUL] + name + [NUL] + target + [NEWLINE]
    case FileRecord(name, size, digest) => ['F', NUL] + name + [NUL] + Digits(size) + [NUL] + digest + [NEWLINE]
  }

  function Encode(rs: seq<Record>): string {
    if rs == [] then "" else EncodeRecord(rs[0]) + Encode(rs[1..])
  }

  // ----- decoding -----

  /** The first record of a stream and what follows it. A link target ends two characters before the next NUL, which
      belongs to the next record's tag, or one character before the end. */
  function TakeRecord(s: string): (r: Option<(Record, string)>)
    ensures r.Some? ==> |r.value.1| < |s|
  {
    if |s| < 2 || s[1] != NUL then None
    else
      var i := Find(s[2..], NUL);
      var name, rest := s[2..][..i], s[2..][i..];
      if rest == "" then None
      else if s[0] == 'L' then
        var body := rest[1..];
        var j := Find(body, NUL);
        if j == |body| then
          if body == "" then None else Some((LinkRecord(name, body[..|body| - 1]), ""))
        else if j < 2 then None
        else Some((LinkRecord(name, body[..j - 2]), body[j - 1..]))
      else if s[0] == 'F' then
        var body := rest[1..];
        var j := Find(body, NUL);
        if |body| < j + 66 || !AllDigits(body[..j]) then None
        else Some((FileRecord(name, ReadDigits(body[..j]), body[j + 1..j + 65]), body[j + 66..]))
      else None
  }

  function Decode(s: string): Option<seq<Record>>
    decreases |s|
  {
    if s == "" then Some([])
    else
      var first :- TakeRecord(s);
      var rest :- Decode(first.1);
      Some([first.0] + rest)
  }

  lemma DigitsHoldNoNul(n: nat)
    ensures Free(Digits(n), NUL)
  {
  }

  /** A stream is empty or starts with a tag and a NUL. */
  lemma EncodingStarts(rs: seq<Record>)
    ensures rs == [] || (|Encode(rs)| >= 2 && Encode(rs)[0] != NUL && Encode(rs)[1] == NUL)
  {
  }

  lemma TakesName(tag: char, name: string, body: string)
    requires Free(name, NUL)
    ensures var s := [tag, NUL] + name + [NUL] + body;
            Find(s[2..], NUL) == |name| && s[2..][..|name|] == name && s[2..][|name|..] == [NUL] + body
  {
    var s := [tag, NUL] + name + [NUL] + body;
    assert s[2..] == name + ([NUL] + body);
    FindIs(name, [NUL] + body, NUL);
  }

  lemma TakesFile(r: Record, tail: string)
    requires r.FileRecord? && ValidRecord(r)
    ensures TakeRecord(EncodeRecord(r) + tail) == Some((r, tail))
  {
    var digits := Digits(r.size);
    DigitsHoldNoNul(r.size);
    ReadsBack(r.size);
    hide TakeRecord, Digits, ReadDigits;
    var body := digits + ([NUL] + r.digest + [NEWLINE] + tail);
    assert EncodeRecord(r) + tail == ['F', NUL] + r.name + [NUL] + body;
    TakesFileBody(r.name, digits, r.size, r.digest, tail);
  }

  lemma TakesFileBody(name: string, digits: string, size: nat, digest: string, tail: string)
    requires Free(name, NUL) && Free(digits, NUL) && AllDigits(digits) && ReadDigits(digits) == size && |digest| == 64
    ensures var body := digits + ([NUL] + digest + [NEWLINE] + tail);
            TakeRecord(['F', NUL] + name + [NUL] + body) == Some((FileRecord(name, size, digest), tail))
  {
    hide ReadDigits, AllDigits;
    var rest := [NUL] + digest + [NEWLINE] + tail;
    var body := digits + rest;
    TakesName('F', name, body);
    FindIs(digits, rest, NUL);
    TakesSizeAndDigest(digits, digest, tail);
    assert ([NUL] + body)[1..] == body;
  }

  lemma TakesSizeAndDigest(digits: string, digest: string, tail: string)
    requires |digest| == 64
    ensures var body := digits + ([NUL] + digest + [NEWLINE] + tail);
            && body[..|digits|] == digits && body[|digits| + 1..|digits| + 65] == digest
            && body[|digits| + 65] == NEWLINE && body[|digits| + 66..] == tail
  {
  }

  lemma TakesLastLink(name: string, target: string)
    requires Free(name, NUL) && Free(target, NUL)
    ensures TakeRecord(['L', NUL] + name + [NUL] + (target + [NEWLINE])) == Some((LinkRecord(name, target), ""))
  {
    var body := target + [NEWLINE];
    TakesName('L', name, body);
    assert ([NUL] + body)[1..] == body;
    FindNothing(body, NUL);
    assert body[..|body| - 1] == target;
  }

  lemma TakesInnerLink(name: string, target: string, tail: string)
    requires Free(name, NUL) && Free(target, NUL) && |tail| >= 2 && tail[0] != NUL && tail[1] == NUL
    ensures TakeRecord(['L', NUL] + name + [NUL] + (target + [NEWLINE] + tail))
      == Some((LinkRecord(name, target), tail))
  {
    var body := target + [NEWLINE] + tail;
    TakesName('L', name, body);
    assert ([NUL] + body)[1..] == body;
    var head := target + [NEWLINE, tail[0]];
    assert body == head + tail[1..];
    FindIs(head, tail[1..], NUL);
    assert body[..|target|] == target && body[|target| + 1..] == tail;
  }

  lemma TakesLink(r: Record, more: seq<Record>)
    requires r.LinkRecord? && ValidRecord(r)
    ensures TakeRecord(EncodeRecord(r) + Encode(more)) == Some((r, Encode(more)))
  {
    var tail := Encode(more);
    EncodingStarts(more);
    hide TakeRecord;
    if more == [] {
      assert EncodeRecord(r) + tail == ['L', NUL] + r.name + [NUL] + (r.target + [NEWLINE]);
      TakesLastLink(r.name, r.target);
    } else {
      assert EncodeRecord(r) + tail == ['L', NUL] + r.name + [NUL] + (r.target + [NEWLINE] + tail);
      TakesInnerLink(r.name, r.target, tail);
    }
  }

  /** Main result: every stream of valid records decodes to exactly those records. */
  lemma {:induction false} DecodesBack(rs: seq<Record>)
    requires forall i | 0 <= i < |rs| :: ValidRecord(rs[i])
    ensures Decode(Encode(rs)) == Some(rs)
    decreases |rs|
  {
    if rs != [] {
      var tail := Encode(rs[1..]);
      if rs[0].LinkRecord? { TakesLink(rs[0], rs[1..]); } else { TakesFile(rs[0], tail); }
      DecodesBack(rs[1..]);
      assert Encode(rs) == EncodeRecord(rs[0]) + tail != "";
      assert [rs[0]] + rs[1..] == rs;
    }
  }

  // ----- the order of paths -----

  type Path = seq<string>

  predicate TextLess(a: string, b: string) {
    b != "" && (a == "" || a[0] < b[0] || (a[0] == b[0] && TextLess(a[1..], b[1..])))
  }

  predicate PathLess(a: Path, b: Path) {
    b != [] && (a == [] || TextLess(a[0], b[0]) || (a[0] == b[0] && PathLess(a[1..], b[1..])))
  }

  lemma {:induction false} TextOrder(a: string, b: string, c: string)
    ensures !TextLess(a, a)
    ensures a == b || TextLess(a, b) || TextLess(b, a)
    ensures TextLess(a, b) && TextLess(b, c) ==> TextLess(a, c)
    decreases |a|
  {
    if a != "" {
      TextOrder(a[1..], if b == "" then "" else b[1..], if c == "" then "" else c[1..]);
      if b != "" && a[0] == b[0] && a[1..] == b[1..] { assert a == [a[0]] + a[1..] == [b[0]] + b[1..] == b; }
    }
  }

  lemma {:induction false} PathOrder(a: Path, b: Path, c: Path)
    ensures !PathLess(a, a)
    ensures a == b || PathLess(a, b) || PathLess(b, a)
    ensures PathLess(a, b) && PathLess(b, c) ==> PathLess(a, c)
    decreases |a|
  {
    if a != [] {
      TextOrder(a[0], if b == [] then "" else b[0], if c == [] then "" else c[0]);
      PathOrder(a[1..], if b == [] then [] else b[1..], if c == [] then [] else c[1..]);
      if b != [] && a[0] == b[0] && a[1..] == b[1..] { assert a == [a[0]] + a[1..] == [b[0]] + b[1..] == b; }
    }
  }

  /** `a` comes first: it ends, or has the smaller character, where the two texts part. */
  lemma {:induction false} TextLessIs(a: string, b: string)
    ensures TextLess(a, b) <==>
      exists i | 0 <= i <= |a| && i < |b| :: a[..i] == b[..i] && (i < |a| ==> a[i] < b[i])
    decreases |a|
  {
    if a != "" && b != "" && a[0] == b[0] {
      var c, d := a[1..], b[1..];
      TextLessIs(c, d);
      if TextLess(c, d) {
        var i :| 0 <= i <= |c| && i < |d| && c[..i] == d[..i] && (i < |c| ==> c[i] < d[i]);
        assert a[..i + 1] == [a[0]] + c[..i] && b[..i + 1] == [b[0]] + d[..i];
      }
      if i :| 0 <= i <= |a| && i < |b| && a[..i] == b[..i] && (i < |a| ==> a[i] < b[i]) {
        assert i > 0 && c[..i - 1] == a[..i][1..] && d[..i - 1] == b[..i][1..];
      }
    } else if TextLess(a, b) {
      assert a[..0] == b[..0];
    }
  }

  /** The same for paths, component by component: a directory comes before what it holds. */
  lemma {:induction false} PathLessIs(a: Path, b: Path)
    ensures PathLess(a, b) <==>
      exists i | 0 <= i <= |a| && i < |b| :: a[..i] == b[..i] && (i < |a| ==> TextLess(a[i], b[i]))
    decreases |a|
  {
    hide TextLess;
    if a != [] && b != [] && a[0] == b[0] {
      TextOrder(a[0], b[0], a[0]);
      var c, d := a[1..], b[1..];
      PathLessIs(c, d);
      if PathLess(c, d) {
        var i :| 0 <= i <= |c| && i < |d| && c[..i] == d[..i] && (i < |c| ==> TextLess(c[i], d[i]));
        assert a[..i + 1] == [a[0]] + c[..i] && b[..i + 1] == [b[0]] + d[..i];
      }
      if i :| 0 <= i <= |a| && i < |b| && a[..i] == b[..i] && (i < |a| ==> TextLess(a[i], b[i])) {
        assert i > 0 && c[..i - 1] == a[..i][1..] && d[..i - 1] == b[..i][1..];
      }
    } else if PathLess(a, b) {
      assert a[..0] == b[..0];
    }
  }

  predicate Ascending(ps: seq<Path>) {
    forall i, j | 0 <= i < j < |ps| :: PathLess(ps[i], ps[j])
  }

  function Elements(ps: seq<Path>): set<Path> {
    set i | 0 <= i < |ps| :: ps[i]
  }

  lemma SameEmptiness(ps: seq<Path>, qs: seq<Path>)
    requires Elements(ps) == Elements(qs)
    ensures ps == [] <==> qs == []
  {
    if ps != [] {
      assert ps[0] in Elements(qs) by { assert ps[0] in Elements(ps); }
    }
    if qs != [] {
      assert qs[0] in Elements(ps) by { assert qs[0] in Elements(qs); }
    }
  }

  /** Two ascending lists of the same paths are the same list. */
  lemma {:induction false} AscendingIsUnique(ps: seq<Path>, qs: seq<Path>)
    requires Ascending(ps) && Ascending(qs) && Elements(ps) == Elements(qs)
    ensures ps == qs
    decreases |ps|
  {
    SameEmptiness(ps, qs);
    if ps != [] {
      assert ps[0] in Elements(ps) && qs[0] in Elements(qs);
      assert ps[0] == qs[0] by {
        var i :| 0 <= i < |qs| && qs[i] == ps[0];
        var j :| 0 <= j < |ps| && ps[j] == qs[0];
        PathOrder(ps[0], qs[0], ps[0]);
      }
      TailElements(ps);
      TailElements(qs);
      AscendingIsUnique(ps[1..], qs[1..]);
      assert ps == [ps[0]] + ps[1..] && qs == [qs[0]] + qs[1..];
    }
  }

  lemma TailElements(ps: seq<Path>)
    requires Ascending(ps) && ps != []
    ensures Ascending(ps[1..]) && Elements(ps[1..]) == Elements(ps) - {ps[0]}
  {
    var t := ps[1..];
    forall p | p in Elements(ps) - {ps[0]} ensures p in Elements(t) {
      var i :| 0 <= i < |ps| && ps[i] == p;
      assert t[i - 1] == p;
    }
    forall p | p in Elements(t) ensures p in Elements(ps) - {ps[0]} {
      var i :| 0 <= i < |t| && t[i] == p;
      assert ps[i + 1] == p;
      PathOrder(p, p, p);
    }
  }

  // ----- sorting a listing -----

  function InsertPath(p: Path, ps: seq<Path>): seq<Path> {
    if ps == [] || PathLess(p, ps[0]) then [p] + ps else [ps[0]] + InsertPath(p, ps[1..])
  }

  function SortPaths(ps: seq<Path>): seq<Path> {
    if ps == [] then [] else InsertPath(ps[0], SortPaths(ps[1..]))
  }

  lemma {:induction false} Inserted(p: Path, ps: seq<Path>)
    requires Ascending(ps) && p !in Elements(ps)
    ensures Ascending(InsertPath(p, ps)) && Elements(InsertPath(p, ps)) == Elements(ps) + {p}
    decreases |ps|
  {
    var r := InsertPath(p, ps);
    if ps == [] {
      ConsElements(p, ps);
    } else if PathLess(p, ps[0]) {
      forall j | 0 < j < |ps| ensures PathLess(p, ps[j]) { PathOrder(p, ps[0], ps[j]); }
      ConsElements(p, ps);
    } else {
      TailElements(ps);
      Inserted(p, ps[1..]);
      var t := InsertPath(p, ps[1..]);
      assert ps[0] in Elements(ps);
      PathOrder(p, ps[0], p);
      forall j | 0 <= j < |t| ensures PathLess(ps[0], t[j]) {
        assert t[j] in Elements(t);
        if t[j] != p {
          var i :| 0 <= i < |ps| && ps[i] == t[j];
        }
      }
      ConsElements(ps[0], t);
      ConsElements(ps[0], ps[1..]);
      assert ps == [ps[0]] + ps[1..];
    }
  }

  lemma ConsElements(p: Path, ps: seq<Path>)
    ensures Elements([p] + ps) == {p} + Elements(ps)
  {
    var r := [p] + ps;
    assert r[0] == p && forall i | 0 <= i < |ps| :: r[i + 1] == ps[i];
    assert forall i | 1 <= i < |r| :: r[i] == ps[i - 1];
  }

  predicate Distinct(ps: seq<Path>) {
    forall i, j | 0 <= i < j < |ps| :: ps[i] != ps[j]
  }

  lemma {:induction false} Sorted(ps: seq<Path>)
    requires Distinct(ps)
    ensures Ascending(SortPaths(ps)) && Elements(SortPaths(ps)) == Elements(ps)
    decreases |ps|
  {
    if ps != [] {
      Sorted(ps[1..]);
      assert ps[0] !in Elements(ps[1..]) by {
        forall i | 0 <= i < |ps[1..]| ensures ps[1..][i] != ps[0] { assert ps[1..][i] == ps[i + 1]; }
      }
      Inserted(ps[0], SortPaths(ps[1..]));
      ConsElements(ps[0], ps[1..]);
      assert ps == [ps[0]] + ps[1..];
    }
  }

  // ----- a directory tree -----

  datatype Node = Link(target: string) | File(size: nat, digest: string) | Other

  type Tree = map<Path, Node>

  /** Paths are non-empty lists of separator-free components. */
  predicate ValidTree(t: Tree) {
    forall p | p in t ::
      && p != [] && (forall i | 0 <= i < |p| :: Free(p[i], '/') && Free(p[i], NUL))
      && (t[p].Link? ==> Free(t[p].target, NUL)) && (t[p].File? ==> |t[p].digest| == 64)
  }

  /** The file system lists every path of the tree once, in some order. */
  predicate Lists(order: seq<Path>, t: Tree) {
    Distinct(order) && Elements(order) == t.Keys
  }

  predicate Kept(t: Tree, ignored: set<string>, p: Path) {
    p in t && (p == [] || p[0] !in ignored) && !t[p].Other?
  }

  /** The part of a tree the digest speaks about. */
  function Content(t: Tree, ignored: set<string>): Tree {
    map p | p in t && Kept(t, ignored, p) :: t[p]
  }

  function RecordOf(p: Path, n: Node): Record
    requires !n.Other?
  {
    match n
    case Link(target) => LinkRecord(Join(p, '/'), target)
    case File(size, digest) => FileRecord(Join(p, '/'), size, digest)
  }

  function Records(t: Tree, ignored: set<string>, ps: seq<Path>): seq<Record> {
    if ps == [] then []
    else (if Kept(t, ignored, ps[0]) then [RecordOf(ps[0], t[ps[0]])] else []) + Records(t, ignored, ps[1..])
  }

  /** What one path contributes to the stream. */
  function Chunk(t: Tree, ignored: set<string>, p: Path): string {
    if Kept(t, ignored, p) then EncodeRecord(RecordOf(p, t[p])) else ""
  }

  /** The updates made for one path of the listing. */
  method Feed(t: Tree, ignored: set<string>, p: Path) returns (s: string)
    requires p in t
    ensures s == Chunk(t, ignored, p)
  {
    s := "";
    if p != [] && p[0] in ignored { return; }
    match t[p] {
      case Link(target) =>
        s := s + (['L', NUL] + Join(p, '/') + [NUL] + target + [NEWLINE]);
      case File(size, digest) =>
        s := s + (['F', NUL] + Join(p, '/') + [NUL] + Digits(size) + [NUL]);
        s := s + digest;
        s := s + [NEWLINE];
      case Other =>
    }
  }

  /** The text fed to the hash function, path by path as the sorted listing is walked. */
  method Stream(t: Tree, ignored: set<string>, order: seq<Path>) returns (s: string)
    requires Lists(order, t)
    ensures s == Encode(Records(t, ignored, SortPaths(order)))
  {
    var sorted := SortPaths(order);
    Sorted(order);
    hide Records, Encode, Distinct, SortPaths, Chunk;
    s := "";
    var n := 0;
    while n < |sorted|
      invariant 0 <= n <= |sorted|
      invariant s + Encode(Records(t, ignored, sorted[n..])) == Encode(Records(t, ignored, sorted))
    {
      var p := sorted[n];
      assert p in Elements(sorted);
      StreamAdvances(t, ignored, sorted, n, s);
      var chunk := Feed(t, ignored, p);
      s := s + chunk;
      n := n + 1;
    }
    NothingLeft(t, ignored, sorted[n..]);
  }

  /** Feeding one path moves its chunk from what is left to what was fed. */
  lemma StreamAdvances(t: Tree, ignored: set<string>, ps: seq<Path>, n: nat, s: string)
    requires n < |ps| && ps[n] in t && forall i | 0 <= i < |ps| :: ps[i] in t
    ensures s + Encode(Records(t, ignored, ps[n..])) ==
            s + Chunk(t, ignored, ps[n]) + Encode(Records(t, ignored, ps[n + 1..]))
  {
    hide Encode, Records, Chunk;
    assert ps[n..][0] == ps[n] && ps[n..][1..] == ps[n + 1..];
    Unfold(t, ignored, ps[n..]);
    var chunk, left := Chunk(t, ignored, ps[n]), Encode(Records(t, ignored, ps[n + 1..]));
    assert s + (chunk + left) == s + chunk + left;
  }

  lemma NothingLeft(t: Tree, ignored: set<string>, ps: seq<Path>)
    requires ps == []
    ensures Encode(Records(t, ignored, ps)) == ""
  {
  }

  lemma Unfold(t: Tree, ignored: set<string>, ps: seq<Path>)
    requires ps != []
    ensures Encode(Records(t, ignored, ps)) == Chunk(t, ignored, ps[0]) + Encode(Records(t, ignored, ps[1..]))
  {
    hide EncodeRecord, RecordOf;
    var rs, more := Records(t, ignored, ps), Records(t, ignored, ps[1..]);
    if Kept(t, ignored, ps[0]) {
      assert rs == [RecordOf(ps[0], t[ps[0]])] + more;
      assert rs[0] == RecordOf(ps[0], t[ps[0]]) && rs[1..] == more;
    } else {
      assert rs == [] + more == more;
    }
  }

  // ----- what the stream says -----

  function KeptPaths(t: Tree, ignored: set<string>, ps: seq<Path>): seq<Path> {
    if ps == [] then []
    else (if Kept(t, ignored, ps[0]) then [ps[0]] else []) + KeptPaths(t, ignored, ps[1..])
  }

  lemma {:induction false} KeptPathsAre(t: Tree, ignored: set<string>, ps: seq<Path>)
    requires Ascending(ps)
    ensures Ascending(KeptPaths(t, ignored, ps))
    ensures forall p :: p in Elements(KeptPaths(t, ignored, ps)) <==> p in Elements(ps) && Kept(t, ignored, p)
    decreases |ps|
  {
    hide Kept, PathLess;
    if ps == [] {
    } else {
      TailElements(ps);
      KeptPathsAre(t, ignored, ps[1..]);
      var rest := KeptPaths(t, ignored, ps[1..]);
      ConsElements(ps[0], rest);
      ConsElements(ps[0], ps[1..]);
      assert ps == [ps[0]] + ps[1..] && [] + rest == rest;
      ConsAscending(ps, rest);
      hide Elements, Ascending;
    }
  }

  lemma ConsAscending(ps: seq<Path>, rest: seq<Path>)
    requires ps != [] && Ascending(ps) && Ascending(rest) && forall p :: p in Elements(rest) ==> p in Elements(ps[1..])
    ensures Ascending([ps[0]] + rest)
  {
    hide PathLess;
    forall j | 0 <= j < |rest| ensures PathLess(ps[0], rest[j]) {
      assert rest[j] in Elements(rest);
      var i :| 0 <= i < |ps[1..]| && ps[1..][i] == rest[j];
      assert ps[i + 1] == rest[j];
    }
  }

  lemma {:induction false} RecordsOfKept(t: Tree, ignored: set<string>, ps: seq<Path>)
    ensures var ks := KeptPaths(t, ignored, ps); var rs := Records(t, ignored, ps);
            |rs| == |ks| && forall i | 0 <= i < |ks| :: Kept(t, ignored, ks[i]) && rs[i] == RecordOf(ks[i], t[ks[i]])
    decreases |ps|
  {
    hide RecordOf;
    if ps != [] {
      RecordsOfKept(t, ignored, ps[1..]);
      var ks, rs := KeptPaths(t, ignored, ps), Records(t, ignored, ps);
      var more, tail := KeptPaths(t, ignored, ps[1..]), Records(t, ignored, ps[1..]);
      if Kept(t, ignored, ps[0]) {
        assert ks == [ps[0]] + more && rs == [RecordOf(ps[0], t[ps[0]])] + tail;
        assert forall i | 1 <= i < |ks| :: ks[i] == more[i - 1] && rs[i] == tail[i - 1];
      } else {
        assert ks == more && rs == tail;
      }
    }
  }

  lemma {:induction false} JoinFree(parts: Path, c: char, d: char)
    requires c != d && forall i | 0 <= i < |parts| :: Free(parts[i], d)
    ensures Free(Join(parts, c), d)
    decreases |parts|
  {
    if |parts| > 1 { JoinFree(parts[1..], c, d); }
  }

  /** The kept paths in the canonical order, the same for every listing of the tree. */
  lemma CanonicalOrder(t: Tree, ignored: set<string>, order: seq<Path>)
    requires Lists(order, t)
    ensures var ks := KeptPaths(t, ignored, SortPaths(order));
            Ascending(ks) && Elements(ks) == Content(t, ignored).Keys
  {
    Sorted(order);
    KeptPathsAre(t, ignored, SortPaths(order));
  }

  lemma RecordsAreValid(t: Tree, ignored: set<string>, order: seq<Path>)
    requires ValidTree(t) && Lists(order, t)
    ensures forall i | 0 <= i < |Records(t, ignored, SortPaths(order))| ::
              ValidRecord(Records(t, ignored, SortPaths(order))[i])
  {
    var ps := SortPaths(order);
    RecordsOfKept(t, ignored, ps);
    var ks, rs := KeptPaths(t, ignored, ps), Records(t, ignored, ps);
    forall i | 0 <= i < |rs| ensures ValidRecord(rs[i]) {
      assert Kept(t, ignored, ks[i]);
      JoinFree(ks[i], '/', NUL);
    }
  }

  /** Main result: two listings of valid trees give the same stream exactly when the trees agree on every link and file
      outside the ignored names; in particular the order of the listing does not matter. */
  lemma StreamStandsForContent(t: Tree, order: seq<Path>, u: Tree, order2: seq<Path>, ignored: set<string>)
    requires ValidTree(t) && ValidTree(u) && Lists(order, t) && Lists(order2, u)
    ensures Encode(Records(t, ignored, SortPaths(order))) == Encode(Records(u, ignored, SortPaths(order2)))
      <==> Content(t, ignored) == Content(u, ignored)
  {
    var ps, qs := SortPaths(order), SortPaths(order2);
    var ks, ls := KeptPaths(t, ignored, ps), KeptPaths(u, ignored, qs);
    var rs, ss := Records(t, ignored, ps), Records(u, ignored, qs);
    RecordsOfKept(t, ignored, ps);
    RecordsOfKept(u, ignored, qs);
    CanonicalOrder(t, ignored, order);
    CanonicalOrder(u, ignored, order2);
    if Content(t, ignored) == Content(u, ignored) {
      AscendingIsUnique(ks, ls);
      forall i | 0 <= i < |rs| ensures rs[i] == ss[i] {
        assert Content(t, ignored)[ks[i]] == t[ks[i]] && Content(u, ignored)[ks[i]] == u[ks[i]];
      }
      assert rs == ss;
    }
    if Encode(rs) == Encode(ss) {
      RecordsAreValid(t, ignored, order);
      RecordsAreValid(u, ignored, order2);
      DecodesBack(rs);
      DecodesBack(ss);
      SameRecordsSameContent(t, u, ignored, ks, ls, rs, ss);
    }
  }

  lemma SameRecordsSameContent(t: Tree, u: Tree, ignored: set<string>, ks: seq<Path>, ls: seq<Path>,
                               rs: seq<Record>, ss: seq<Record>)
    requires ValidTree(t) && ValidTree(u) && rs == ss && |ks| == |rs| == |ls|
    requires forall i | 0 <= i < |ks| :: Kept(t, ignored, ks[i]) && rs[i] == RecordOf(ks[i], t[ks[i]])
    requires forall i | 0 <= i < |ls| :: Kept(u, ignored, ls[i]) && ss[i] == RecordOf(ls[i], u[ls[i]])
    requires Elements(ks) == Content(t, ignored).Keys && Elements(ls) == Content(u, ignored).Keys
    ensures Content(t, ignored) == Content(u, ignored)
  {
    forall i | 0 <= i < |ks| ensures ks[i] == ls[i] && t[ks[i]] == u[ks[i]] {
      SplitJoin(ks[i], '/');
      SplitJoin(ls[i], '/');
    }
    assert ks == ls;
    forall p | p in Content(t, ignored) ensures Content(t, ignored)[p] == Content(u, ignored)[p] {
      var i :| 0 <= i < |ks| && ks[i] == p;
    }
  }

  /** What a tree shows at a path: a link or a file. */
  function Shown(t: Tree, p: Path): Option<Node> {
    if p in t && !t[p].Other? then Some(t[p]) else None
  }

  /** Main result: the streams of two listings are equal exactly when the trees show the same at every path whose first
      component is not ignored. Ignored names deeper in a path, directories and modes play no part. */
  lemma StreamsAgreeExactly(t: Tree, order: seq<Path>, u: Tree, order2: seq<Path>, ignored: set<string>)
    requires ValidTree(t) && ValidTree(u) && Lists(order, t) && Lists(order2, u)
    ensures Encode(Records(t, ignored, SortPaths(order))) == Encode(Records(u, ignored, SortPaths(order2)))
      <==> forall p: Path | p != [] && p[0] !in ignored :: Shown(t, p) == Shown(u, p)
  {
    StreamStandsForContent(t, order, u, order2, ignored);
    hide Lists, Records, Encode, SortPaths;
    var c, d := Content(t, ignored), Content(u, ignored);
    if c == d {
      forall p: Path | p != [] && p[0] !in ignored ensures Shown(t, p) == Shown(u, p) {
        assert p in c <==> p in d;
      }
    }
    if forall p: Path | p != [] && p[0] !in ignored :: Shown(t, p) == Shown(u, p) {
      forall p ensures (p in c <==> p in d) && (p in c ==> c[p] == d[p]) {
        if p != [] && p[0] !in ignored { assert Shown(t, p) == Shown(u, p); }
      }
    }
  }

  /** A tree with a file below a directory, a link, and a file below an ignored name. */
  const EXAMPLE: Tree := map[["b"] := Link("a/x"), ["a", "x"] := File(12, seq(64, i => 'e')), ["a"] := Other,
                             ["skip", "y"] := File(1, seq(64, i => 'f'))]

  /** Its stream, byte by byte: the components are joined by slashes, members are separated by NULs, records end in a
      newline, and the file comes first. */
  lemma ExampleStream()
    ensures Lists([["b"], ["skip", "y"], ["a", "x"], ["a"]], EXAMPLE)
    ensures Encode(Records(EXAMPLE, {"skip"}, SortPaths([["b"], ["skip", "y"], ["a", "x"], ["a"]])))
         == "F" + "\0" + "a/x" + "\0" + "12" + "\0" + seq(64, i => 'e') + "\n"
            + ("L" + "\0" + "b" + "\0" + "a/x" + "\n")
  {
    ExampleOrder();
    ExampleRecords();
    hide SortPaths, Records, EXAMPLE;
    var digest := seq(64, i => 'e');
    var file, link := FileRecord("a/x", 12, digest), LinkRecord("b", "a/x");
    assert Digits(12) == "12";
    assert [file, link][1..] == [link] && [link][1..] == [];
    assert EncodeRecord(file) == "F" + "\0" + "a/x" + "\0" + "12" + "\0" + digest + "\n";
    assert EncodeRecord(link) == "L" + "\0" + "b" + "\0" + "a/x" + "\n";
    hide EncodeRecord;
    assert Encode([]) == "" && Encode([link]) == EncodeRecord(link) + "";
    assert Encode([file, link]) == EncodeRecord(file) + Encode([link]);
  }

  lemma ExampleRecords()
    ensures Records(EXAMPLE, {"skip"}, [["a"], ["a", "x"], ["b"], ["skip", "y"]])
         == [FileRecord("a/x", 12, seq(64, i => 'e')), LinkRecord("b", "a/x")]
  {
    var a: Path, x: Path, b: Path, y: Path := ["a"], ["a", "x"], ["b"], ["skip", "y"];
    var t := EXAMPLE;
    assert Join(x, '/') == "a/x" by { assert x[1..] == ["x"]; }
    assert Kept(t, {"skip"}, x) && Kept(t, {"skip"}, b) && !Kept(t, {"skip"}, a) && !Kept(t, {"skip"}, y);
    assert RecordOf(x, t[x]) == FileRecord("a/x", 12, seq(64, i => 'e'));
    assert RecordOf(b, t[b]) == LinkRecord("b", "a/x");
    hide Kept, RecordOf;
    RecordsOneMore(t, {"skip"}, y, []);
    RecordsOneMore(t, {"skip"}, b, [y]);
    RecordsOneMore(t, {"skip"}, x, [b, y]);
    RecordsOneMore(t, {"skip"}, a, [x, b, y]);
    assert [b] + [y] == [b, y] && [x] + [b, y] == [x, b, y] && [a] + [x, b, y] == [a, x, b, y] && [y] + [] == [y];
  }

  lemma RecordsOneMore(t: Tree, ignored: set<string>, p: Path, ps: seq<Path>)
    ensures Records(t, ignored, [p] + ps)
         == (if Kept(t, ignored, p) then [RecordOf(p, t[p])] else []) + Records(t, ignored, ps)
  {
    assert ([p] + ps)[1..] == ps;
  }

  lemma ExampleOrder()
    ensures SortPaths([["b"], ["skip", "y"], ["a", "x"], ["a"]]) == [["a"], ["a", "x"], ["b"], ["skip", "y"]]
    ensures Lists([["b"], ["skip", "y"], ["a", "x"], ["a"]], EXAMPLE)
  {
    var listed: seq<Path> := [["b"], ["skip", "y"], ["a", "x"], ["a"]];
    ExampleListed();
    Sorted(listed);
    ExampleAscending();
    hide Elements, Ascending, SortPaths, Distinct;
    AscendingIsUnique(SortPaths(listed), [["a"], ["a", "x"], ["b"], ["skip", "y"]]);
  }

  lemma ExampleListed()
    ensures Distinct([["b"], ["skip", "y"], ["a", "x"], ["a"]])
    ensures Elements([["b"], ["skip", "y"], ["a", "x"], ["a"]]) == EXAMPLE.Keys
    ensures Elements([["a"], ["a", "x"], ["b"], ["skip", "y"]]) == EXAMPLE.Keys
  {
    var a: Path, x: Path, b: Path, y: Path := ["a"], ["a", "x"], ["b"], ["skip", "y"];
    assert |a| == 1 && |x| == 2 && |b| == 1 && |y| == 2 && a[0] == "a" && b[0] == "b" && x[0] == "a" && y[0] == "skip";
    assert |y[0]| == 4 && b[0][0] == 'b' && a[0][0] == 'a';
    FourElements(b, y, x, a);
    FourElements(a, x, b, y);
  }

  lemma FourElements(p: Path, q: Path, r: Path, s: Path)
    ensures Elements([p, q, r, s]) == {p, q, r, s}
  {
    var ps := [p, q, r, s];
    assert ps[0] == p && ps[1] == q && ps[2] == r && ps[3] == s;
  }

  lemma ExampleAscending()
    ensures Ascending([["a"], ["a", "x"], ["b"], ["skip", "y"]])
  {
    var a: Path, x: Path, b: Path, y: Path := ["a"], ["a", "x"], ["b"], ["skip", "y"];
    assert PathLess(a, x);
    assert TextLess(a[0], b[0]) && TextLess(b[0], y[0]);
    assert PathLess(x, b) && PathLess(b, y);
    PathOrder(a, x, b);
    PathOrder(a, b, y);
    PathOrder(x, b, y);
    hide PathLess;
  }

  /** Main result: with a collision-free hash, equal digests mean equal content. */
  lemma DigestsIdentifyContent(sha: string -> string, t: Tree, order: seq<Path>, u: Tree, order2: seq<Path>,
                               ignored: set<string>)
    requires forall a, b :: sha(a) == sha(b) ==> a == b
    requires ValidTree(t) && ValidTree(u) && Lists(order, t) && Lists(order2, u)
    ensures sha(Encode(Records(t, ignored, SortPaths(order)))) == sha(Encode(Records(u, ignored, SortPaths(order2))))
      <==> Content(t, ignored) == Content(u, ignored)
  {
    StreamStandsForContent(t, order, u, order2, ignored);
  }
}
