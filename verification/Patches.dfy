/** Controlled patches: reading the files a unified diff touches from its header
    lines, and holding them to the declared and the allowed paths. */
module Patches {
  import opened Records
  import opened Text

  // ---- Lines ----------------------------------------------------------------

  function BeforeTab(s: string): string {
    if s == "" || s[0] == '\t' then "" else [s[0]] + BeforeTab(s[1..])
  }

  function TrimLeft(s: string): string {
    if s != "" && Whitespace(s[0]) then TrimLeft(s[1..]) else s
  }

  function TrimRight(s: string): string {
    if s != "" && Whitespace(s[|s| - 1]) then TrimRight(s[..|s| - 1]) else s
  }

  const OLD := "--- "
  const NEW := "+++ "
  const DEV_NULL := "/dev/null"

  /** The path on a header line. */
  function HeaderPath(line: string): string
    requires |line| >= 4
  {
    TrimRight(TrimLeft(BeforeTab(line[4..])))
  }

  function StripPrefix(p: string): string {
    if "a/" <= p || "b/" <= p then p[2..] else p
  }

  predicate Pair(lines: seq<string>, i: nat) {
    i + 1 < |lines| && OLD <= lines[i] && NEW <= lines[i + 1]
  }

  datatype Change = Added(path: string) | Modified(path: string) | Deleted(path: string)

  /** What a header pair says happened; a rename counts under its new path only, and a
      pair of null paths says nothing. */
  function PairChange(oldLine: string, newLine: string): (cs: seq<Change>)
    requires OLD <= oldLine && NEW <= newLine
    ensures |cs| <= 1
  {
    var oldPath, newPath := HeaderPath(oldLine), HeaderPath(newLine);
    if newPath != DEV_NULL then
      [if oldPath == DEV_NULL then Added(StripPrefix(newPath)) else Modified(StripPrefix(newPath))]
    else if oldPath != DEV_NULL then [Deleted(StripPrefix(oldPath))]
    else []
  }

  /** The changes read from the header pairs, first to last. */
  function Scan(lines: seq<string>): seq<Change>
    decreases |lines|
  {
    if lines == [] then []
    else if Pair(lines, 0) then PairChange(lines[0], lines[1]) + Scan(lines[2..])
    else Scan(lines[1..])
  }

  // ---- Parsing --------------------------------------------------------------

  function Additions(cs: seq<Change>): seq<string> {
    if cs == [] then []
    else var c := cs[|cs| - 1]; Additions(cs[..|cs| - 1]) + if c.Added? then [c.path] else []
  }

  function Modifications(cs: seq<Change>): seq<string> {
    if cs == [] then []
    else var c := cs[|cs| - 1]; Modifications(cs[..|cs| - 1]) + if c.Modified? then [c.path] else []
  }

  function Deletions(cs: seq<Change>): seq<string> {
    if cs == [] then []
    else var c := cs[|cs| - 1]; Deletions(cs[..|cs| - 1]) + if c.Deleted? then [c.path] else []
  }

  datatype ParsedPatch = ParsedPatch(additions: seq<string>, modifications: seq<string>, deletions: seq<string>)

  datatype Result<T> = Parsed(value: T) | NothingParsable

  function Sorted(cs: seq<Change>): ParsedPatch {
    ParsedPatch(Additions(cs), Modifications(cs), Deletions(cs))
  }

  /** Appending at most one change appends its path to its list. */
  lemma SortedAppends(cs: seq<Change>, read: seq<Change>)
    requires |read| <= 1
    ensures var c := if read == [] then None else Some(read[0]);
            Sorted(cs + read) ==
            ParsedPatch(Additions(cs) + (if c.Some? && c.value.Added? then [c.value.path] else []),
                        Modifications(cs) + (if c.Some? && c.value.Modified? then [c.value.path] else []),
                        Deletions(cs) + (if c.Some? && c.value.Deleted? then [c.value.path] else []))
  {
    if read == [] {
      assert cs + read == cs;
    } else {
      assert (cs + read)[..|cs|] == cs;
    }
  }

  /** One step of the pass, as the scan sees it. */
  lemma ScanStep(lines: seq<string>, i: nat, found: seq<Change>)
    requires i < |lines| && Scan(lines) == found + Scan(lines[i..])
    ensures if Pair(lines, i) then Scan(lines) == (found + PairChange(lines[i], lines[i + 1])) + Scan(lines[i + 2..])
            else Scan(lines) == found + Scan(lines[i + 1..])
  {
    var rest := lines[i..];
    assert Pair(lines, i) <==> Pair(rest, 0);
    assert rest[1..] == lines[i + 1..];
    if Pair(lines, i) {
      assert rest[2..] == lines[i + 2..];
    }
  }

  lemma {:induction false} SortedCounts(cs: seq<Change>)
    ensures |Additions(cs)| + |Modifications(cs)| + |Deletions(cs)| == |cs|
  {
    if cs != [] {
      SortedCounts(cs[..|cs| - 1]);
    }
  }

  /** One left-to-right pass that appends to three lists. */
  method Parse(lines: seq<string>) returns (r: Result<ParsedPatch>)
    ensures r == if Scan(lines) == [] then NothingParsable else Parsed(Sorted(Scan(lines)))
  {
    var additions: seq<string> := [];
    var modifications: seq<string> := [];
    var deletions: seq<string> := [];
    var i := 0;
    ghost var found: seq<Change> := [];
    while i < |lines|
      invariant i <= |lines|
      invariant Scan(lines) == found + Scan(lines[i..])
      invariant ParsedPatch(additions, modifications, deletions) == Sorted(found)
    {
      ScanStep(lines, i, found);
      if OLD <= lines[i] && i + 1 < |lines| && NEW <= lines[i + 1] {
        var oldPath, newPath := HeaderPath(lines[i]), HeaderPath(lines[i + 1]);
        ghost var read := PairChange(lines[i], lines[i + 1]);
        SortedAppends(found, read);
        if oldPath == DEV_NULL && newPath != DEV_NULL {
          additions := additions + [StripPrefix(newPath)];
        } else if newPath == DEV_NULL && oldPath != DEV_NULL {
          deletions := deletions + [StripPrefix(oldPath)];
        } else if newPath != DEV_NULL {
          modifications := modifications + [StripPrefix(newPath)];
        }
        found := found + read;
        i := i + 2;
      } else {
        i := i + 1;
      }
    }
    assert found + [] == found;
    SortedCounts(found);
    if additions == [] && modifications == [] && deletions == [] {
      return NothingParsable;
    }
    r := Parsed(ParsedPatch(additions, modifications, deletions));
  }

  // ---- Round trip -----------------------------------------------------------

  /** A path that survives on a header line: no tab, no white space at its end. */
  predicate Clean(p: string) {
    '\t' !in p && (p == "" || !Whitespace(p[|p| - 1]))
  }

  /** A change and the diff lines under its header. */
  datatype FileChange = FileChange(change: Change, body: seq<string>)

  function Header(c: Change): seq<string> {
    match c
    case Added(p) => [OLD + DEV_NULL, NEW + "b/" + p]
    case Modified(p) => [OLD + "a/" + p, NEW + "b/" + p]
    case Deleted(p) => [OLD + "a/" + p, NEW + DEV_NULL]
  }

  function Render(fs: seq<FileChange>): seq<string> {
    if fs == [] then [] else Header(fs[0].change) + fs[0].body + Render(fs[1..])
  }

  function Changes(fs: seq<FileChange>): (cs: seq<Change>)
    ensures |cs| == |fs| && forall i | 0 <= i < |fs| :: cs[i] == fs[i].change
  {
    if fs == [] then [] else [fs[0].change] + Changes(fs[1..])
  }

  /** What is left of a path after reading a header line. */
  function ReadPath(p: string): string {
    TrimRight(BeforeTab(p))
  }

  function ReadBack(c: Change): Change {
    c.(path := ReadPath(c.path))
  }

  lemma {:induction false} BeforeTabSplits(a: string, b: string)
    requires '\t' !in a
    ensures BeforeTab(a + b) == a + BeforeTab(b)
  {
    if a == "" {
      assert a + b == b;
    } else {
      assert (a + b)[1..] == a[1..] + b;
      BeforeTabSplits(a[1..], b);
    }
  }

  lemma {:induction false} TrimRightSplits(a: string, b: string)
    requires a != "" && !Whitespace(a[|a| - 1])
    ensures TrimRight(a + b) == a + TrimRight(b)
  {
    if b == "" {
      assert a + b == a;
    } else {
      assert (a + b)[..|a + b| - 1] == a + b[..|b| - 1];
      TrimRightSplits(a, b[..|b| - 1]);
    }
  }

  lemma {:induction false} BeforeTabShortens(s: string)
    ensures BeforeTab(s) == s <==> '\t' !in s
    ensures BeforeTab(s) <= s
  {
    if s != "" {
      BeforeTabShortens(s[1..]);
    }
  }

  lemma {:induction false} TrimRightShortens(s: string)
    ensures TrimRight(s) == s <==> s == "" || !Whitespace(s[|s| - 1])
    ensures |TrimRight(s)| <= |s|
  {
    if s != "" {
      TrimRightShortens(s[..|s| - 1]);
    }
  }

  /** A path reads back as itself exactly when it is clean. */
  lemma ReadsBackIff(p: string)
    ensures ReadPath(p) == p <==> Clean(p)
  {
    BeforeTabShortens(p);
    TrimRightShortens(BeforeTab(p));
    assert ReadPath(p) == p ==> |BeforeTab(p)| == |p|;
  }

  lemma TextOnLine(marker: string, s: string)
    requires |marker| == 4 && s != "" && '\t' !in s && !Whitespace(s[0]) && !Whitespace(s[|s| - 1])
    ensures HeaderPath(marker + s) == s
  {
    assert (marker + s)[4..] == s;
    BeforeTabShortens(s);
  }

  lemma PathOnLine(marker: string, side: string, p: string)
    requires |marker| == 4 && side in {"a/", "b/"}
    ensures HeaderPath(marker + side + p) == side + ReadPath(p) != DEV_NULL
    ensures StripPrefix(side + ReadPath(p)) == ReadPath(p)
  {
    assert (marker + side + p)[4..] == side + p;
    BeforeTabSplits(side, p);
    TrimRightSplits(side, BeforeTab(p));
    assert side[0] == 'a' || side[0] == 'b';
    assert DEV_NULL[0] == '/';
    assert (side + ReadPath(p))[2..] == ReadPath(p);
  }

  lemma NullOnLine(marker: string)
    requires |marker| == 4
    ensures HeaderPath(marker + DEV_NULL) == DEV_NULL
  {
    TextOnLine(marker, DEV_NULL);
  }

  lemma HeaderReadsBack(c: Change)
    ensures |Header(c)| == 2 && Pair(Header(c), 0)
    ensures PairChange(Header(c)[0], Header(c)[1]) == [ReadBack(c)]
  {
    var h := Header(c);
    NullOnLine(OLD);
    NullOnLine(NEW);
    PathOnLine(OLD, "a/", c.path);
    PathOnLine(NEW, "b/", c.path);
    assert OLD <= h[0] && NEW <= h[1];
  }

  /** Scanning splits at a line that does not complete a pair. */
  lemma {:induction false} ScanConcat(a: seq<string>, b: seq<string>)
    requires b == [] || !(NEW <= b[0])
    ensures Scan(a + b) == Scan(a) + Scan(b)
    decreases |a|
  {
    if a == [] {
      assert a + b == b;
    } else if Pair(a, 0) {
      assert Pair(a + b, 0) && (a + b)[2..] == a[2..] + b;
      ScanConcat(a[2..], b);
    } else {
      assert !Pair(a + b, 0) && (a + b)[1..] == a[1..] + b;
      ScanConcat(a[1..], b);
    }
  }

  lemma RenderStartsOld(fs: seq<FileChange>)
    ensures Render(fs) == [] || !(NEW <= Render(fs)[0])
  {
    if fs != [] {
      assert Render(fs)[0] == Header(fs[0].change)[0];
      assert Render(fs)[0][0] == '-';
    }
  }

  lemma ScanPairThen(h: seq<string>, rest: seq<string>)
    requires |h| == 2 && Pair(h, 0)
    ensures Scan(h + rest) == PairChange(h[0], h[1]) + Scan(rest)
  {
    var lines := h + rest;
    assert lines[0] == h[0] && lines[1] == h[1] && lines[2..] == rest;
    assert Pair(lines, 0);
  }

  lemma ScanThree(h: seq<string>, body: seq<string>, tail: seq<string>)
    requires |h| == 2 && Pair(h, 0) && (tail == [] || !(NEW <= tail[0]))
    ensures Scan(h + body + tail) == PairChange(h[0], h[1]) + (Scan(body) + Scan(tail))
  {
    ScanPairThen(h, body + tail);
    ScanConcat(body, tail);
    assert h + body + tail == h + (body + tail);
  }

  lemma ScanOneFile(f: FileChange, tail: seq<string>)
    requires tail == [] || !(NEW <= tail[0])
    ensures Scan(Header(f.change) + f.body + tail) == [ReadBack(f.change)] + (Scan(f.body) + Scan(tail))
  {
    HeaderReadsBack(f.change);
    ScanThree(Header(f.change), f.body, tail);
  }

  lemma {:induction false} ScanMeetsEveryPair(lines: seq<string>, i: nat, c: Change)
    requires Pair(lines, i) && c in PairChange(lines[i], lines[i + 1])
    ensures c in Scan(lines)
    decreases |lines|
  {
    if Pair(lines, 0) {
      if i > 0 {
        assert lines[1][0] == '+' && lines[i][0] == '-';
        assert lines[2..][i - 2] == lines[i] && lines[2..][i - 1] == lines[i + 1];
        ScanMeetsEveryPair(lines[2..], i - 2, c);
      }
    } else {
      ScanMeetsEveryPair(lines[1..], i - 1, c);
    }
  }

  /** Every header pair among the lines is one of null paths, which says nothing. */
  ghost predicate NamesNoFile(lines: seq<string>) {
    forall i: nat | Pair(lines, i) :: HeaderPath(lines[i]) == DEV_NULL && HeaderPath(lines[i + 1]) == DEV_NULL
  }

  lemma {:induction false} ScanFindsNothingIff(lines: seq<string>)
    ensures Scan(lines) == [] <==> NamesNoFile(lines)
    decreases |lines|
  {
    if !NamesNoFile(lines) {
      var i: nat :| Pair(lines, i) && !(HeaderPath(lines[i]) == DEV_NULL && HeaderPath(lines[i + 1]) == DEV_NULL);
      ScanMeetsEveryPair(lines, i, PairChange(lines[i], lines[i + 1])[0]);
    } else if lines != [] {
      var n := if Pair(lines, 0) then 2 else 1;
      forall i: nat | Pair(lines[n..], i)
        ensures HeaderPath(lines[n..][i]) == DEV_NULL && HeaderPath(lines[n..][i + 1]) == DEV_NULL
      {
        assert Pair(lines, n + i);
      }
      ScanFindsNothingIff(lines[n..]);
    }
  }

  ghost predicate NoPhantoms(fs: seq<FileChange>) {
    forall i | 0 <= i < |fs| :: NamesNoFile(fs[i].body)
  }

  predicate AllClean(fs: seq<FileChange>) {
    forall i | 0 <= i < |fs| :: Clean(fs[i].change.path)
  }

  function ReadBacks(fs: seq<FileChange>): (cs: seq<Change>)
    ensures |cs| == |fs| && forall i | 0 <= i < |fs| :: cs[i] == ReadBack(fs[i].change)
  {
    if fs == [] then [] else [ReadBack(fs[0].change)] + ReadBacks(fs[1..])
  }

  /** Each change, and after it whatever else its file contributes. */
  function WithExtras(fs: seq<FileChange>, extras: FileChange -> seq<Change>): seq<Change> {
    if fs == [] then [] else [ReadBack(fs[0].change)] + (extras(fs[0]) + WithExtras(fs[1..], extras))
  }

  predicate NoExtras(fs: seq<FileChange>, extras: FileChange -> seq<Change>) {
    forall i | 0 <= i < |fs| :: extras(fs[i]) == []
  }

  lemma NoExtrasSplits(fs: seq<FileChange>, extras: FileChange -> seq<Change>)
    requires fs != []
    ensures NoExtras(fs, extras) <==> extras(fs[0]) == [] && NoExtras(fs[1..], extras)
  {
    assert forall i | 0 < i < |fs| :: fs[i] == fs[1..][i - 1];
    assert forall i | 0 <= i < |fs| - 1 :: fs[1..][i] == fs[i + 1];
  }

  lemma {:induction false} WithoutExtras(fs: seq<FileChange>, extras: FileChange -> seq<Change>)
    requires NoExtras(fs, extras)
    ensures WithExtras(fs, extras) == ReadBacks(fs)
  {
    if fs != [] {
      NoExtrasSplits(fs, extras);
      WithoutExtras(fs[1..], extras);
      assert extras(fs[0]) + WithExtras(fs[1..], extras) == ReadBacks(fs[1..]);
    }
  }

  lemma {:induction false} ExtrasShow(fs: seq<FileChange>, extras: FileChange -> seq<Change>)
    ensures |WithExtras(fs, extras)| >= |fs|
    ensures |WithExtras(fs, extras)| == |fs| <==> NoExtras(fs, extras)
  {
    if fs != [] {
      NoExtrasSplits(fs, extras);
      ExtrasShow(fs[1..], extras);
      assert |WithExtras(fs, extras)| == 1 + |extras(fs[0])| + |WithExtras(fs[1..], extras)|;
    }
  }

  function BodyChanges(f: FileChange): seq<Change> {
    Scan(f.body)
  }

  /** Scanning a rendered diff yields each change, and after it whatever its body lines
      look like. */
  lemma {:induction false} ScanRendered(fs: seq<FileChange>)
    ensures Scan(Render(fs)) == WithExtras(fs, BodyChanges)
  {
    if fs != [] {
      ScanRendered(fs[1..]);
      RenderStartsOld(fs[1..]);
      ScanOneFile(fs[0], Render(fs[1..]));
    }
  }

  lemma QuietBodiesIff(fs: seq<FileChange>)
    ensures NoExtras(fs, BodyChanges) <==> NoPhantoms(fs)
  {
    forall i | 0 <= i < |fs| ensures BodyChanges(fs[i]) == [] <==> NamesNoFile(fs[i].body) {
      ScanFindsNothingIff(fs[i].body);
    }
  }

  predicate SameKind(c: Change, d: Change) {
    (c.Added? <==> d.Added?) && (c.Modified? <==> d.Modified?)
  }

  /** The three lists determine the changes once their kinds are known. */
  lemma {:induction false} SortedDetermines(cs: seq<Change>, ds: seq<Change>)
    requires |cs| == |ds| && Sorted(cs) == Sorted(ds)
    requires forall i | 0 <= i < |cs| :: SameKind(cs[i], ds[i])
    ensures cs == ds
  {
    if cs != [] {
      var n := |cs| - 1;
      assert SameKind(cs[n], ds[n]);
      SnocCancels(cs, ds);
      SortedDetermines(cs[..n], ds[..n]);
      assert cs == cs[..n] + [cs[n]] && ds == ds[..n] + [ds[n]];
    }
  }

  lemma SnocCancels(cs: seq<Change>, ds: seq<Change>)
    requires |cs| == |ds| > 0 && Sorted(cs) == Sorted(ds) && SameKind(cs[|cs| - 1], ds[|ds| - 1])
    ensures Sorted(cs[..|cs| - 1]) == Sorted(ds[..|ds| - 1]) && cs[|cs| - 1] == ds[|ds| - 1]
  {
    var n := |cs| - 1;
    var a, b := cs[..n], ds[..n];
    assert forall s: seq<string> :: s + [] == s;
    match cs[n]
    case Added(p) => LastCancels(Additions(a), p, Additions(b), ds[n].path);
    case Modified(p) => LastCancels(Modifications(a), p, Modifications(b), ds[n].path);
    case Deleted(p) => LastCancels(Deletions(a), p, Deletions(b), ds[n].path);
  }

  lemma LastCancels(s: seq<string>, x: string, t: seq<string>, y: string)
    requires s + [x] == t + [y]
    ensures s == t && x == y
  {
    assert |s| == |s + [x]| - 1 == |t|;
    assert (s + [x])[|s|] == x && (t + [y])[|t|] == y;
    assert s == (s + [x])[..|s|] && t == (t + [y])[..|t|];
  }

  lemma ReadBacksIff(fs: seq<FileChange>)
    ensures Sorted(ReadBacks(fs)) == Sorted(Changes(fs)) <==> AllClean(fs)
  {
    var cs, ds := ReadBacks(fs), Changes(fs);
    forall i | 0 <= i < |fs| ensures SameKind(cs[i], ds[i]) && (cs[i] == ds[i] <==> Clean(fs[i].change.path)) {
      ReadsBackIff(fs[i].change.path);
    }
    if Sorted(cs) == Sorted(ds) {
      SortedDetermines(cs, ds);
    } else {
      assert cs != ds;
    }
    assert cs == ds <==> forall i | 0 <= i < |fs| :: cs[i] == ds[i];
  }

  /** Parsing a rendered diff gives back exactly its additions, modifications and
      deletions, in order, if and only if every path is clean and no body holds two
      adjacent lines that read as a header pair naming a file. */
  lemma RoundTripIff(fs: seq<FileChange>)
    ensures Sorted(Scan(Render(fs))) == Sorted(Changes(fs)) <==> NoPhantoms(fs) && AllClean(fs)
  {
    ScanRendered(fs);
    ExtrasShow(fs, BodyChanges);
    if NoExtras(fs, BodyChanges) { WithoutExtras(fs, BodyChanges); }
    QuietBodiesIff(fs);
    ReadBacksIff(fs);
    SortedCounts(WithExtras(fs, BodyChanges));
    SortedCounts(Changes(fs));
  }

  /** Deleting the line `-- x` and adding the line `++ y` next to it reads as a change
      to a file `y` that the diff does not touch. */
  lemma PhantomFile(p: string)
    requires Clean(p)
    ensures var f := FileChange(Modified(p), ["--- x", "+++ y"]);
            Scan(Render([f])) == [Modified(p), Modified("y")]
  {
    var f := FileChange(Modified(p), ["--- x", "+++ y"]);
    assert [f][1..] == [] && Render([f]) == Header(f.change) + f.body + [];
    ScanOneFile(f, []);
    ReadsBackIff(p);
    assert "--- x" == OLD + "x" && "+++ y" == NEW + "y";
    TextOnLine(OLD, "x");
    TextOnLine(NEW, "y");
    assert "y"[0] != '/' && DEV_NULL[0] == '/' && "x" != DEV_NULL;
    assert f.body[2..] == [];
    assert Scan(f.body) == PairChange(f.body[0], f.body[1]) + Scan([]);
  }

  // ---- Purity and policy ----------------------------------------------------

  function Dedupe(paths: seq<string>): (r: seq<string>)
    ensures forall p :: p in r <==> p in paths
  {
    if paths == [] then []
    else
      var init, last := paths[..|paths| - 1], paths[|paths| - 1];
      assert paths == init + [last];
      var r := Dedupe(init);
      if last in r then r else r + [last]
  }

  function TouchedPaths(p: ParsedPatch): (r: seq<string>)
    ensures forall x :: x in r <==> x in p.additions || x in p.modifications || x in p.deletions
  {
    Dedupe(p.additions + p.modifications + p.deletions)
  }

  function Offending(paths: seq<string>, ok: string -> bool): (r: seq<string>)
    ensures r == [] <==> forall p | p in paths :: ok(p)
  {
    if paths == [] then []
    else
      assert paths == [paths[0]] + paths[1..];
      (if ok(paths[0]) then [] else [paths[0]]) + Offending(paths[1..], ok)
  }

  predicate WithinPolicy(path: string, allowed: seq<string>) {
    exists i | 0 <= i < |allowed| :: allowed[i] <= path
  }

  predicate Pure(p: ParsedPatch, declared: seq<string>) {
    Offending(TouchedPaths(p), x => x in declared) == []
  }

  /** An empty policy refuses every patch. */
  predicate PolicyAllows(p: ParsedPatch, allowed: seq<string>) {
    allowed != [] && Offending(TouchedPaths(p), x => WithinPolicy(x, allowed)) == []
  }

  lemma {:induction false} SortedHasAll(cs: seq<Change>, c: Change)
    ensures c in cs ==> c.path in TouchedPaths(Sorted(cs))
  {
    if cs != [] {
      var init := cs[..|cs| - 1];
      assert cs == init + [cs[|cs| - 1]];
      SortedHasAll(init, c);
    }
  }

  /** Every change that the scan reads comes from a header pair. */
  lemma {:induction false} ScanReadsPairs(lines: seq<string>, c: Change) returns (i: nat)
    requires c in Scan(lines)
    ensures Pair(lines, i) && c in PairChange(lines[i], lines[i + 1])
    decreases |lines|
  {
    if Pair(lines, 0) {
      if c in PairChange(lines[0], lines[1]) {
        i := 0;
      } else {
        var k := ScanReadsPairs(lines[2..], c);
        i := k + 2;
      }
    } else {
      var k := ScanReadsPairs(lines[1..], c);
      i := k + 1;
    }
  }

  lemma {:induction false} SortedHasOnly(cs: seq<Change>, p: string) returns (c: Change)
    requires p in TouchedPaths(Sorted(cs))
    ensures c in cs && c.path == p
  {
    var init, last := cs[..|cs| - 1], cs[|cs| - 1];
    if last.path == p {
      c := last;
    } else {
      c := SortedHasOnly(init, p);
    }
  }

  /** The files named on the header pairs of a text. */
  ghost predicate Names(lines: seq<string>, p: string) {
    exists i: nat :: NamesAt(lines, i, p)
  }

  predicate NamesAt(lines: seq<string>, i: nat, p: string) {
    Pair(lines, i) && exists c | c in PairChange(lines[i], lines[i + 1]) :: c.path == p
  }

  lemma TouchedAreNamed(lines: seq<string>, p: string)
    ensures p in TouchedPaths(Sorted(Scan(lines))) <==> Names(lines, p)
  {
    if p in TouchedPaths(Sorted(Scan(lines))) {
      var c := SortedHasOnly(Scan(lines), p);
      var i := ScanReadsPairs(lines, c);
      assert NamesAt(lines, i, p);
    }
    if Names(lines, p) {
      var i: nat :| NamesAt(lines, i, p);
      var c :| c in PairChange(lines[i], lines[i + 1]) && c.path == p;
      ScanMeetsEveryPair(lines, i, c);
      SortedHasAll(Scan(lines), c);
    }
  }

  /** The checks pass exactly if every file named on a header pair is declared, and lies in a
      policy that is not empty. */
  lemma ChecksPassIff(lines: seq<string>, declared: seq<string>, allowed: seq<string>)
    ensures Pure(Sorted(Scan(lines)), declared) <==> forall p | Names(lines, p) :: p in declared
    ensures PolicyAllows(Sorted(Scan(lines)), allowed) <==>
              allowed != [] && forall p | Names(lines, p) :: exists i | 0 <= i < |allowed| :: allowed[i] <= p
  {
    forall p ensures p in TouchedPaths(Sorted(Scan(lines))) <==> Names(lines, p) {
      TouchedAreNamed(lines, p);
    }
  }

  /** A header path without the `a/` or `b/` of a diff is read as it stands. */
  lemma PlainHeadersReadBack(p: string, q: string)
    requires Clean(p) && Clean(q) && p != "" && q != "" && !Whitespace(p[0]) && !Whitespace(q[0])
    requires p != DEV_NULL && q != DEV_NULL
    requires !("a/" <= q) && !("b/" <= q)
    ensures PairChange(OLD + p, NEW + q) == [Modified(q)]
    ensures PairChange(OLD + DEV_NULL, NEW + q) == [Added(q)]
    ensures PairChange(OLD + q, NEW + DEV_NULL) == [Deleted(q)]
  {
    TextOnLine(OLD, p);
    TextOnLine(OLD, q);
    TextOnLine(NEW, q);
    NullOnLine(OLD);
    NullOnLine(NEW);
  }

  /** A patch that passes both checks names, on any header pair anywhere in its text,
      only declared files inside the policy. */
  lemma ChecksBoundEveryHeader(lines: seq<string>, declared: seq<string>, allowed: seq<string>, i: nat, c: Change)
    requires Pure(Sorted(Scan(lines)), declared) && PolicyAllows(Sorted(Scan(lines)), allowed)
    requires Pair(lines, i) && c in PairChange(lines[i], lines[i + 1])
    ensures c.path in declared && WithinPolicy(c.path, allowed)
  {
    ScanMeetsEveryPair(lines, i, c);
    SortedHasAll(Scan(lines), c);
  }
}
