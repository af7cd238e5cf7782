/** Torn writes: what later replays of the durable ledger still see. */
module LedgerCrash {
  import opened Records
  import opened FileLedger
  import opened LedgerHistory

  predicate Intact(file: seq<Chunk>) {
    forall i | 0 <= i < |file| :: file[i].Terminated?
  }

  function LinesOf(file: seq<Chunk>): (ls: seq<Line>)
    requires Intact(file)
    ensures |ls| == |file|
  {
    seq(|file|, i requires 0 <= i < |file| => file[i].line)
  }

  function FirstTorn(file: seq<Chunk>): (t: nat)
    ensures t <= |file| && Intact(file[..t]) && (t < |file| ==> !file[t].Terminated?)
  {
    if file == [] || !file[0].Terminated? then 0
    else
      var t := 1 + FirstTorn(file[1..]);
      assert file[..t] == [file[0]] + file[1..][..t - 1];
      t
  }

  lemma ReadsTerminatedHead(file: seq<Chunk>)
    requires file != [] && file[0].Terminated?
    ensures ReadFile(file) == [file[0].line] + ReadFile(file[1..])
  {
    var rest := PhysicalLines(file[1..]);
    assert PhysicalLines(file) == [[file[0]]] + rest;
    assert ([[file[0]]] + rest)[1..] == rest;
  }

  lemma ReadsTornHead(file: seq<Chunk>)
    requires file != [] && !file[0].Terminated?
    ensures ReadFile(file) == if |file| == 1 && file[0].Unterminated? then [file[0].line] else []
  {
    if |file| == 1 {
      var ps := PhysicalLines(file);
      assert ps == [[file[0]]] && ps[1..] == [];
      assert Decoded(ps) == if file[0].Partial? then [] else [file[0].line] + Decoded([]);
    } else {
      FirstLineNonempty(file[1..]);
      assert |PhysicalLines(file)[0]| >= 2;
    }
  }

  /** Replay reads exactly the lines before the first write that lacks its newline,
      and that one too when it is whole and still the last thing in the file. */
  lemma {:induction false} ReadsUpToFirstTornWrite(file: seq<Chunk>)
    ensures var t := FirstTorn(file);
            ReadFile(file) == LinesOf(file[..t]) +
              (if t + 1 == |file| && file[t].Unterminated? then [file[t].line] else [])
  {
    if file != [] {
      var t := FirstTorn(file);
      if file[0].Terminated? {
        ReadsTerminatedHead(file);
        ReadsUpToFirstTornWrite(file[1..]);
        assert LinesOf(file[..t]) == [file[0].line] + LinesOf(file[1..][..t - 1]);
      } else {
        ReadsTornHead(file);
        assert LinesOf(file[..t]) == [];
      }
    }
  }

  lemma FirstLineNonempty(file: seq<Chunk>)
    requires file != []
    ensures |PhysicalLines(file)[0]| >= 1
  {
  }

  /** A ledger with its file.  A torn call dies inside the append and the next
      process rebuilds the index. */
  datatype Disk = Disk(index: Index, file: seq<Chunk>)

  datatype DiskEvent = Full(op: Op) | Torn(op: Op, whole: bool) | Restart

  function Open(file: seq<Chunk>): Disk {
    Disk(Replay(map[], ReadFile(file)), file)
  }

  function Appended(w: Option<Line>, newline: bool, whole: bool): seq<Chunk> {
    if w.None? then [] else if newline then [Terminated(w.value)]
    else if whole then [Unterminated(w.value)] else [Partial]
  }

  function DiskStep(d: Disk, e: DiskEvent): Disk {
    match e
    case Full(op) => var a := Apply(d.index, op); Disk(a.index, d.file + Appended(a.written, true, true))
    case Torn(op, whole) => Open(d.file + Appended(Apply(d.index, op).written, false, whole))
    case Restart => Open(d.file)
  }

  function DiskRun(d: Disk, es: seq<DiskEvent>): Disk
    decreases |es|
  {
    if es == [] then d else DiskRun(DiskStep(d, es[0]), es[1..])
  }

  /** The event as the uncrashed ledger sees it: a torn call counts when its line is whole. */
  function Intended(e: DiskEvent): seq<Event> {
    match e
    case Full(op) => [Call(op)]
    case Torn(op, whole) => if whole then [Call(op), Reopen] else [Reopen]
    case Restart => [Reopen]
  }

  function AllIntended(es: seq<DiskEvent>): seq<Event> {
    if es == [] then [] else Intended(es[0]) + AllIntended(es[1..])
  }

  lemma {:induction false} FileGrows(d: Disk, es: seq<DiskEvent>)
    ensures d.file <= DiskRun(d, es).file
    decreases |es|
  {
    if es != [] {
      FileGrows(DiskStep(d, es[0]), es[1..]);
    }
  }

  lemma {:induction false} FirstTornOfPrefix(f: seq<Chunk>, g: seq<Chunk>)
    requires f <= g && FirstTorn(f) < |f|
    ensures FirstTorn(g) == FirstTorn(f)
  {
    if f[0].Terminated? {
      FirstTornOfPrefix(f[1..], g[1..]);
    }
  }

  /** Once a write is torn, the file is never repaired: whatever is appended later,
      by any number of processes, no later replay sees it, and it also hides a whole
      line that only lacked its newline. */
  lemma AppendsAfterTearAreLost(d: Disk, es: seq<DiskEvent>)
    requires FirstTorn(d.file) < |d.file|
    ensures var end := DiskRun(d, es);
            && FirstTorn(end.file) == FirstTorn(d.file)
            && (end.file == d.file || ReadFile(end.file) == LinesOf(d.file[..FirstTorn(d.file)]))
  {
    var end := DiskRun(d, es);
    var t := FirstTorn(d.file);
    FileGrows(d, es);
    FirstTornOfPrefix(d.file, end.file);
    ReadsUpToFirstTornWrite(end.file);
    assert end.file[..t] == d.file[..t];
    if end.file != d.file {
      assert |end.file| > |d.file|;
    }
  }

  /** The disk ledger tracks the uncrashed one. */
  ghost predicate Tracks(d: Disk, s: Ledger) {
    Intact(d.file) && LinesOf(d.file) == s.lines && d.index == s.index
  }

  lemma TrackedReads(d: Disk, s: Ledger)
    requires Tracks(d, s)
    ensures ReadFile(d.file) == s.lines
  {
    ReadsUpToFirstTornWrite(d.file);
    assert FirstTorn(d.file) == |d.file|;
    assert d.file[..|d.file|] == d.file;
  }

  lemma IntactStepTracks(d: Disk, s: Ledger, e: DiskEvent)
    requires Tracks(d, s)
    requires e.Torn? ==> Apply(d.index, e.op).written.None?
    ensures Tracks(DiskStep(d, e), Run(s, Intended(e)))
  {
    TrackedReads(d, s);
    match e {
      case Full(op) =>
        assert Run(s, [Call(op)]) == Step(s, Call(op));
      case Restart =>
        assert Run(s, [Reopen]) == Step(s, Reopen);
      case Torn(op, whole) =>
        ApplyShape(s.index, op);
        assert d.file + [] == d.file && s.lines + [] == s.lines;
        assert Step(s, Call(op)) == s;
        assert [Call(op), Reopen][1..] == [Reopen];
        assert Run(s, [Reopen]) == Step(s, Reopen);
    }
  }

  lemma TornStep(d: Disk, s: Ledger, e: DiskEvent, rest: seq<DiskEvent>) returns (m: nat)
    requires Tracks(d, s) && e.Torn? && Apply(d.index, e.op).written.Some?
    ensures m <= 1
    ensures ReadFile(DiskRun(DiskStep(d, e), rest).file) == Run(s, AllIntended([e][..m])).lines
  {
    var l := Apply(d.index, e.op).written.value;
    var torn := DiskStep(d, e);
    var end := DiskRun(torn, rest);
    FirstTornIsLast(d.file, torn.file[|d.file|]);
    AppendsAfterTearAreLost(torn, rest);
    assert torn.file[..|d.file|] == d.file;
    if end.file == torn.file && e.whole {
      m := 1;
      ReadsUpToFirstTornWrite(torn.file);
      assert [e][..1] == [e] && AllIntended([e]) == Intended(e) + [] == [Call(e.op), Reopen];
      assert [Call(e.op), Reopen][1..] == [Reopen];
      assert Run(s, [Call(e.op), Reopen]) == Run(Step(s, Call(e.op)), [Reopen]) == Step(Step(s, Call(e.op)), Reopen);
    } else {
      m := 0;
      ReadsUpToFirstTornWrite(torn.file);
    }
  }

  lemma {:induction false} FirstTornIsLast(file: seq<Chunk>, c: Chunk)
    requires Intact(file) && !c.Terminated?
    ensures FirstTorn(file + [c]) == |file|
  {
    if file != [] {
      assert (file + [c])[1..] == file[1..] + [c];
      FirstTornIsLast(file[1..], c);
    }
  }

  /** Over any number of torn writes, restarts and further calls, every replay yields
      the log of some prefix of what the callers asked for. */
  lemma {:induction false} ReplayYieldsAPrefix(d: Disk, s: Ledger, es: seq<DiskEvent>) returns (m: nat)
    requires Tracks(d, s)
    ensures m <= |es|
    ensures ReadFile(DiskRun(d, es).file) == Run(s, AllIntended(es[..m])).lines
    decreases |es|
  {
    m := 0;
    if es == [] {
      TrackedReads(d, s);
    } else if es[0].Torn? && Apply(d.index, es[0].op).written.Some? {
      m := TornStep(d, s, es[0], es[1..]);
      assert es[..m] == [es[0]][..m];
    } else {
      IntactStepTracks(d, s, es[0]);
      var k := ReplayYieldsAPrefix(DiskStep(d, es[0]), Run(s, Intended(es[0])), es[1..]);
      m := k + 1;
      assert es[..m][1..] == es[1..][..k];
      RunConcat(s, Intended(es[0]), AllIntended(es[1..][..k]));
    }
  }
}
