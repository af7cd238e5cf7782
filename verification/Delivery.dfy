/** Idempotent delivery: one pull request per key, up to the crashes in the window
    between creating it and recording it. */
module Delivery {
  import opened Records

  datatype Key = Key(runId: string, taskId: string)

  predicate ValidKey(k: Key) {
    k.runId != "" && k.taskId != ""
  }

  const JOIN := "__"
  const SUFFIX := ".json"

  function AsFilename(k: Key): string {
    k.runId + JOIN + k.taskId + SUFFIX
  }

  // ---- File names -----------------------------------------------------------

  /** Two underscores at position `i`. */
  predicate JoinAt(s: string, i: nat) {
    i + 1 < |s| && s[i] == '_' && s[i + 1] == '_'
  }

  /** The only place to split the joined name into two non-empty ids is where it was joined. */
  predicate Unambiguous(k: Key) {
    var s := k.runId + JOIN + k.taskId;
    forall i: nat | 0 < i && i + 2 < |s| && JoinAt(s, i) :: i == |k.runId|
  }

  lemma SameNameSameText(a: Key, b: Key)
    ensures AsFilename(a) == AsFilename(b) <==> a.runId + JOIN + a.taskId == b.runId + JOIN + b.taskId
  {
    var s, t := a.runId + JOIN + a.taskId, b.runId + JOIN + b.taskId;
    assert AsFilename(a) == s + SUFFIX && AsFilename(b) == t + SUFFIX;
    if AsFilename(a) == AsFilename(b) {
      assert |s| == |t| && s == (s + SUFFIX)[..|s|] == (t + SUFFIX)[..|t|] == t;
    }
  }

  /** A key shares its file with another key exactly when its joined name can be split
      in another place. */
  lemma SharesFileIff(k: Key)
    requires ValidKey(k)
    ensures Unambiguous(k) <==> forall other | ValidKey(other) && AsFilename(other) == AsFilename(k) :: other == k
  {
    var s := k.runId + JOIN + k.taskId;
    forall other | ValidKey(other) && AsFilename(other) == AsFilename(k) && Unambiguous(k) ensures other == k {
      SameNameSameText(other, k);
      var t := other.runId + JOIN + other.taskId;
      assert t[|other.runId|] == '_' && t[|other.runId| + 1] == '_';
      assert JoinAt(s, |other.runId|);
      assert other.runId == t[..|other.runId|] && other.taskId == t[|other.runId| + 2..];
      assert k.runId == s[..|k.runId|] && k.taskId == s[|k.runId| + 2..];
    }
    if !Unambiguous(k) {
      var i: nat :| 0 < i && i + 2 < |s| && JoinAt(s, i) && i != |k.runId|;
      var other := Key(s[..i], s[i + 2..]);
      assert s == s[..i] + JOIN + s[i + 2..];
      SameNameSameText(other, k);
      assert other != k;
    }
  }

  /** Run ids without an underscore never collide: any two such keys with one file are equal. */
  lemma PlainRunIdsAreInjective(a: Key, b: Key)
    requires '_' !in a.runId && '_' !in b.runId && AsFilename(a) == AsFilename(b)
    ensures a == b
  {
    SameNameSameText(a, b);
    var s, t := a.runId + JOIN + a.taskId, b.runId + JOIN + b.taskId;
    assert s[|a.runId|] == '_' && t[|b.runId|] == '_';
    forall i | 0 <= i < |a.runId| ensures s[i] != '_' { assert s[i] == a.runId[i]; }
    forall i | 0 <= i < |b.runId| ensures t[i] != '_' { assert t[i] == b.runId[i]; }
    assert a.runId == s[..|a.runId|] && b.runId == t[..|b.runId|];
    assert a.taskId == s[|a.runId| + 2..] && b.taskId == t[|b.runId| + 2..];
  }

  /** In general they do. */
  lemma UnderscoresCollide()
    ensures AsFilename(Key("a", "b__c")) == AsFilename(Key("a__b", "c"))
  {
    SameNameSameText(Key("a", "b__c"), Key("a__b", "c"));
    assert "a" + JOIN + "b__c" == "a__b__c" == "a__b" + JOIN + "c";
  }

  // ---- Deliveries -----------------------------------------------------------

  datatype Record = Record(commitSha: string, branch: string, prUrl: Option<string>)

  /** A stored record, or the file that a crash inside the write left unreadable. */
  datatype Stored = Whole(record: Record) | Broken

  type Files = map<string, Stored>

  datatype Crash = NoCrash | BeforeCreate | BeforePut | DuringPut

  datatype Outcome = Delivered(record: Record, replayed: bool) | Unreadable | Died

  /** One `deliver` call: its key, what the pull-request service would answer, and the crash. */
  datatype Call = Call(key: Key, made: Record, crash: Crash)

  datatype World = World(files: Files, created: seq<string>)

  /** The world after a call, and its outcome.  `created` lists the files in whose name
      pull requests were created. */
  function Apply(w: World, c: Call): (World, Outcome) {
    var name := AsFilename(c.key);
    if name in w.files then
      (w, if w.files[name].Whole? then Delivered(w.files[name].record, true) else Unreadable)
    else
      match c.crash
      case BeforeCreate => (w, Died)
      case BeforePut => (World(w.files, w.created + [name]), Died)
      case DuringPut => (World(w.files[name := Broken], w.created + [name]), Died)
      case NoCrash => (World(w.files[name := Whole(c.made)], w.created + [name]), Delivered(c.made, false))
  }

  function Run(w: World, cs: seq<Call>): World
    decreases |cs|
  {
    if cs == [] then w else Run(Apply(w, cs[0]).0, cs[1..])
  }

  function Count(names: seq<string>, name: string): nat {
    if names == [] then 0 else Count(names[..|names| - 1], name) + if names[|names| - 1] == name then 1 else 0
  }

  /** The calls for a file that crashed after creating a pull request and before
      starting to record it. */
  function WindowCrashes(w: World, cs: seq<Call>, name: string): nat
    decreases |cs|
  {
    if cs == [] then 0
    else
      (if AsFilename(cs[0].key) == name && name !in w.files && cs[0].crash == BeforePut then 1 else 0)
      + WindowCrashes(Apply(w, cs[0]).0, cs[1..], name)
  }

  lemma CountSnoc(names: seq<string>, x: string, name: string)
    ensures Count(names + [x], name) == Count(names, name) + if x == name then 1 else 0
  {
    assert (names + [x])[..|names|] == names;
  }

  /** A file that exists is never written again. */
  lemma {:induction false} FilesStay(w: World, cs: seq<Call>, name: string)
    requires name in w.files
    ensures name in Run(w, cs).files && Run(w, cs).files[name] == w.files[name]
    decreases |cs|
  {
    if cs != [] {
      FilesStay(Apply(w, cs[0]).0, cs[1..], name);
    }
  }

  lemma CallCounts(w: World, c: Call, name: string)
    ensures var next := Apply(w, c).0;
            Count(next.created, name) ==
              Count(w.created, name)
              + (if AsFilename(c.key) == name && name !in w.files && c.crash == BeforePut then 1 else 0)
              + (if name in next.files && name !in w.files then 1 else 0)
  {
    CountSnoc(w.created, AsFilename(c.key), name);
  }

  /** Over any sequence of deliveries, a file's pull requests grow by exactly its crashes
      in the window, plus one if it became recorded: at most one more than the crashes. */
  lemma {:induction false} AtMostOncePlusCrashes(w: World, cs: seq<Call>, name: string)
    ensures var end := Run(w, cs);
            Count(end.created, name) == Count(w.created, name) + WindowCrashes(w, cs, name)
              + (if name in end.files && name !in w.files then 1 else 0)
    decreases |cs|
  {
    if cs != [] {
      var next := Apply(w, cs[0]).0;
      CallCounts(w, cs[0], name);
      AtMostOncePlusCrashes(next, cs[1..], name);
      if name in next.files { FilesStay(next, cs[1..], name); }
    }
  }

  /** Every call after a delivered one, under any key with that file, answers the same
      record and creates nothing. */
  lemma RepliesNeverChange(w: World, first: Call, between: seq<Call>, later: Call)
    requires Apply(w, first).1.Delivered? && AsFilename(later.key) == AsFilename(first.key)
    ensures var t := Run(Apply(w, first).0, between);
            Apply(t, later) == (t, Delivered(Apply(w, first).1.record, true))
  {
    FilesStay(Apply(w, first).0, between, AsFilename(first.key));
  }

  /** The first call for a file that got as far as its write. */
  function Settler(cs: seq<Call>, name: string): Option<Call> {
    if cs == [] then None
    else if AsFilename(cs[0].key) == name && cs[0].crash in {NoCrash, DuringPut} then Some(cs[0])
    else Settler(cs[1..], name)
  }

  /** What the calls for a file leave in it, told by the calls alone: what the first one that
      got as far as its write made, or a broken file if it died there. */
  lemma {:induction false} FilesTellTheirCalls(w: World, cs: seq<Call>, name: string)
    requires name !in w.files
    ensures var files := Run(w, cs).files;
            match Settler(cs, name)
            case None => name !in files
            case Some(c) => name in files && files[name] == if c.crash == NoCrash then Whole(c.made) else Broken
    decreases |cs|
  {
    if cs != [] {
      var next := Apply(w, cs[0]).0;
      if name in next.files {
        FilesStay(next, cs[1..], name);
      } else {
        FilesTellTheirCalls(next, cs[1..], name);
      }
    }
  }

  /** The reply to any call, told by the calls before it: the record of the first delivery,
      nothing readable after a crash inside the write, and otherwise a delivery of its own,
      with one new pull request, unless it crashes. */
  lemma RepliesTellTheirCalls(cs: seq<Call>, i: nat)
    requires i < |cs|
    ensures var empty, name, crash := World(map[], []), AsFilename(cs[i].key), cs[i].crash;
            var w := Run(empty, cs[..i]);
            var (t, outcome) := Apply(w, cs[i]);
            match Settler(cs[..i], name)
            case Some(c) =>
              t.created == w.created && outcome == if c.crash == NoCrash then Delivered(c.made, true) else Unreadable
            case None =>
              && outcome == (if crash == NoCrash then Delivered(cs[i].made, false) else Died)
              && t.created == if crash == BeforeCreate then w.created else w.created + [name]
  {
    FilesTellTheirCalls(World(map[], []), cs[..i], AsFilename(cs[i].key));
  }

  /** A crash inside the write breaks the file for good: every later call under a key with
      that file is unreadable and creates nothing. */
  lemma BrokenForever(w: World, first: Call, between: seq<Call>, later: Call)
    requires AsFilename(first.key) !in w.files && first.crash == DuringPut
    requires AsFilename(later.key) == AsFilename(first.key)
    ensures var t := Run(Apply(w, first).0, between);
            Apply(t, later) == (t, Unreadable)
  {
    FilesStay(Apply(w, first).0, between, AsFilename(first.key));
  }

  // ---- The service object ---------------------------------------------------

  class DeliveryService {
    var files: Files
    var created: seq<string>

    constructor ()
      ensures State() == World(map[], [])
    {
      files := map[];
      created := [];
    }

    function State(): World
      reads this
    {
      World(files, created)
    }

    /** Answers from the store if it can; otherwise creates the pull request first and
        records it second. */
    method Deliver(key: Key, made: Record, crash: Crash) returns (outcome: Outcome)
      modifies this
      ensures (State(), outcome) == Apply(old(State()), Call(key, made, crash))
    {
      var name := AsFilename(key);
      if name in files {
        if files[name].Broken? {
          return Unreadable;
        }
        return Delivered(files[name].record, true);
      }
      if crash == BeforeCreate {
        return Died;
      }
      created := created + [name];
      if crash == BeforePut {
        return Died;
      }
      files := files[name := if crash == DuringPut then Broken else Whole(made)];
      outcome := if crash == DuringPut then Died else Delivered(made, false);
    }
  }
}
