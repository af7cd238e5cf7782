/** Reverting unauthorized changes to the files of a snapshot. */
module Workspace {
  import opened Sequences

  type Bytes = seq<int>
  type FileSystem = map<string, Bytes>

  // ---- Path authorization ---------------------------------------------------

  function TrimSlashes(s: string): string {
    if s != "" && s[|s| - 1] == '/' then TrimSlashes(s[..|s| - 1]) else s
  }

  datatype Rule = Rule(allowed: seq<string>, prohibited: seq<string>, normalize: string -> string)

  predicate Prohibits(entry: string, path: string) {
    path == TrimSlashes(entry) || entry <= path
  }

  predicate Allows(entry: string, path: string) {
    path == TrimSlashes(entry) || TrimSlashes(entry) + "/" <= path || entry <= path
  }

  /** A prohibition beats any permission, and without a permission nothing is allowed. */
  predicate Authorized(rule: Rule, path: string) {
    var p := rule.normalize(path);
    && (forall i | 0 <= i < |rule.prohibited| :: !Prohibits(rule.prohibited[i], p))
    && (exists i | 0 <= i < |rule.allowed| :: Allows(rule.allowed[i], p))
  }

  method IsAuthorized(rule: Rule, path: string) returns (ok: bool)
    ensures ok == Authorized(rule, path)
  {
    var p := rule.normalize(path);
    for i := 0 to |rule.prohibited|
      invariant forall j | 0 <= j < i :: !Prohibits(rule.prohibited[j], p)
    {
      if Prohibits(rule.prohibited[i], p) {
        return false;
      }
    }
    for i := 0 to |rule.allowed|
      invariant forall j | 0 <= j < i :: !Allows(rule.allowed[j], p)
    {
      if Allows(rule.allowed[i], p) {
        return true;
      }
    }
    ok := false;
  }

  lemma {:induction false} TrimOneSlash(d: string)
    requires d != "" && d[|d| - 1] != '/'
    ensures TrimSlashes(d) == d && TrimSlashes(d + "/") == d
  {
    assert (d + "/")[..|d + "/"| - 1] == d;
  }

  /** An entry with a slash at its end is a directory: it stands for itself and what is under
      it.  An entry without one stands for every path that begins with it, under a
      prohibition as under a permission, so `src` covers `src2/x` too. */
  lemma EntriesCover(d: string, path: string)
    requires d != "" && d[|d| - 1] != '/'
    ensures Prohibits(d + "/", path) <==> path == d || d + "/" <= path
    ensures Allows(d + "/", path) <==> path == d || d + "/" <= path
    ensures Prohibits(d, path) <==> d <= path
    ensures Allows(d, path) <==> d <= path
  {
    TrimOneSlash(d);
    if d + "/" <= path {
      assert d <= path by { assert path[..|d|] == (d + "/")[..|d|] == d; }
    }
  }

  /** What lies under a prohibited directory is refused, whatever is allowed. */
  lemma ProhibitedDirectoryIsClosed(rule: Rule, d: string, rest: string, path: string)
    requires d != "" && d[|d| - 1] != '/' && (d in rule.prohibited || d + "/" in rule.prohibited)
    requires rule.normalize(path) == d + "/" + rest || rule.normalize(path) == d
    ensures !Authorized(rule, path)
  {
    var p := rule.normalize(path);
    EntriesCover(d, p);
    assert p == d + "/" + rest ==> d + "/" <= p && p[..|d|] == d;
    var entry := if d in rule.prohibited then d else d + "/";
    var i :| 0 <= i < |rule.prohibited| && rule.prohibited[i] == entry;
    assert Prohibits(rule.prohibited[i], p);
  }

  /** What lies under an allowed directory is authorized if no prohibited entry is a prefix
      of it, with or without the slashes at the entry's end. */
  lemma AllowedDirectoryIsOpen(rule: Rule, d: string, rest: string, path: string)
    requires d != "" && d[|d| - 1] != '/' && (d in rule.allowed || d + "/" in rule.allowed)
    requires rule.normalize(path) == d + "/" + rest
    requires forall e | e in rule.prohibited :: !(TrimSlashes(e) <= rule.normalize(path))
    ensures Authorized(rule, path)
  {
    var p := rule.normalize(path);
    EntriesCover(d, p);
    assert d + "/" <= p && d <= p by { assert p[..|d|] == d && p[..|d| + 1] == d + "/"; }
    var entry := if d in rule.allowed then d else d + "/";
    var i :| 0 <= i < |rule.allowed| && rule.allowed[i] == entry;
    assert Allows(rule.allowed[i], p);
    forall j | 0 <= j < |rule.prohibited| ensures !Prohibits(rule.prohibited[j], p) {
      TrimIsPrefix(rule.prohibited[j]);
    }
  }

  lemma {:induction false} TrimIsPrefix(s: string)
    ensures TrimSlashes(s) <= s
  {
    if s != "" {
      TrimIsPrefix(s[..|s| - 1]);
    }
  }

  // ---- Snapshots ------------------------------------------------------------

  /** Files whose content was captured, in the order they were first recorded. */
  datatype Snapshot = Snapshot(paths: seq<string>, content: map<string, Bytes>)

  ghost predicate ValidSnapshot(s: Snapshot) {
    Distinct(s.paths) && forall p :: p in s.paths <==> p in s.content
  }

  /** A snapshot path that exists, is not authorized and no longer has its bytes. */
  predicate Changed(fs: FileSystem, s: Snapshot, rule: Rule, p: string) {
    p in s.content && p in fs && !Authorized(rule, p) && fs[p] != s.content[p]
  }

  function ChangedPaths(fs: FileSystem, s: Snapshot, rule: Rule, paths: seq<string>): (r: seq<string>)
    ensures forall p :: p in r <==> p in paths && Changed(fs, s, rule, p)
  {
    if paths == [] then []
    else
      var init, last := paths[..|paths| - 1], paths[|paths| - 1];
      assert paths == init + [last];
      ChangedPaths(fs, s, rule, init) + if Changed(fs, s, rule, last) then [last] else []
  }

  /** The file system in which every changed path has its snapshot bytes back. */
  function Reverted(fs: FileSystem, s: Snapshot, rule: Rule): FileSystem {
    map p | p in fs :: if Changed(fs, s, rule, p) then s.content[p] else fs[p]
  }

  /** The same for some of the paths only. */
  function RevertedOn(fs: FileSystem, s: Snapshot, rule: Rule, paths: seq<string>): FileSystem {
    map p | p in fs :: if p in paths && Changed(fs, s, rule, p) then s.content[p] else fs[p]
  }

  lemma RevertOneMore(fs: FileSystem, s: Snapshot, rule: Rule, paths: seq<string>, p: string)
    requires p !in paths
    ensures var done := RevertedOn(fs, s, rule, paths);
            RevertedOn(fs, s, rule, paths + [p]) == if Changed(fs, s, rule, p) then done[p := s.content[p]] else done
    ensures p in fs ==> p in RevertedOn(fs, s, rule, paths) && RevertedOn(fs, s, rule, paths)[p] == fs[p]
  {
    var done, next := RevertedOn(fs, s, rule, paths), RevertedOn(fs, s, rule, paths + [p]);
    if Changed(fs, s, rule, p) {
      assert next == done[p := s.content[p]];
    } else {
      assert next == done;
    }
  }

  lemma ChangedOneMore(fs: FileSystem, s: Snapshot, rule: Rule, paths: seq<string>, p: string)
    ensures ChangedPaths(fs, s, rule, paths + [p]) ==
            ChangedPaths(fs, s, rule, paths) + if Changed(fs, s, rule, p) then [p] else []
  {
    assert (paths + [p])[..|paths|] == paths;
  }

  /** Restoring the next path of the snapshot takes the loop from `i` to `i + 1`. */
  lemma RevertStep(fs: FileSystem, s: Snapshot, rule: Rule, i: nat)
    requires ValidSnapshot(s) && i < |s.paths|
    ensures var p, done := s.paths[i], RevertedOn(fs, s, rule, s.paths[..i]);
            && p in s.content
            && RevertedOn(fs, s, rule, s.paths[..i + 1]) ==
               (if Changed(done, s, rule, p) then done[p := s.content[p]] else done)
            && ChangedPaths(fs, s, rule, s.paths[..i + 1]) ==
               ChangedPaths(fs, s, rule, s.paths[..i]) + (if Changed(done, s, rule, p) then [p] else [])
  {
    var p := s.paths[i];
    assert p in s.paths && p !in s.paths[..i];
    assert s.paths[..i + 1] == s.paths[..i] + [p];
    RevertOneMore(fs, s, rule, s.paths[..i], p);
    ChangedOneMore(fs, s, rule, s.paths[..i], p);
  }

  lemma RevertDone(fs: FileSystem, s: Snapshot, rule: Rule)
    requires ValidSnapshot(s)
    ensures RevertedOn(fs, s, rule, s.paths[..|s.paths|]) == Reverted(fs, s, rule)
    ensures ChangedPaths(fs, s, rule, s.paths[..|s.paths|]) == ChangedPaths(fs, s, rule, s.paths)
  {
    assert s.paths[..|s.paths|] == s.paths;
    assert RevertedOn(fs, s, rule, s.paths) == Reverted(fs, s, rule);
  }

  class Repository {
    var files: FileSystem

    constructor (files: FileSystem)
      ensures this.files == files
    {
      this.files := files;
    }

    /** Records a file, replacing an earlier record of the same path. */
    method Capture(s: Snapshot, path: string) returns (t: Snapshot)
      requires ValidSnapshot(s) && path in files
      ensures ValidSnapshot(t) && t.content == s.content[path := files[path]]
    {
      t := Snapshot(if path in s.content then s.paths else s.paths + [path], s.content[path := files[path]]);
      forall p ensures p in t.paths <==> p in t.content {
        assert p in s.paths <==> p in s.content;
      }
    }

    /** Restores one path if it was changed without permission. */
    method RevertOne(s: Snapshot, rule: Rule, p: string) returns (restored: bool)
      requires p in s.content
      modifies this
      ensures restored == Changed(old(files), s, rule, p)
      ensures files == if restored then old(files)[p := s.content[p]] else old(files)
    {
      if p !in files {
        return false;
      }
      var authorized := IsAuthorized(rule, p);
      if authorized || files[p] == s.content[p] {
        return false;
      }
      files := files[p := s.content[p]];
      restored := true;
    }

    /** Walks the snapshot once, restoring what was changed without permission: every path
        that existed still does, an unauthorized snapshot path has its snapshot bytes, and
        every other path is untouched. */
    method RevertUnauthorized(s: Snapshot, rule: Rule) returns (reverted: seq<string>)
      requires ValidSnapshot(s)
      modifies this
      ensures files == Reverted(old(files), s, rule) && files.Keys == old(files).Keys
      ensures forall p | p in files && p in s.content && !Authorized(rule, p) :: files[p] == s.content[p]
      ensures forall p | p in files && (p !in s.content || Authorized(rule, p)) :: files[p] == old(files)[p]
      ensures reverted == ChangedPaths(old(files), s, rule, s.paths)
    {
      ghost var before := files;
      reverted := [];
      var i := 0;
      while i < |s.paths|
        invariant i <= |s.paths|
        invariant reverted == ChangedPaths(before, s, rule, s.paths[..i])
        invariant files == RevertedOn(before, s, rule, s.paths[..i])
      {
        RevertStep(before, s, rule, i);
        var restored := RevertOne(s, rule, s.paths[i]);
        if restored {
          reverted := reverted + [s.paths[i]];
        }
        i := i + 1;
      }
      RevertDone(before, s, rule);
    }
  }

  /** A second revert finds nothing to do. */
  lemma {:induction false} SecondRevertIsEmpty(fs: FileSystem, s: Snapshot, rule: Rule, paths: seq<string>)
    ensures ChangedPaths(Reverted(fs, s, rule), s, rule, paths) == []
    ensures Reverted(Reverted(fs, s, rule), s, rule) == Reverted(fs, s, rule)
  {
    var after := Reverted(fs, s, rule);
    if paths != [] {
      SecondRevertIsEmpty(fs, s, rule, paths[..|paths| - 1]);
    }
    assert forall p :: !Changed(after, s, rule, p);
    assert Reverted(after, s, rule) == after;
  }
}
