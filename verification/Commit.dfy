/**
 Removing the pending paths (`commit_paths`, `remove_tree_at`, `detach_trees` and `reattach` of
 crates/fs/src/lib.rs). `TreeOfCommit` and `KeptByCommit` say what a commit comes to for any pending
 paths. A removal may be stopped between any two entries, and `StopsDoNotMatterExactly` says when
 committing what was kept then comes to the same as never having been stopped.
 */
module Commit {
  import opened Wrappers
  import opened FileTree

  // ---------------------------------------------------------------------------
  // A path in the tree

  /** The node under a path, if its directory can be opened. */
  function Spot(root: Node, path: Path): Result<Option<Node>, Errno> {
    match EntriesAt(root, path.dir)
    case Failure(errno) => Failure(errno)
    case Success(entries) => Success(if path.name in entries then Some(entries[path.name]) else None)
  }

  predicate There(root: Node, path: Path) { Spot(root, path).Success? && Spot(root, path).value.Some? }

  predicate OwnedByOther(root: Node, path: Path, running: nat) {
    There(root, path) && Spot(root, path).value.value.owner.0 != running
  }

  /** The path stays: its directory cannot be opened, or what is there belongs to another user. */
  predicate Blocked(root: Node, path: Path, running: nat) {
    Spot(root, path).Failure? || OwnedByOther(root, path, running)
  }

  /** Why a path stays: what could not be opened, or whose it is. */
  datatype Why = Unreachable(errno: Errno) | OwnedBy(uid: nat)

  function WhyKept(root: Node, path: Path, running: nat): Why
    requires Blocked(root, path, running)
  {
    match Spot(root, path)
    case Failure(errno) => Unreachable(errno)
    case Success(spot) => OwnedBy(spot.value.owner.0)
  }

  function Gone(root: Node, path: Path): Node
    requires IsDir(root, path.dir)
  {
    WithEntries(root, path.dir, EntriesAt(root, path.dir).value - {path.name})
  }

  function Left(root: Node, path: Path, node: Node): Node
    requires IsDir(root, path.dir)
  {
    WithEntries(root, path.dir, EntriesAt(root, path.dir).value[path.name := node])
  }

  ghost predicate OthersUntouched(left: Entries, entries: Entries, at: Name) {
    forall n :: n in left && n != at ==> n in entries && left[n] == entries[n]
  }

  /** What a stop leaves of a directory: some of its entries, among them the one at which it came. */
  ghost predicate HalfRemoved(left: Node, node: Node)
    decreases node
  {
    node.Dir? && left.Dir? && left == node.(entries := left.entries) && left.entries.Keys <= node.entries.Keys &&
    exists at ::
      at in left.entries && OthersUntouched(left.entries, node.entries, at) &&
      (left.entries[at] == node.entries[at] || HalfRemoved(left.entries[at], node.entries[at]))
  }

  // ---------------------------------------------------------------------------
  // Committing

  /** A commit that nobody stops: the tree and the paths that are kept. */
  function Committed(root: Node, pending: seq<Path>, running: nat): (Node, seq<Path>)
    decreases |pending|
  {
    if pending == [] then (root, [])
    else if Blocked(root, pending[0], running) then
      var (after, kept) := Committed(root, pending[1..], running);
      (after, [pending[0]] + kept)
    else Committed(Gone(root, pending[0]), pending[1..], running)
  }

  /** The first path that is kept, and why. */
  function FirstKept(root: Node, pending: seq<Path>, running: nat): Option<(Path, Why)>
    decreases |pending|
  {
    if pending == [] then None
    else if Blocked(root, pending[0], running) then Some((pending[0], WhyKept(root, pending[0], running)))
    else FirstKept(Gone(root, pending[0]), pending[1..], running)
  }

  /** What a commit may come to, stopped or not. */
  ghost predicate Commits(root: Node, pending: seq<Path>, running: nat, after: Node, kept: seq<Path>, stopped: bool)
    decreases |pending|
  {
    if pending == [] then after == root && kept == [] && !stopped
    else if Blocked(root, pending[0], running) then
      kept != [] && kept[0] == pending[0] && Commits(root, pending[1..], running, after, kept[1..], stopped)
    else
      Commits(Gone(root, pending[0]), pending[1..], running, after, kept, stopped) ||
      (stopped && kept == pending && StoppedAt(root, pending[0], after))
  }

  ghost predicate StoppedAt(root: Node, path: Path, after: Node)
    requires Spot(root, path).Success?
  {
    There(root, path) && exists left :: HalfRemoved(left, Spot(root, path).value.value) && after == Left(root, path, left)
  }

  // ---------------------------------------------------------------------------
  // The loops

  /** How often `stop` still reads false; `None` for a stop that never comes. */
  type Patience = Option<nat>

  /** What a commit reports: a stop before all else, otherwise the first path that it had to keep. */
  datatype Outcome = Done | Cancelled | Failed(path: Path, why: Why)

  class Disk {
    var root: Node
    const running: nat

    constructor (root: Node, running: nat)
      ensures this.root == root && this.running == running
    {
      this.root, this.running := root, running;
    }

    /** `remove_tree_at`, for the node itself: what is left of it, nothing unless it was stopped. */
    method RemoveNode(node: Node, patience: Patience) returns (left: Option<Node>, rest: Patience)
      ensures left.Some? ==> HalfRemoved(left.value, node)
      ensures patience.None? ==> left.None? && rest.None?
      decreases node
    {
      rest := patience;
      if !node.Dir? {
        return None, rest;
      }
      var entries := node.entries;
      var names := node.entries.Keys;
      while names != {}
        invariant names <= node.entries.Keys && entries.Keys == names
        invariant forall n :: n in entries ==> entries[n] == node.entries[n]
        invariant patience.None? ==> rest.None?
        decreases names
      {
        var name :| name in names;
        if rest == Some(0) {
          assert OthersUntouched(entries, node.entries, name);
          return Some(Dir(node.id, node.mode, node.owner, entries)), rest;
        }
        rest := if rest.Some? then Some(rest.value - 1) else None;
        var below: Option<Node>;
        below, rest := RemoveNode(entries[name], rest);
        if below.Some? {
          assert OthersUntouched(entries[name := below.value], node.entries, name);
          return Some(Dir(node.id, node.mode, node.owner, entries[name := below.value])), rest;
        }
        entries := entries - {name};
        names := names - {name};
      }
      return None, rest;
    }

    /** `remove_tree`: all that is under the path, or only a part of it after a stop. */
    method RemovePath(path: Path, patience: Patience) returns (stopped: bool, rest: Patience)
      requires !Blocked(root, path, running)
      modifies this`root
      ensures if stopped then StoppedAt(old(root), path, root) else root == Gone(old(root), path)
      ensures patience.None? ==> !stopped && rest.None?
    {
      var entries := EntriesAt(root, path.dir).value;
      if path.name !in entries {
        assert entries - {path.name} == entries;
        WritingBackChangesNothing(root, path.dir);
        return false, patience;
      }
      var left: Option<Node>;
      left, rest := RemoveNode(entries[path.name], patience);
      stopped := left.Some?;
      if stopped {
        assert WithEntries(root, path.dir, entries[path.name := left.value]) == Left(root, path, left.value);
        root := WithEntries(root, path.dir, entries[path.name := left.value]);
      } else {
        root := WithEntries(root, path.dir, entries - {path.name});
      }
    }

    /** `commit_paths`: each path in turn; a stop keeps the path it came at and all after it. */
    method CommitPaths(pending: seq<Path>, patience: Patience) returns (kept: seq<Path>, outcome: Outcome)
      modifies this`root
      ensures Commits(old(root), pending, running, root, kept, outcome.Cancelled?)
      ensures patience.None? ==> !outcome.Cancelled?
      ensures outcome == Done <==> kept == []
      ensures outcome.Failed? ==> outcome.path == kept[0]
      ensures outcome.Failed? ==> FirstKept(old(root), pending, running) == Some((outcome.path, outcome.why))
    {
      kept := [];
      var first: Option<(Path, Why)> := None;
      var rest := patience;
      ghost var start := root;
      assert pending[0..] == pending && forall more: seq<Path> :: kept + more == more;
      assert LeadsTo(root, pending, root, pending, [], running);
      for i := 0 to |pending|
        invariant patience.None? ==> rest.None?
        invariant LeadsTo(root, pending[i..], start, pending, kept, running)
        invariant first.Some? <==> kept != []
        invariant first.Some? ==> first.value.0 == kept[0]
        invariant FirstKept(start, pending, running)
               == if first.Some? then first else FirstKept(root, pending[i..], running)
      {
        var path := pending[i];
        assert pending[i..][0] == path && pending[i..][1..] == pending[i + 1..];
        match EntriesAt(root, path.dir) {
          case Failure(errno) =>
            KeepsOne(root, pending[i..], start, pending, kept, running);
            first := if first.Some? then first else Some((path, Unreachable(errno)));
            kept := kept + [path];
          case Success(entries) =>
            if path.name in entries && entries[path.name].owner.0 != running {
              KeepsOne(root, pending[i..], start, pending, kept, running);
              first := if first.Some? then first else Some((path, OwnedBy(entries[path.name].owner.0)));
              kept := kept + [path];
            } else {
              ghost var before := root;
              var stopped: bool;
              stopped, rest := RemovePath(path, rest);
              if stopped {
                StopsHere(before, pending[i..], start, pending, kept, running, root);
                return kept + pending[i..], Cancelled;
              }
              GoesOn(before, pending[i..], start, pending, kept, running);
            }
        }
      }
      assert pending[|pending|..] == [];
      Ends(root, start, pending, kept, running);
      outcome := if first.Some? then Failed(first.value.0, first.value.1) else Done;
    }
  }

  /** A commit that was not stopped has one result. */
  lemma {:induction false} NotStopped(root: Node, pending: seq<Path>, running: nat, after: Node, kept: seq<Path>)
    requires Commits(root, pending, running, after, kept, false)
    ensures (after, kept) == Committed(root, pending, running)
    decreases |pending|
  {
    if pending != [] {
      if Blocked(root, pending[0], running) {
        NotStopped(root, pending[1..], running, after, kept[1..]);
        assert kept == [pending[0]] + kept[1..];
      } else {
        NotStopped(Gone(root, pending[0]), pending[1..], running, after, kept);
      }
    }
  }

  /** Whatever the rest comes to, the whole comes to with the kept paths before it. */
  ghost predicate LeadsTo(root: Node, rest: seq<Path>, start: Node, all: seq<Path>, kept: seq<Path>, running: nat) {
    forall after: Node, more: seq<Path>, halt: bool ::
      Commits(root, rest, running, after, more, halt) ==> Commits(start, all, running, after, kept + more, halt)
  }

  lemma KeepsOne(root: Node, rest: seq<Path>, start: Node, all: seq<Path>, kept: seq<Path>, running: nat)
    requires rest != [] && Blocked(root, rest[0], running) && LeadsTo(root, rest, start, all, kept, running)
    ensures LeadsTo(root, rest[1..], start, all, kept + [rest[0]], running)
  {
    forall after: Node, more: seq<Path>, halt: bool | Commits(root, rest[1..], running, after, more, halt)
      ensures Commits(start, all, running, after, kept + [rest[0]] + more, halt)
    {
      assert ([rest[0]] + more)[1..] == more;
      assert Commits(root, rest, running, after, [rest[0]] + more, halt);
      assert kept + ([rest[0]] + more) == kept + [rest[0]] + more;
    }
  }

  lemma GoesOn(root: Node, rest: seq<Path>, start: Node, all: seq<Path>, kept: seq<Path>, running: nat)
    requires rest != [] && !Blocked(root, rest[0], running) && LeadsTo(root, rest, start, all, kept, running)
    ensures LeadsTo(Gone(root, rest[0]), rest[1..], start, all, kept, running)
  {
    forall after: Node, more: seq<Path>, halt: bool | Commits(Gone(root, rest[0]), rest[1..], running, after, more, halt)
      ensures Commits(start, all, running, after, kept + more, halt)
    {
      assert Commits(root, rest, running, after, more, halt);
    }
  }

  lemma StopsHere(root: Node, rest: seq<Path>, start: Node, all: seq<Path>, kept: seq<Path>, running: nat, after: Node)
    requires rest != [] && !Blocked(root, rest[0], running) && LeadsTo(root, rest, start, all, kept, running)
    requires StoppedAt(root, rest[0], after)
    ensures Commits(start, all, running, after, kept + rest, true)
  {
    assert Commits(root, rest, running, after, rest, true);
  }

  lemma Ends(root: Node, start: Node, all: seq<Path>, kept: seq<Path>, running: nat)
    requires LeadsTo(root, [], start, all, kept, running)
    ensures Commits(start, all, running, root, kept, false)
  {
    assert Commits(root, [], running, root, [], false) && kept + [] == kept;
  }

  // ---------------------------------------------------------------------------
  // Paths above, below and beside one another

  /** `a` is the directory of `b` or lies above it. */
  predicate Above(a: Path, b: Path) { Full(a) <= b.dir }

  lemma PrefixCases(a: Path, b: Path)
    ensures Full(a) <= Full(b) <==> Above(a, b) || a == b
  {
    var x, y := Full(a), Full(b);
    assert y[..|b.dir|] == b.dir;
    if x <= y && |x| == |y| {
      assert x == y && x[..|a.dir|] == a.dir && x[|a.dir|] == a.name;
    }
    if x <= y && |x| < |y| {
      assert x == y[..|x|] == b.dir[..|x|];
    }
    if Above(a, b) {
      assert y[..|x|] == b.dir[..|x|];
    }
  }

  /** Inside the directory with the first name. */
  function Below(path: Path): (r: Path)
    requires path.dir != []
    ensures Full(path) == [path.dir[0]] + Full(r)
  {
    Path(path.dir[1..], path.name)
  }

  lemma PrefixBehind(first: Name, a: seq<Name>, b: seq<Name>)
    ensures [first] + a <= [first] + b <==> a <= b
  {
    if a <= b {
      assert b == a + b[|a|..];
      assert [first] + b == ([first] + a) + b[|a|..];
    }
    if [first] + a <= [first] + b {
      assert ([first] + a)[1..] == a && ([first] + b)[1..] == b;
      assert ([first] + b)[..|a| + 1][1..] == b[..|a|];
    }
  }

  lemma PrefixBelow(path: Path, dir: seq<Name>)
    requires path.dir != [] && dir != []
    ensures Full(path) <= dir <==> path.dir[0] == dir[0] && Full(Below(path)) <= dir[1..]
  {
    assert dir == [dir[0]] + dir[1..];
    assert Full(path) <= dir ==> Full(path)[0] == dir[0];
    PrefixBehind(dir[0], Full(Below(path)), dir[1..]);
  }

  lemma PrefixOne(name: Name, dir: seq<Name>)
    requires dir != []
    ensures [name] <= dir <==> name == dir[0]
  {}

  /** The entries changed at most under one name. */
  ghost predicate ChangedAt(before: Entries, after: Entries, name: Name) {
    forall n :: n != name ==> (n in after <==> n in before) && (n in before ==> after[n] == before[n])
  }

  predicate SameHere(before: Node, after: Node, dir: seq<Name>, name: Name)
    requires IsDir(before, dir)
  {
    IsDir(after, dir) &&
    (name in EntriesAt(after, dir).value <==> name in EntriesAt(before, dir).value) &&
    (name in EntriesAt(after, dir).value ==>
      EntriesAt(after, dir).value[name].owner == EntriesAt(before, dir).value[name].owner)
  }

  /** Changing what is under one path takes nothing away that is not at it or below it. */
  lemma {:induction false} NotTakenAway(root: Node, at: Path, entries: Entries, path: Path)
    requires IsDir(root, at.dir) && ChangedAt(EntriesAt(root, at.dir).value, entries, at.name)
    requires IsDir(root, path.dir) && at != path && !Above(at, path)
    ensures SameHere(root, WithEntries(root, at.dir, entries), path.dir, path.name)
    decreases |at.dir|
  {
    if path.dir != [] {
      if at.dir == [] {
        PrefixOne(at.name, path.dir);
      } else if at.dir[0] == path.dir[0] {
        PrefixBelow(at, path.dir);
        NotTakenAway(root.entries[at.dir[0]], Below(at), entries, Below(path));
      }
    }
  }

  /** What is below a removed path cannot be reached. */
  lemma {:induction false} UnderGone(root: Node, at: Path, dir: seq<Name>)
    requires IsDir(root, at.dir) && Full(at) <= dir
    ensures !IsDir(Gone(root, at), dir)
    decreases |at.dir|
  {
    if at.dir == [] {
      PrefixOne(at.name, dir);
    } else {
      PrefixBelow(at, dir);
      UnderGone(root.entries[at.dir[0]], Below(at), dir[1..]);
    }
  }

  lemma GoneSpot(root: Node, path: Path)
    requires IsDir(root, path.dir)
    ensures Spot(Gone(root, path), path) == Success(None)
  {
    ReadsWhatWasWritten(root, path.dir, EntriesAt(root, path.dir).value - {path.name});
  }

  lemma GoneNothing(root: Node, path: Path)
    requires Spot(root, path) == Success(None)
    ensures Gone(root, path) == root
  {
    assert EntriesAt(root, path.dir).value - {path.name} == EntriesAt(root, path.dir).value;
    WritingBackChangesNothing(root, path.dir);
  }

  lemma LeftSpot(root: Node, path: Path, left: Node)
    requires IsDir(root, path.dir)
    ensures Spot(Left(root, path, left), path) == Success(Some(left))
    ensures Gone(Left(root, path, left), path) == Gone(root, path)
  {
    var entries := EntriesAt(root, path.dir).value;
    ReadsWhatWasWritten(root, path.dir, entries[path.name := left]);
    LastWriteCounts(root, path.dir, entries[path.name := left], entries - {path.name});
    assert entries[path.name := left] - {path.name} == entries - {path.name};
  }

  lemma OtherOnceGone(root: Node, at: Path, path: Path, running: nat)
    requires IsDir(root, at.dir) && OwnedByOther(root, path, running) && at != path && !Above(at, path)
    ensures OwnedByOther(Gone(root, at), path, running)
  {
    NotTakenAway(root, at, EntriesAt(root, at.dir).value - {at.name}, path);
  }

  lemma OtherOnceLeft(root: Node, at: Path, left: Node, path: Path, running: nat)
    requires IsDir(root, at.dir) && OwnedByOther(root, path, running) && at != path && !Above(at, path)
    ensures OwnedByOther(Left(root, at, left), path, running)
  {
    NotTakenAway(root, at, EntriesAt(root, at.dir).value[at.name := left], path);
  }

  /** A removal blocks what was below it, and nothing else. */
  lemma BlockedOnceGone(root: Node, at: Path, path: Path, running: nat)
    requires !Blocked(root, at, running)
    ensures Blocked(Gone(root, at), path, running) <==> Blocked(root, path, running) || Above(at, path)
  {
    if Above(at, path) {
      UnderGone(root, at, path.dir);
    } else if at == path {
      GoneSpot(root, at);
    } else if IsDir(root, path.dir) {
      NotTakenAway(root, at, EntriesAt(root, at.dir).value - {at.name}, path);
    } else {
      GoneThinner(root, at);
      ThinnerSpot(Gone(root, at), root, path);
    }
  }

  // ---------------------------------------------------------------------------
  // A commit only takes away

  /** The same directory with some of what was in it taken away. */
  ghost predicate Thinner(left: Node, node: Node)
    decreases node
  {
    left == node ||
    (node.Dir? && left.Dir? && left.id == node.id && left.mode == node.mode && left.owner == node.owner &&
     left.entries.Keys <= node.entries.Keys && forall n :: n in left.entries ==> Thinner(left.entries[n], node.entries[n]))
  }

  ghost predicate EntriesThinner(left: Entries, entries: Entries) {
    left.Keys <= entries.Keys && forall n :: n in left ==> Thinner(left[n], entries[n])
  }

  lemma {:induction false} ThinnerStill(a: Node, b: Node, c: Node)
    requires Thinner(a, b) && Thinner(b, c)
    ensures Thinner(a, c)
    decreases c
  {
    if a != b && b != c {
      forall n | n in a.entries
        ensures Thinner(a.entries[n], c.entries[n])
      {
        ThinnerStill(a.entries[n], b.entries[n], c.entries[n]);
      }
    }
  }

  lemma {:induction false} ThinnerDirs(a: Node, b: Node, dir: seq<Name>)
    requires Thinner(a, b) && IsDir(a, dir)
    ensures IsDir(b, dir) && EntriesThinner(EntriesAt(a, dir).value, EntriesAt(b, dir).value)
    decreases |dir|
  {
    if dir != [] {
      ThinnerDirs(a.entries[dir[0]], b.entries[dir[0]], dir[1..]);
    }
  }

  lemma ThinnerSpot(a: Node, b: Node, path: Path)
    requires Thinner(a, b)
    ensures Spot(b, path).Failure? ==> Spot(a, path).Failure?
    ensures There(a, path) ==> There(b, path) && Spot(a, path).value.value.owner == Spot(b, path).value.value.owner
  {
    if IsDir(a, path.dir) {
      ThinnerDirs(a, b, path.dir);
    }
  }

  lemma {:induction false} WritesThinner(root: Node, dir: seq<Name>, entries: Entries)
    requires IsDir(root, dir) && EntriesThinner(entries, EntriesAt(root, dir).value)
    ensures Thinner(WithEntries(root, dir, entries), root)
    decreases |dir|
  {
    if dir != [] {
      WritesThinner(root.entries[dir[0]], dir[1..], entries);
    }
  }

  lemma GoneThinner(root: Node, path: Path)
    requires IsDir(root, path.dir)
    ensures Thinner(Gone(root, path), root)
  {
    WritesThinner(root, path.dir, EntriesAt(root, path.dir).value - {path.name});
  }

  lemma {:induction false} HalfIsThinner(left: Node, node: Node)
    requires HalfRemoved(left, node)
    ensures Thinner(left, node)
    decreases node
  {
    var at :| at in left.entries && OthersUntouched(left.entries, node.entries, at) &&
      (left.entries[at] == node.entries[at] || HalfRemoved(left.entries[at], node.entries[at]));
    if left.entries[at] != node.entries[at] {
      HalfIsThinner(left.entries[at], node.entries[at]);
    }
  }

  lemma LeftThinner(root: Node, path: Path, left: Node)
    requires There(root, path) && HalfRemoved(left, Spot(root, path).value.value)
    ensures Thinner(Left(root, path, left), root)
  {
    HalfIsThinner(left, Spot(root, path).value.value);
    WritesThinner(root, path.dir, EntriesAt(root, path.dir).value[path.name := left]);
  }

  lemma {:induction false} CommitsThinner(root: Node, pending: seq<Path>, running: nat, after: Node, kept: seq<Path>, stopped: bool)
    requires Commits(root, pending, running, after, kept, stopped)
    ensures Thinner(after, root)
    decreases |pending|
  {
    if pending != [] {
      var first := pending[0];
      if Blocked(root, first, running) {
        CommitsThinner(root, pending[1..], running, after, kept[1..], stopped);
      } else if Commits(Gone(root, first), pending[1..], running, after, kept, stopped) {
        CommitsThinner(Gone(root, first), pending[1..], running, after, kept, stopped);
        GoneThinner(root, first);
        ThinnerStill(after, Gone(root, first), root);
      } else {
        var left :| HalfRemoved(left, Spot(root, first).value.value) && after == Left(root, first, left);
        LeftThinner(root, first, left);
      }
    }
  }

  // ---------------------------------------------------------------------------
  // Apart from the pending paths

  predicate Apart(a: Path, b: Path) { !(Full(a) <= Full(b)) && !(Full(b) <= Full(a)) }

  predicate ApartFrom(path: Path, paths: seq<Path>) { forall p | p in paths :: Apart(path, p) }

  lemma FirstsDiffer(a: Path, b: Path)
    requires Apart(a, b) && (a.dir == [] || b.dir == [])
    ensures Full(a)[0] != Full(b)[0]
  {
    if a.dir == [] {
      PrefixOne(a.name, Full(b));
    } else {
      PrefixOne(b.name, Full(a));
    }
  }

  lemma SameFirst(a: Node, b: Node, path: Path)
    requires a.Dir? && b.Dir? && (Full(path)[0] in a.entries <==> Full(path)[0] in b.entries)
    requires Full(path)[0] in a.entries ==> a.entries[Full(path)[0]] == b.entries[Full(path)[0]]
    ensures Spot(a, path) == Spot(b, path)
  {}

  lemma ApartBelow(a: Path, b: Path)
    requires a.dir != [] && b.dir != [] && a.dir[0] == b.dir[0] && Apart(a, b)
    ensures Apart(Below(a), Below(b))
  {
    PrefixBehind(a.dir[0], Full(Below(a)), Full(Below(b)));
    PrefixBehind(a.dir[0], Full(Below(b)), Full(Below(a)));
  }

  /** Changing what is under one path changes nothing under a path apart from it. */
  lemma {:induction false} SpotElsewhere(root: Node, at: Path, entries: Entries, path: Path)
    requires IsDir(root, at.dir) && Apart(at, path) && ChangedAt(EntriesAt(root, at.dir).value, entries, at.name)
    ensures Spot(WithEntries(root, at.dir, entries), path) == Spot(root, path)
    decreases |at.dir|
  {
    if at.dir != [] && path.dir != [] && at.dir[0] == path.dir[0] {
      ApartBelow(at, path);
      SpotElsewhere(root.entries[at.dir[0]], Below(at), entries, Below(path));
    } else {
      if at.dir == [] || path.dir == [] {
        FirstsDiffer(at, path);
      }
      SameFirst(WithEntries(root, at.dir, entries), root, path);
    }
  }

  /** A commit, stopped or not, touches nothing apart from the paths that were pending. */
  lemma {:induction false} CommitsElsewhere(root: Node, pending: seq<Path>, running: nat, after: Node, kept: seq<Path>,
                                            stopped: bool, path: Path)
    requires Commits(root, pending, running, after, kept, stopped) && ApartFrom(path, pending)
    ensures Spot(after, path) == Spot(root, path)
    decreases |pending|
  {
    if pending != [] {
      var first := pending[0];
      assert Apart(path, first) && Apart(first, path);
      if Blocked(root, first, running) {
        CommitsElsewhere(root, pending[1..], running, after, kept[1..], stopped, path);
      } else if Commits(Gone(root, first), pending[1..], running, after, kept, stopped) {
        CommitsElsewhere(Gone(root, first), pending[1..], running, after, kept, stopped, path);
        SpotElsewhere(root, first, EntriesAt(root, first.dir).value - {first.name}, path);
      } else {
        var left :| HalfRemoved(left, Spot(root, first).value.value) && after == Left(root, first, left);
        SpotElsewhere(root, first, EntriesAt(root, first.dir).value[first.name := left], path);
      }
    }
  }

  // ---------------------------------------------------------------------------
  // Stopped and continued

  /** The first removable path above `path` finds it in a directory with others, so that a stop can come between. */
  predicate Exposed(root: Node, pending: seq<Path>, running: nat, path: Path)
    decreases |pending|
  {
    pending != [] &&
    if Blocked(root, pending[0], running) then Exposed(root, pending[1..], running, path)
    else if Above(pending[0], path) then IsDir(root, path.dir) && EntriesAt(root, path.dir).value.Keys != {path.name}
    else Exposed(Gone(root, pending[0]), pending[1..], running, path)
  }

  /** Along the commit, no path that stays because it is another user's is exposed to a later one above it. */
  predicate Steady(root: Node, pending: seq<Path>, running: nat)
    decreases |pending|
  {
    if pending == [] then true
    else if Blocked(root, pending[0], running) then
      Steady(root, pending[1..], running) &&
      (OwnedByOther(root, pending[0], running) ==> !Exposed(root, pending[1..], running, pending[0]))
    else Steady(Gone(root, pending[0]), pending[1..], running)
  }

  /** What is below a directory is what is below it on its own. */
  lemma {:induction false} EntriesThrough(root: Node, at: Path, dir: seq<Name>)
    requires There(root, at) && Full(at) <= dir
    ensures EntriesAt(root, dir) == EntriesAt(Spot(root, at).value.value, dir[|Full(at)|..])
    decreases |at.dir|
  {
    if at.dir == [] {
      PrefixOne(at.name, dir);
    } else {
      PrefixBelow(at, dir);
      EntriesThrough(root.entries[at.dir[0]], Below(at), dir[1..]);
      assert dir[1..][|Full(Below(at))|..] == dir[|Full(at)|..];
    }
  }

  lemma {:induction false} HalfDirs(left: Node, node: Node, dir: seq<Name>)
    requires HalfRemoved(left, node) && IsDir(left, dir)
    ensures EntriesAt(left, dir).value != map[] || EntriesAt(left, dir) == EntriesAt(node, dir)
    decreases |dir|
  {
    if dir != [] {
      var at :| at in left.entries && OthersUntouched(left.entries, node.entries, at) &&
        (left.entries[at] == node.entries[at] || HalfRemoved(left.entries[at], node.entries[at]));
      if dir[0] == at && left.entries[at] != node.entries[at] {
        HalfDirs(left.entries[at], node.entries[at], dir[1..]);
      }
    }
  }

  /** A path alone in its directory is not taken out without the directory. */
  lemma AloneInside(root: Node, at: Path, left: Node, path: Path)
    requires There(root, at) && HalfRemoved(left, Spot(root, at).value.value) && Above(at, path)
    requires There(root, path) && EntriesAt(root, path.dir).value.Keys == {path.name}
    ensures IsDir(Left(root, at, left), path.dir) ==> EntriesAt(Left(root, at, left), path.dir).value.Keys == {path.name}
  {
    var after := Left(root, at, left);
    if IsDir(after, path.dir) {
      var inner := path.dir[|Full(at)|..];
      LeftSpot(root, at, left);
      EntriesThrough(root, at, path.dir);
      EntriesThrough(after, at, path.dir);
      HalfDirs(left, Spot(root, at).value.value, inner);
      LeftThinner(root, at, left);
      ThinnerDirs(after, root, path.dir);
      var entries := EntriesAt(after, path.dir).value;
      assert entries.Keys <= {path.name};
      assert entries != map[];
      var n :| n in entries;
      assert n == path.name;
    }
  }

  lemma KeepsOther(root: Node, after: Node, path: Path, running: nat)
    requires Thinner(after, root) && OwnedByOther(root, path, running)
    requires Spot(after, path) != Success(None)
    ensures Blocked(after, path, running)
  {
    ThinnerSpot(after, root, path);
  }

  /** A path of another user that is not exposed stays blocked, wherever the commit stops. */
  lemma {:induction false} StaysBlocked(root: Node, pending: seq<Path>, running: nat, after: Node, kept: seq<Path>,
                                        stopped: bool, path: Path)
    requires Commits(root, pending, running, after, kept, stopped)
    requires OwnedByOther(root, path, running) && !Exposed(root, pending, running, path)
    ensures Blocked(after, path, running)
    decreases |pending|
  {
    if pending != [] {
      var first, rest := pending[0], pending[1..];
      if Blocked(root, first, running) {
        StaysBlocked(root, rest, running, after, kept[1..], stopped, path);
      } else if Commits(Gone(root, first), rest, running, after, kept, stopped) {
        if Above(first, path) {
          UnderGone(root, first, path.dir);
          CommitsThinner(Gone(root, first), rest, running, after, kept, stopped);
          ThinnerSpot(after, Gone(root, first), path);
        } else {
          OtherOnceGone(root, first, path, running);
          StaysBlocked(Gone(root, first), rest, running, after, kept, stopped, path);
        }
      } else {
        var left :| HalfRemoved(left, Spot(root, first).value.value) && after == Left(root, first, left);
        if Above(first, path) {
          AloneInside(root, first, left, path);
          LeftThinner(root, first, left);
          KeepsOther(root, after, path, running);
        } else {
          OtherOnceLeft(root, first, left, path, running);
        }
      }
    }
  }

  lemma FirstStaysBlocked(root: Node, pending: seq<Path>, running: nat, after: Node, kept: seq<Path>, stopped: bool)
    requires pending != [] && Blocked(root, pending[0], running) && Steady(root, pending, running)
    requires Commits(root, pending[1..], running, after, kept, stopped)
    ensures Blocked(after, pending[0], running)
  {
    if OwnedByOther(root, pending[0], running) {
      StaysBlocked(root, pending[1..], running, after, kept, stopped, pending[0]);
    } else {
      CommitsThinner(root, pending[1..], running, after, kept, stopped);
      ThinnerSpot(after, root, pending[0]);
    }
  }

  lemma LeftIsRemovable(root: Node, path: Path, left: Node, running: nat)
    requires There(root, path) && !Blocked(root, path, running) && HalfRemoved(left, Spot(root, path).value.value)
    ensures !Blocked(Left(root, path, left), path, running)
    ensures Gone(Left(root, path, left), path) == Gone(root, path)
  {
    LeftSpot(root, path, left);
  }

  /** Committing what a stopped commit kept comes to the same as a commit that was never stopped. */
  lemma {:induction false} StopChangesNothingInTheEnd(root: Node, pending: seq<Path>, running: nat, middle: Node,
                                                      kept: seq<Path>, stopped: bool)
    requires Commits(root, pending, running, middle, kept, stopped) && Steady(root, pending, running)
    ensures Committed(middle, kept, running) == Committed(root, pending, running)
    decreases |pending|
  {
    if pending != [] {
      var first := pending[0];
      if Blocked(root, first, running) {
        StopChangesNothingInTheEnd(root, pending[1..], running, middle, kept[1..], stopped);
        FirstStaysBlocked(root, pending, running, middle, kept[1..], stopped);
      } else if Commits(Gone(root, first), pending[1..], running, middle, kept, stopped) {
        StopChangesNothingInTheEnd(Gone(root, first), pending[1..], running, middle, kept, stopped);
      } else {
        var left :| HalfRemoved(left, Spot(root, first).value.value) && middle == Left(root, first, left);
        LeftIsRemovable(root, first, left, running);
      }
    }
  }

  // ---------------------------------------------------------------------------
  // Every half is one that a stop may leave

  ghost predicate PartOf(entries: Entries, node: Node) {
    node.Dir? && entries.Keys <= node.entries.Keys && forall n :: n in entries ==> entries[n] == node.entries[n]
  }

  /** Removing entry by entry in some order, with these still to come, may be stopped with `left` there. */
  ghost predicate MayStopIn(left: Entries, entries: Entries, node: Node)
    requires PartOf(entries, node)
    decreases node, entries.Keys
  {
    entries != map[] &&
    (left == entries ||
     exists name ::
       name in entries &&
       ((name in left && left == entries[name := left[name]] && MayStop(left[name], node.entries[name])) ||
        MayStopIn(left, entries - {name}, node)))
  }

  ghost predicate MayStop(left: Node, node: Node)
    decreases node
  {
    node.Dir? && left.Dir? && left == node.(entries := left.entries) && MayStopIn(left.entries, node.entries, node)
  }

  ghost predicate HalfOf(left: Entries, entries: Entries) {
    left.Keys <= entries.Keys &&
    exists at :: at in left && OthersUntouched(left, entries, at) && (left[at] == entries[at] || HalfRemoved(left[at], entries[at]))
  }

  lemma {:induction false} StopsInHalf(left: Entries, entries: Entries, node: Node)
    requires PartOf(entries, node) && MayStopIn(left, entries, node)
    ensures HalfOf(left, entries)
    decreases node, entries.Keys
  {
    if left == entries {
      var at :| at in left;
      assert OthersUntouched(left, entries, at);
    } else {
      var name :| name in entries &&
        ((name in left && left == entries[name := left[name]] && MayStop(left[name], node.entries[name])) ||
         MayStopIn(left, entries - {name}, node));
      if MayStopIn(left, entries - {name}, node) {
        StopsInHalf(left, entries - {name}, node);
        var at :| at in left && OthersUntouched(left, entries - {name}, at) &&
          (left[at] == entries[at] || HalfRemoved(left[at], entries[at]));
        assert OthersUntouched(left, entries, at);
      } else {
        StopsAreHalves(left[name], node.entries[name]);
        assert OthersUntouched(left, entries, name);
      }
    }
  }

  lemma {:induction false} HalvesStopIn(left: Entries, entries: Entries, node: Node)
    requires PartOf(entries, node) && HalfOf(left, entries)
    ensures MayStopIn(left, entries, node)
    decreases node, entries.Keys
  {
    var at :| at in left && OthersUntouched(left, entries, at) && (left[at] == entries[at] || HalfRemoved(left[at], entries[at]));
    assert at in entries;
    if left.Keys == entries.Keys {
      if left[at] != entries[at] {
        StopsAreHalves(left[at], node.entries[at]);
        assert left == entries[at := left[at]];
      } else {
        assert left == entries;
      }
    } else {
      var name :| name in entries && name !in left;
      assert OthersUntouched(left, entries - {name}, at);
      HalvesStopIn(left, entries - {name}, node);
    }
  }

  /** What the steps of a removal may leave is exactly a half. */
  lemma {:induction false} StopsAreHalves(left: Node, node: Node)
    ensures MayStop(left, node) <==> HalfRemoved(left, node)
    decreases node
  {
    if node.Dir? && left.Dir? && left == node.(entries := left.entries) {
      assert HalfRemoved(left, node) <==> HalfOf(left.entries, node.entries);
      if MayStop(left, node) {
        StopsInHalf(left.entries, node.entries, node);
      }
      if HalfRemoved(left, node) {
        HalvesStopIn(left.entries, node.entries, node);
      }
    }
  }

  // ---------------------------------------------------------------------------
  // Where a stop does matter

  /** What was blocked and is no more is gone without its directory. */
  lemma NoLongerBlocked(root: Node, after: Node, path: Path, running: nat)
    requires Thinner(after, root) && Blocked(root, path, running) && !Blocked(after, path, running)
    ensures Spot(after, path) == Success(None) && Gone(after, path) == after
  {
    ThinnerSpot(after, root, path);
    GoneNothing(after, path);
  }

  /** A commit taken up again never keeps more paths. */
  lemma {:induction false} KeepsNoMore(root: Node, pending: seq<Path>, running: nat, middle: Node, kept: seq<Path>, stopped: bool)
    requires Commits(root, pending, running, middle, kept, stopped)
    ensures |Committed(middle, kept, running).1| <= |Committed(root, pending, running).1|
    decreases |pending|
  {
    if pending != [] {
      var first := pending[0];
      if Blocked(root, first, running) {
        KeepsNoMore(root, pending[1..], running, middle, kept[1..], stopped);
        if !Blocked(middle, first, running) {
          CommitsThinner(root, pending[1..], running, middle, kept[1..], stopped);
          NoLongerBlocked(root, middle, first, running);
        }
      } else if Commits(Gone(root, first), pending[1..], running, middle, kept, stopped) {
        KeepsNoMore(Gone(root, first), pending[1..], running, middle, kept, stopped);
      } else {
        var left :| HalfRemoved(left, Spot(root, first).value.value) && middle == Left(root, first, left);
        LeftIsRemovable(root, first, left, running);
      }
    }
  }

  lemma {:induction false} GoneInside(node: Node, path: Path)
    requires There(node, path) && EntriesAt(node, path.dir).value.Keys != {path.name}
    ensures HalfRemoved(Gone(node, path), node)
    decreases |path.dir|
  {
    var left := Gone(node, path);
    if path.dir == [] {
      var other :| other in node.entries && other != path.name;
      assert OthersUntouched(left.entries, node.entries, other) && left.entries[other] == node.entries[other];
    } else {
      var next := path.dir[0];
      GoneInside(node.entries[next], Below(path));
      assert OthersUntouched(left.entries, node.entries, next);
      assert left.entries[next] == Gone(node.entries[next], Below(path));
    }
  }

  /** The path seen from a directory above it. */
  function Within(at: Path, path: Path): Path
    requires Above(at, path)
  {
    Path(path.dir[|Full(at)|..], path.name)
  }

  lemma {:induction false} GoneThrough(root: Node, at: Path, path: Path)
    requires Above(at, path) && There(root, path)
    ensures There(root, at) && There(Spot(root, at).value.value, Within(at, path))
    ensures Gone(root, path) == Left(root, at, Gone(Spot(root, at).value.value, Within(at, path)))
    decreases |at.dir|
  {
    if at.dir == [] {
      PrefixOne(at.name, path.dir);
    } else {
      PrefixBelow(at, path.dir);
      GoneThrough(root.entries[at.dir[0]], Below(at), Below(path));
      assert Within(Below(at), Below(path)) == Within(at, path);
    }
  }

  lemma StopsInside(root: Node, at: Path, path: Path)
    requires Above(at, path) && There(root, path) && EntriesAt(root, path.dir).value.Keys != {path.name}
    ensures IsDir(root, at.dir) && StoppedAt(root, at, Gone(root, path))
  {
    GoneThrough(root, at, path);
    EntriesThrough(root, at, path.dir);
    GoneInside(Spot(root, at).value.value, Within(at, path));
  }

  /** A stop that comes right after the exposed path was removed. */
  lemma {:induction false} ForgottenAfter(root: Node, pending: seq<Path>, running: nat, path: Path)
    returns (middle: Node, kept: seq<Path>)
    requires OwnedByOther(root, path, running) && Exposed(root, pending, running, path)
    ensures Commits(root, pending, running, middle, kept, true) && !Blocked(middle, path, running)
    decreases |pending|
  {
    var first, rest := pending[0], pending[1..];
    if Blocked(root, first, running) {
      middle, kept := ForgottenAfter(root, rest, running, path);
      ghost var more := kept;
      kept := [first] + kept;
      assert kept[1..] == more;
    } else if Above(first, path) {
      middle, kept := Gone(root, path), pending;
      StopsInside(root, first, path);
      GoneSpot(root, path);
    } else {
      OtherOnceGone(root, first, path, running);
      middle, kept := ForgottenAfter(Gone(root, first), rest, running, path);
    }
  }

  lemma NotKeptAgain(root: Node, pending: seq<Path>, running: nat, middle: Node, kept: seq<Path>)
    requires pending != [] && Blocked(root, pending[0], running) && !Blocked(middle, pending[0], running)
    requires Commits(root, pending[1..], running, middle, kept, true)
    ensures Committed(middle, [pending[0]] + kept, running) != Committed(root, pending, running)
  {
    KeepsNoMore(root, pending[1..], running, middle, kept, true);
    CommitsThinner(root, pending[1..], running, middle, kept, true);
    NoLongerBlocked(root, middle, pending[0], running);
    assert ([pending[0]] + kept)[1..] == kept;
  }

  lemma StillDiffers(root: Node, pending: seq<Path>, running: nat, middle: Node, kept: seq<Path>)
    requires pending != [] && Blocked(root, pending[0], running) && Blocked(middle, pending[0], running)
    requires Committed(middle, kept, running) != Committed(root, pending[1..], running)
    ensures Committed(middle, [pending[0]] + kept, running) != Committed(root, pending, running)
  {
    var a, b := Committed(middle, kept, running), Committed(root, pending[1..], running);
    assert ([pending[0]] + kept)[1..] == kept;
    assert ([pending[0]] + a.1)[1..] == a.1 && ([pending[0]] + b.1)[1..] == b.1;
  }

  /** Where a path is exposed, some stop changes what the commit comes to. */
  lemma {:induction false} SomeStopMatters(root: Node, pending: seq<Path>, running: nat) returns (middle: Node, kept: seq<Path>)
    requires !Steady(root, pending, running)
    ensures Commits(root, pending, running, middle, kept, true)
    ensures Committed(middle, kept, running) != Committed(root, pending, running)
    decreases |pending|
  {
    var first, rest := pending[0], pending[1..];
    if Blocked(root, first, running) {
      if Steady(root, rest, running) {
        middle, kept := ForgottenAfter(root, rest, running, first);
        NotKeptAgain(root, pending, running, middle, kept);
      } else {
        middle, kept := SomeStopMatters(root, rest, running);
        if Blocked(middle, first, running) {
          StillDiffers(root, pending, running, middle, kept);
        } else {
          NotKeptAgain(root, pending, running, middle, kept);
        }
      }
      ghost var more := kept;
      kept := [first] + kept;
      assert kept[1..] == more;
    } else {
      middle, kept := SomeStopMatters(Gone(root, first), rest, running);
    }
  }

  ghost predicate StopsDoNotMatter(root: Node, pending: seq<Path>, running: nat) {
    forall middle: Node, kept: seq<Path>, stopped: bool ::
      Commits(root, pending, running, middle, kept, stopped) ==>
        Committed(middle, kept, running) == Committed(root, pending, running)
  }

  /** Any stop comes to the same in the end exactly when no path of another user is exposed. */
  lemma StopsDoNotMatterExactly(root: Node, pending: seq<Path>, running: nat)
    ensures StopsDoNotMatter(root, pending, running) <==> Steady(root, pending, running)
  {
    if Steady(root, pending, running) {
      forall middle: Node, kept: seq<Path>, stopped: bool | Commits(root, pending, running, middle, kept, stopped)
        ensures Committed(middle, kept, running) == Committed(root, pending, running)
      {
        StopChangesNothingInTheEnd(root, pending, running, middle, kept, stopped);
      }
    } else {
      var middle, kept := SomeStopMatters(root, pending, running);
      assert !StopsDoNotMatter(root, pending, running);
    }
  }

  /** So it is for all paths none of which comes before one above it. */
  lemma {:induction false} NothingAboveIsSteady(root: Node, pending: seq<Path>, running: nat)
    requires forall i, j :: 0 <= i < j < |pending| ==> !Above(pending[j], pending[i])
    ensures Steady(root, pending, running)
    decreases |pending|
  {
    if pending != [] {
      if Blocked(root, pending[0], running) {
        NothingAboveIsSteady(root, pending[1..], running);
        NotExposed(root, pending[1..], running, pending[0]);
      } else {
        NothingAboveIsSteady(Gone(root, pending[0]), pending[1..], running);
      }
    }
  }

  lemma {:induction false} NotExposed(root: Node, pending: seq<Path>, running: nat, path: Path)
    requires forall p :: p in pending ==> !Above(p, path)
    ensures !Exposed(root, pending, running, path)
    decreases |pending|
  {
    if pending != [] {
      NotExposed(if Blocked(root, pending[0], running) then root else Gone(root, pending[0]), pending[1..], running, path);
    }
  }

  /** The concrete case: another user's file in a directory to be removed is forgotten if the stop comes right after it. */
  lemma AStopForgetsAPath()
    ensures
      var (a, b, c) := (Given("a"), Given("b"), Given("c"));
      var kept, own := File(Made(3), 0x1A4, (0, 0), ""), File(Made(4), 0x1A4, (1, 1), "");
      var root := Dir(Made(1), 0x1ED, (0, 0), map[a := Dir(Made(2), 0x1ED, (1, 1), map[b := kept, c := own])]);
      var middle := root.(entries := map[a := Dir(Made(2), 0x1ED, (1, 1), map[c := own])]);
      var pending := [Path([a], b), Path([], a)];
      Commits(root, pending, 1, middle, pending, true) &&
      Committed(root, pending, 1) == (root.(entries := map[]), [Path([a], b)]) &&
      Committed(middle, pending, 1) == (root.(entries := map[]), [])
  {
    var (a, b, c) := (Given("a"), Given("b"), Given("c"));
    var kept, own := File(Made(3), 0x1A4, (0, 0), ""), File(Made(4), 0x1A4, (1, 1), "");
    var inner := Dir(Made(2), 0x1ED, (1, 1), map[b := kept, c := own]);
    var root := Dir(Made(1), 0x1ED, (0, 0), map[a := inner]);
    var left := Dir(Made(2), 0x1ED, (1, 1), map[c := own]);
    var middle := root.(entries := map[a := left]);
    var first, second := Path([a], b), Path([], a);
    var pending := [first, second];
    assert pending[1..] == [second] && [second][1..] == [];
    assert EntriesAt(root, [a]) == EntriesAt(inner, [][..]) == Success(inner.entries);
    assert EntriesAt(middle, [a]) == EntriesAt(left, [][..]) == Success(left.entries);
    assert b != c && Spot(middle, first) == Success(None);
    GoneNothing(middle, first);
    assert OthersUntouched(left.entries, inner.entries, c) && HalfRemoved(left, inner);
    assert root.entries[a := left] == middle.entries;
    assert root.entries - {a} == map[] && middle.entries - {a} == map[];
    assert Left(root, second, left) == middle;
    assert StoppedAt(root, second, middle);
    assert Commits(root, [second], 1, middle, [second], true);
    assert Gone(root, second) == root.(entries := map[]) && Gone(middle, second) == root.(entries := map[]);
    assert Committed(Gone(root, second), [], 1) == (root.(entries := map[]), []);
    assert Committed(root, [second], 1) == (root.(entries := map[]), []);
    assert Committed(middle, [second], 1) == (root.(entries := map[]), []);
    assert Blocked(root, first, 1) && !Blocked(middle, first, 1);
    assert [first] + [] == [first];
    assert Committed(root, pending, 1) == (root.(entries := map[]), [first]);
  }

  // ---------------------------------------------------------------------------
  // However often

  /** What is not exposed to begin with is not exposed to the rest of the commit. */
  lemma {:induction false} NotExposedLater(root: Node, pending: seq<Path>, running: nat, after: Node, kept: seq<Path>,
                                           stopped: bool, path: Path)
    requires Commits(root, pending, running, after, kept, stopped) && Steady(root, pending, running)
    requires OwnedByOther(root, path, running) && !Exposed(root, pending, running, path)
    ensures There(after, path) ==> !Exposed(after, kept, running, path)
    decreases |pending|
  {
    if pending != [] {
      var first, rest := pending[0], pending[1..];
      if Blocked(root, first, running) {
        NotExposedLater(root, rest, running, after, kept[1..], stopped, path);
        FirstStaysBlocked(root, pending, running, after, kept[1..], stopped);
      } else if Commits(Gone(root, first), rest, running, after, kept, stopped) {
        if Above(first, path) {
          UnderGone(root, first, path.dir);
          CommitsThinner(Gone(root, first), rest, running, after, kept, stopped);
          ThinnerSpot(after, Gone(root, first), path);
        } else {
          OtherOnceGone(root, first, path, running);
          NotExposedLater(Gone(root, first), rest, running, after, kept, stopped, path);
        }
      } else {
        var left :| HalfRemoved(left, Spot(root, first).value.value) && after == Left(root, first, left);
        LeftIsRemovable(root, first, left, running);
        if Above(first, path) {
          AloneInside(root, first, left, path);
        }
      }
    }
  }

  lemma {:induction false} StaysSteady(root: Node, pending: seq<Path>, running: nat, after: Node, kept: seq<Path>, stopped: bool)
    requires Commits(root, pending, running, after, kept, stopped) && Steady(root, pending, running)
    ensures Steady(after, kept, running)
    decreases |pending|
  {
    if pending != [] {
      var first, rest := pending[0], pending[1..];
      if Blocked(root, first, running) {
        StaysSteady(root, rest, running, after, kept[1..], stopped);
        FirstStaysBlocked(root, pending, running, after, kept[1..], stopped);
        if OwnedByOther(after, first, running) {
          CommitsThinner(root, rest, running, after, kept[1..], stopped);
          ThinnerSpot(after, root, first);
          NotExposedLater(root, rest, running, after, kept[1..], stopped, first);
        }
      } else if Commits(Gone(root, first), rest, running, after, kept, stopped) {
        StaysSteady(Gone(root, first), rest, running, after, kept, stopped);
      } else {
        var left :| HalfRemoved(left, Spot(root, first).value.value) && after == Left(root, first, left);
        LeftIsRemovable(root, first, left, running);
      }
    }
  }

  /** However often a commit is stopped, attached again and taken up. */
  ghost predicate CommitsInTurns(root: Node, pending: seq<Path>, running: nat, turns: seq<(Node, seq<Path>)>) {
    turns != [] && turns[0] == (root, pending) &&
    forall i :: 0 <= i < |turns| - 1 ==> Turn(turns[i], turns[i + 1], running)
  }

  ghost predicate Turn(now: (Node, seq<Path>), later: (Node, seq<Path>), running: nat) {
    Commits(now.0, now.1, running, later.0, later.1, true)
  }

  lemma {:induction false} AnyTurnsComeToTheSame(root: Node, pending: seq<Path>, running: nat, turns: seq<(Node, seq<Path>)>, k: nat)
    requires CommitsInTurns(root, pending, running, turns) && Steady(root, pending, running) && k < |turns|
    ensures Steady(turns[k].0, turns[k].1, running)
    ensures Committed(turns[k].0, turns[k].1, running) == Committed(root, pending, running)
  {
    if k > 0 {
      AnyTurnsComeToTheSame(root, pending, running, turns, k - 1);
      assert Turn(turns[k - 1], turns[k - 1 + 1], running);
      var now, next := turns[k - 1], turns[k];
      StopChangesNothingInTheEnd(now.0, now.1, running, next.0, next.1, true);
      StaysSteady(now.0, now.1, running, next.0, next.1, true);
    }
  }

  // ---------------------------------------------------------------------------
  // What is gone

  ghost predicate Covered(gone: set<seq<Name>>, at: seq<Name>) { exists g :: g in gone && g <= at }

  /** The paths that go through a name, from there on. */
  ghost function Inside(gone: set<seq<Name>>, name: Name): set<seq<Name>> {
    set g | g in gone && g != [] && g[0] == name :: g[1..]
  }

  /** The tree without what is at or below these paths. */
  ghost function Pruned(node: Node, gone: set<seq<Name>>): Node
    decreases node
  {
    if !node.Dir? then node
    else node.(entries := map n | n in node.entries && !Covered(gone, [n]) :: Pruned(node.entries[n], Inside(gone, n)))
  }

  /** The pending paths that nothing stands in the way of to begin with. */
  ghost function Removable(root: Node, pending: seq<Path>, running: nat): set<seq<Name>> {
    set p | p in pending && !Blocked(root, p, running) :: Full(p)
  }

  lemma {:induction false} PrunedOfNothing(node: Node)
    ensures Pruned(node, {}) == node
  {
    if node.Dir? {
      forall n | n in node.entries
        ensures !Covered({}, [n]) && Pruned(node.entries[n], Inside({}, n)) == node.entries[n]
      {
        PrunedOfNothing(node.entries[n]);
        assert Inside({}, n) == {};
      }
      assert Pruned(node, {}).entries == node.entries;
    }
  }

  lemma CoveredInside(gone: set<seq<Name>>, name: Name, at: seq<Name>)
    requires [] !in gone
    ensures Covered(gone, [name] + at) <==> Covered(Inside(gone, name), at)
  {
    if Covered(gone, [name] + at) {
      var g :| g in gone && g <= [name] + at;
      assert g == [name] + g[1..] && g[1..] in Inside(gone, name);
      PrefixBehind(name, g[1..], at);
    }
    if Covered(Inside(gone, name), at) {
      var i :| i in Inside(gone, name) && i <= at;
      var g :| g in gone && g != [] && g[0] == name && g[1..] == i;
      assert g == [name] + i;
      PrefixBehind(name, i, at);
    }
  }

  lemma CoveredFirst(gone: set<seq<Name>>, name: Name)
    requires [] !in gone
    ensures Covered(gone, [name]) <==> [name] in gone
    ensures [] in Inside(gone, name) <==> [name] in gone
  {
    if Covered(gone, [name]) {
      var g :| g in gone && g <= [name];
      assert g == [name];
    }
    if [] in Inside(gone, name) {
      var g :| g in gone && g != [] && g[0] == name && g[1..] == [];
      assert g == [name];
    }
    if [name] in gone {
      assert [name][1..] == [] && [] in Inside(gone, name);
      assert [name] <= [name];
    }
  }

  ghost predicate SameCover(a: set<seq<Name>>, b: set<seq<Name>>) {
    forall at: seq<Name> :: Covered(a, at) <==> Covered(b, at)
  }

  /** Only what is covered matters. */
  lemma {:induction false} PrunedBySameCover(node: Node, a: set<seq<Name>>, b: set<seq<Name>>)
    requires SameCover(a, b) && [] !in a && [] !in b
    ensures Pruned(node, a) == Pruned(node, b)
    decreases node
  {
    if node.Dir? {
      forall n | n in node.entries && !Covered(a, [n])
        ensures Pruned(node.entries[n], Inside(a, n)) == Pruned(node.entries[n], Inside(b, n))
      {
        CoveredFirst(a, n);
        CoveredFirst(b, n);
        forall at: seq<Name>
          ensures Covered(Inside(a, n), at) <==> Covered(Inside(b, n), at)
        {
          CoveredInside(a, n, at);
          CoveredInside(b, n, at);
        }
        PrunedBySameCover(node.entries[n], Inside(a, n), Inside(b, n));
      }
      assert Pruned(node, a).entries == Pruned(node, b).entries;
    }
  }

  lemma CoveredByEither(a: set<seq<Name>>, b: set<seq<Name>>, at: seq<Name>)
    ensures Covered(a + b, at) <==> Covered(a, at) || Covered(b, at)
  {}

  lemma {:induction false} PrunedTwice(node: Node, a: set<seq<Name>>, b: set<seq<Name>>)
    ensures Pruned(Pruned(node, a), b) == Pruned(node, a + b)
    decreases node
  {
    if node.Dir? {
      forall n | n in node.entries
        ensures Covered(a + b, [n]) <==> Covered(a, [n]) || Covered(b, [n])
        ensures Pruned(Pruned(node.entries[n], Inside(a, n)), Inside(b, n)) == Pruned(node.entries[n], Inside(a + b, n))
      {
        CoveredByEither(a, b, [n]);
        assert Inside(a + b, n) == Inside(a, n) + Inside(b, n);
        PrunedTwice(node.entries[n], Inside(a, n), Inside(b, n));
      }
      assert Pruned(Pruned(node, a), b).entries == Pruned(node, a + b).entries;
    }
  }

  lemma InsideOne(path: Path, name: Name)
    requires path.dir != []
    ensures Inside({Full(path)}, name) == if name == path.dir[0] then {Full(Below(path))} else {}
    ensures !Covered({Full(path)}, [name])
  {
    var full := Full(path);
    assert full[1..] == Full(Below(path));
    if name == path.dir[0] {
      assert full in {full} && full[1..] in Inside({full}, name);
    }
  }

  lemma {:induction false} GoneIsPruned(root: Node, path: Path)
    requires IsDir(root, path.dir)
    ensures Gone(root, path) == Pruned(root, {Full(path)})
    decreases |path.dir|
  {
    var one := {Full(path)};
    if path.dir == [] {
      forall n | n in root.entries
        ensures Covered(one, [n]) <==> n == path.name
        ensures n != path.name ==> Pruned(root.entries[n], Inside(one, n)) == root.entries[n]
      {
        CoveredFirst(one, n);
        if n != path.name {
          assert Inside(one, n) == {};
          PrunedOfNothing(root.entries[n]);
        }
      }
    } else {
      GoneIsPruned(root.entries[path.dir[0]], Below(path));
      forall n | n in root.entries
        ensures !Covered(one, [n])
        ensures n != path.dir[0] ==> Pruned(root.entries[n], Inside(one, n)) == root.entries[n]
        ensures n == path.dir[0] ==> Inside(one, n) == {Full(Below(path))}
      {
        InsideOne(path, n);
        PrunedOfNothing(root.entries[n]);
      }
    }
    assert Gone(root, path).entries == Pruned(root, one).entries;
  }

  /** Once a path is gone, the rest takes away the same as before it. */
  lemma StillRemovable(root: Node, path: Path, rest: seq<Path>, running: nat)
    requires !Blocked(root, path, running)
    ensures SameCover({Full(path)} + Removable(Gone(root, path), rest, running), Removable(root, [path] + rest, running))
  {
    var before, after := Removable(root, [path] + rest, running), Removable(Gone(root, path), rest, running);
    assert path in [path] + rest && Full(path) in before;
    forall at: seq<Name>
      ensures Covered({Full(path)} + after, at) <==> Covered(before, at)
    {
      if Covered({Full(path)} + after, at) {
        var g :| g in {Full(path)} + after && g <= at;
        if g in after {
          var p :| p in rest && !Blocked(Gone(root, path), p, running) && Full(p) == g;
          BlockedOnceGone(root, path, p, running);
          assert p in [path] + rest && g in before;
        }
      }
      if Covered(before, at) {
        var g :| g in before && g <= at;
        var p :| p in [path] + rest && !Blocked(root, p, running) && Full(p) == g;
        CoversAsWell(root, path, rest, running, p, at);
      }
    }
  }

  lemma CoversAsWell(root: Node, path: Path, rest: seq<Path>, running: nat, p: Path, at: seq<Name>)
    requires !Blocked(root, path, running) && !Blocked(root, p, running) && p in [path] + rest && Full(p) <= at
    ensures Covered({Full(path)} + Removable(Gone(root, path), rest, running), at)
  {
    PrefixCases(path, p);
    BlockedOnceGone(root, path, p, running);
    if Full(path) <= Full(p) {
      assert Full(path) <= at;
      assert Full(path) in {Full(path)} + Removable(Gone(root, path), rest, running);
    } else {
      assert p in rest;
      assert Full(p) in Removable(Gone(root, path), rest, running);
    }
  }

  lemma NoEmptyPath(root: Node, pending: seq<Path>, running: nat)
    ensures [] !in Removable(root, pending, running)
  {}

  /** A commit takes away what is at or below a path that was not blocked to begin with, and nothing else. */
  lemma {:induction false} TreeOfCommit(root: Node, pending: seq<Path>, running: nat)
    ensures Committed(root, pending, running).0 == Pruned(root, Removable(root, pending, running))
    decreases |pending|
  {
    if pending == [] {
      assert Removable(root, pending, running) == {};
      PrunedOfNothing(root);
    } else {
      var first, rest := pending[0], pending[1..];
      assert pending == [first] + rest;
      if Blocked(root, first, running) {
        TreeOfCommit(root, rest, running);
        assert Removable(root, rest, running) == Removable(root, pending, running);
      } else {
        var more := Removable(Gone(root, first), rest, running);
        TreeOfCommit(Gone(root, first), rest, running);
        GoneIsPruned(root, first);
        PrunedTwice(root, {Full(first)}, more);
        StillRemovable(root, first, rest, running);
        NoEmptyPath(Gone(root, first), rest, running);
        NoEmptyPath(root, pending, running);
        PrunedBySameCover(root, {Full(first)} + more, Removable(root, pending, running));
      }
    }
  }

  /** A path is there in the pruned tree if it was there and is not at or below one of the paths taken out. */
  lemma {:induction false} PrunedThere(node: Node, gone: set<seq<Name>>, path: Path)
    requires [] !in gone
    ensures There(Pruned(node, gone), path) <==> There(node, path) && !Covered(gone, Full(path))
    ensures There(Pruned(node, gone), path) ==>
      SameNode(Spot(Pruned(node, gone), path).value.value, Spot(node, path).value.value)
    decreases |path.dir|
  {
    if path.dir != [] && node.Dir? && path.dir[0] in node.entries {
      var next, inner := path.dir[0], Inside(gone, path.dir[0]);
      CoveredFirst(gone, next);
      CoveredInside(gone, next, Full(Below(path)));
      if Covered(gone, [next]) {
        assert [next] <= Full(path);
      } else {
        PrunedThere(node.entries[next], inner, Below(path));
      }
    }
  }

  /** Equal but for what is in it. */
  predicate SameNode(a: Node, b: Node) {
    if a.Dir? && b.Dir? then a.(entries := b.entries) == b else a == b
  }

  /** In the end there is what was there, except at and below the paths that were not blocked to begin with. */
  lemma DroppedAreGone(root: Node, pending: seq<Path>, running: nat, path: Path)
    ensures There(Committed(root, pending, running).0, path)
       <==> There(root, path) && !exists p :: p in pending && !Blocked(root, p, running) && Full(p) <= Full(path)
    ensures There(Committed(root, pending, running).0, path) ==>
      SameNode(Spot(Committed(root, pending, running).0, path).value.value, Spot(root, path).value.value)
  {
    var gone := Removable(root, pending, running);
    TreeOfCommit(root, pending, running);
    NoEmptyPath(root, pending, running);
    PrunedThere(root, gone, path);
    if p :| p in pending && !Blocked(root, p, running) && Full(p) <= Full(path) {
      assert Full(p) in gone;
    }
  }

  // ---------------------------------------------------------------------------
  // What is kept

  /** Paths that were blocked to begin with, or that one of `before` took away together with their directory. */
  ghost predicate IsKept(root: Node, before: set<Path>, path: Path, running: nat) {
    Blocked(root, path, running) || exists p :: p in before && !Blocked(root, p, running) && Above(p, path)
  }

  ghost function KeptOf(root: Node, before: set<Path>, pending: seq<Path>, running: nat): seq<Path>
    decreases |pending|
  {
    if pending == [] then []
    else
      (if IsKept(root, before, pending[0], running) then [pending[0]] else []) +
      KeptOf(root, before + {pending[0]}, pending[1..], running)
  }

  lemma AboveStill(a: Path, b: Path, c: Path)
    requires Above(a, b) && Above(b, c)
    ensures Above(a, c)
  {
    assert Full(b)[..|b.dir|] == b.dir;
    assert Full(a) <= Full(b) <= c.dir;
  }

  lemma KeptOnceGone(root: Node, path: Path, before: set<Path>, other: Path, running: nat)
    requires !Blocked(root, path, running)
    ensures IsKept(Gone(root, path), before, other, running) <==> IsKept(root, {path} + before, other, running)
  {
    BlockedOnceGone(root, path, other, running);
    forall p | p in before && Above(p, other)
      ensures !Blocked(Gone(root, path), p, running) ==> !Blocked(root, p, running)
      ensures !Blocked(root, p, running) ==> !Blocked(Gone(root, path), p, running) || Above(path, other)
    {
      BlockedOnceGone(root, path, p, running);
      if Above(path, p) {
        AboveStill(path, p, other);
      }
    }
  }

  lemma {:induction false} KeptByRest(root: Node, path: Path, before: set<Path>, rest: seq<Path>, running: nat)
    ensures KeptOf(root, {path} + before, rest, running)
         == KeptOf(if Blocked(root, path, running) then root else Gone(root, path), before, rest, running)
    decreases |rest|
  {
    if rest != [] {
      assert {path} + before + {rest[0]} == {path} + (before + {rest[0]});
      KeptByRest(root, path, before + {rest[0]}, rest[1..], running);
      if !Blocked(root, path, running) {
        KeptOnceGone(root, path, before, rest[0], running);
      }
    }
  }

  /** Kept are the paths that were blocked to begin with or lie in what an earlier one took away, in their order. */
  lemma {:induction false} KeptByCommit(root: Node, pending: seq<Path>, running: nat)
    ensures Committed(root, pending, running).1 == KeptOf(root, {}, pending, running)
    decreases |pending|
  {
    if pending != [] {
      var first, rest := pending[0], pending[1..];
      assert {first} + {} == {} + {first};
      KeptByRest(root, first, {}, rest, running);
      KeptByCommit(if Blocked(root, first, running) then root else Gone(root, first), rest, running);
    }
  }

  /** A removal that is not above a path that cannot be reached leaves the reason as it was. */
  lemma {:induction false} SameFailure(root: Node, at: Path, entries: Entries, dir: seq<Name>)
    requires IsDir(root, at.dir) && ChangedAt(EntriesAt(root, at.dir).value, entries, at.name)
    requires !IsDir(root, dir) && !(Full(at) <= dir)
    ensures EntriesAt(WithEntries(root, at.dir, entries), dir) == EntriesAt(root, dir)
    decreases |at.dir|
  {
    if at.dir == [] {
      PrefixOne(at.name, dir);
    } else {
      PrefixBelow(at, dir);
      if at.dir[0] == dir[0] {
        SameFailure(root.entries[at.dir[0]], Below(at), entries, dir[1..]);
      }
    }
  }

  lemma SameReason(root: Node, at: Path, path: Path, running: nat)
    requires !Blocked(root, at, running) && Blocked(Gone(root, at), path, running) && !Above(at, path)
    ensures Blocked(root, path, running) && WhyKept(root, path, running) == WhyKept(Gone(root, at), path, running)
  {
    var entries := EntriesAt(root, at.dir).value - {at.name};
    BlockedOnceGone(root, at, path, running);
    if IsDir(root, path.dir) {
      NotTakenAway(root, at, entries, path);
    } else {
      SameFailure(root, at, entries, path.dir);
    }
  }

  /** The reason that is reported is that to begin with, unless a path before took the directory away. */
  lemma {:induction false} FirstReason(root: Node, pending: seq<Path>, running: nat)
    ensures var first := FirstKept(root, pending, running);
      first.Some? ==>
        (Blocked(root, first.value.0, running) && first.value.1 == WhyKept(root, first.value.0, running)) ||
        (first.value.1.Unreachable? && exists p :: p in pending && !Blocked(root, p, running) && Above(p, first.value.0))
    decreases |pending|
  {
    if pending != [] && !Blocked(root, pending[0], running) {
      var gone, first := Gone(root, pending[0]), FirstKept(root, pending, running);
      FirstReason(gone, pending[1..], running);
      if first.Some? {
        FirstReasonOnceGone(root, pending, running, first.value.0, first.value.1);
      }
    }
  }

  lemma FirstReasonOnceGone(root: Node, pending: seq<Path>, running: nat, path: Path, why: Why)
    requires pending != [] && !Blocked(root, pending[0], running)
    requires (Blocked(Gone(root, pending[0]), path, running) && why == WhyKept(Gone(root, pending[0]), path, running)) ||
             (why.Unreachable? && exists p :: p in pending[1..] && !Blocked(Gone(root, pending[0]), p, running) && Above(p, path))
    ensures (Blocked(root, path, running) && why == WhyKept(root, path, running)) ||
            (why.Unreachable? && exists p :: p in pending && !Blocked(root, p, running) && Above(p, path))
  {
    var first := pending[0];
    if Blocked(Gone(root, first), path, running) && why == WhyKept(Gone(root, first), path, running) {
      if Above(first, path) {
        UnderGone(root, first, path.dir);
      } else {
        SameReason(root, first, path, running);
      }
    } else {
      var p :| p in pending[1..] && !Blocked(Gone(root, first), p, running) && Above(p, path);
      BlockedOnceGone(root, first, p, running);
      assert p in pending;
    }
  }

  // ---------------------------------------------------------------------------
  // Trees detached and committed apart from the rest

  predicate IsTree(root: Node, path: Path) { There(root, path) && Spot(root, path).value.value.Dir? }

  /** `detach_trees`: the trees, in their order, or all the others. */
  function Picked(root: Node, pending: seq<Path>, trees: bool): seq<Path> {
    if pending == [] then []
    else (if IsTree(root, pending[0]) == trees then [pending[0]] else []) + Picked(root, pending[1..], trees)
  }

  lemma {:induction false} PickedAreThere(root: Node, pending: seq<Path>, trees: bool)
    ensures forall p :: p in Picked(root, pending, trees) <==> p in pending && IsTree(root, p) == trees
  {
    if pending != [] {
      PickedAreThere(root, pending[1..], trees);
      assert pending == [pending[0]] + pending[1..];
    }
  }

  /** The order of the pending paths does not matter to the tree. */
  lemma AnyOrderLeavesTheSame(root: Node, a: seq<Path>, b: seq<Path>, running: nat)
    requires forall p :: p in a <==> p in b
    ensures Committed(root, a, running).0 == Committed(root, b, running).0
  {
    TreeOfCommit(root, a, running);
    TreeOfCommit(root, b, running);
    assert Removable(root, a, running) == Removable(root, b, running);
  }

  /** Committing the rest first and the detached trees after it leaves the same tree. */
  lemma DetachedTreesComeToTheSame(root: Node, now: Node, pending: seq<Path>, running: nat)
    ensures Committed(now, Picked(root, pending, false) + Picked(root, pending, true), running).0
         == Committed(now, pending, running).0
  {
    PickedAreThere(root, pending, false);
    PickedAreThere(root, pending, true);
    AnyOrderLeavesTheSame(now, Picked(root, pending, false) + Picked(root, pending, true), pending, running);
  }
}
