/**
 A run that stopped between the two renames of a reclaim. The undo list of the reclaim leaves the copy
 under its hidden name (`FileUndo.HalfReclaimUndone`); here the undo lists of the actions before it
 are followed with that copy in the way. `Origin` says from the actions where the copy ends up: in
 some directory, gone with a tree that is removed whole, or in a directory that the run itself had
 created with one `CreateDir`, which then is not empty and stops the undoing.
 */
module LeftCopy {
  import opened Wrappers
  import opened FileTree
  import opened FileActions
  import opened FileUndo

  // ---------------------------------------------------------------------------
  // One more node in a directory

  function Plus(root: Node, dir: seq<Name>, name: Name, node: Node): Node
    requires IsDir(root, dir)
  {
    WithEntries(root, dir, EntriesAt(root, dir).value[name := node])
  }

  /** The directory can be reached from these entries on. */
  predicate Reaches(entries: Entries, dir: seq<Name>) {
    dir == [] || (dir[0] in entries && IsDir(entries[dir[0]], dir[1..]))
  }

  function EntriesBelow(entries: Entries, dir: seq<Name>): Entries
    requires Reaches(entries, dir)
  {
    if dir == [] then entries else EntriesAt(entries[dir[0]], dir[1..]).value
  }

  function PlusBelow(entries: Entries, dir: seq<Name>, name: Name, node: Node): Entries
    requires Reaches(entries, dir)
  {
    if dir == [] then entries[name := node]
    else entries[dir[0] := Plus(entries[dir[0]], dir[1..], name, node)]
  }

  lemma PrefixTail(a: seq<Name>, b: seq<Name>)
    requires a != [] && b != [] && a[0] == b[0]
    ensures a <= b <==> a[1..] <= b[1..]
  {
    assert a == [a[0]] + a[1..] && b == [a[0]] + b[1..];
    if a <= b {
      assert b[..|a|][1..] == b[1..][..|a| - 1];
    }
  }

  lemma FullPrefix(path: Path, dir: seq<Name>)
    ensures Full(path) <= dir <==> path.dir <= dir && |dir| > |path.dir| && dir[|path.dir|] == path.name
  {
    var full := Full(path);
    if full <= dir {
      assert full[..|path.dir|] == path.dir && dir[..|path.dir|] == full[..|path.dir|] && full[|path.dir|] == path.name;
    }
  }

  /** A directory that is not on the way to the other does not notice, and changes without touching it. */
  lemma {:induction false} PlusElsewhere(root: Node, dir: seq<Name>, name: Name, node: Node, at: seq<Name>, entries: Entries)
    requires IsDir(root, dir) && IsDir(root, at) && !(at <= dir) && name !in EntriesAt(root, dir).value
    ensures EntriesAt(Plus(root, dir, name, node), at) == EntriesAt(root, at)
    ensures IsDir(WithEntries(root, at, entries), dir) && name !in EntriesAt(WithEntries(root, at, entries), dir).value
    ensures WithEntries(Plus(root, dir, name, node), at, entries) == Plus(WithEntries(root, at, entries), dir, name, node)
    decreases |dir|
  {
    if dir == [] {
      var child := WithEntries(root.entries[at[0]], at[1..], entries);
      assert at[0] != name;
      assert root.entries[name := node][at[0] := child] == root.entries[at[0] := child][name := node];
    } else if at[0] == dir[0] {
      PrefixTail(at, dir);
      var child := root.entries[dir[0]];
      PlusElsewhere(child, dir[1..], name, node, at[1..], entries);
      assert root.entries[dir[0] := Plus(child, dir[1..], name, node)][dir[0] := WithEntries(Plus(child, dir[1..], name, node), at[1..], entries)]
          == root.entries[dir[0] := WithEntries(Plus(child, dir[1..], name, node), at[1..], entries)];
      assert root.entries[dir[0] := WithEntries(child, at[1..], entries)][dir[0] := Plus(WithEntries(child, at[1..], entries), dir[1..], name, node)]
          == root.entries[dir[0] := Plus(WithEntries(child, at[1..], entries), dir[1..], name, node)];
    } else {
      var a, b := Plus(root.entries[dir[0]], dir[1..], name, node), WithEntries(root.entries[at[0]], at[1..], entries);
      assert root.entries[dir[0] := a][at[0] := b] == root.entries[at[0] := b][dir[0] := a];
    }
  }

  /** From a directory on the way to it. */
  lemma {:induction false} ReachedFrom(root: Node, at: seq<Name>, rest: seq<Name>)
    requires IsDir(root, at + rest)
    ensures IsDir(root, at) && Reaches(EntriesAt(root, at).value, rest)
    ensures EntriesBelow(EntriesAt(root, at).value, rest) == EntriesAt(root, at + rest).value
    decreases |at|
  {
    if at == [] {
      assert at + rest == rest;
    } else {
      assert (at + rest)[1..] == at[1..] + rest;
      ReachedFrom(root.entries[at[0]], at[1..], rest);
    }
  }

  /** Written on the way to it, with the node or without. */
  lemma {:induction false} PlusWritten(root: Node, at: seq<Name>, entries: Entries, rest: seq<Name>, name: Name, node: Node)
    requires IsDir(root, at) && Reaches(entries, rest)
    ensures IsDir(WithEntries(root, at, entries), at + rest)
    ensures EntriesAt(WithEntries(root, at, entries), at + rest).value == EntriesBelow(entries, rest)
    ensures Plus(WithEntries(root, at, entries), at + rest, name, node)
         == WithEntries(root, at, PlusBelow(entries, rest, name, node))
    decreases |at|
  {
    if at == [] {
      assert at + rest == rest;
    } else {
      assert (at + rest)[1..] == at[1..] + rest && (at + rest)[0] == at[0];
      var child := root.entries[at[0]];
      PlusWritten(child, at[1..], entries, rest, name, node);
      var without, plus := WithEntries(child, at[1..], entries), WithEntries(child, at[1..], PlusBelow(entries, rest, name, node));
      assert root.entries[at[0] := without][at[0] := plus] == root.entries[at[0] := plus];
    }
  }

  /** What a directory on the way sees, and what writing it does. */
  lemma PlusOnTheWay(root: Node, dir: seq<Name>, name: Name, node: Node, at: seq<Name>, rest: seq<Name>, entries: Entries)
    requires IsDir(root, dir) && dir == at + rest
    ensures IsDir(root, at) && Reaches(EntriesAt(root, at).value, rest)
    ensures EntriesAt(Plus(root, dir, name, node), at) == Success(PlusBelow(EntriesAt(root, at).value, rest, name, node))
    ensures WithEntries(Plus(root, dir, name, node), at, entries) == WithEntries(root, at, entries)
  {
    ReachedFrom(root, at, rest);
    var now := EntriesAt(root, at).value;
    WritingBackChangesNothing(root, at);
    PlusWritten(root, at, now, rest, name, node);
    var plus := PlusBelow(now, rest, name, node);
    ReadsWhatWasWritten(root, at, plus);
    LastWriteCounts(root, at, plus, entries);
  }

  /** A node on the way to a directory is one, and if it is empty the way ends there. */
  lemma OnTheWay(root: Node, path: Path, dir: seq<Name>)
    requires IsDir(root, dir) && Full(path) <= dir
    ensures IsDir(root, path.dir) && path.name in EntriesAt(root, path.dir).value
    ensures EntriesAt(root, path.dir).value[path.name].Dir?
    ensures EntriesAt(root, path.dir).value[path.name].entries == map[] ==> dir == Full(path)
  {
    var rest := dir[|path.dir|..];
    assert dir == path.dir + rest && rest[0] == path.name;
    ReachedFrom(root, path.dir, rest);
    if rest[1..] == [] {
      assert rest == [path.name];
    }
  }

  // ---------------------------------------------------------------------------
  // One undo action with the copy in the way

  /** The same tree but for one node that nobody looks for. */
  ghost predicate HoldsCopy(w: State, v: State, dir: seq<Name>, name: Name, node: Node) {
    IsDir(v.root, dir) && name !in EntriesAt(v.root, dir).value && w.root == Plus(v.root, dir, name, node) &&
    w.running == v.running
  }

  /** Where the copy is afterwards: in a directory, gone with what was removed, or stuck in what cannot be. */
  datatype Where = In(dir: seq<Name>) | Gone | Stuck

  /** The directory once the node under `from` has its old path again. */
  function Back(path: Path, from: Name, dir: seq<Name>): seq<Name> {
    var was := Full(Path(path.dir, from));
    if was <= dir then Full(path) + dir[|was|..] else dir
  }

  /** The entries with one name taken out, the copy below another or beside. */
  lemma PlusWithout(entries: Entries, rest: seq<Name>, name: Name, node: Node, gone: Name)
    requires Reaches(entries, rest) && gone != name && (rest == [] || rest[0] != gone)
    ensures Reaches(entries - {gone}, rest)
    ensures EntriesBelow(entries - {gone}, rest) == if rest == [] then entries - {gone} else EntriesBelow(entries, rest)
    ensures PlusBelow(entries, rest, name, node) - {gone} == PlusBelow(entries - {gone}, rest, name, node)
    ensures gone in PlusBelow(entries, rest, name, node) <==> gone in entries
    ensures gone in entries ==> PlusBelow(entries, rest, name, node)[gone] == entries[gone]
  {}

  lemma {:induction false} PlusKeepsIdentity(node: Node, dir: seq<Name>, name: Name, more: Node)
    requires IsDir(node, dir)
    ensures var plus := Plus(node, dir, name, more);
      plus.Dir? && plus.id == node.id && plus.mode == node.mode && plus.owner == node.owner && plus.entries != map[]
  {
    assert dir == [] ==> name in Plus(node, dir, name, more).entries;
    assert dir != [] ==> dir[0] in Plus(node, dir, name, more).entries;
  }

  lemma RemovedWithCopy(v: State, w: State, path: Path, id: FileId, whole: bool, dir: seq<Name>, name: Name, node: Node)
    requires HoldsCopy(w, v, dir, name, node) && SameCounters(v, w) && IsDir(v.root, path.dir)
    requires name.Sibling? && name.purpose.Reclaimed? && path.name != name && Removed(v, path, id, whole).result.Success?
    ensures var r, s := Removed(w, path, id, whole), Removed(v, path, id, whole).state;
      if !(Full(path) <= dir) then
        r.result.Success? && HoldsCopy(r.state, s, dir, name, node) && SameCounters(r.state, s)
      else if whole then r.result.Success? && SameTree(r.state, s) && SameCounters(r.state, s)
      else r.result.Failure?
  {
    var entries := EntriesAt(v.root, path.dir).value;
    FullPrefix(path, dir);
    if path.dir <= dir {
      var rest := dir[|path.dir|..];
      assert dir == path.dir + rest;
      ReachedFrom(v.root, path.dir, rest);
      var plus := PlusBelow(entries, rest, name, node);
      PlusOnTheWay(v.root, dir, name, node, path.dir, rest, plus - {path.name});
      if Full(path) <= dir {
        PlusKeepsIdentity(entries[path.name], rest[1..], name, node);
        assert plus - {path.name} == entries - {path.name};
      } else {
        PlusWithout(entries, rest, name, node, path.name);
        PlusWritten(v.root, path.dir, entries - {path.name}, rest, name, node);
      }
    } else {
      PlusElsewhere(v.root, dir, name, node, path.dir, entries - {path.name});
    }
  }

  /** A name brought back under another, the copy carried along where it was below. */
  lemma PlusMoved(entries: Entries, rest: seq<Name>, name: Name, node: Node, from: Name, to: Name)
    requires Reaches(entries, rest) && from in entries && from != name && to != name && from != to
    requires name !in EntriesBelow(entries, rest) && (rest == [] || rest[0] != to)
    ensures var after, moved := entries[to := entries[from]] - {from}, if rest != [] && rest[0] == from then [to] + rest[1..] else rest;
      Reaches(after, moved) && name !in EntriesBelow(after, moved) &&
      (var plus := PlusBelow(entries, rest, name, node);
       plus[to := plus[from]] - {from} == PlusBelow(after, moved, name, node))
  {
    var after, plus := entries[to := entries[from]] - {from}, PlusBelow(entries, rest, name, node);
    if rest != [] && rest[0] == from {
      assert ([to] + rest[1..])[1..] == rest[1..];
      assert plus[to := plus[from]] - {from} == after[to := plus[from]];
    } else {
      assert plus[from] == entries[from];
      assert plus[to := plus[from]] - {from} == PlusBelow(after, rest, name, node);
    }
  }

  lemma RestoredWithCopy(v: State, w: State, a: Action, dir: seq<Name>, name: Name, node: Node)
    requires HoldsCopy(w, v, dir, name, node) && SameCounters(v, w) && a.Restore? && DoRestore(v, a).result.Success?
    requires a.path.name != name && a.from.name != name && a.from.name != a.path.name
    requires var entries := EntriesAt(v.root, a.path.dir).value;
      a.path.name in entries ==> !entries[a.path.name].Dir?
    ensures var r, s := DoRestore(w, a), DoRestore(v, a).state;
      r.result.Success? && HoldsCopy(r.state, s, Back(a.path, a.from.name, dir), name, node) && SameCounters(r.state, s)
  {
    var path, from := a.path, a.from.name;
    var entries := EntriesAt(v.root, path.dir).value;
    var after := entries[path.name := entries[from]] - {from};
    FullPrefix(Path(path.dir, from), dir);
    FullPrefix(path, dir);
    if path.dir <= dir {
      var rest := dir[|path.dir|..];
      assert dir == path.dir + rest;
      ReachedFrom(v.root, path.dir, rest);
      var plus := PlusBelow(entries, rest, name, node);
      PlusOnTheWay(v.root, dir, name, node, path.dir, rest, plus[path.name := plus[from]] - {from});
      PlusMoved(entries, rest, name, node, from, path.name);
      var moved := if rest != [] && rest[0] == from then [path.name] + rest[1..] else rest;
      PlusWritten(v.root, path.dir, after, moved, name, node);
      assert Back(path, from, dir) == path.dir + moved by {
        assert rest != [] && rest[0] == from ==> dir[|path.dir| + 1..] == rest[1..];
      }
    } else {
      PlusElsewhere(v.root, dir, name, node, path.dir, after);
    }
  }

  /** The node as it is seen, the copy below it or not. */
  function SeenWith(seen: Node, rest: seq<Name>, key: Name, name: Name, node: Node): Node
    requires rest != [] && rest[0] == key ==> IsDir(seen, rest[1..])
  {
    if rest != [] && rest[0] == key then Plus(seen, rest[1..], name, node) else seen
  }

  /** A node that changes in all but its entries. */
  predicate SameEntries(a: Node, b: Node) { (a.Dir? <==> b.Dir?) && (a.Dir? ==> a.entries == b.entries) }

  lemma PlusEdited(entries: Entries, rest: seq<Name>, name: Name, node: Node, key: Name, edited: Node)
    requires Reaches(entries, rest) && key in entries && key != name && name !in EntriesBelow(entries, rest)
    requires SameEntries(entries[key], edited)
    ensures rest != [] && rest[0] == key ==> IsDir(edited, rest[1..])
    ensures PlusBelow(entries, rest, name, node)[key] == SeenWith(entries[key], rest, key, name, node)
    ensures Reaches(entries[key := edited], rest) && name !in EntriesBelow(entries[key := edited], rest)
    ensures PlusBelow(entries, rest, name, node)[key := SeenWith(edited, rest, key, name, node)]
         == PlusBelow(entries[key := edited], rest, name, node)
  {
    if rest != [] && rest[0] == key {
      SameBelow(entries[key], edited, rest[1..]);
    }
  }

  lemma SameBelow(a: Node, b: Node, dir: seq<Name>)
    requires SameEntries(a, b) && IsDir(a, dir)
    ensures EntriesAt(b, dir) == EntriesAt(a, dir)
  {}

  /** The node under a path edited, seen with the copy below it or not. */
  lemma EditedWithCopy(v: State, w: State, path: Path, rest: seq<Name>, edited: Node, dir: seq<Name>, name: Name, node: Node)
    requires HoldsCopy(w, v, dir, name, node) && SameCounters(v, w) && IsDir(v.root, path.dir) && path.name != name
    requires path.name in EntriesAt(v.root, path.dir).value && SameEntries(EntriesAt(v.root, path.dir).value[path.name], edited)
    requires rest == if path.dir <= dir then dir[|path.dir|..] else []
    ensures IsDir(w.root, path.dir) && path.name in EntriesAt(w.root, path.dir).value
    ensures rest != [] && rest[0] == path.name ==> IsDir(edited, rest[1..]) &&
                                                   IsDir(EntriesAt(v.root, path.dir).value[path.name], rest[1..])
    ensures var was, now := EntriesAt(v.root, path.dir).value, EntriesAt(w.root, path.dir).value;
      now[path.name] == SeenWith(was[path.name], rest, path.name, name, node) &&
      HoldsCopy(Put(w, path, now[path.name := SeenWith(edited, rest, path.name, name, node)]),
                Put(v, path, was[path.name := edited]), dir, name, node)
  {
    var entries := EntriesAt(v.root, path.dir).value;
    if path.dir <= dir {
      assert dir == path.dir + rest;
      ReachedFrom(v.root, path.dir, rest);
      PlusEdited(entries, rest, name, node, path.name, edited);
      var plus := PlusBelow(entries, rest, name, node);
      PlusOnTheWay(v.root, dir, name, node, path.dir, rest, plus[path.name := SeenWith(edited, rest, path.name, name, node)]);
      PlusWritten(v.root, path.dir, entries[path.name := edited], rest, name, node);
    } else {
      PlusElsewhere(v.root, dir, name, node, path.dir, entries[path.name := edited]);
    }
  }

  lemma ModeSetWithCopy(v: State, w: State, a: Action, dir: seq<Name>, name: Name, node: Node)
    requires HoldsCopy(w, v, dir, name, node) && SameCounters(v, w) && a.SetMode? && a.path.name != name
    requires DoSetMode(v, a, true).result.Success?
    ensures var r, s := DoSetMode(w, a, true), DoSetMode(v, a, true).state;
      r.result.Success? && HoldsCopy(r.state, s, dir, name, node) && SameCounters(r.state, s)
  {
    var was := EntriesAt(v.root, a.path.dir).value[a.path.name];
    var rest := if a.path.dir <= dir then dir[|a.path.dir|..] else [];
    EditedWithCopy(v, w, a.path, rest, WithMode(was, a.mode), dir, name, node);
    if rest != [] && rest[0] == a.path.name {
      ModeBelow(was, a.mode, rest[1..], name, node);
    }
  }

  lemma ModeBelow(was: Node, mode: nat, rest: seq<Name>, name: Name, node: Node)
    requires IsDir(was, rest)
    ensures IsDir(WithMode(was, mode), rest)
    ensures WithMode(Plus(was, rest, name, node), mode) == Plus(WithMode(was, mode), rest, name, node)
    ensures Plus(was, rest, name, node).mode == was.mode && Plus(was, rest, name, node).Dir?
  {}

  lemma OwnerSetWithCopy(v: State, w: State, a: Action, dir: seq<Name>, name: Name, node: Node)
    requires HoldsCopy(w, v, dir, name, node) && SameCounters(v, w) && a.SetOwner? && a.path.name != name
    requires DoSetOwner(v, a, true).result.Success?
    ensures var r, s := DoSetOwner(w, a, true), DoSetOwner(v, a, true).state;
      r.result.Success? && HoldsCopy(r.state, s, dir, name, node) && SameCounters(r.state, s)
  {
    var was := EntriesAt(v.root, a.path.dir).value[a.path.name];
    var rest := if a.path.dir <= dir then dir[|a.path.dir|..] else [];
    EditedWithCopy(v, w, a.path, rest, WithOwner(was, a.newOwner), dir, name, node);
    if rest != [] && rest[0] == a.path.name {
      OwnerBelow(was, a.newOwner, rest[1..], name, node);
    }
  }

  lemma OwnerBelow(was: Node, owner: Owner, rest: seq<Name>, name: Name, node: Node)
    requires IsDir(was, rest)
    ensures IsDir(WithOwner(was, owner), rest)
    ensures WithOwner(Plus(was, rest, name, node), owner) == Plus(WithOwner(was, owner), rest, name, node)
    ensures Plus(was, rest, name, node).owner == was.owner && Plus(was, rest, name, node).Dir?
  {}

  /** What an undo action does to a directory that holds the copy. */
  function Carried(b: Action, dir: seq<Name>): Where {
    match b
    case RemoveCreated(path, _) => if Full(path) <= dir then Stuck else In(dir)
    case RemoveCreatedTree(path, _) => if Full(path) <= dir then Gone else In(dir)
    case Restore(path, from, _) => In(Back(path, from.name, dir))
    case _ => In(dir)
  }

  /** An undo action that finds what it was announced for, and names neither the copy nor what is below it. */
  predicate Fits(v: State, b: Action, name: Name) {
    match b
    case Keep(_) => true
    case RemoveCreated(path, _) => IsDir(v.root, path.dir) && path.name != name
    case RemoveCreatedTree(path, _) => IsDir(v.root, path.dir) && path.name != name
    case SetMode(path, _, _) => path.name != name
    case SetOwner(path, _, _) => path.name != name
    case Restore(path, from, _) =>
      path.name != name && from.name != name && from.name != path.name &&
      (IsDir(v.root, path.dir) && path.name in EntriesAt(v.root, path.dir).value ==>
        !EntriesAt(v.root, path.dir).value[path.name].Dir?)
    case _ => false
  }

  ghost predicate Ends(r: Result<State, Failing>, o: Where, s: State, name: Name, node: Node) {
    (r.Success? <==> !o.Stuck?) && (o.Gone? ==> r.Success? && SameTree(r.value, s)) &&
    (o.In? ==> r.Success? && HoldsCopy(r.value, s, o.dir, name, node))
  }

  predicate Comes(r: Result<State, Failing>, s: State) { r.Success? && SameTree(r.value, s) }

  lemma StepWithCopy(v: State, w: State, b: Action, dir: seq<Name>, name: Name, node: Node)
    requires HoldsCopy(w, v, dir, name, node) && SameCounters(v, w) && Perform(v, b, true).result.Success?
    requires name.Sibling? && name.purpose.Reclaimed? && Fits(v, b, name)
    ensures var r, o, s := Perform(w, b, true), Carried(b, dir), Perform(v, b, true).state;
      (r.result.Success? <==> !o.Stuck?) && (o.Gone? ==> SameTree(r.state, s) && SameCounters(r.state, s)) &&
      (o.In? ==> HoldsCopy(r.state, s, o.dir, name, node) && SameCounters(r.state, s))
  {
    match b
    case Keep(_) =>
    case RemoveCreated(path, id) => RemovedWithCopy(v, w, path, id, false, dir, name, node);
    case RemoveCreatedTree(path, id) => RemovedWithCopy(v, w, path, id, true, dir, name, node);
    case Restore(_, _, _) => RestoredWithCopy(v, w, b, dir, name, node);
    case SetMode(_, _, _) => ModeSetWithCopy(v, w, b, dir, name, node);
    case SetOwner(_, _, _) => OwnerSetWithCopy(v, w, b, dir, name, node);
  }

  lemma OneUndoWithCopy(s: State, v: State, w: State, b: Action, undo: seq<Action>, dir: seq<Name>, name: Name, node: Node)
    requires HoldsCopy(w, v, dir, name, node) && SameCounters(v, w) && undo == [b] && Comes(UndoAll(v, undo), s)
    requires name.Sibling? && name.purpose.Reclaimed? && Fits(v, b, name)
    ensures Ends(UndoAll(w, undo), Carried(b, dir), s, name, node)
  {
    UndoOne(v, b);
    UndoOne(w, b);
    StepWithCopy(v, w, b, dir, name, node);
  }

  // ---------------------------------------------------------------------------
  // One action of the run

  /** Where the copy is once the action is undone, if it was in `dir` before that. */
  function Before(s: State, a: Action, dir: seq<Name>): Where {
    match a
    case CreateDir(path, _, _) => if dir == Full(path) then Stuck else In(dir)
    case CreateDirs(top, _, _, _) => if Full(top) <= dir then Gone else In(dir)
    case CopyTree(_, to, _) => if Full(to) <= dir then Gone else In(dir)
    case SetAside(path, _) => In(Back(path, Sibling(path.name, Aside, s.next + 1), dir))
    case PutFile(path, _, _, _, held) =>
      In(if held.Present? then Back(path, Sibling(path.name, Backup, s.next + 1), dir) else dir)
    case ReclaimTree(path, _, _) =>
      if Full(path) <= dir then Gone else In(Back(path, Sibling(path.name, Aside, s.next + 2), dir))
    case _ => In(dir)
  }

  lemma CreationWithCopy(s: State, a: Action, v: State, w: State, dir: seq<Name>, name: Name, node: Node)
    requires a.CreateDirs? || a.CreateDir? || a.CopyTree? || (a.PutFile? && a.held.Absent?)
    requires Perform(s, a, true).result.Success? && SameTree(v, Perform(s, a, true).state)
    requires Comes(UndoAll(v, Perform(s, a, true).undo), s) && HoldsCopy(w, v, dir, name, node) && SameCounters(v, w)
    requires name.Sibling? && name.purpose.Reclaimed?
    requires name != if a.CreateDirs? then a.top.name else if a.CopyTree? then a.to.name else a.path.name
    ensures Ends(UndoAll(w, Perform(s, a, true).undo), Before(s, a, dir), s, name, node)
  {
    var path := if a.CreateDirs? then a.top else if a.CopyTree? then a.to else a.path;
    var undo := Perform(s, a, true).undo;
    var entries := EntriesAt(s.root, path.dir).value;
    var owner := if a.CopyTree? then s.running else OwnerOr(a.owner, s.running);
    var made := if a.CreateDirs? then Chain(a.below, a.mode, owner, s.born + 1)
                else if a.CreateDir? then Dir(Made(s.born + 1), a.mode, owner, map[])
                else if a.CopyTree? then CopiedTop(Located(s, a.from).value[a.from.name], s.born + 1, s.running, a.mode)
                else File(Made(s.born + 1), a.mode, owner, a.contents);
    ReadsWhatWasWritten(s.root, path.dir, entries[path.name := made]);
    if Full(path) <= dir {
      OnTheWay(v.root, path, dir);
    }
    OneUndoWithCopy(s, v, w, undo[0], undo, dir, name, node);
  }

  lemma ReplacementWithCopy(s: State, a: Action, v: State, w: State, dir: seq<Name>, name: Name, node: Node)
    requires a.PutFile? && a.held.Present?
    requires Perform(s, a, true).result.Success? && SameTree(v, Perform(s, a, true).state)
    requires Comes(UndoAll(v, Perform(s, a, true).undo), s) && HoldsCopy(w, v, dir, name, node) && SameCounters(v, w)
    requires name.Sibling? && name.purpose.Reclaimed? && name != a.path.name
    ensures Ends(UndoAll(w, Perform(s, a, true).undo), Before(s, a, dir), s, name, node)
  {
    var backup := SiblingOf(a.path, Backup, s.next + 1);
    var entries := EntriesAt(s.root, a.path.dir).value;
    var made := File(Made(s.born + 1), a.mode, OwnerOr(a.owner, s.running), a.contents);
    var after := entries[a.path.name := made][backup.name := entries[a.path.name]];
    SiblingDiffers(a.path.name, Backup, s.next + 1);
    ReadsWhatWasWritten(s.root, a.path.dir, after);
    OneUndoWithCopy(s, v, w, Restore(a.path, backup, Present(made.id)), Perform(s, a, true).undo, dir, name, node);
  }

  lemma SettingAsideWithCopy(s: State, a: Action, v: State, w: State, dir: seq<Name>, name: Name, node: Node)
    requires a.SetAside?
    requires Perform(s, a, true).result.Success? && SameTree(v, Perform(s, a, true).state)
    requires Comes(UndoAll(v, Perform(s, a, true).undo), s) && HoldsCopy(w, v, dir, name, node) && SameCounters(v, w)
    requires name.Sibling? && name.purpose.Reclaimed? && name != a.path.name
    ensures Ends(UndoAll(w, Perform(s, a, true).undo), Before(s, a, dir), s, name, node)
  {
    var aside := SiblingOf(a.path, Aside, s.next + 1);
    var entries := EntriesAt(s.root, a.path.dir).value;
    SiblingDiffers(a.path.name, Aside, s.next + 1);
    ReadsWhatWasWritten(s.root, a.path.dir, entries[aside.name := entries[a.path.name]] - {a.path.name});
    OneUndoWithCopy(s, v, w, Restore(a.path, aside, Absent), Perform(s, a, true).undo, dir, name, node);
  }

  lemma ReclaimWithCopy(s: State, a: Action, v: State, w: State, dir: seq<Name>, name: Name, node: Node)
    requires a.ReclaimTree?
    requires Perform(s, a, true).result.Success? && SameTree(v, Perform(s, a, true).state)
    requires Comes(UndoAll(v, Perform(s, a, true).undo), s) && HoldsCopy(w, v, dir, name, node) && SameCounters(v, w)
    requires name.Sibling? && name.purpose.Reclaimed? && name != a.path.name
    ensures Ends(UndoAll(w, Perform(s, a, true).undo), Before(s, a, dir), s, name, node)
  {
    var aside := SiblingOf(a.path, Aside, s.next + 2);
    var copy := CopiedTop(Holding(s, a.path, a.id).value, s.born + 1, s.running, a.mode);
    SiblingDiffers(a.path.name, Aside, s.next + 2);
    ReclaimAnnounces(s, a, v);
    TwoUndosWithCopy(s, v, w, RemoveCreatedTree(a.path, copy.id), Restore(a.path, aside, Absent), Perform(s, a, true).undo,
                     dir, name, node);
  }

  lemma ReclaimAnnounces(s: State, a: Action, v: State)
    requires a.ReclaimTree? && Perform(s, a, true).result.Success? && SameTree(v, Perform(s, a, true).state)
    ensures Perform(s, a, true).undo
         == [RemoveCreatedTree(a.path, CopiedTop(Holding(s, a.path, a.id).value, s.born + 1, s.running, a.mode).id),
             Restore(a.path, SiblingOf(a.path, Aside, s.next + 2), Absent)]
    ensures IsDir(v.root, a.path.dir)
  {
    var aside := SiblingOf(a.path, Aside, s.next + 2);
    var entries, held := EntriesAt(s.root, a.path.dir).value, Holding(s, a.path, a.id).value;
    var copy := CopiedTop(held, s.born + 1, s.running, a.mode);
    ReadsWhatWasWritten(s.root, a.path.dir, entries[aside.name := held][a.path.name := copy]);
  }

  lemma TwoUndosWithCopy(s: State, v: State, w: State, first: Action, second: Action, undo: seq<Action>,
                         dir: seq<Name>, name: Name, node: Node)
    requires HoldsCopy(w, v, dir, name, node) && SameCounters(v, w) && undo == [first, second] && Comes(UndoAll(v, undo), s)
    requires first.RemoveCreatedTree? && second.Restore? && second.held.Absent?
    requires name.Sibling? && name.purpose.Reclaimed? && Fits(v, first, name)
    requires second.path.name != name && second.from.name != name && second.from.name != second.path.name
    ensures Ends(UndoAll(w, undo), if Carried(first, dir).Gone? then Gone else Carried(second, dir), s, name, node)
  {
    assert undo[1..] == [second];
    var after := Perform(v, first, true).state;
    UndoOne(after, second);
    StepWithCopy(v, w, first, dir, name, node);
    if Carried(first, dir).In? {
      var left := Perform(w, first, true).state;
      UndoOne(left, second);
      StepWithCopy(after, left, second, dir, name, node);
    } else {
      UndoOne(Perform(w, first, true).state, second);
      StepApart(after, Perform(w, first, true).state, second);
    }
  }

  lemma ActionWithCopy(s: State, a: Action, w: State, dir: seq<Name>, name: Name, node: Node)
    requires Counted(s) && IsForward(a) && GoodNames(a, s.next) && Perform(s, a, true).result.Success?
    requires HoldsCopy(w, Perform(s, a, true).state, dir, name, node) && w.next >= Perform(s, a, true).state.next
    requires name.Sibling? && name.purpose.Reclaimed? && name.number > Perform(s, a, true).state.next
    ensures Ends(UndoAll(w, Perform(s, a, true).undo), Before(s, a, dir), s, name, node)
  {
    var first := Perform(s, a, true);
    var v := first.state.(next := w.next, born := w.born);
    StaysCounted(s, a, true);
    LaterCounted(first.state, w.next);
    LastIsVisible(s, a);
    TreeRestored(s, a, |first.visible| - 1, v);
    match a
    case CreateDirs(_, _, _, _) => CreationWithCopy(s, a, v, w, dir, name, node);
    case CreateDir(_, _, _) => CreationWithCopy(s, a, v, w, dir, name, node);
    case CopyTree(_, _, _) => CreationWithCopy(s, a, v, w, dir, name, node);
    case PutFile(_, _, _, _, held) =>
      if held.Absent? {
        CreationWithCopy(s, a, v, w, dir, name, node);
      } else {
        ReplacementWithCopy(s, a, v, w, dir, name, node);
      }
    case SetMode(_, _, _) => OneUndoWithCopy(s, v, w, first.undo[0], first.undo, dir, name, node);
    case SetOwner(_, _, _) => OneUndoWithCopy(s, v, w, first.undo[0], first.undo, dir, name, node);
    case Discard(_) => OneUndoWithCopy(s, v, w, first.undo[0], first.undo, dir, name, node);
    case SetAside(_, _) => SettingAsideWithCopy(s, a, v, w, dir, name, node);
    case ReclaimTree(_, _, _) => ReclaimWithCopy(s, a, v, w, dir, name, node);
  }

  // ---------------------------------------------------------------------------
  // The whole run

  /** Where the copy ends up when the run before it is undone: read off the actions, the last first. */
  function Origin(s: State, actions: seq<Action>, dir: seq<Name>): Where
    decreases |actions|
  {
    if actions == [] then In(dir)
    else
      match Origin(Perform(s, actions[0], true).state, actions[1..], dir)
      case In(later) => Before(s, actions[0], later)
      case lost => lost
  }

  lemma {:induction false} RunWithCopy(s: State, actions: seq<Action>, t: State, dir: seq<Name>, name: Name, node: Node)
    requires Counted(s) && MayRun(s, actions) && Run(s, actions).result.Success?
    requires HoldsCopy(t, Run(s, actions).state, dir, name, node) && Counted(t) && t.next >= Run(s, actions).state.next
    requires name.Sibling? && name.purpose.Reclaimed? && name.number > Run(s, actions).state.next
    ensures var r := UndoRun(t, Run(s, actions).undos);
      Ends(r, Origin(s, actions, dir), s, name, node) && (r.Success? ==> Counted(r.value) && r.value.next >= t.next)
    decreases |actions|
  {
    if actions != [] {
      var a := actions[0];
      var first := Perform(s, a, true);
      StaysCounted(s, a, true);
      RunStaysCounted(first.state, actions[1..]);
      RunWithCopy(first.state, actions[1..], t, dir, name, node);
      var undos := Run(first.state, actions[1..]).undos;
      assert ([first.undo] + undos)[1..] == undos;
      var later := UndoRun(t, undos);
      if later.Success? {
        LastIsVisible(s, a);
        UndoNamesGood(s, a, later.value.next);
        if Origin(first.state, actions[1..], dir).In? {
          ActionWithCopy(s, a, later.value, Origin(first.state, actions[1..], dir).dir, name, node);
        } else {
          TreeRestored(s, a, |first.visible| - 1, later.value);
        }
        if UndoAll(later.value, first.undo).Success? {
          UndoStaysCounted(later.value, first.undo);
        }
      }
    }
  }

  /**
   A run that stopped between the two renames of a reclaim comes back exactly when no `CreateDir` of
   its own is in the way, and then without the copy, or with it in a directory that was there before.
   */
  lemma HalfReclaimedRun(s: State, actions: seq<Action>, a: Action, t: State, name: Name, node: Node)
    requires Counted(s) && MayRun(s, actions) && Run(s, actions).result.Success?
    requires var u := Run(s, actions).state;
      a.ReclaimTree? && GoodNames(a, u.next) && Perform(u, a, true).result.Success? &&
      SameDisk(t, Perform(u, a, true).visible[0]) && Counted(t) && t.next >= u.next && IsLeftover(u, a, name, node)
    ensures Ends(UndoStopped(t, Perform(Run(s, actions).state, a, true).undo, Run(s, actions).undos),
                 Origin(s, actions, a.path.dir), s, name, node)
    ensures var r := UndoStopped(t, Perform(Run(s, actions).state, a, true).undo, Run(s, actions).undos);
      r.Success? ==> (r.value.pending == s.pending <==> DiscardsNoneOf(s.pending, s, actions))
  {
    var u := Run(s, actions).state;
    RunStaysCounted(s, actions);
    StoppedTakesOff(s, actions, a, 0, t);
    HalfReclaimHolds(u, a, t, name, node);
    StoppedWithCopy(s, actions, t, Perform(u, a, true).undo, a.path.dir, name, node);
  }

  /** The name and the node that a reclaim stages. */
  predicate IsLeftover(u: State, a: Action, name: Name, node: Node)
    requires a.ReclaimTree?
  {
    Holding(u, a.path, a.id).Success? && name == Sibling(a.path.name, Reclaimed, u.next + 1) &&
    node == CopiedTop(Holding(u, a.path, a.id).value, u.born + 1, u.running, a.mode)
  }

  lemma StoppedWithCopy(s: State, actions: seq<Action>, t: State, last: seq<Action>, dir: seq<Name>, name: Name, node: Node)
    requires Counted(s) && MayRun(s, actions) && Run(s, actions).result.Success? && UndoAll(t, last).Success?
    requires var back, u := UndoAll(t, last).value, Run(s, actions).state;
      HoldsCopy(back, u, dir, name, node) && Counted(back) && back.next >= u.next &&
      name.Sibling? && name.purpose.Reclaimed? && name.number > u.next
    ensures Ends(UndoStopped(t, last, Run(s, actions).undos), Origin(s, actions, dir), s, name, node)
  {
    RunWithCopy(s, actions, UndoAll(t, last).value, dir, name, node);
    StoppedEnds(t, last, Run(s, actions).undos, Origin(s, actions, dir), s, name, node);
  }

  lemma StoppedEnds(t: State, last: seq<Action>, undos: seq<seq<Action>>, o: Where, s: State, name: Name, node: Node)
    requires UndoAll(t, last).Success? && Ends(UndoRun(UndoAll(t, last).value, undos), o, s, name, node)
    ensures Ends(UndoStopped(t, last, undos), o, s, name, node)
  {}

  lemma HalfReclaimHolds(u: State, a: Action, t: State, name: Name, node: Node)
    requires Counted(u) && a.ReclaimTree? && GoodNames(a, u.next) && Perform(u, a, true).result.Success?
    requires SameDisk(t, Perform(u, a, true).visible[0]) && Counted(t) && t.next >= u.next && IsLeftover(u, a, name, node)
    ensures var r := UndoAll(t, Perform(u, a, true).undo);
      r.Success? && Counted(r.value) && r.value.next >= u.next && HoldsCopy(r.value, u, a.path.dir, name, node)
  {
    var undo := Perform(u, a, true).undo;
    HalfReclaimUndone(u, a, t);
    UndoNamesGood(u, a, t.next);
    UndoStaysCounted(t, undo);
  }

  lemma CopyIsLeft(r: Result<State, Failing>, o: Where, s: State, name: Name, node: Node)
    requires Ends(r, o, s, name, node)
    ensures Comes(r, s) <==> o.Gone?
  {
    if o.In? {
      var entries := EntriesAt(s.root, o.dir).value;
      ReadsWhatWasWritten(s.root, o.dir, entries[name := node]);
      assert name in entries[name := node];
    }
  }

  /**
   A run that stopped after any visible change of its last action is brought back by the undo lists,
   that action's first, exactly when nothing was discarded that had been pending at the start, and it
   did not stop between the renames of a reclaim, or else in a tree that the run itself had made and
   that is removed whole.
   */
  lemma StoppedRunRestores(s: State, actions: seq<Action>, a: Action, i: nat, t: State)
    requires Counted(s) && MayRun(s, actions) && Run(s, actions).result.Success?
    requires var u := Run(s, actions).state;
      IsForward(a) && GoodNames(a, u.next) &&
      Perform(u, a, true).result.Success? && i < |Perform(u, a, true).visible| &&
      SameDisk(t, Perform(u, a, true).visible[i]) && Counted(t) && t.next >= Perform(u, a, true).state.next
    ensures Undone(UndoStopped(t, Perform(Run(s, actions).state, a, true).undo, Run(s, actions).undos), s)
      <==> DiscardsNoneOf(s.pending, s, actions) && (a.Discard? ==> a.path !in s.pending) &&
           (!IsHalfReclaim(a, i) || Origin(s, actions, a.path.dir).Gone?)
  {
    var u := Run(s, actions).state;
    RunStaysCounted(s, actions);
    StaysCounted(u, a, true);
    StoppedTakesOff(s, actions, a, i, t);
    if IsHalfReclaim(a, i) {
      var name := Sibling(a.path.name, Reclaimed, u.next + 1);
      var node := CopiedTop(Holding(u, a.path, a.id).value, u.born + 1, u.running, a.mode);
      HalfReclaimedRun(s, actions, a, t, name, node);
      CopyIsLeft(UndoStopped(t, Perform(u, a, true).undo, Run(s, actions).undos), Origin(s, actions, a.path.dir), s, name, node);
    } else {
      StoppedElsewhereRestores(s, actions, a, i, t);
    }
  }

  // ---------------------------------------------------------------------------
  // The smallest case

  const OWNER: Owner := (0, 0)
  const EMPTY_DISK: State := State(Dir(Made(0), 0, OWNER, map[]), [], 0, 0, OWNER)
  const THE_DIR: Path := Path([], Given("d"))
  const THE_FILE: Path := Path([Given("d")], Given("x"))
  const MADE_DIR: Action := CreateDir(THE_DIR, 0, None)
  const PUT_FILE: Action := PutFile(THE_FILE, "", 0, None, Absent)
  const RECLAIMED_FILE: Action := ReclaimTree(THE_FILE, Made(2), 0)

  function WithDir(entries: Entries, next: nat, born: nat): State {
    State(Dir(Made(0), 0, OWNER, map[Given("d") := Dir(Made(1), 0, OWNER, entries)]), [], next, born, OWNER)
  }

  lemma DirMade()
    ensures Perform(EMPTY_DISK, MADE_DIR, true).result.Success? && Perform(EMPTY_DISK, MADE_DIR, true).state == WithDir(map[], 1, 1)
  {
    var none: Entries := map[];
    assert none[Given("d") := Dir(Made(1), 0, OWNER, none)] == map[Given("d") := Dir(Made(1), 0, OWNER, none)];
  }

  lemma EntriesInDir(entries: Entries, after: Entries, next: nat, born: nat)
    ensures EntriesAt(WithDir(entries, next, born).root, THE_FILE.dir) == Success(entries)
    ensures WithEntries(WithDir(entries, next, born).root, THE_FILE.dir, after) == WithDir(after, next, born).root
  {
    var dir := Dir(Made(1), 0, OWNER, entries);
    assert THE_FILE.dir[1..] == [];
    assert map[Given("d") := dir][Given("d") := dir.(entries := after)] == map[Given("d") := dir.(entries := after)];
  }

  lemma FilePut()
    ensures var s, file := WithDir(map[], 1, 1), File(Made(2), 0, OWNER, "");
      Perform(s, PUT_FILE, true).result.Success? && Perform(s, PUT_FILE, true).state == WithDir(map[Given("x") := file], 2, 2)
  {
    var none: Entries := map[];
    var file := File(Made(2), 0, OWNER, "");
    EntriesInDir(none, none[Given("x") := file], 1, 1);
    assert none[Given("x") := file] == map[Given("x") := file];
  }

  lemma TheRun()
    ensures var r := Run(EMPTY_DISK, [MADE_DIR, PUT_FILE]);
      r.result.Success? && r.state == WithDir(map[Given("x") := File(Made(2), 0, OWNER, "")], 2, 2)
    ensures Counted(EMPTY_DISK) && MayRun(EMPTY_DISK, [MADE_DIR, PUT_FILE])
    ensures Origin(EMPTY_DISK, [MADE_DIR, PUT_FILE], THE_FILE.dir) == Stuck
  {
    DirMade();
    FilePut();
    assert [MADE_DIR, PUT_FILE][1..] == [PUT_FILE] && [PUT_FILE][1..] == [];
    var s := WithDir(map[], 1, 1);
    var last := WithDir(map[Given("x") := File(Made(2), 0, OWNER, "")], 2, 2);
    assert Run(last, []) == Ran(last, [], Success(()));
    assert Run(s, [PUT_FILE]).result.Success? && Run(s, [PUT_FILE]).state == last && MayRun(s, [PUT_FILE]);
    assert Origin(s, [PUT_FILE], THE_FILE.dir) == In(THE_FILE.dir);
    assert Full(THE_DIR) == THE_FILE.dir;
  }

  /** A directory made, a file put into it and reclaimed by halves: its undo succeeds, that of the run does not. */
  lemma ADirectoryIsStuck()
    ensures var r := Run(EMPTY_DISK, [MADE_DIR, PUT_FILE]);
      var half := Perform(r.state, RECLAIMED_FILE, true);
      half.result.Success? && UndoAll(half.visible[0], half.undo).Success? &&
      UndoStopped(half.visible[0], half.undo, r.undos).Failure?
  {
    TheRun();
    var actions := [MADE_DIR, PUT_FILE];
    var u := Run(EMPTY_DISK, actions).state;
    var file := File(Made(2), 0, OWNER, "");
    EntriesInDir(map[Given("x") := file], map[], 2, 2);
    var half := Perform(u, RECLAIMED_FILE, true);
    RunStaysCounted(EMPTY_DISK, actions);
    assert Holding(u, THE_FILE, Made(2)) == Success(file);
    FreshIsFree(u, THE_FILE, Reclaimed, u.next + 1);
    FreshIsFree(u, THE_FILE, Aside, u.next + 2);
    var t := half.visible[0];
    ReclaimStatesCounted(u, RECLAIMED_FILE);
    var name, node := Sibling(THE_FILE.name, Reclaimed, u.next + 1), CopiedTop(file, u.born + 1, u.running, 0);
    HalfReclaimHolds(u, RECLAIMED_FILE, t, name, node);
    HalfReclaimedRun(EMPTY_DISK, actions, RECLAIMED_FILE, t, name, node);
  }
}
