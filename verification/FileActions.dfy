/**
 The file actions of crates/fs (crates/fs/src/lib.rs): what each does to the tree and to the list of
 paths that a commit removes, and the undo that it announces before its first visible change.

 `Perform` is an action on a quiet machine: nobody else changes the tree. What undo is for is said in
 `FileUndo`, of one action and of whole runs.
 */
module FileActions {
  import opened Wrappers
  import opened FileTree

  datatype Failing = Io(errno: Errno) | Conflict | NotPrepared

  datatype Held = Absent | Present(id: FileId)

  datatype Action =
    | CreateDirs(top: Path, below: seq<Name>, mode: nat, owner: Option<Owner>)
    | CreateDir(path: Path, mode: nat, owner: Option<Owner>)
    | PutFile(path: Path, contents: string, mode: nat, owner: Option<Owner>, held: Held)
    | SetMode(path: Path, mode: nat, heldMode: nat)
    | SetOwner(path: Path, newOwner: Owner, heldOwner: Owner)
    | SetAside(path: Path, id: FileId)
    | Discard(path: Path)
    | Keep(path: Path)
    | RemoveCreated(path: Path, id: FileId)
    | RemoveCreatedTree(path: Path, id: FileId)
    | Restore(path: Path, from: Path, held: Held)
    | ReclaimTree(path: Path, id: FileId, mode: nat)
    | CopyTree(from: Path, to: Path, mode: nat)

  /** The tree, the paths that a commit removes, and the numbers of the last sibling and the last new node. */
  datatype State = State(root: Node, pending: seq<Path>, next: nat, born: nat, running: Owner)

  /** `visible` are the states from the first change under a name that others use on. */
  datatype Performed = Performed(state: State, visible: seq<State>, undo: seq<Action>, result: Result<(), Failing>)

  // ---------------------------------------------------------------------------
  // Pieces

  function Refuse(s: State, failing: Failing): Performed { Performed(s, [], [], Failure(failing)) }

  /** `place`: links on the way are a conflict, everything else is reported as it is. */
  function Located(s: State, path: Path): Result<Entries, Failing> {
    match EntriesAt(s.root, path.dir)
    case Success(entries) => Success(entries)
    case Failure(errno) => Failure(if errno == Loop then Conflict else Io(errno))
  }

  function Put(s: State, path: Path, entries: Entries): State
    requires IsDir(s.root, path.dir)
  {
    s.(root := WithEntries(s.root, path.dir, entries))
  }

  function OwnerOr(owner: Option<Owner>, running: Owner): Owner {
    match owner
    case Some(o) => o
    case None => running
  }

  function Without(pending: seq<Path>, path: Path): seq<Path> {
    if pending == [] then []
    else (if pending[0] == path then [] else [pending[0]]) + Without(pending[1..], path)
  }

  function SiblingOf(path: Path, purpose: Purpose, number: nat): Path {
    Path(path.dir, Sibling(path.name, purpose, number))
  }

  /** A node made under a sibling's name and then renamed to its own, which must be free. */
  function Installed(s: State, path: Path, entries: Entries, node: Node, made: nat, undo: Action, taken: Failing,
                     agrees: bool): Performed
    requires IsDir(s.root, path.dir)
  {
    var used := s.(next := s.next + 1, born := s.born + made);
    if Sibling(path.name, New, s.next + 1) in entries then Refuse(used, Io(Exist))
    else if !agrees then Refuse(used, NotPrepared)
    else if path.name in entries then Refuse(used, taken)
    else
      var after := Put(used, path, entries[path.name := node]);
      Performed(after, [after], [undo], Success(()))
  }

  // ---------------------------------------------------------------------------
  // The actions

  function DoCreateDirs(s: State, a: Action, agrees: bool): Performed
    requires a.CreateDirs?
  {
    match Located(s, a.top)
    case Failure(failing) => Refuse(s, failing)
    case Success(entries) =>
      Installed(s, a.top, entries, Chain(a.below, a.mode, OwnerOr(a.owner, s.running), s.born + 1), |a.below| + 1,
                RemoveCreatedTree(a.top, Made(s.born + 1)), Conflict, agrees)
  }

  function DoCreateDir(s: State, a: Action, agrees: bool): Performed
    requires a.CreateDir?
  {
    match Located(s, a.path)
    case Failure(failing) => Refuse(s, failing)
    case Success(entries) =>
      Installed(s, a.path, entries, Dir(Made(s.born + 1), a.mode, OwnerOr(a.owner, s.running), map[]), 1,
                RemoveCreated(a.path, Made(s.born + 1)), Conflict, agrees)
  }

  /** The node under a name if it is the one expected. */
  function Pinned(entries: Entries, name: Name, id: FileId): Result<Node, Failing> {
    if name in entries && entries[name].id == id then Success(entries[name]) else Failure(Conflict)
  }

  function DoPutFile(s: State, a: Action, agrees: bool): Performed
    requires a.PutFile?
  {
    var node := File(Made(s.born + 1), a.mode, OwnerOr(a.owner, s.running), a.contents);
    match Located(s, a.path)
    case Failure(failing) => Refuse(s, failing)
    case Success(entries) =>
      match a.held
      case Absent => Installed(s, a.path, entries, node, 1, RemoveCreated(a.path, node.id), Conflict, agrees)
      case Present(id) =>
        match Pinned(entries, a.path.name, id)
        case Failure(failing) => Refuse(s, failing)
        case Success(replaced) => Replaced(s, a.path, entries, node, replaced, agrees)
  }

  /** The new file under a sibling's name, exchanged with the old one, which is then to be removed. */
  function Replaced(s: State, path: Path, entries: Entries, node: Node, replaced: Node, agrees: bool): Performed
    requires IsDir(s.root, path.dir)
  {
    var backup := SiblingOf(path, Backup, s.next + 1);
    var used := s.(next := s.next + 1, born := s.born + 1);
    if backup.name in entries then Refuse(used, Io(Exist))
    else if !agrees then Refuse(used, NotPrepared)
    else
      var after := Put(used, path, entries[path.name := node][backup.name := replaced]);
      var listed := after.(pending := after.pending + [backup]);
      Performed(listed, [after, listed], [Restore(path, backup, Present(node.id))], Success(()))
  }

  /** `open_node`: a link is a conflict. */
  function Opened(entries: Entries, name: Name): Result<Node, Failing> {
    if name !in entries then Failure(Io(NoEnt))
    else if entries[name].Link? then Failure(Conflict)
    else Success(entries[name])
  }

  function DoSetMode(s: State, a: Action, agrees: bool): Performed
    requires a.SetMode?
  {
    match Located(s, a.path)
    case Failure(failing) => Refuse(s, failing)
    case Success(entries) =>
      match Opened(entries, a.path.name)
      case Failure(failing) => Refuse(s, failing)
      case Success(node) =>
        if node.mode != a.heldMode then Refuse(s, Conflict)
        else if !agrees then Refuse(s, NotPrepared)
        else
          var after := Put(s, a.path, entries[a.path.name := WithMode(node, a.mode)]);
          Performed(after, [after], [SetMode(a.path, a.heldMode, a.mode)], Success(()))
  }

  function DoSetOwner(s: State, a: Action, agrees: bool): Performed
    requires a.SetOwner?
  {
    match Located(s, a.path)
    case Failure(failing) => Refuse(s, failing)
    case Success(entries) =>
      match Opened(entries, a.path.name)
      case Failure(failing) => Refuse(s, failing)
      case Success(node) =>
        if node.owner != a.heldOwner then Refuse(s, Conflict)
        else if !agrees then Refuse(s, NotPrepared)
        else
          var after := Put(s, a.path, entries[a.path.name := WithOwner(node, a.newOwner)]);
          Performed(after, [after], [SetOwner(a.path, a.heldOwner, a.newOwner)], Success(()))
  }

  /** `place_holding`: a directory that is missing holds nothing. */
  function Holding(s: State, path: Path, id: FileId): Result<Node, Failing> {
    match Located(s, path)
    case Failure(failing) => Failure(if failing == Io(NoEnt) then Conflict else failing)
    case Success(entries) => Pinned(entries, path.name, id)
  }

  function DoSetAside(s: State, a: Action, agrees: bool): Performed
    requires a.SetAside?
  {
    match Holding(s, a.path, a.id)
    case Failure(failing) => Refuse(s, failing)
    case Success(node) =>
      var entries := EntriesAt(s.root, a.path.dir).value;
      var aside := SiblingOf(a.path, Aside, s.next + 1);
      var used := s.(next := s.next + 1);
      if !agrees then Refuse(used, NotPrepared)
      else if aside.name in entries then Refuse(used, Io(Exist))
      else
        var after := Put(used, a.path, entries[aside.name := node] - {a.path.name});
        var listed := after.(pending := after.pending + [aside]);
        Performed(listed, [after, listed], [Restore(a.path, aside, Absent)], Success(()))
  }

  function DoDiscard(s: State, a: Action, agrees: bool): Performed
    requires a.Discard?
  {
    if !agrees then Refuse(s, NotPrepared)
    else
      var after := s.(pending := s.pending + [a.path]);
      Performed(after, [after], [Keep(a.path)], Success(()))
  }

  function Finished(s: State): Performed { Performed(s, [s], [], Success(())) }

  function DoKeep(s: State, a: Action): Performed
    requires a.Keep?
  {
    Finished(s.(pending := Without(s.pending, a.path)))
  }

  /** Both removals of what was created: nothing there is as good as removed. */
  function Removed(s: State, path: Path, id: FileId, whole: bool): Performed {
    match Located(s, path)
    case Failure(failing) => if failing == Io(NoEnt) then Finished(s) else Refuse(s, failing)
    case Success(entries) =>
      if path.name !in entries then Finished(s)
      else if entries[path.name].id != id then Refuse(s, Conflict)
      else
        var used := s.(next := s.next + 1);
        if Sibling(path.name, Remove, s.next + 1) in entries then Refuse(used, Io(Exist))
        else if !whole && entries[path.name].Dir? && entries[path.name].entries != map[] then Refuse(used, Conflict)
        else Finished(Put(used, path, entries - {path.name}))
  }

  function DoRestore(s: State, a: Action): Performed
    requires a.Restore?
  {
    match Located(s, a.path)
    case Failure(failing) => Refuse(s, failing)
    case Success(entries) =>
      if a.held.Present? && Pinned(entries, a.path.name, a.held.id).Failure? then Refuse(s, Conflict)
      else if a.from.name !in entries then Refuse(s, Io(NoEnt))
      else if a.held.Absent? && a.path.name in entries then Refuse(s, Conflict)
      else
        var after := Put(s, a.path, entries[a.path.name := entries[a.from.name]] - {a.from.name});
        Finished(after.(pending := Without(after.pending, a.from)))
  }

  /** A copy takes the place of the tree, which is set aside: two renames, with nothing there in between. */
  function DoReclaim(s: State, a: Action, agrees: bool): Performed
    requires a.ReclaimTree?
  {
    match Holding(s, a.path, a.id)
    case Failure(failing) => Refuse(s, failing)
    case Success(node) =>
      var entries := EntriesAt(s.root, a.path.dir).value;
      var staged, aside := SiblingOf(a.path, Reclaimed, s.next + 1), SiblingOf(a.path, Aside, s.next + 2);
      var copy := CopiedTop(node, s.born + 1, s.running, a.mode);
      var used := s.(next := s.next + 2, born := s.born + 1);
      if staged.name in entries then Refuse(s.(next := s.next + 1, born := s.born + 1), Io(Exist))
      else if !agrees then Refuse(used, NotPrepared)
      else if aside.name in entries then Refuse(used, Io(Exist))
      else
        var middle := Put(used, a.path, entries[staged.name := copy][aside.name := node] - {a.path.name});
        var after := Put(used, a.path, entries[aside.name := node][a.path.name := copy]);
        Performed(after, [middle, after],
                  [RemoveCreatedTree(a.path, copy.id), Restore(a.path, aside, Absent)], Success(()))
  }

  function DoCopyTree(s: State, a: Action, agrees: bool): Performed
    requires a.CopyTree?
  {
    if a.to != a.from && Full(a.from) <= Full(a.to) then Refuse(s, Conflict)
    else
      match Located(s, a.from)
      case Failure(failing) => Refuse(s, failing)
      case Success(source) =>
        match Located(s, a.to)
        case Failure(failing) => Refuse(s, failing)
        case Success(entries) =>
          if a.from.name !in source then Refuse(s.(next := s.next + 1), Io(NoEnt))
          else
            var copy := CopiedTop(source[a.from.name], s.born + 1, s.running, a.mode);
            Installed(s, a.to, entries, copy, 1, RemoveCreatedTree(a.to, copy.id), Io(Exist), agrees)
  }

  function Perform(s: State, a: Action, agrees: bool): Performed {
    match a
    case CreateDirs(_, _, _, _) => DoCreateDirs(s, a, agrees)
    case CreateDir(_, _, _) => DoCreateDir(s, a, agrees)
    case PutFile(_, _, _, _, _) => DoPutFile(s, a, agrees)
    case SetMode(_, _, _) => DoSetMode(s, a, agrees)
    case SetOwner(_, _, _) => DoSetOwner(s, a, agrees)
    case SetAside(_, _) => DoSetAside(s, a, agrees)
    case Discard(_) => DoDiscard(s, a, agrees)
    case Keep(_) => DoKeep(s, a)
    case RemoveCreated(path, id) => Removed(s, path, id, false)
    case RemoveCreatedTree(path, id) => Removed(s, path, id, true)
    case Restore(_, _, _) => DoRestore(s, a)
    case ReclaimTree(_, _, _) => DoReclaim(s, a, agrees)
    case CopyTree(_, _, _) => DoCopyTree(s, a, agrees)
  }

  // ---------------------------------------------------------------------------
  // What is kept

  /** What can be told apart: not the counters for new names and nodes. */
  predicate SameDisk(a: State, b: State) { a.root == b.root && a.pending == b.pending && a.running == b.running }

  /** An action that fails leaves everything as it was. */
  lemma FailureChangesNothing(s: State, a: Action, agrees: bool)
    requires Perform(s, a, agrees).result.Failure?
    ensures SameDisk(Perform(s, a, agrees).state, s)
  {}

  /** No change is visible before the undo was accepted. */
  lemma NothingVisibleUnprepared(s: State, a: Action)
    requires Perform(s, a, false).result.Success?
    ensures a.Keep? || a.RemoveCreated? || a.RemoveCreatedTree? || a.Restore?
  {}

  /** The names that mix made up are those it has counted. */
  ghost predicate Counted(s: State) {
    Known(s.root, s.next) && forall p | p in s.pending :: NameKnown(p.name, s.next)
  }

  /** The paths an action is given name no sibling that is still to come. */
  predicate GoodNames(a: Action, next: nat) {
    match a
    case CreateDirs(top, below, _, _) => NameKnown(top.name, next) && forall n | n in below :: NameKnown(n, next)
    case CopyTree(_, to, _) => NameKnown(to.name, next)
    case _ => NameKnown(a.path.name, next)
  }

  lemma FreshIsFree(s: State, path: Path, purpose: Purpose, number: nat)
    requires Counted(s) && IsDir(s.root, path.dir) && number > s.next
    ensures Sibling(path.name, purpose, number) !in EntriesAt(s.root, path.dir).value
    ensures SiblingOf(path, purpose, number) !in s.pending
  {
    DirectoriesKnown(s.root, path.dir, s.next);
  }

  lemma PutCounted(s: State, path: Path, entries: Entries, next: nat)
    requires Counted(s) && IsDir(s.root, path.dir) && s.next <= next && EntriesKnown(entries, next)
    ensures Counted(Put(s, path, entries).(next := next))
  {
    StaysKnown(s.root, s.next, next);
    WrittenKnown(s.root, path.dir, entries, next);
    forall p | p in s.pending
      ensures NameKnown(p.name, next)
    {
      NameStaysKnown(p.name, s.next, next);
    }
  }

  lemma LaterCounted(s: State, next: nat)
    requires Counted(s) && s.next <= next
    ensures Counted(s.(next := next))
  {
    StaysKnown(s.root, s.next, next);
    forall p | p in s.pending
      ensures NameKnown(p.name, next)
    {
      NameStaysKnown(p.name, s.next, next);
    }
  }

  lemma LaterEntries(s: State, dir: seq<Name>, next: nat)
    requires Counted(s) && IsDir(s.root, dir) && s.next <= next
    ensures EntriesKnown(EntriesAt(s.root, dir).value, next)
  {
    StaysKnown(s.root, s.next, next);
    DirectoriesKnown(s.root, dir, next);
  }

  lemma {:induction false} WithoutKnown(pending: seq<Path>, path: Path)
    ensures forall p :: p in Without(pending, path) <==> p in pending && p != path
  {
    if pending != [] {
      WithoutKnown(pending[1..], path);
      assert pending == [pending[0]] + pending[1..];
    }
  }

  lemma {:induction false} WithoutAbsent(pending: seq<Path>, path: Path)
    requires path !in pending
    ensures Without(pending, path) == pending
  {
    if pending != [] {
      WithoutAbsent(pending[1..], path);
    }
  }

  lemma {:induction false} WithoutLast(pending: seq<Path>, path: Path)
    ensures Without(pending + [path], path) == Without(pending, path)
  {
    if pending == [] {
      assert [path][1..] == [];
    } else {
      assert (pending + [path])[1..] == pending[1..] + [path];
      WithoutLast(pending[1..], path);
    }
  }

  lemma {:induction false} WithoutShrinks(pending: seq<Path>, path: Path)
    ensures |Without(pending, path)| <= |pending|
    ensures Without(pending, path) == pending <==> path !in pending
  {
    if pending != [] {
      WithoutShrinks(pending[1..], path);
      assert pending == [pending[0]] + pending[1..];
    }
  }

  // ---------------------------------------------------------------------------
  // Undoing

  /** The undo list front to back, each action to its end. */
  function UndoAll(s: State, undo: seq<Action>): Result<State, Failing>
    decreases |undo|
  {
    if undo == [] then Success(s)
    else
      var first := Perform(s, undo[0], true);
      if first.result.Failure? then Failure(first.result.error) else UndoAll(first.state, undo[1..])
  }

  lemma UndoOne(s: State, a: Action)
    ensures UndoAll(s, [a]) ==
      if Perform(s, a, true).result.Failure? then Failure(Perform(s, a, true).result.error)
      else Success(Perform(s, a, true).state)
  {}

  lemma UndoTwo(s: State, a: Action, b: Action)
    requires Perform(s, a, true).result.Success?
    ensures UndoAll(s, [a, b]) == UndoAll(Perform(s, a, true).state, [b])
  {
    assert [a, b][1..] == [b];
  }

  /** Undone as far as anybody can tell, the counters aside. */
  predicate Undone(undone: Result<State, Failing>, s: State) { undone.Success? && SameDisk(undone.value, s) }

  lemma PutTwice(s: State, t: State, path: Path, first: Entries, second: Entries)
    requires IsDir(s.root, path.dir) && t.root == WithEntries(s.root, path.dir, first)
    ensures EntriesAt(t.root, path.dir) == Success(first)
    ensures WithEntries(t.root, path.dir, second) == WithEntries(s.root, path.dir, second)
    ensures second == EntriesAt(s.root, path.dir).value ==> WithEntries(t.root, path.dir, second) == s.root
  {
    ReadsWhatWasWritten(s.root, path.dir, first);
    LastWriteCounts(s.root, path.dir, first, second);
    WritingBackChangesNothing(s.root, path.dir);
  }

  /** What was installed is removed again, and the directory is as it was. */
  lemma InstallUndone(s: State, t: State, path: Path, node: Node, whole: bool)
    requires Counted(s) && IsDir(s.root, path.dir) && path.name !in EntriesAt(s.root, path.dir).value
    requires Counted(t) && t.pending == s.pending && t.running == s.running
    requires t.root == WithEntries(s.root, path.dir, EntriesAt(s.root, path.dir).value[path.name := node])
    requires whole || !node.Dir? || node.entries == map[]
    ensures Removed(t, path, node.id, whole).result.Success? && SameDisk(Removed(t, path, node.id, whole).state, s)
  {
    var entries := EntriesAt(s.root, path.dir).value;
    var after := entries[path.name := node];
    PutTwice(s, t, path, after, entries);
    FreshIsFree(t, path, Remove, t.next + 1);
    assert after - {path.name} == entries;
  }

  lemma ReplaceUndone(s: State, t: State, path: Path, node: Node, backup: Path, replaced: Node)
    requires Counted(s) && IsDir(s.root, path.dir) && backup.dir == path.dir && backup.name != path.name
    requires backup.name !in EntriesAt(s.root, path.dir).value && backup !in s.pending
    requires path.name in EntriesAt(s.root, path.dir).value && EntriesAt(s.root, path.dir).value[path.name] == replaced
    requires t.running == s.running && (t.pending == s.pending || t.pending == s.pending + [backup])
    requires t.root == WithEntries(s.root, path.dir,
                                   EntriesAt(s.root, path.dir).value[path.name := node][backup.name := replaced])
    ensures var r := DoRestore(t, Restore(path, backup, Present(node.id)));
      r.result.Success? && SameDisk(r.state, s)
  {
    var entries := EntriesAt(s.root, path.dir).value;
    var after := entries[path.name := node][backup.name := replaced];
    PutTwice(s, t, path, after, entries);
    assert after[path.name := replaced] - {backup.name} == entries;
    WithoutAbsent(s.pending, backup);
    WithoutLast(s.pending, backup);
  }

  lemma AsideUndone(s: State, t: State, path: Path, aside: Path, node: Node)
    requires Counted(s) && IsDir(s.root, path.dir) && aside.dir == path.dir && aside.name != path.name
    requires aside.name !in EntriesAt(s.root, path.dir).value && aside !in s.pending
    requires path.name in EntriesAt(s.root, path.dir).value && EntriesAt(s.root, path.dir).value[path.name] == node
    requires t.running == s.running && (t.pending == s.pending || t.pending == s.pending + [aside])
    requires t.root == WithEntries(s.root, path.dir, EntriesAt(s.root, path.dir).value[aside.name := node] - {path.name})
    ensures var r := DoRestore(t, Restore(path, aside, Absent)); r.result.Success? && SameDisk(r.state, s)
  {
    var entries := EntriesAt(s.root, path.dir).value;
    var after := entries[aside.name := node] - {path.name};
    PutTwice(s, t, path, after, entries);
    assert after[path.name := node] - {aside.name} == entries;
    WithoutAbsent(s.pending, aside);
    WithoutLast(s.pending, aside);
  }

  lemma EditUndone(s: State, t: State, path: Path, node: Node, edited: Node)
    requires IsDir(s.root, path.dir) && t.root == WithEntries(s.root, path.dir, EntriesAt(s.root, path.dir).value[path.name := edited])
    requires path.name in EntriesAt(s.root, path.dir).value && EntriesAt(s.root, path.dir).value[path.name] == node
    ensures EntriesAt(t.root, path.dir).Success? && path.name in EntriesAt(t.root, path.dir).value
    ensures EntriesAt(t.root, path.dir).value[path.name] == edited
    ensures WithEntries(t.root, path.dir, EntriesAt(t.root, path.dir).value[path.name := node]) == s.root
  {
    var entries := EntriesAt(s.root, path.dir).value;
    PutTwice(s, t, path, entries[path.name := edited], entries);
    assert entries[path.name := edited][path.name := node] == entries;
  }
}
