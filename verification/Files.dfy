/**
 The actions of `FileActions` done call by call, as the object of crates/fs/src/lib.rs does them:
 stage under a sibling's name, announce the undo, then rename. Each method is proved to do to the
 tree and the pending list what `Perform` says, and to pass through the same visible states.
 */
module Files {
  import opened Wrappers
  import opened FileTree
  import opened FileActions

  lemma Rewritten(base: Node, dir: seq<Name>, first: Entries, second: Entries)
    requires IsDir(base, dir)
    ensures EntriesAt(WithEntries(base, dir, first), dir) == Success(first)
    ensures WithEntries(WithEntries(base, dir, first), dir, second) == WithEntries(base, dir, second)
    ensures WithEntries(base, dir, EntriesAt(base, dir).value) == base
  {
    ReadsWhatWasWritten(base, dir, first);
    LastWriteCounts(base, dir, first, second);
    WritingBackChangesNothing(base, dir);
  }

  class Files {
    var root: Node
    var pending: seq<Path>
    var next: nat
    var born: nat
    const running: Owner

    ghost function Now(): State
      reads this
    {
      State(root, pending, next, born, running)
    }

    /** The action was done to `before`, seen at the states `visible`, and answered with `r`. */
    ghost predicate Did(before: State, a: Action, agrees: bool, r: Result<seq<Action>, Failing>, visible: seq<State>)
      reads this
    {
      var done := Perform(before, a, agrees);
      Now() == done.state && visible == done.visible &&
      r == if done.result.Success? then Success(done.undo) else Failure(done.result.error)
    }

    constructor (root: Node, running: Owner)
      ensures Now() == State(root, [], 0, 0, running)
    {
      this.root, this.running := root, running;
      pending, next, born := [], 0, 0;
    }

    // -------------------------------------------------------------------------
    // System calls

    method Place(path: Path) returns (r: Result<Entries, Failing>)
      ensures r == Located(Now(), path)
    {
      match EntriesAt(root, path.dir) {
        case Success(entries) => r := Success(entries);
        case Failure(errno) => r := Failure(if errno == Loop then Conflict else Io(errno));
      }
    }

    method NextSibling(path: Path, purpose: Purpose) returns (name: Name)
      modifies this`next
      ensures next == old(next) + 1 && name == Sibling(path.name, purpose, next)
    {
      next := next + 1;
      name := Sibling(path.name, purpose, next);
    }

    method CreateAt(path: Path, name: Name, node: Node)
      requires IsDir(root, path.dir) && name !in EntriesAt(root, path.dir).value
      modifies this`root
      ensures root == WithEntries(old(root), path.dir, EntriesAt(old(root), path.dir).value[name := node])
    {
      root := WithEntries(root, path.dir, EntriesAt(root, path.dir).value[name := node]);
    }

    method ChangeAt(path: Path, node: Node)
      requires IsDir(root, path.dir) && path.name in EntriesAt(root, path.dir).value
      modifies this`root
      ensures root == WithEntries(old(root), path.dir, EntriesAt(old(root), path.dir).value[path.name := node])
    {
      root := WithEntries(root, path.dir, EntriesAt(root, path.dir).value[path.name := node]);
    }

    method RenameAt(path: Path, from: Name, to: Name) returns (r: Result<(), Errno>)
      requires IsDir(root, path.dir)
      modifies this`root
      ensures var moved := Moved(EntriesAt(old(root), path.dir).value, from, to);
        if moved.Success? then r == Success(()) && root == WithEntries(old(root), path.dir, moved.value)
        else r == Failure(moved.error) && root == old(root)
    {
      var moved :- Moved(EntriesAt(root, path.dir).value, from, to);
      root := WithEntries(root, path.dir, moved);
      return Success(());
    }

    method ExchangeAt(path: Path, a: Name, b: Name) returns (r: Result<(), Errno>)
      requires IsDir(root, path.dir)
      modifies this`root
      ensures var exchanged := Exchanged(EntriesAt(old(root), path.dir).value, a, b);
        if exchanged.Success? then r == Success(()) && root == WithEntries(old(root), path.dir, exchanged.value)
        else r == Failure(exchanged.error) && root == old(root)
    {
      var exchanged :- Exchanged(EntriesAt(root, path.dir).value, a, b);
      root := WithEntries(root, path.dir, exchanged);
      return Success(());
    }

    method RemoveAt(path: Path, name: Name)
      requires IsDir(root, path.dir)
      modifies this`root
      ensures root == WithEntries(old(root), path.dir, EntriesAt(old(root), path.dir).value - {name})
    {
      root := WithEntries(root, path.dir, EntriesAt(root, path.dir).value - {name});
    }

    // -------------------------------------------------------------------------
    // Making something new

    /** From the staged node on: the undo is announced, and a rename makes it visible if the name is free. */
    method Install(path: Path, node: Node, made: nat, undo: Action, taken: Failing, agrees: bool)
      returns (r: Result<seq<Action>, Failing>, ghost visible: seq<State>)
      requires Counted(Now()) && IsDir(root, path.dir)
      modifies this
      ensures var done := Installed(old(Now()), path, EntriesAt(old(root), path.dir).value, node, made, undo, taken, agrees);
        Now() == done.state && visible == done.visible &&
        r == if done.result.Success? then Success(done.undo) else Failure(done.result.error)
    {
      ghost var base, entries := root, EntriesAt(root, path.dir).value;
      FreshIsFree(Now(), path, New, next + 1);
      visible := [];
      var staged := NextSibling(path, New);
      CreateAt(path, staged, node);
      born := born + made;
      ghost var both := entries[staged := node];
      Rewritten(base, path.dir, both, entries);
      assert both - {staged} == entries;
      if !agrees {
        RemoveAt(path, staged);
        return Failure(NotPrepared), visible;
      }
      var renamed := RenameAt(path, staged, path.name);
      if renamed.Failure? {
        RemoveAt(path, staged);
        return Failure(taken), visible;
      }
      assert both[path.name := node] - {staged} == entries[path.name := node];
      Rewritten(base, path.dir, both, entries[path.name := node]);
      visible := [Now()];
      return Success([undo]), visible;
    }

    method DoCreateDirs(top: Path, below: seq<Name>, mode: nat, owner: Option<Owner>, agrees: bool)
      returns (r: Result<seq<Action>, Failing>, ghost visible: seq<State>)
      requires Counted(Now())
      modifies this
      ensures Did(old(Now()), CreateDirs(top, below, mode, owner), agrees, r, visible)
    {
      visible := [];
      var place := Place(top);
      if place.Failure? {
        return Failure(place.error), visible;
      }
      var chain := BuildChain(below, mode, OwnerOr(owner, running), born + 1);
      r, visible := Install(top, chain, |below| + 1, RemoveCreatedTree(top, Made(born + 1)), Conflict, agrees);
    }

    /** `build_chain`, from the innermost directory outwards. */
    method BuildChain(below: seq<Name>, mode: nat, owner: Owner, number: nat) returns (node: Node)
      ensures node == Chain(below, mode, owner, number)
    {
      var i := |below|;
      node := Dir(Made(number + i), mode, owner, map[]);
      assert below[i..] == [];
      while i > 0
        invariant 0 <= i <= |below|
        invariant node == Chain(below[i..], mode, owner, number + i)
      {
        i := i - 1;
        assert below[i..][0] == below[i] && below[i..][1..] == below[i + 1..];
        node := Dir(Made(number + i), 0x1ED, owner, map[below[i] := node]);
      }
      assert below[0..] == below;
    }

    method DoCreateDir(path: Path, mode: nat, owner: Option<Owner>, agrees: bool)
      returns (r: Result<seq<Action>, Failing>, ghost visible: seq<State>)
      requires Counted(Now())
      modifies this
      ensures Did(old(Now()), CreateDir(path, mode, owner), agrees, r, visible)
    {
      visible := [];
      var place := Place(path);
      if place.Failure? {
        return Failure(place.error), visible;
      }
      var dir := Dir(Made(born + 1), mode, OwnerOr(owner, running), map[]);
      r, visible := Install(path, dir, 1, RemoveCreated(path, dir.id), Conflict, agrees);
    }

    method DoCopyTree(from: Path, to: Path, mode: nat, agrees: bool)
      returns (r: Result<seq<Action>, Failing>, ghost visible: seq<State>)
      requires Counted(Now())
      modifies this
      ensures Did(old(Now()), CopyTree(from, to, mode), agrees, r, visible)
    {
      visible := [];
      if to != from && Full(from) <= Full(to) {
        return Failure(Conflict), visible;
      }
      var source := Place(from);
      if source.Failure? {
        return Failure(source.error), visible;
      }
      var place := Place(to);
      if place.Failure? {
        return Failure(place.error), visible;
      }
      if from.name !in source.value {
        next := next + 1;
        return Failure(Io(NoEnt)), visible;
      }
      var copy := CopiedTop(source.value[from.name], born + 1, running, mode);
      r, visible := Install(to, copy, 1, RemoveCreatedTree(to, copy.id), Io(Exist), agrees);
    }

    // -------------------------------------------------------------------------
    // Replacing and setting aside

    method DoPutFile(path: Path, contents: string, mode: nat, owner: Option<Owner>, held: Held, agrees: bool)
      returns (r: Result<seq<Action>, Failing>, ghost visible: seq<State>)
      requires Counted(Now())
      modifies this
      ensures Did(old(Now()), PutFile(path, contents, mode, owner, held), agrees, r, visible)
    {
      visible := [];
      var place := Place(path);
      if place.Failure? {
        return Failure(place.error), visible;
      }
      var file := File(Made(born + 1), mode, OwnerOr(owner, running), contents);
      if held.Absent? {
        r, visible := Install(path, file, 1, RemoveCreated(path, file.id), Conflict, agrees);
        return;
      }
      if !(path.name in place.value && place.value[path.name].id == held.id) {
        return Failure(Conflict), visible;
      }
      r, visible := Replace(path, file, agrees);
    }

    /** The new file and the old one change places, and the old one is to be removed. */
    method Replace(path: Path, file: Node, agrees: bool)
      returns (r: Result<seq<Action>, Failing>, ghost visible: seq<State>)
      requires Counted(Now()) && IsDir(root, path.dir) && path.name in EntriesAt(root, path.dir).value
      modifies this
      ensures var entries := EntriesAt(old(root), path.dir).value;
        var done := Replaced(old(Now()), path, entries, file, entries[path.name], agrees);
        Now() == done.state && visible == done.visible &&
        r == if done.result.Success? then Success(done.undo) else Failure(done.result.error)
    {
      ghost var base, entries := root, EntriesAt(root, path.dir).value;
      FreshIsFree(Now(), path, Backup, next + 1);
      visible := [];
      var backup := NextSibling(path, Backup);
      CreateAt(path, backup, file);
      born := born + 1;
      ghost var both := entries[backup := file];
      Rewritten(base, path.dir, both, entries);
      assert both - {backup} == entries;
      if !agrees {
        RemoveAt(path, backup);
        return Failure(NotPrepared), visible;
      }
      var exchanged := ExchangeAt(path, backup, path.name);
      ghost var swapped := entries[path.name := file][backup := entries[path.name]];
      assert backup != path.name;
      assert both[backup := both[path.name]][path.name := both[backup]] == swapped;
      Rewritten(base, path.dir, both, swapped);
      visible := [Now()];
      pending := pending + [Path(path.dir, backup)];
      visible := visible + [Now()];
      return Success([Restore(path, Path(path.dir, backup), Present(file.id))]), visible;
    }

    method Hold(path: Path, id: FileId) returns (r: Result<Node, Failing>)
      ensures r == Holding(Now(), path, id)
    {
      var place := Place(path);
      if place.Failure? {
        return Failure(if place.error == Io(NoEnt) then Conflict else place.error);
      }
      if path.name in place.value && place.value[path.name].id == id {
        return Success(place.value[path.name]);
      }
      return Failure(Conflict);
    }

    method DoSetAside(path: Path, id: FileId, agrees: bool)
      returns (r: Result<seq<Action>, Failing>, ghost visible: seq<State>)
      requires Counted(Now())
      modifies this
      ensures Did(old(Now()), SetAside(path, id), agrees, r, visible)
    {
      visible := [];
      var holding := Hold(path, id);
      if holding.Failure? {
        return Failure(holding.error), visible;
      }
      FreshIsFree(Now(), path, Aside, next + 1);
      var aside := NextSibling(path, Aside);
      if !agrees {
        return Failure(NotPrepared), visible;
      }
      var renamed := RenameAt(path, path.name, aside);
      assert renamed.Success?;
      visible := [Now()];
      pending := pending + [Path(path.dir, aside)];
      visible := visible + [Now()];
      return Success([Restore(path, Path(path.dir, aside), Absent)]), visible;
    }

    // -------------------------------------------------------------------------
    // Modes, owners and the pending list

    method DoSetMode(path: Path, mode: nat, heldMode: nat, agrees: bool)
      returns (r: Result<seq<Action>, Failing>, ghost visible: seq<State>)
      modifies this
      ensures Did(old(Now()), SetMode(path, mode, heldMode), agrees, r, visible)
    {
      visible := [];
      var node := Open(path);
      if node.Failure? {
        return Failure(node.error), visible;
      }
      if node.value.mode != heldMode {
        return Failure(Conflict), visible;
      }
      if !agrees {
        return Failure(NotPrepared), visible;
      }
      ChangeAt(path, WithMode(node.value, mode));
      visible := [Now()];
      return Success([SetMode(path, heldMode, mode)]), visible;
    }

    method DoSetOwner(path: Path, owner: Owner, heldOwner: Owner, agrees: bool)
      returns (r: Result<seq<Action>, Failing>, ghost visible: seq<State>)
      modifies this
      ensures Did(old(Now()), SetOwner(path, owner, heldOwner), agrees, r, visible)
    {
      visible := [];
      var node := Open(path);
      if node.Failure? {
        return Failure(node.error), visible;
      }
      if node.value.owner != heldOwner {
        return Failure(Conflict), visible;
      }
      if !agrees {
        return Failure(NotPrepared), visible;
      }
      ChangeAt(path, WithOwner(node.value, owner));
      visible := [Now()];
      return Success([SetOwner(path, heldOwner, owner)]), visible;
    }

    method Open(path: Path) returns (r: Result<Node, Failing>)
      ensures r == match Located(Now(), path)
                   case Failure(failing) => Failure(failing)
                   case Success(entries) => Opened(entries, path.name)
    {
      var entries :- Place(path);
      if path.name !in entries {
        return Failure(Io(NoEnt));
      }
      if entries[path.name].Link? {
        return Failure(Conflict);
      }
      return Success(entries[path.name]);
    }

    method DoDiscard(path: Path, agrees: bool) returns (r: Result<seq<Action>, Failing>, ghost visible: seq<State>)
      modifies this
      ensures Did(old(Now()), Discard(path), agrees, r, visible)
    {
      visible := [];
      if !agrees {
        return Failure(NotPrepared), visible;
      }
      pending := pending + [path];
      visible := [Now()];
      return Success([Keep(path)]), visible;
    }

    method Drop(path: Path)
      modifies this`pending
      ensures pending == Without(old(pending), path)
    {
      var kept: seq<Path> := [];
      for i := 0 to |pending|
        invariant pending == old(pending) && kept + Without(pending[i..], path) == Without(pending, path)
      {
        assert pending[i..][1..] == pending[i + 1..];
        if pending[i] != path {
          assert kept + ([pending[i]] + Without(pending[i + 1..], path)) == kept + [pending[i]] + Without(pending[i + 1..], path);
          kept := kept + [pending[i]];
        } else {
          assert [] + Without(pending[i + 1..], path) == Without(pending[i + 1..], path);
        }
      }
      assert pending[|pending|..] == [] && kept + [] == kept;
      pending := kept;
    }

    method DoKeep(path: Path) returns (r: Result<seq<Action>, Failing>, ghost visible: seq<State>)
      modifies this
      ensures Did(old(Now()), Keep(path), true, r, visible)
    {
      Drop(path);
      return Success([]), [Now()];
    }

    // -------------------------------------------------------------------------
    // Undoing

    method DoRemoveCreated(path: Path, id: FileId) returns (r: Result<seq<Action>, Failing>, ghost visible: seq<State>)
      requires Counted(Now())
      modifies this
      ensures Did(old(Now()), RemoveCreated(path, id), true, r, visible)
    {
      r, visible := Remove(path, id, false);
    }

    method DoRemoveCreatedTree(path: Path, id: FileId)
      returns (r: Result<seq<Action>, Failing>, ghost visible: seq<State>)
      requires Counted(Now())
      modifies this
      ensures Did(old(Now()), RemoveCreatedTree(path, id), true, r, visible)
    {
      r, visible := Remove(path, id, true);
    }

    /** The doomed node is renamed first, so that what is removed is what was checked. */
    method Remove(path: Path, id: FileId, whole: bool)
      returns (r: Result<seq<Action>, Failing>, ghost visible: seq<State>)
      requires Counted(Now())
      modifies this
      ensures var done := Removed(old(Now()), path, id, whole);
        Now() == done.state && visible == done.visible &&
        r == if done.result.Success? then Success([]) else Failure(done.result.error)
    {
      visible := [];
      var place := Place(path);
      if place.Failure? {
        if place.error == Io(NoEnt) {
          return Success([]), [Now()];
        }
        return Failure(place.error), visible;
      }
      if path.name !in place.value {
        return Success([]), [Now()];
      }
      var node := place.value[path.name];
      if node.id != id {
        return Failure(Conflict), visible;
      }
      ghost var base, entries := root, place.value;
      FreshIsFree(Now(), path, FileTree.Remove, next + 1);
      var doomed := NextSibling(path, FileTree.Remove);
      var renamed := RenameAt(path, path.name, doomed);
      assert renamed.Success?;
      ghost var moved := entries[doomed := node] - {path.name};
      if !whole && node.Dir? && node.entries != map[] {
        Rewritten(base, path.dir, moved, entries);
        var back := RenameAt(path, doomed, path.name);
        assert moved[path.name := node] - {doomed} == entries;
        return Failure(Conflict), visible;
      }
      Rewritten(base, path.dir, moved, entries - {path.name});
      RemoveAt(path, doomed);
      assert moved - {doomed} == entries - {path.name};
      return Success([]), [Now()];
    }

    method DoRestore(path: Path, from: Path, held: Held) returns (r: Result<seq<Action>, Failing>, ghost visible: seq<State>)
      modifies this
      ensures Did(old(Now()), Restore(path, from, held), true, r, visible)
    {
      visible := [];
      var place := Place(path);
      if place.Failure? {
        return Failure(place.error), visible;
      }
      ghost var base, entries := root, place.value;
      if held.Absent? {
        var renamed := RenameAt(path, from.name, path.name);
        if renamed.Failure? {
          return Failure(if renamed.error == Exist then Conflict else Io(renamed.error)), visible;
        }
      } else {
        if !(path.name in place.value && place.value[path.name].id == held.id) {
          return Failure(Conflict), visible;
        }
        var exchanged := ExchangeAt(path, from.name, path.name);
        if exchanged.Failure? {
          return Failure(Io(NoEnt)), visible;
        }
        ghost var swapped := Exchanged(entries, from.name, path.name).value;
        Rewritten(base, path.dir, swapped, swapped - {from.name});
        RemoveAt(path, from.name);
        assert swapped - {from.name} == entries[path.name := entries[from.name]] - {from.name};
      }
      Drop(from);
      return Success([]), [Now()];
    }

    // -------------------------------------------------------------------------
    // Reclaiming

    method DoReclaimTree(path: Path, id: FileId, mode: nat, agrees: bool)
      returns (r: Result<seq<Action>, Failing>, ghost visible: seq<State>)
      requires Counted(Now())
      modifies this
      ensures Did(old(Now()), ReclaimTree(path, id, mode), agrees, r, visible)
    {
      visible := [];
      var holding := Hold(path, id);
      if holding.Failure? {
        return Failure(holding.error), visible;
      }
      var node := holding.value;
      ghost var base, entries := root, EntriesAt(root, path.dir).value;
      FreshIsFree(Now(), path, Reclaimed, next + 1);
      FreshIsFree(Now(), path, Aside, next + 2);
      var staged := NextSibling(path, Reclaimed);
      var copy := CopiedTop(node, born + 1, running, mode);
      CreateAt(path, staged, copy);
      born := born + 1;
      ghost var both := entries[staged := copy];
      Rewritten(base, path.dir, both, entries);
      var aside := NextSibling(path, Aside);
      if !agrees {
        RemoveAt(path, staged);
        assert both - {staged} == entries;
        return Failure(NotPrepared), visible;
      }
      visible := Exchange(path, node, staged, copy, aside, base);
      return Success([RemoveCreatedTree(path, copy.id), Restore(path, Path(path.dir, aside), Absent)]), visible;
    }

    /** The two renames: the tree aside, the copy in its place. */
    method Exchange(path: Path, node: Node, staged: Name, copy: Node, aside: Name, ghost base: Node)
      returns (ghost visible: seq<State>)
      requires IsDir(base, path.dir)
      requires var entries := EntriesAt(base, path.dir).value;
        root == WithEntries(base, path.dir, entries[staged := copy]) && path.name in entries && entries[path.name] == node &&
        staged !in entries && aside !in entries && staged != aside
      modifies this`root
      ensures var entries := EntriesAt(base, path.dir).value;
        root == WithEntries(base, path.dir, entries[aside := node][path.name := copy]) &&
        visible == [old(Now()).(root := WithEntries(base, path.dir, entries[staged := copy][aside := node] - {path.name})), Now()]
    {
      ghost var entries := EntriesAt(base, path.dir).value;
      ghost var both := entries[staged := copy];
      ghost var middle, after := both[aside := node] - {path.name}, entries[aside := node][path.name := copy];
      Rewritten(base, path.dir, both, middle);
      var setAside := RenameAt(path, path.name, aside);
      assert setAside.Success?;
      visible := [Now()];
      Rewritten(base, path.dir, middle, after);
      assert middle[path.name := copy] - {staged} == after;
      var renamed := RenameAt(path, staged, path.name);
      assert renamed.Success?;
      visible := visible + [Now()];
    }
  }
}
