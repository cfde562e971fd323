/**
 What the undo of the file actions is for: from any state after the first visible change of an
 action, its undo list brings back the tree, the pending list and the very nodes that were there;
 and so the undo lists of a whole run, last first, bring back its start. What becomes of a run that
 stopped between the two renames of a reclaim is said in `LeftCopy`.
 */
module FileUndo {
  import opened Wrappers
  import opened FileTree
  import opened FileActions

  /** The actions of a run; the others only occur in undo lists. */
  predicate IsForward(a: Action) {
    !a.Keep? && !a.RemoveCreated? && !a.RemoveCreatedTree? && !a.Restore?
  }

  predicate CanUndo(s: State, a: Action) { a.Discard? ==> a.path !in s.pending }

  lemma SiblingDiffers(name: Name, purpose: Purpose, number: nat)
    ensures Sibling(name, purpose, number) != name
  {
    var sibling := Sibling(name, purpose, number);
    assert (sibling decreases to sibling.base);
  }

  // ---------------------------------------------------------------------------
  // Fresh names stay fresh

  lemma RemovedCounted(s: State, path: Path, id: FileId, whole: bool)
    requires Counted(s)
    ensures Counted(Removed(s, path, id, whole).state) && Removed(s, path, id, whole).state.next >= s.next
  {
    LaterCounted(s, s.next + 1);
    if Located(s, path).Success? {
      LaterEntries(s, path.dir, s.next + 1);
      PutCounted(s, path, EntriesAt(s.root, path.dir).value - {path.name}, s.next + 1);
    }
  }

  lemma InstalledCounted(s: State, path: Path, node: Node, made: nat, undo: Action, taken: Failing, agrees: bool)
    requires Counted(s) && IsDir(s.root, path.dir) && NameKnown(path.name, s.next) && Known(node, s.next)
    ensures var r := Installed(s, path, EntriesAt(s.root, path.dir).value, node, made, undo, taken, agrees).state;
      Counted(r) && r.next >= s.next
  {
    var entries := EntriesAt(s.root, path.dir).value;
    LaterCounted(s, s.next + 1);
    LaterEntries(s, path.dir, s.next + 1);
    NameStaysKnown(path.name, s.next, s.next + 1);
    StaysKnown(node, s.next, s.next + 1);
    PutCounted(s, path, entries[path.name := node], s.next + 1);
  }

  lemma ListedCounted(s: State, path: Path)
    requires Counted(s) && NameKnown(path.name, s.next)
    ensures Counted(s.(pending := s.pending + [path]))
  {}

  lemma ReplacedCounted(s: State, path: Path, node: Node, replaced: Node, agrees: bool)
    requires Counted(s) && IsDir(s.root, path.dir) && NameKnown(path.name, s.next) && node.File?
    requires path.name in EntriesAt(s.root, path.dir).value && EntriesAt(s.root, path.dir).value[path.name] == replaced
    ensures var r := Replaced(s, path, EntriesAt(s.root, path.dir).value, node, replaced, agrees).state;
      Counted(r) && r.next >= s.next
  {
    var entries, backup := EntriesAt(s.root, path.dir).value, SiblingOf(path, Backup, s.next + 1);
    LaterCounted(s, s.next + 1);
    LaterEntries(s, path.dir, s.next + 1);
    NameStaysKnown(path.name, s.next, s.next + 1);
    PutCounted(s, path, entries[path.name := node][backup.name := replaced], s.next + 1);
  }

  lemma EditedCounted(s: State, path: Path, edited: Node)
    requires Counted(s) && IsDir(s.root, path.dir) && path.name in EntriesAt(s.root, path.dir).value
    requires edited == EntriesAt(s.root, path.dir).value[path.name]
          || (edited.Dir? && EntriesAt(s.root, path.dir).value[path.name].Dir? &&
              edited.entries == EntriesAt(s.root, path.dir).value[path.name].entries)
          || edited.File? || edited.Link?
    ensures Counted(Put(s, path, EntriesAt(s.root, path.dir).value[path.name := edited]))
  {
    DirectoriesKnown(s.root, path.dir, s.next);
    PutCounted(s, path, EntriesAt(s.root, path.dir).value[path.name := edited], s.next);
  }

  lemma AsideCounted(s: State, path: Path, next: nat)
    requires Counted(s) && IsDir(s.root, path.dir) && NameKnown(path.name, s.next) && next == s.next + 1
    requires path.name in EntriesAt(s.root, path.dir).value
    ensures var entries, aside := EntriesAt(s.root, path.dir).value, SiblingOf(path, Aside, next);
      var r := Put(s.(next := next), path, entries[aside.name := entries[path.name]] - {path.name});
      Counted(r) && NameKnown(aside.name, next)
  {
    var entries, aside := EntriesAt(s.root, path.dir).value, SiblingOf(path, Aside, next);
    LaterEntries(s, path.dir, next);
    NameStaysKnown(path.name, s.next, next);
    PutCounted(s, path, entries[aside.name := entries[path.name]] - {path.name}, next);
  }

  lemma RestoredCounted(s: State, a: Action)
    requires Counted(s) && a.Restore? && NameKnown(a.path.name, s.next)
    ensures Counted(DoRestore(s, a).state) && DoRestore(s, a).state.next == s.next
  {
    if DoRestore(s, a).result.Success? {
      var entries := EntriesAt(s.root, a.path.dir).value;
      DirectoriesKnown(s.root, a.path.dir, s.next);
      PutCounted(s, a.path, entries[a.path.name := entries[a.from.name]] - {a.from.name}, s.next);
      WithoutKnown(s.pending, a.from);
    }
  }

  lemma CopyTopKnown(node: Node, number: nat, owner: Owner, mode: nat, next: nat)
    requires Known(node, next)
    ensures Known(CopiedTop(node, number, owner, mode), next)
  {
    CopyKnown(node, number, owner, next);
  }

  lemma ReclaimedCounted(s: State, path: Path, node: Node, copy: Node)
    requires Counted(s) && IsDir(s.root, path.dir) && NameKnown(path.name, s.next)
    requires Known(node, s.next + 2) && Known(copy, s.next + 2)
    ensures var entries := EntriesAt(s.root, path.dir).value;
      var staged, aside := SiblingOf(path, Reclaimed, s.next + 1), SiblingOf(path, Aside, s.next + 2);
      Counted(Put(s, path, entries[staged.name := copy][aside.name := node] - {path.name}).(next := s.next + 2)) &&
      Counted(Put(s, path, entries[aside.name := node][path.name := copy]).(next := s.next + 2))
  {
    var entries := EntriesAt(s.root, path.dir).value;
    var staged, aside := SiblingOf(path, Reclaimed, s.next + 1), SiblingOf(path, Aside, s.next + 2);
    LaterEntries(s, path.dir, s.next + 2);
    NameStaysKnown(path.name, s.next, s.next + 2);
    PutCounted(s, path, entries[staged.name := copy][aside.name := node] - {path.name}, s.next + 2);
    PutCounted(s, path, entries[aside.name := node][path.name := copy], s.next + 2);
  }

  lemma ReclaimCounted(s: State, a: Action, agrees: bool)
    requires Counted(s) && a.ReclaimTree? && NameKnown(a.path.name, s.next)
    ensures Counted(DoReclaim(s, a, agrees).state) && DoReclaim(s, a, agrees).state.next >= s.next
  {
    LaterCounted(s, s.next + 1);
    LaterCounted(s, s.next + 2);
    if DoReclaim(s, a, agrees).result.Success? {
      ReclaimStatesCounted(s, a);
    }
  }

  lemma ReclaimStatesCounted(s: State, a: Action)
    requires Counted(s) && a.ReclaimTree? && NameKnown(a.path.name, s.next) && DoReclaim(s, a, true).result.Success?
    ensures Counted(DoReclaim(s, a, true).visible[0]) && Counted(DoReclaim(s, a, true).state)
  {
    var node := Holding(s, a.path, a.id).value;
    LaterEntries(s, a.path.dir, s.next + 2);
    CopyTopKnown(node, s.born + 1, s.running, a.mode, s.next + 2);
    ReclaimedCounted(s, a.path, node, CopiedTop(node, s.born + 1, s.running, a.mode));
  }

  lemma CopyCounted(s: State, a: Action, agrees: bool)
    requires Counted(s) && a.CopyTree? && NameKnown(a.to.name, s.next)
    ensures Counted(DoCopyTree(s, a, agrees).state) && DoCopyTree(s, a, agrees).state.next >= s.next
  {
    LaterCounted(s, s.next + 1);
    if Located(s, a.from).Success? && a.from.name in Located(s, a.from).value && Located(s, a.to).Success? {
      DirectoriesKnown(s.root, a.from.dir, s.next);
      var copy := CopiedTop(Located(s, a.from).value[a.from.name], s.born + 1, s.running, a.mode);
      CopyTopKnown(Located(s, a.from).value[a.from.name], s.born + 1, s.running, a.mode, s.next);
      InstalledCounted(s, a.to, copy, 1, RemoveCreatedTree(a.to, copy.id), Io(Exist), agrees);
    }
  }

  lemma CreatedCounted(s: State, a: Action, agrees: bool)
    requires Counted(s) && GoodNames(a, s.next) && (a.CreateDirs? || a.CreateDir? || a.PutFile?)
    ensures Counted(Perform(s, a, agrees).state) && Perform(s, a, agrees).state.next >= s.next
  {
    if a.CreateDirs? && Located(s, a.top).Success? {
      ChainKnown(a.below, a.mode, OwnerOr(a.owner, s.running), s.born + 1, s.next);
      InstalledCounted(s, a.top, Chain(a.below, a.mode, OwnerOr(a.owner, s.running), s.born + 1), |a.below| + 1,
                       RemoveCreatedTree(a.top, Made(s.born + 1)), Conflict, agrees);
    } else if a.CreateDir? && Located(s, a.path).Success? {
      InstalledCounted(s, a.path, Dir(Made(s.born + 1), a.mode, OwnerOr(a.owner, s.running), map[]), 1,
                       RemoveCreated(a.path, Made(s.born + 1)), Conflict, agrees);
    } else if a.PutFile? && Located(s, a.path).Success? {
      var node := File(Made(s.born + 1), a.mode, OwnerOr(a.owner, s.running), a.contents);
      var entries := Located(s, a.path).value;
      if a.held.Absent? {
        InstalledCounted(s, a.path, node, 1, RemoveCreated(a.path, node.id), Conflict, agrees);
      } else if Pinned(entries, a.path.name, a.held.id).Success? {
        ReplacedCounted(s, a.path, node, entries[a.path.name], agrees);
      }
    }
  }

  lemma ChangedCounted(s: State, a: Action, agrees: bool)
    requires Counted(s) && GoodNames(a, s.next) && (a.SetMode? || a.SetOwner? || a.SetAside? || a.Discard? || a.Keep?)
    ensures Counted(Perform(s, a, agrees).state) && Perform(s, a, agrees).state.next >= s.next
  {
    LaterCounted(s, s.next + 1);
    if a.Discard? {
      ListedCounted(s, a.path);
    } else if a.Keep? {
      WithoutKnown(s.pending, a.path);
    } else if Located(s, a.path).Success? && a.path.name in Located(s, a.path).value {
      var node := Located(s, a.path).value[a.path.name];
      if a.SetMode? {
        EditedCounted(s, a.path, WithMode(node, a.mode));
      } else if a.SetOwner? {
        EditedCounted(s, a.path, WithOwner(node, a.newOwner));
      } else {
        AsideCounted(s, a.path, s.next + 1);
      }
    }
  }

  /** Whatever is done, the names mix makes up next are free. */
  lemma StaysCounted(s: State, a: Action, agrees: bool)
    requires Counted(s) && GoodNames(a, s.next)
    ensures Counted(Perform(s, a, agrees).state) && Perform(s, a, agrees).state.next >= s.next
  {
    if a.CreateDirs? || a.CreateDir? || a.PutFile? {
      CreatedCounted(s, a, agrees);
    } else if a.RemoveCreated? || a.RemoveCreatedTree? {
      RemovedCounted(s, a.path, a.id, a.RemoveCreatedTree?);
    } else if a.Restore? {
      RestoredCounted(s, a);
    } else if a.ReclaimTree? {
      ReclaimCounted(s, a, agrees);
    } else if a.CopyTree? {
      CopyCounted(s, a, agrees);
    } else {
      ChangedCounted(s, a, agrees);
    }
  }

  // ---------------------------------------------------------------------------
  // One action

  lemma InstallationUndone(s: State, t: State, path: Path, node: Node, made: nat, taken: Failing, whole: bool)
    requires Counted(s) && IsDir(s.root, path.dir) && Counted(t) && (whole || !node.Dir? || node.entries == map[])
    requires var r := Installed(s, path, EntriesAt(s.root, path.dir).value, node, made,
                                if whole then RemoveCreatedTree(path, node.id) else RemoveCreated(path, node.id), taken, true);
      r.result.Success? && SameDisk(t, r.state)
    ensures Undone(UndoAll(t, [if whole then RemoveCreatedTree(path, node.id) else RemoveCreated(path, node.id)]), s)
  {
    InstallUndone(s, t, path, node, whole);
    UndoOne(t, if whole then RemoveCreatedTree(path, node.id) else RemoveCreated(path, node.id));
  }

  lemma CreationUndone(s: State, a: Action, t: State)
    requires Counted(s) && (a.CreateDirs? || a.CreateDir? || a.CopyTree? || (a.PutFile? && a.held.Absent?))
    requires Perform(s, a, true).result.Success? && SameDisk(t, Perform(s, a, true).state) && Counted(t)
    ensures Undone(UndoAll(t, Perform(s, a, true).undo), s)
  {
    if a.CreateDirs? {
      var chain := Chain(a.below, a.mode, OwnerOr(a.owner, s.running), s.born + 1);
      InstallationUndone(s, t, a.top, chain, |a.below| + 1, Conflict, true);
    } else if a.CreateDir? {
      InstallationUndone(s, t, a.path, Dir(Made(s.born + 1), a.mode, OwnerOr(a.owner, s.running), map[]), 1, Conflict, false);
    } else if a.CopyTree? {
      var copy := CopiedTop(Located(s, a.from).value[a.from.name], s.born + 1, s.running, a.mode);
      InstallationUndone(s, t, a.to, copy, 1, Io(Exist), true);
    } else {
      InstallationUndone(s, t, a.path, File(Made(s.born + 1), a.mode, OwnerOr(a.owner, s.running), a.contents), 1, Conflict, false);
    }
  }

  lemma ReplacementUndone(s: State, a: Action, i: nat, t: State)
    requires Counted(s) && a.PutFile? && a.held.Present?
    requires Perform(s, a, true).result.Success? && i < 2 && SameDisk(t, Perform(s, a, true).visible[i])
    ensures Undone(UndoAll(t, Perform(s, a, true).undo), s)
  {
    var node := File(Made(s.born + 1), a.mode, OwnerOr(a.owner, s.running), a.contents);
    var backup := SiblingOf(a.path, Backup, s.next + 1);
    FreshIsFree(s, a.path, Backup, s.next + 1);
    SiblingDiffers(a.path.name, Backup, s.next + 1);
    ReplaceUndone(s, t, a.path, node, backup, EntriesAt(s.root, a.path.dir).value[a.path.name]);
    UndoOne(t, Restore(a.path, backup, Present(node.id)));
  }

  lemma SettingAsideUndone(s: State, a: Action, i: nat, t: State)
    requires Counted(s) && a.SetAside?
    requires Perform(s, a, true).result.Success? && i < 2 && SameDisk(t, Perform(s, a, true).visible[i])
    ensures Undone(UndoAll(t, Perform(s, a, true).undo), s)
  {
    var aside := SiblingOf(a.path, Aside, s.next + 1);
    FreshIsFree(s, a.path, Aside, s.next + 1);
    SiblingDiffers(a.path.name, Aside, s.next + 1);
    AsideUndone(s, t, a.path, aside, EntriesAt(s.root, a.path.dir).value[a.path.name]);
    UndoOne(t, Restore(a.path, aside, Absent));
  }

  lemma ModeUndone(s: State, a: Action, t: State)
    requires a.SetMode? && Perform(s, a, true).result.Success? && SameDisk(t, Perform(s, a, true).state)
    ensures Undone(UndoAll(t, Perform(s, a, true).undo), s)
  {
    var node := EntriesAt(s.root, a.path.dir).value[a.path.name];
    EditUndone(s, t, a.path, node, WithMode(node, a.mode));
    assert WithMode(WithMode(node, a.mode), a.heldMode) == node;
    UndoOne(t, SetMode(a.path, a.heldMode, a.mode));
  }

  lemma OwnerUndone(s: State, a: Action, t: State)
    requires a.SetOwner? && Perform(s, a, true).result.Success? && SameDisk(t, Perform(s, a, true).state)
    ensures Undone(UndoAll(t, Perform(s, a, true).undo), s)
  {
    var node := EntriesAt(s.root, a.path.dir).value[a.path.name];
    EditUndone(s, t, a.path, node, WithOwner(node, a.newOwner));
    assert WithOwner(WithOwner(node, a.newOwner), a.heldOwner) == node;
    UndoOne(t, SetOwner(a.path, a.heldOwner, a.newOwner));
  }

  /** Discarding is undone exactly when the path was not to be removed already. */
  lemma DiscardUndone(s: State, a: Action, t: State)
    requires a.Discard? && SameDisk(t, Perform(s, a, true).state)
    ensures Undone(UndoAll(t, Perform(s, a, true).undo), s) <==> CanUndo(s, a)
  {
    UndoOne(t, Keep(a.path));
    WithoutLast(s.pending, a.path);
    WithoutShrinks(s.pending, a.path);
  }

  /** A path discarded twice: the undo of the second takes the first back as well. */
  lemma DiscardingTwiceLosesTheFirst(s: State, path: Path)
    requires s.pending == [path]
    ensures UndoAll(Perform(s, Discard(path), true).state, Perform(s, Discard(path), true).undo)
         == Success(s.(pending := []))
  {
    UndoOne(Perform(s, Discard(path), true).state, Keep(path));
    WithoutLast([path], path);
    WithoutLast([], path);
    assert [] + [path] == [path];
  }

  /** Undone but for the copy, which nobody sees under its sibling's name. */
  ghost predicate UndoneButCopy(undone: Result<State, Failing>, s: State, copy: Path, node: Node) {
    undone.Success? && undone.value.pending == s.pending && undone.value.running == s.running &&
    IsDir(s.root, copy.dir) && copy.name.Sibling? && copy.name !in EntriesAt(s.root, copy.dir).value &&
    undone.value.root == WithEntries(s.root, copy.dir, EntriesAt(s.root, copy.dir).value[copy.name := node])
  }

  /** The two undo actions of a reclaim, one after the other. */
  lemma RemovedThenRestored(t: State, path: Path, id: FileId, aside: Path, undo: seq<Action>)
    requires undo == [RemoveCreatedTree(path, id), Restore(path, aside, Absent)]
    requires Removed(t, path, id, true).result.Success?
    ensures var r := DoRestore(Removed(t, path, id, true).state, Restore(path, aside, Absent));
      UndoAll(t, undo) == if r.result.Failure? then Failure(r.result.error) else Success(r.state)
  {
    UndoTwo(t, RemoveCreatedTree(path, id), Restore(path, aside, Absent));
    UndoOne(Removed(t, path, id, true).state, Restore(path, aside, Absent));
  }

  lemma ReclaimUndone(s: State, a: Action, t: State)
    requires Counted(s) && a.ReclaimTree? && Counted(t)
    requires Perform(s, a, true).result.Success? && SameDisk(t, Perform(s, a, true).state)
    ensures Undone(UndoAll(t, Perform(s, a, true).undo), s)
  {
    var entries, node := EntriesAt(s.root, a.path.dir).value, Holding(s, a.path, a.id).value;
    var aside := SiblingOf(a.path, Aside, s.next + 2);
    var copy := CopiedTop(node, s.born + 1, s.running, a.mode);
    FreshIsFree(s, a.path, Aside, s.next + 2);
    SiblingDiffers(a.path.name, Aside, s.next + 2);
    var both := entries[aside.name := node][a.path.name := copy];
    var rest := entries[aside.name := node] - {a.path.name};
    PutTwice(s, t, a.path, both, rest);
    FreshIsFree(t, a.path, Remove, t.next + 1);
    assert both - {a.path.name} == rest;
    var removed := Removed(t, a.path, copy.id, true).state;
    AsideUndone(s, removed, a.path, aside, node);
    RemovedThenRestored(t, a.path, copy.id, aside, Perform(s, a, true).undo);
  }

  /** In the middle of a reclaim, with nothing under the name, undoing finds nothing to remove and puts the tree back. */
  lemma HalfReclaimUndone(s: State, a: Action, t: State)
    requires Counted(s) && a.ReclaimTree?
    requires Perform(s, a, true).result.Success? && SameDisk(t, Perform(s, a, true).visible[0])
    ensures var copy := CopiedTop(Holding(s, a.path, a.id).value, s.born + 1, s.running, a.mode);
      UndoneButCopy(UndoAll(t, Perform(s, a, true).undo), s, SiblingOf(a.path, Reclaimed, s.next + 1), copy)
  {
    var entries, node := EntriesAt(s.root, a.path.dir).value, Holding(s, a.path, a.id).value;
    var staged, aside := SiblingOf(a.path, Reclaimed, s.next + 1), SiblingOf(a.path, Aside, s.next + 2);
    var copy := CopiedTop(node, s.born + 1, s.running, a.mode);
    FreshIsFree(s, a.path, Reclaimed, s.next + 1);
    FreshIsFree(s, a.path, Aside, s.next + 2);
    SiblingDiffers(a.path.name, Aside, s.next + 2);
    SiblingDiffers(a.path.name, Reclaimed, s.next + 1);
    var middle := entries[staged.name := copy][aside.name := node] - {a.path.name};
    var back := entries[staged.name := copy];
    PutTwice(s, t, a.path, middle, back);
    assert middle[a.path.name := node] - {aside.name} == back;
    WithoutAbsent(s.pending, aside);
    RemovedThenRestored(t, a.path, copy.id, aside, Perform(s, a, true).undo);
  }

  /** The two renames of a reclaim are the one place where something can be left over. */
  predicate IsHalfReclaim(a: Action, i: nat) { a.ReclaimTree? && i == 0 }

  lemma OthersUndone(s: State, a: Action, i: nat, t: State)
    requires Counted(s) && IsForward(a) && !a.Discard? && !IsHalfReclaim(a, i)
    requires Perform(s, a, true).result.Success? && i < |Perform(s, a, true).visible|
    requires SameDisk(t, Perform(s, a, true).visible[i]) && Counted(t)
    ensures Undone(UndoAll(t, Perform(s, a, true).undo), s)
  {
    match a
    case CreateDirs(_, _, _, _) => CreationUndone(s, a, t);
    case CreateDir(_, _, _) => CreationUndone(s, a, t);
    case CopyTree(_, _, _) => CreationUndone(s, a, t);
    case PutFile(_, _, _, _, held) =>
      if held.Absent? {
        CreationUndone(s, a, t);
      } else {
        ReplacementUndone(s, a, i, t);
      }
    case SetMode(_, _, _) => ModeUndone(s, a, t);
    case SetOwner(_, _, _) => OwnerUndone(s, a, t);
    case SetAside(_, _) => SettingAsideUndone(s, a, i, t);
    case ReclaimTree(_, _, _) => ReclaimUndone(s, a, t);
  }

  /** With the copy left behind it is not undone. */
  lemma CopyIsSeen(undone: Result<State, Failing>, s: State, copy: Path, node: Node)
    requires UndoneButCopy(undone, s, copy, node)
    ensures !Undone(undone, s)
  {
    var entries := EntriesAt(s.root, copy.dir).value;
    ReadsWhatWasWritten(s.root, copy.dir, entries[copy.name := node]);
    assert copy.name in entries[copy.name := node];
  }

  /**
   From any state after its first visible change, the undo list of an action brings back what was
   there, exactly when the path was not discarded before and no reclaim stopped between its renames.
   */
  lemma UndoRestores(s: State, a: Action, i: nat, t: State)
    requires Counted(s) && IsForward(a)
    requires Perform(s, a, true).result.Success? && i < |Perform(s, a, true).visible|
    requires SameDisk(t, Perform(s, a, true).visible[i]) && Counted(t)
    ensures Undone(UndoAll(t, Perform(s, a, true).undo), s) <==> CanUndo(s, a) && !IsHalfReclaim(a, i)
  {
    if a.Discard? {
      DiscardUndone(s, a, t);
    } else if IsHalfReclaim(a, i) {
      HalfReclaimUndone(s, a, t);
      CopyIsSeen(UndoAll(t, Perform(s, a, true).undo), s, SiblingOf(a.path, Reclaimed, s.next + 1),
                 CopiedTop(Holding(s, a.path, a.id).value, s.born + 1, s.running, a.mode));
    } else {
      OthersUndone(s, a, i, t);
    }
  }

  // ---------------------------------------------------------------------------
  // The tree and the pending list, each for itself

  predicate SameTree(a: State, b: State) { a.root == b.root && a.running == b.running }

  predicate SameCounters(a: State, b: State) { a.next == b.next && a.born == b.born }

  /** The actions of undo lists. */
  predicate IsUndo(b: Action) {
    b.Keep? || b.RemoveCreated? || b.RemoveCreatedTree? || b.Restore? || b.SetMode? || b.SetOwner?
  }

  predicate AllUndo(undo: seq<Action>) { forall b | b in undo :: IsUndo(b) }

  lemma AnnouncesUndo(s: State, a: Action)
    requires IsForward(a) && Perform(s, a, true).result.Success?
    ensures AllUndo(Perform(s, a, true).undo)
  {}

  /** The tree comes out the same whatever is pending. */
  lemma StepApart(s: State, t: State, b: Action)
    requires IsUndo(b) && SameTree(s, t) && SameCounters(s, t)
    ensures var r, q := Perform(s, b, true), Perform(t, b, true);
      q.result == r.result && SameTree(r.state, q.state) && SameCounters(r.state, q.state)
  {
    match b
    case Keep(_) =>
    case RemoveCreated(path, id) => RemovedApart(s, t, path, id, false);
    case RemoveCreatedTree(path, id) => RemovedApart(s, t, path, id, true);
    case Restore(_, _, _) => RestoredApart(s, t, b);
    case SetMode(_, _, _) =>
    case SetOwner(_, _, _) =>
  }

  lemma RemovedApart(s: State, t: State, path: Path, id: FileId, whole: bool)
    requires SameTree(s, t) && SameCounters(s, t)
    ensures var r, q := Removed(s, path, id, whole), Removed(t, path, id, whole);
      q.result == r.result && SameTree(r.state, q.state) && SameCounters(r.state, q.state)
  {}

  lemma RestoredApart(s: State, t: State, b: Action)
    requires b.Restore? && SameTree(s, t) && SameCounters(s, t)
    ensures var r, q := DoRestore(s, b), DoRestore(t, b);
      q.result == r.result && SameTree(r.state, q.state) && SameCounters(r.state, q.state)
  {}

  lemma {:induction false} UndoApart(s: State, t: State, undo: seq<Action>)
    requires AllUndo(undo) && SameTree(s, t) && SameCounters(s, t)
    ensures var r, q := UndoAll(s, undo), UndoAll(t, undo);
      (q.Success? <==> r.Success?) && (r.Success? ==> SameTree(r.value, q.value) && SameCounters(r.value, q.value))
    decreases |undo|
  {
    if undo != [] {
      StepApart(s, t, undo[0]);
      if Perform(s, undo[0], true).result.Success? {
        UndoApart(Perform(s, undo[0], true).state, Perform(t, undo[0], true).state, undo[1..]);
      }
    }
  }

  function Minus(pending: seq<Path>, gone: seq<Path>): seq<Path> {
    if pending == [] then []
    else (if pending[0] in gone then [] else [pending[0]]) + Minus(pending[1..], gone)
  }

  lemma {:induction false} MinusTwice(pending: seq<Path>, a: seq<Path>, b: seq<Path>)
    ensures Minus(Minus(pending, a), b) == Minus(pending, a + b)
  {
    if pending != [] {
      MinusTwice(pending[1..], a, b);
      if pending[0] !in a {
        assert ([pending[0]] + Minus(pending[1..], a))[1..] == Minus(pending[1..], a);
      }
      assert pending[0] in a + b <==> pending[0] in a || pending[0] in b;
      assert [] + Minus(pending[1..], a) == Minus(pending[1..], a);
    }
  }

  lemma {:induction false} MinusOne(pending: seq<Path>, path: Path)
    ensures Minus(pending, [path]) == Without(pending, path)
  {
    if pending != [] {
      MinusOne(pending[1..], path);
    }
  }

  lemma {:induction false} MinusNothing(pending: seq<Path>)
    ensures Minus(pending, []) == pending
  {
    if pending != [] {
      MinusNothing(pending[1..]);
    }
  }

  /** What was listed since and is taken off again does not matter. */
  lemma {:induction false} MinusSince(pending: seq<Path>, since: seq<Path>, gone: seq<Path>)
    requires forall p | p in since :: p in gone
    ensures Minus(pending + since, gone) == Minus(pending, gone)
  {
    if pending != [] {
      assert (pending + since)[1..] == pending[1..] + since;
      MinusSince(pending[1..], since, gone);
    } else if since != [] {
      assert pending + since == since && since[0] in since;
      assert [] + since[1..] == since[1..];
      MinusSince([], since[1..], gone);
    } else {
      assert pending + since == [];
    }
  }

  /** Nothing is lost exactly when nothing that was pending is taken off. */
  lemma {:induction false} MinusKeeps(pending: seq<Path>, gone: seq<Path>)
    ensures |Minus(pending, gone)| <= |pending|
    ensures Minus(pending, gone) == pending <==> forall p | p in gone :: p !in pending
  {
    if pending != [] {
      MinusKeeps(pending[1..], gone);
      assert pending == [pending[0]] + pending[1..];
      if pending[0] !in gone {
        assert ([pending[0]] + Minus(pending[1..], gone))[1..] == Minus(pending[1..], gone);
      }
    }
  }

  /** The paths that an undo action takes off the list. */
  function TakenOff(b: Action): seq<Path> {
    match b
    case Keep(path) => [path]
    case Restore(_, from, _) => [from]
    case _ => []
  }

  function TakenOffAll(undo: seq<Action>): seq<Path> {
    if undo == [] then [] else TakenOff(undo[0]) + TakenOffAll(undo[1..])
  }

  lemma StepTakesOff(t: State, b: Action)
    requires IsUndo(b) && Perform(t, b, true).result.Success?
    ensures Perform(t, b, true).state.pending == Minus(t.pending, TakenOff(b))
  {
    MinusNothing(t.pending);
    if b.Keep? {
      MinusOne(t.pending, b.path);
    } else if b.Restore? {
      MinusOne(t.pending, b.from);
    }
  }

  lemma {:induction false} UndoTakesOff(t: State, undo: seq<Action>)
    requires AllUndo(undo) && UndoAll(t, undo).Success?
    ensures UndoAll(t, undo).value.pending == Minus(t.pending, TakenOffAll(undo))
    decreases |undo|
  {
    if undo == [] {
      MinusNothing(t.pending);
    } else {
      StepTakesOff(t, undo[0]);
      UndoTakesOff(Perform(t, undo[0], true).state, undo[1..]);
      MinusTwice(t.pending, TakenOff(undo[0]), TakenOffAll(undo[1..]));
    }
  }

  /** What an action puts on the list; its undo takes off that and, of what was pending before, only what it discards. */
  function Listed(s: State, a: Action): seq<Path> {
    match a
    case Discard(path) => [path]
    case SetAside(path, _) => [SiblingOf(path, Aside, s.next + 1)]
    case PutFile(path, _, _, _, held) => if held.Present? then [SiblingOf(path, Backup, s.next + 1)] else []
    case _ => []
  }

  lemma Lists(s: State, a: Action, i: nat)
    requires IsForward(a) && Perform(s, a, true).result.Success? && i < |Perform(s, a, true).visible|
    ensures var r := Perform(s, a, true);
      r.state.pending == s.pending + Listed(s, a) &&
      (r.visible[i].pending == s.pending || r.visible[i].pending == s.pending + Listed(s, a))
    ensures forall p | p in Listed(s, a) :: p in TakenOffAll(Perform(s, a, true).undo)
  {
    assert s.pending + [] == s.pending;
    AnnouncesListed(s, a);
  }

  lemma AnnouncesListed(s: State, a: Action)
    requires IsForward(a) && Perform(s, a, true).result.Success?
    ensures forall p | p in Listed(s, a) :: p in TakenOffAll(Perform(s, a, true).undo)
    ensures a.Discard? ==> a.path in TakenOffAll(Perform(s, a, true).undo)
    ensures forall p | p in TakenOffAll(Perform(s, a, true).undo) ::
      (a.Discard? && p == a.path) || (p.name.Sibling? && p.name.number > s.next)
  {
    if a.ReclaimTree? {
      ReclaimTakesOff(s, a);
    } else {
      OneIsAnnounced(s, a);
      TakenOffOne(Perform(s, a, true).undo[0]);
    }
  }

  lemma OneIsAnnounced(s: State, a: Action)
    requires IsForward(a) && Perform(s, a, true).result.Success? && !a.ReclaimTree?
    ensures var undo := Perform(s, a, true).undo;
      |undo| == 1 && undo == [undo[0]] && TakenOff(undo[0]) == Listed(s, a)
  {}

  lemma ReclaimTakesOff(s: State, a: Action)
    requires a.ReclaimTree? && Perform(s, a, true).result.Success?
    ensures TakenOffAll(Perform(s, a, true).undo) == [SiblingOf(a.path, Aside, s.next + 2)]
  {
    var undo := Perform(s, a, true).undo;
    assert |undo| == 2 && undo == [undo[0], undo[1]];
    TakenOffTwo(undo[0], undo[1]);
  }

  lemma TakenOffOne(b: Action)
    ensures TakenOffAll([b]) == TakenOff(b)
  {
    assert TakenOff(b) + [] == TakenOff(b);
  }

  lemma TakenOffTwo(b: Action, c: Action)
    ensures TakenOffAll([b, c]) == TakenOff(b) + TakenOff(c)
  {
    assert [b, c][1..] == [c];
    TakenOffOne(c);
  }

  /** What is undone without regard to what is pending. */
  lemma TreeRestored(s: State, a: Action, i: nat, t: State)
    requires Counted(s) && IsForward(a) && GoodNames(a, s.next) && !IsHalfReclaim(a, i)
    requires Perform(s, a, true).result.Success? && i < |Perform(s, a, true).visible|
    requires SameTree(t, Perform(s, a, true).visible[i]) && Counted(t) && t.next >= Perform(s, a, true).state.next
    ensures UndoAll(t, Perform(s, a, true).undo).Success? && SameTree(UndoAll(t, Perform(s, a, true).undo).value, s)
  {
    if a.Discard? {
      UndoOne(t, Keep(a.path));
    } else {
      var v := t.(pending := Perform(s, a, true).visible[i].pending);
      VisibleCounted(s, a, i, t, v);
      OthersUndone(s, a, i, v);
      AnnouncesUndo(s, a);
      UndoApart(v, t, Perform(s, a, true).undo);
    }
  }

  lemma VisibleCounted(s: State, a: Action, i: nat, t: State, v: State)
    requires Counted(s) && IsForward(a) && GoodNames(a, s.next)
    requires Perform(s, a, true).result.Success? && i < |Perform(s, a, true).visible|
    requires Counted(t) && t.next >= Perform(s, a, true).state.next && v == t.(pending := Perform(s, a, true).visible[i].pending)
    ensures Counted(v)
  {
    var after := Perform(s, a, true).state;
    StaysCounted(s, a, true);
    Lists(s, a, i);
    forall p | p in v.pending
      ensures NameKnown(p.name, t.next)
    {
      assert p in after.pending;
      NameStaysKnown(p.name, after.next, t.next);
    }
  }

  // ---------------------------------------------------------------------------
  // Whole runs

  /** What a run leaves behind and the undo lists it announced; the run stops at the first failure. */
  datatype Ran = Ran(state: State, undos: seq<seq<Action>>, result: Result<(), Failing>)

  function Run(s: State, actions: seq<Action>): Ran
    decreases |actions|
  {
    if actions == [] then Ran(s, [], Success(()))
    else
      var first := Perform(s, actions[0], true);
      if first.result.Failure? then Ran(first.state, [], first.result)
      else
        var rest := Run(first.state, actions[1..]);
        Ran(rest.state, [first.undo] + rest.undos, rest.result)
  }

  /** The undo lists from the last to the first. */
  function UndoRun(t: State, undos: seq<seq<Action>>): Result<State, Failing>
    decreases |undos|
  {
    if undos == [] then Success(t)
    else
      match UndoRun(t, undos[1..])
      case Failure(failing) => Failure(failing)
      case Success(u) => UndoAll(u, undos[0])
  }

  predicate MayRun(s: State, actions: seq<Action>)
    decreases |actions|
  {
    actions == [] ||
    (IsForward(actions[0]) && GoodNames(actions[0], s.next) &&
     (Perform(s, actions[0], true).result.Success? ==> MayRun(Perform(s, actions[0], true).state, actions[1..])))
  }

  /** The paths of an undo list are known wherever the action was done. */
  predicate AllGood(undo: seq<Action>, next: nat) { forall a | a in undo :: GoodNames(a, next) }

  lemma UndoNamesGood(s: State, a: Action, later: nat)
    requires GoodNames(a, s.next) && IsForward(a) && Perform(s, a, true).result.Success? && s.next <= later
    ensures AllGood(Perform(s, a, true).undo, later)
  {
    if a.CreateDirs? {
      NameStaysKnown(a.top.name, s.next, later);
    } else if a.CopyTree? {
      NameStaysKnown(a.to.name, s.next, later);
    } else {
      NameStaysKnown(a.path.name, s.next, later);
    }
  }

  lemma {:induction false} UndoStaysCounted(t: State, undo: seq<Action>)
    requires Counted(t) && AllGood(undo, t.next) && UndoAll(t, undo).Success?
    ensures Counted(UndoAll(t, undo).value) && UndoAll(t, undo).value.next >= t.next
    decreases |undo|
  {
    if undo != [] {
      StaysCounted(t, undo[0], true);
      var u := Perform(t, undo[0], true).state;
      forall a | a in undo[1..]
        ensures GoodNames(a, u.next)
      {
        GoodNamesStay(a, t.next, u.next);
      }
      UndoStaysCounted(u, undo[1..]);
    }
  }

  lemma GoodNamesStay(a: Action, next: nat, later: nat)
    requires GoodNames(a, next) && next <= later
    ensures GoodNames(a, later)
  {
    if a.CreateDirs? {
      NameStaysKnown(a.top.name, next, later);
      forall n | n in a.below ensures NameKnown(n, later) {
        NameStaysKnown(n, next, later);
      }
    } else if a.CopyTree? {
      NameStaysKnown(a.to.name, next, later);
    } else {
      NameStaysKnown(a.path.name, next, later);
    }
  }

  /** The tree is as it was, whatever is pending. */
  lemma {:induction false} RunTreeRestored(s: State, actions: seq<Action>, t: State)
    requires Counted(s) && MayRun(s, actions)
    requires SameTree(t, Run(s, actions).state) && Counted(t) && t.next >= Run(s, actions).state.next
    ensures var r := UndoRun(t, Run(s, actions).undos);
      r.Success? && SameTree(r.value, s) && Counted(r.value) && r.value.next >= t.next && Run(s, actions).state.next >= s.next
    decreases |actions|
  {
    if actions != [] {
      var a := actions[0];
      var first := Perform(s, a, true);
      StaysCounted(s, a, true);
      if first.result.Failure? {
        FailureChangesNothing(s, a, true);
      } else {
        RunTreeRestored(first.state, actions[1..], t);
        var undos := Run(first.state, actions[1..]).undos;
        var u := UndoRun(t, undos).value;
        assert ([first.undo] + undos)[1..] == undos;
        LastIsVisible(s, a);
        TreeRestored(s, a, |first.visible| - 1, u);
        UndoNamesGood(s, a, u.next);
        UndoStaysCounted(u, first.undo);
      }
    }
  }

  lemma LastIsVisible(s: State, a: Action)
    requires IsForward(a) && Perform(s, a, true).result.Success?
    ensures var r := Perform(s, a, true);
      |r.visible| > 0 && r.visible[|r.visible| - 1] == r.state && (a.ReclaimTree? ==> |r.visible| == 2)
  {}

  /** The paths that undoing a run takes off the list, the last undo list first. */
  function TakenOffRun(undos: seq<seq<Action>>): seq<Path> {
    if undos == [] then [] else TakenOffRun(undos[1..]) + TakenOffAll(undos[0])
  }

  lemma {:induction false} RunAnnouncesUndo(s: State, actions: seq<Action>)
    requires MayRun(s, actions)
    ensures |Run(s, actions).undos| <= |actions| && forall undo | undo in Run(s, actions).undos :: AllUndo(undo)
    decreases |actions|
  {
    if actions != [] && Perform(s, actions[0], true).result.Success? {
      AnnouncesUndo(s, actions[0]);
      RunAnnouncesUndo(Perform(s, actions[0], true).state, actions[1..]);
    }
  }

  lemma {:induction false} UndoRunTakesOff(t: State, undos: seq<seq<Action>>)
    requires (forall undo | undo in undos :: AllUndo(undo)) && UndoRun(t, undos).Success?
    ensures UndoRun(t, undos).value.pending == Minus(t.pending, TakenOffRun(undos))
    decreases |undos|
  {
    if undos == [] {
      MinusNothing(t.pending);
    } else {
      UndoRunTakesOff(t, undos[1..]);
      UndoTakesOff(UndoRun(t, undos[1..]).value, undos[0]);
      MinusTwice(t.pending, TakenOffRun(undos[1..]), TakenOffAll(undos[0]));
    }
  }

  function ListedByRun(s: State, actions: seq<Action>): seq<Path>
    decreases |actions|
  {
    if actions == [] || Perform(s, actions[0], true).result.Failure? then []
    else Listed(s, actions[0]) + ListedByRun(Perform(s, actions[0], true).state, actions[1..])
  }

  lemma {:induction false} RunLists(s: State, actions: seq<Action>)
    requires MayRun(s, actions)
    ensures Run(s, actions).state.pending == s.pending + ListedByRun(s, actions)
    ensures forall p | p in ListedByRun(s, actions) :: p in TakenOffRun(Run(s, actions).undos)
    decreases |actions|
  {
    if actions != [] {
      var a := actions[0];
      var first := Perform(s, a, true);
      if first.result.Failure? {
        FailureChangesNothing(s, a, true);
      } else {
        var rest := ListedByRun(first.state, actions[1..]);
        LastIsVisible(s, a);
        Lists(s, a, |first.visible| - 1);
        RunLists(first.state, actions[1..]);
        var undos := Run(first.state, actions[1..]).undos;
        assert s.pending + Listed(s, a) + rest == s.pending + (Listed(s, a) + rest);
        assert ([first.undo] + undos)[1..] == undos;
        InBoth(Listed(s, a), rest, TakenOffAll(first.undo), TakenOffRun(undos));
      }
    }
  }

  lemma InBoth(a: seq<Path>, b: seq<Path>, inA: seq<Path>, inB: seq<Path>)
    requires (forall p | p in a :: p in inA) && forall p | p in b :: p in inB
    ensures forall p | p in a + b :: p in inB + inA
  {}

  /** No action that was done discards a path of these. */
  predicate DiscardsNoneOf(pending: seq<Path>, s: State, actions: seq<Action>)
    decreases |actions|
  {
    actions == [] || Perform(s, actions[0], true).result.Failure? ||
    ((actions[0].Discard? ==> actions[0].path !in pending) &&
     DiscardsNoneOf(pending, Perform(s, actions[0], true).state, actions[1..]))
  }

  /** Of what was pending at the start, undoing takes off just what the run discarded. */
  lemma {:induction false} RunTakesOff(start: State, s: State, actions: seq<Action>)
    requires Counted(start) && Counted(s) && start.next <= s.next && MayRun(s, actions)
    ensures DiscardsNoneOf(start.pending, s, actions)
      <==> forall p | p in TakenOffRun(Run(s, actions).undos) :: p !in start.pending
    decreases |actions|
  {
    if actions != [] && Perform(s, actions[0], true).result.Success? {
      var a := actions[0];
      var first := Perform(s, a, true);
      StaysCounted(s, a, true);
      RunTakesOff(start, first.state, actions[1..]);
      AnnouncesListed(s, a);
      var rest := Run(first.state, actions[1..]).undos;
      assert ([first.undo] + rest)[1..] == rest;
      FreshIsNotPending(start, s, a);
    }
  }

  lemma FreshIsNotPending(start: State, s: State, a: Action)
    requires Counted(start) && start.next <= s.next && IsForward(a) && Perform(s, a, true).result.Success?
    ensures (a.Discard? ==> a.path !in start.pending)
      <==> forall p | p in TakenOffAll(Perform(s, a, true).undo) :: p !in start.pending
  {
    AnnouncesListed(s, a);
    forall p | p in TakenOffAll(Perform(s, a, true).undo) && p in start.pending
      ensures a.Discard? && p == a.path
    {
      assert NameKnown(p.name, start.next);
    }
  }

  /**
   Undoing a whole run, last action first, wherever the run came to a failure: the tree is as it was,
   and all is as it was exactly when nothing was discarded that had been pending at the start.
   */
  lemma RunRestores(s: State, actions: seq<Action>, t: State)
    requires Counted(s) && MayRun(s, actions)
    requires SameDisk(t, Run(s, actions).state) && Counted(t) && t.next >= Run(s, actions).state.next
    ensures var r := UndoRun(t, Run(s, actions).undos); r.Success? && SameTree(r.value, s)
    ensures Undone(UndoRun(t, Run(s, actions).undos), s) <==> DiscardsNoneOf(s.pending, s, actions)
  {
    var gone := TakenOffRun(Run(s, actions).undos);
    RunTreeRestored(s, actions, t);
    RunAnnouncesUndo(s, actions);
    UndoRunTakesOff(t, Run(s, actions).undos);
    RunLists(s, actions);
    MinusSince(s.pending, ListedByRun(s, actions), gone);
    MinusKeeps(s.pending, gone);
    RunTakesOff(s, s, actions);
  }

  /** Undone as far as it goes: the undo list of the last action, and those of the run before it. */
  function UndoStopped(t: State, last: seq<Action>, undos: seq<seq<Action>>): Result<State, Failing> {
    match UndoAll(t, last)
    case Failure(failing) => Failure(failing)
    case Success(u) => UndoRun(u, undos)
  }

  /** A run that stopped after a visible change of its last action, but not between the renames of a reclaim. */
  lemma StoppedElsewhereRestores(s: State, actions: seq<Action>, a: Action, i: nat, t: State)
    requires Counted(s) && MayRun(s, actions)
    requires var u := Run(s, actions).state;
      IsForward(a) && GoodNames(a, u.next) && !IsHalfReclaim(a, i) &&
      Perform(u, a, true).result.Success? && i < |Perform(u, a, true).visible| &&
      SameTree(t, Perform(u, a, true).visible[i]) && Counted(t) && t.next >= Perform(u, a, true).state.next
    ensures var r := UndoStopped(t, Perform(Run(s, actions).state, a, true).undo, Run(s, actions).undos);
      r.Success? && SameTree(r.value, s)
  {
    var u := Run(s, actions).state;
    RunStaysCounted(s, actions);
    StaysCounted(u, a, true);
    TreeRestored(u, a, i, t);
    UndoNamesGood(u, a, t.next);
    UndoStaysCounted(t, Perform(u, a, true).undo);
    RunTreeRestored(s, actions, UndoAll(t, Perform(u, a, true).undo).value);
  }

  /** The pending list of a run that stopped, once it is undone. */
  lemma StoppedTakesOff(s: State, actions: seq<Action>, a: Action, i: nat, t: State)
    requires Counted(s) && MayRun(s, actions)
    requires var u := Run(s, actions).state;
      IsForward(a) && Perform(u, a, true).result.Success? && i < |Perform(u, a, true).visible| &&
      t.pending == Perform(u, a, true).visible[i].pending
    ensures var r := UndoStopped(t, Perform(Run(s, actions).state, a, true).undo, Run(s, actions).undos);
      r.Success? ==> (r.value.pending == s.pending <==>
        DiscardsNoneOf(s.pending, s, actions) && (a.Discard? ==> a.path !in s.pending))
  {
    var u, undos := Run(s, actions).state, Run(s, actions).undos;
    var undo := Perform(u, a, true).undo;
    if UndoStopped(t, undo, undos).Success? {
      RunStaysCounted(s, actions);
      AnnouncesUndo(u, a);
      RunAnnouncesUndo(s, actions);
      StoppedGone(t, undo, undos);
      var since := ListedSince(s, actions, a, i);
      PendingBack(s.pending, t.pending, since, TakenOffAll(undo) + TakenOffRun(undos));
      RunTakesOff(s, s, actions);
      FreshIsNotPending(s, u, a);
    }
  }

  lemma StoppedGone(t: State, undo: seq<Action>, undos: seq<seq<Action>>)
    requires AllUndo(undo) && (forall more | more in undos :: AllUndo(more)) && UndoStopped(t, undo, undos).Success?
    ensures UndoStopped(t, undo, undos).value.pending == Minus(t.pending, TakenOffAll(undo) + TakenOffRun(undos))
  {
    UndoTakesOff(t, undo);
    UndoRunTakesOff(UndoAll(t, undo).value, undos);
    MinusTwice(t.pending, TakenOffAll(undo), TakenOffRun(undos));
  }

  lemma PendingBack(pending: seq<Path>, now: seq<Path>, since: seq<Path>, gone: seq<Path>)
    requires now == pending + since && forall p | p in since :: p in gone
    ensures Minus(now, gone) == pending <==> forall p | p in gone :: p !in pending
  {
    MinusSince(pending, since, gone);
    MinusKeeps(pending, gone);
  }

  lemma ListedSince(s: State, actions: seq<Action>, a: Action, i: nat) returns (since: seq<Path>)
    requires MayRun(s, actions) && IsForward(a)
    requires Perform(Run(s, actions).state, a, true).result.Success? && i < |Perform(Run(s, actions).state, a, true).visible|
    ensures Perform(Run(s, actions).state, a, true).visible[i].pending == s.pending + since
    ensures forall p | p in since ::
      p in TakenOffAll(Perform(Run(s, actions).state, a, true).undo) + TakenOffRun(Run(s, actions).undos)
  {
    var u := Run(s, actions).state;
    Lists(u, a, i);
    RunLists(s, actions);
    var before := ListedByRun(s, actions);
    since := if Perform(u, a, true).visible[i].pending == u.pending then before else before + Listed(u, a);
    assert s.pending + before + Listed(u, a) == s.pending + (before + Listed(u, a));
  }

  lemma {:induction false} RunStaysCounted(s: State, actions: seq<Action>)
    requires Counted(s) && MayRun(s, actions)
    ensures Counted(Run(s, actions).state) && Run(s, actions).state.next >= s.next
    decreases |actions|
  {
    if actions != [] {
      StaysCounted(s, actions[0], true);
      if Perform(s, actions[0], true).result.Success? {
        RunStaysCounted(Perform(s, actions[0], true).state, actions[1..]);
      }
    }
  }
}
