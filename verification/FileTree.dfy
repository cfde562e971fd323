/**
 The part of a file system that crates/fs works on: a tree of nodes with their identity, mode and
 owner, looked up without following links, and changed one directory at a time.
 */
module FileTree {
  import opened Wrappers

  datatype Purpose = New | Backup | Aside | Remove | Reclaimed

  /** A name that was there, or the `number`th sibling that mix made up next to `base`. */
  datatype Name = Given(text: string) | Sibling(base: Name, purpose: Purpose, number: nat)

  /** What tells two nodes apart even when all else is equal; a copy is a new node. */
  datatype FileId = Made(number: nat) | CopyOf(id: FileId, number: nat)

  type Owner = (nat, nat)

  type Entries = map<Name, Node>

  datatype Node =
    | File(id: FileId, mode: nat, owner: Owner, contents: string)
    | Link(id: FileId, mode: nat, owner: Owner, target: string)
    | Dir(id: FileId, mode: nat, owner: Owner, entries: map<Name, Node>)

  datatype Errno = NoEnt | Exist | NotDir | Loop | NotEmpty

  datatype Path = Path(dir: seq<Name>, name: Name)

  function Full(path: Path): seq<Name> { path.dir + [path.name] }

  // ---------------------------------------------------------------------------
  // Directories

  /** `openat2` without links: the entries of the directory. */
  function EntriesAt(node: Node, dir: seq<Name>): Result<map<Name, Node>, Errno>
    decreases |dir|
  {
    match node
    case File(_, _, _, _) => Failure(NotDir)
    case Link(_, _, _, _) => Failure(Loop)
    case Dir(_, _, _, entries) =>
      if dir == [] then Success(entries)
      else if dir[0] !in entries then Failure(NoEnt)
      else EntriesAt(entries[dir[0]], dir[1..])
  }

  predicate IsDir(node: Node, dir: seq<Name>) { EntriesAt(node, dir).Success? }

  /** The tree in which the directory has these entries instead. */
  function WithEntries(node: Node, dir: seq<Name>, entries: map<Name, Node>): (r: Node)
    requires IsDir(node, dir)
    decreases |dir|
  {
    if dir == [] then node.(entries := entries)
    else node.(entries := node.entries[dir[0] := WithEntries(node.entries[dir[0]], dir[1..], entries)])
  }

  lemma {:induction false} ReadsWhatWasWritten(node: Node, dir: seq<Name>, entries: map<Name, Node>)
    requires IsDir(node, dir)
    ensures EntriesAt(WithEntries(node, dir, entries), dir) == Success(entries)
    decreases |dir|
  {
    if dir != [] {
      ReadsWhatWasWritten(node.entries[dir[0]], dir[1..], entries);
    }
  }

  lemma {:induction false} LastWriteCounts(node: Node, dir: seq<Name>, first: map<Name, Node>, second: map<Name, Node>)
    requires IsDir(node, dir)
    ensures IsDir(WithEntries(node, dir, first), dir)
    ensures WithEntries(WithEntries(node, dir, first), dir, second) == WithEntries(node, dir, second)
    decreases |dir|
  {
    ReadsWhatWasWritten(node, dir, first);
    if dir != [] {
      var child, key := node.entries[dir[0]], dir[0];
      LastWriteCounts(child, dir[1..], first, second);
      var written := WithEntries(child, dir[1..], first);
      assert node.entries[key := written][key := WithEntries(written, dir[1..], second)]
          == node.entries[key := WithEntries(child, dir[1..], second)];
    }
  }

  lemma {:induction false} WritingBackChangesNothing(node: Node, dir: seq<Name>)
    requires IsDir(node, dir)
    ensures WithEntries(node, dir, EntriesAt(node, dir).value) == node
    decreases |dir|
  {
    if dir != [] {
      WritingBackChangesNothing(node.entries[dir[0]], dir[1..]);
      assert node.entries[dir[0] := node.entries[dir[0]]] == node.entries;
    }
  }

  // ---------------------------------------------------------------------------
  // The calls

  /** `renameat2` with `RENAME_NOREPLACE`, both names in one directory. */
  function Moved(entries: map<Name, Node>, from: Name, to: Name): Result<map<Name, Node>, Errno> {
    if from !in entries then Failure(NoEnt)
    else if to in entries then Failure(Exist)
    else Success(entries[to := entries[from]] - {from})
  }

  /** `renameat2` with `RENAME_EXCHANGE`. */
  function Exchanged(entries: map<Name, Node>, a: Name, b: Name): Result<map<Name, Node>, Errno> {
    if a !in entries || b !in entries then Failure(NoEnt)
    else Success(entries[a := entries[b]][b := entries[a]])
  }

  /** `fchmod` and `fchown`: all else stays. */
  function WithMode(node: Node, mode: nat): Node {
    match node
    case File(id, _, owner, contents) => File(id, mode, owner, contents)
    case Link(id, _, owner, target) => Link(id, mode, owner, target)
    case Dir(id, _, owner, entries) => Dir(id, mode, owner, entries)
  }

  function WithOwner(node: Node, owner: Owner): Node {
    match node
    case File(id, mode, _, contents) => File(id, mode, owner, contents)
    case Link(id, mode, _, target) => Link(id, mode, owner, target)
    case Dir(id, mode, _, entries) => Dir(id, mode, owner, entries)
  }

  /** `fchmod` never keeps more than these bits of a copied file: not set-user-id, not set-group-id. */
  function WithoutSetId(mode: nat): nat { mode % 0x400 }

  /** `copy_tree_at`: new nodes of the same content, owned by who copies. */
  function Copied(node: Node, number: nat, owner: Owner): Node {
    match node
    case File(id, mode, _, contents) => File(CopyOf(id, number), WithoutSetId(mode), owner, contents)
    case Link(id, mode, _, target) => Link(CopyOf(id, number), mode, owner, target)
    case Dir(id, mode, _, entries) =>
      Dir(CopyOf(id, number), WithoutSetId(mode), owner, map n | n in entries :: Copied(entries[n], number, owner))
  }

  /** The top of a copied tree gets a mode of its own, unless it is a link. */
  function CopiedTop(node: Node, number: nat, owner: Owner, mode: nat): Node {
    var copy := Copied(node, number, owner);
    if copy.Link? then copy else WithMode(copy, mode)
  }

  /** `build_chain`: a directory, in it the first name, and so on; the innermost has the mode asked for. */
  function Chain(below: seq<Name>, mode: nat, owner: Owner, number: nat): Node {
    if below == [] then Dir(Made(number), mode, owner, map[])
    else Dir(Made(number), 0x1ED, owner, map[below[0] := Chain(below[1..], mode, owner, number + 1)])
  }

  // ---------------------------------------------------------------------------
  // Fresh names

  predicate NameKnown(name: Name, next: nat) {
    match name
    case Given(_) => true
    case Sibling(base, _, number) => number <= next && NameKnown(base, next)
  }

  /** Every sibling in the tree has a number up to `next`. */
  ghost predicate Known(node: Node, next: nat) {
    node.Dir? ==> forall n :: n in node.entries ==> NameKnown(n, next) && Known(node.entries[n], next)
  }

  ghost predicate EntriesKnown(entries: map<Name, Node>, next: nat) {
    forall n :: n in entries ==> NameKnown(n, next) && Known(entries[n], next)
  }

  lemma {:induction false} DirectoriesKnown(node: Node, dir: seq<Name>, next: nat)
    requires Known(node, next) && IsDir(node, dir)
    ensures EntriesKnown(EntriesAt(node, dir).value, next)
    decreases |dir|
  {
    if dir != [] {
      DirectoriesKnown(node.entries[dir[0]], dir[1..], next);
    }
  }

  lemma {:induction false} WrittenKnown(node: Node, dir: seq<Name>, entries: map<Name, Node>, next: nat)
    requires Known(node, next) && IsDir(node, dir) && EntriesKnown(entries, next)
    ensures Known(WithEntries(node, dir, entries), next)
    decreases |dir|
  {
    if dir != [] {
      WrittenKnown(node.entries[dir[0]], dir[1..], entries, next);
    }
  }

  lemma {:induction false} NameStaysKnown(name: Name, next: nat, later: nat)
    requires NameKnown(name, next) && next <= later
    ensures NameKnown(name, later)
  {
    if name.Sibling? {
      NameStaysKnown(name.base, next, later);
    }
  }

  lemma {:induction false} StaysKnown(node: Node, next: nat, later: nat)
    requires Known(node, next) && next <= later
    ensures Known(node, later)
  {
    if node.Dir? {
      forall n | n in node.entries
        ensures NameKnown(n, later) && Known(node.entries[n], later)
      {
        NameStaysKnown(n, next, later);
        StaysKnown(node.entries[n], next, later);
      }
    }
  }

  lemma {:induction false} CopyKnown(node: Node, number: nat, owner: Owner, next: nat)
    requires Known(node, next)
    ensures Known(Copied(node, number, owner), next)
  {
    if node.Dir? {
      forall n | n in node.entries
        ensures NameKnown(n, next) && Known(Copied(node.entries[n], number, owner), next)
      {
        CopyKnown(node.entries[n], number, owner, next);
      }
    }
  }

  lemma {:induction false} ChainKnown(below: seq<Name>, mode: nat, owner: Owner, number: nat, next: nat)
    requires forall n | n in below :: NameKnown(n, next)
    ensures Known(Chain(below, mode, owner, number), next)
  {
    if below != [] {
      ChainKnown(below[1..], mode, owner, number + 1, next);
    }
  }
}
