/**
 Finding the directory and the name that a path means (`resolve` and `resolve_through_links` of
 crates/fs/src/lib.rs): one call of the kernel where no link is on the way, and otherwise a walk of
 its own that follows the links of one owner. `AgreesExactly` says where the short way changes
 nothing, `OthersLinksDoNotMatter` that links of other owners are never read.
 */
module Resolve {
  import opened Wrappers
  import opened FileTree

  const MAX_LINKS: nat := 40

  datatype Trouble = Io(errno: Errno) | Conflict

  type Found = Result<(seq<Name>, string), Trouble>

  // ---------------------------------------------------------------------------
  // Paths as text

  /** What stands between the slashes, empty pieces included. */
  function Split(path: string): (parts: seq<string>)
    ensures parts != []
  {
    if path == "" then [""]
    else if path[0] == '/' then [""] + Split(path[1..])
    else
      var rest := Split(path[1..]);
      [[path[0]] + rest[0]] + rest[1..]
  }

  /** `components`: empty pieces and single dots stand for nothing. */
  predicate IsNothing(part: string) { part == "" || part == "." }

  function Meant(parts: seq<string>): seq<string> {
    if parts == [] then []
    else (if IsNothing(parts[0]) then [] else [parts[0]]) + Meant(parts[1..])
  }

  function Components(path: string): seq<string> { Meant(Split(path)) }

  predicate IsAbsolute(path: string) { path != "" && path[0] == '/' }

  /** No step upwards, and no dot in front of a relative path. */
  predicate IsNormalised(path: string) {
    ".." !in Components(path) && (IsAbsolute(path) || Split(path)[0] != ".")
  }

  // ---------------------------------------------------------------------------
  // The kernel's walk, which takes no link and stays beneath the root

  datatype Walked = Arrived(at: seq<Name>) | Refused(errno: Errno) | LeftRoot

  /** `openat2` with `NO_SYMLINKS` and `BENEATH`, for a directory. */
  function Beneath(root: Node, at: seq<Name>, parts: seq<string>): Walked
    requires IsDir(root, at)
    decreases |parts|
  {
    if parts == [] then Arrived(at)
    else if IsNothing(parts[0]) then Beneath(root, at, parts[1..])
    else if parts[0] == ".." then
      if at == [] then LeftRoot
      else
        UpIsDir(root, at);
        Beneath(root, at[..|at| - 1], parts[1..])
    else
      var entries := EntriesAt(root, at).value;
      var name := Given(parts[0]);
      if name !in entries then Refused(NoEnt)
      else
        match entries[name]
        case File(_, _, _, _) => Refused(NotDir)
        case Link(_, _, _, _) => Refused(Loop)
        case Dir(_, _, _, _) =>
          DownIsDir(root, at, name);
          Beneath(root, at + [name], parts[1..])
  }

  lemma {:induction false} UpIsDir(root: Node, at: seq<Name>)
    requires IsDir(root, at) && at != []
    ensures IsDir(root, at[..|at| - 1])
    decreases |at|
  {
    if |at| > 1 {
      assert at[..|at| - 1][1..] == at[1..][..|at| - 2];
      UpIsDir(root.entries[at[0]], at[1..]);
    }
  }

  lemma {:induction false} DownIsDir(root: Node, at: seq<Name>, name: Name)
    requires IsDir(root, at) && name in EntriesAt(root, at).value
    ensures EntriesAt(root, at + [name]) == EntriesAt(EntriesAt(root, at).value[name], [])
    decreases |at|
  {
    if at == [] {
      assert at + [name] == [name] && [name][1..] == [];
    } else {
      assert (at + [name])[1..] == at[1..] + [name];
      DownIsDir(root.entries[at[0]], at[1..], name);
    }
  }

  // ---------------------------------------------------------------------------
  // The walk through links

  /** The walk from the directory `at` on, `hops` links behind it. */
  function Walk(root: Node, trusted: nat, at: seq<Name>, remaining: seq<string>, hops: nat, followLast: bool): Found
    requires IsDir(root, at) && hops <= MAX_LINKS
    decreases MAX_LINKS - hops, |remaining|
  {
    if remaining == [] then Failure(Conflict)
    else if remaining[0] == ".." then
      if at == [] then Walk(root, trusted, at, remaining[1..], hops, followLast)
      else
        UpIsDir(root, at);
        Walk(root, trusted, at[..|at| - 1], remaining[1..], hops, followLast)
    else
      var name, rest := remaining[0], remaining[1..];
      var entries := EntriesAt(root, at).value;
      if Given(name) !in entries then (if rest == [] then Success((at, name)) else Failure(Io(NoEnt)))
      else
        var node := entries[Given(name)];
        if node.Link? && (rest != [] || followLast) then
          if node.owner.0 != trusted then Failure(Conflict)
          else if hops == MAX_LINKS then Failure(Io(Loop))
          else
            Walk(root, trusted, if IsAbsolute(node.target) then [] else at, Components(node.target) + rest, hops + 1, followLast)
        else if rest == [] then Success((at, name))
        else if !node.Dir? then Failure(Io(NotDir))
        else
          DownIsDir(root, at, Given(name));
          Walk(root, trusted, at + [Given(name)], rest, hops, followLast)
  }

  /** `resolve_through_links`: a path that is not normalised is refused. */
  function ThroughLinks(root: Node, trusted: nat, path: string, followLast: bool): Found
    requires root.Dir?
  {
    if !IsNormalised(path) then Failure(Conflict) else Walk(root, trusted, [], Components(path), 0, followLast)
  }

  // ---------------------------------------------------------------------------
  // The short way

  /** The index of the last slash, or the length of a text without one. */
  function LastSlash(path: string): (k: nat)
    ensures k <= |path|
    ensures k < |path| ==> path[k] == '/' && forall j :: k < j < |path| ==> path[j] != '/'
    ensures k == |path| ==> forall j :: 0 <= j < |path| ==> path[j] != '/'
  {
    SlashBefore(path, |path|)
  }

  function SlashBefore(path: string, n: nat): (k: nat)
    requires n <= |path|
    ensures k < n || k == |path|
    ensures k < n ==> path[k] == '/'
    ensures forall j :: 0 <= j < n && (k == |path| || k < j) ==> path[j] != '/'
  {
    if n == 0 then |path| else if path[n - 1] == '/' then n - 1 else SlashBefore(path, n - 1)
  }

  function Resolved(root: Node, trusted: nat, path: string, followLast: bool): Found
    requires root.Dir?
  {
    var slash := LastSlash(path);
    if slash == |path| then ThroughLinks(root, trusted, path, followLast)
    else
      var name := path[slash + 1..];
      if IsNothing(name) || name == ".." then ThroughLinks(root, trusted, path, followLast)
      else
        match Beneath(root, [], Split(path[..slash]))
        case LeftRoot => ThroughLinks(root, trusted, path, followLast)
        case Refused(errno) =>
          if errno == Loop then ThroughLinks(root, trusted, path, followLast) else Failure(Io(errno))
        case Arrived(at) =>
          if followLast && LinkAt(root, at, name) then ThroughLinks(root, trusted, path, followLast)
          else Success((at, name))
  }

  // ---------------------------------------------------------------------------
  // The short way agrees

  lemma {:induction false} SplitAtLast(front: string, name: string)
    requires '/' !in name
    ensures Split(front + ['/'] + name) == Split(front) + [name]
    decreases |front|
  {
    var path := front + ['/'] + name;
    if front == "" {
      assert path[1..] == name;
      SplitOne(name);
    } else {
      assert path[1..] == front[1..] + ['/'] + name;
      SplitAtLast(front[1..], name);
    }
  }

  lemma {:induction false} SplitOne(name: string)
    requires '/' !in name
    ensures Split(name) == [name]
  {
    if name != "" {
      assert name[0] in name;
      SplitOne(name[1..]);
      assert [name[0]] + name[1..] == name;
      assert [name][1..] == [];
    }
  }

  lemma {:induction false} MeantJoins(a: seq<string>, b: seq<string>)
    ensures Meant(a + b) == Meant(a) + Meant(b)
  {
    if a == [] {
      assert a + b == b;
    } else {
      assert (a + b)[1..] == a[1..] + b;
      MeantJoins(a[1..], b);
    }
  }

  lemma ComponentsAtLast(path: string, slash: nat)
    requires slash < |path| && path[slash] == '/' && '/' !in path[slash + 1..] && !IsNothing(path[slash + 1..])
    ensures Components(path) == Meant(Split(path[..slash])) + [path[slash + 1..]]
  {
    var front, name := path[..slash], path[slash + 1..];
    assert path == front + ['/'] + name;
    SplitAtLast(front, name);
    MeantJoins(Split(front), [name]);
    assert [name][1..] == [];
  }

  /** A component before others: into a directory, or what it is refused with. */
  lemma WalkOneDown(root: Node, trusted: nat, at: seq<Name>, first: string, rest: seq<string>, followLast: bool)
    requires IsDir(root, at) && first != ".." && rest != []
    ensures var entries, found := EntriesAt(root, at).value, Walk(root, trusted, at, [first] + rest, 0, followLast);
      if Given(first) !in entries then found == Failure(Io(NoEnt))
      else if entries[Given(first)].File? then found == Failure(Io(NotDir))
      else entries[Given(first)].Dir? ==>
        IsDir(root, at + [Given(first)]) && found == Walk(root, trusted, at + [Given(first)], rest, 0, followLast)
  {
    assert ([first] + rest)[1..] == rest;
    if Given(first) in EntriesAt(root, at).value {
      DownIsDir(root, at, Given(first));
    }
  }

  /** Without steps upwards the kernel arrives where the walk arrives, and is refused where the walk is. */
  lemma {:induction false} WalkAgrees(root: Node, trusted: nat, at: seq<Name>, parts: seq<string>, name: string, followLast: bool)
    requires IsDir(root, at) && ".." !in parts
    ensures !Beneath(root, at, parts).LeftRoot?
    ensures var walked := Beneath(root, at, parts);
      walked.Refused? && walked.errno != Loop ==>
        Walk(root, trusted, at, Meant(parts) + [name], 0, followLast) == Failure(Io(walked.errno))
    ensures var walked := Beneath(root, at, parts);
      walked.Arrived? ==>
        IsDir(root, walked.at) &&
        Walk(root, trusted, at, Meant(parts) + [name], 0, followLast) == Walk(root, trusted, walked.at, [name], 0, followLast)
    decreases |parts|
  {
    if parts == [] {
      assert Meant(parts) + [name] == [name];
    } else {
      var first, rest := parts[0], parts[1..];
      assert ".." !in rest && first in parts;
      if IsNothing(first) {
        assert [] + Meant(rest) == Meant(rest);
        WalkAgrees(root, trusted, at, rest, name, followLast);
      } else {
        assert [first] + Meant(rest) + [name] == [first] + (Meant(rest) + [name]);
        WalkOneDown(root, trusted, at, first, Meant(rest) + [name], followLast);
        var entries := EntriesAt(root, at).value;
        if Given(first) in entries && entries[Given(first)].Dir? {
          DownIsDir(root, at, Given(first));
          WalkAgrees(root, trusted, at + [Given(first)], rest, name, followLast);
        }
      }
    }
  }

  lemma {:induction false} MeantHas(parts: seq<string>)
    ensures ".." in Meant(parts) <==> ".." in parts
  {
    if parts != [] {
      MeantHas(parts[1..]);
      assert parts == [parts[0]] + parts[1..];
    }
  }

  /** On every normalised path the one call gives the directory and the name, or the failure, of the walk. */
  lemma OneCallAgreesWithTheWalk(root: Node, trusted: nat, path: string, followLast: bool)
    requires root.Dir? && IsNormalised(path)
    ensures Resolved(root, trusted, path, followLast) == ThroughLinks(root, trusted, path, followLast)
  {
    var slash := LastSlash(path);
    if slash < |path| && !IsNothing(path[slash + 1..]) && path[slash + 1..] != ".." {
      var parts, name := Split(path[..slash]), path[slash + 1..];
      ComponentsAtLast(path, slash);
      MeantHas(parts);
      assert ".." !in Meant(parts);
      WalkAgrees(root, trusted, [], parts, name, followLast);
      var walked := Beneath(root, [], parts);
      if walked.Arrived? {
        assert Walk(root, trusted, walked.at, [name], 0, followLast) == Walk(root, trusted, [], Components(path), 0, followLast);
        assert [name][1..] == [];
      }
    }
  }

  lemma SplitUpwards()
    ensures Split("/a/..") == ["", "a", ".."] && Split("/a/../b") == ["", "a", "..", "b"]
  {
    SplitOne("");
    SplitAtLast("", "a");
    assert "/a" == "" + ['/'] + "a";
    SplitAtLast("/a", "..");
    assert "/a/.." == "/a" + ['/'] + "..";
    SplitAtLast("/a/..", "b");
    assert "/a/../b" == "/a/.." + ['/'] + "b";
  }

  lemma UpwardsAndBack(root: Node)
    requires root.Dir? && Given("a") in root.entries && root.entries[Given("a")].Dir?
    ensures Beneath(root, [], ["", "a", ".."]) == Arrived([])
  {
    assert ["", "a", ".."][1..] == ["a", ".."] && ["a", ".."][1..] == [".."] && [".."][1..] == [];
    DownIsDir(root, [], Given("a"));
    assert [] + [Given("a")] == [Given("a")] && [Given("a")][..0] == [];
    assert Beneath(root, [Given("a")], [".."]) == Beneath(root, [], []);
  }

  /** A step upwards: the one call takes it, the walk refuses it. */
  lemma AStepUpwardsTellsThemApart(root: Node, trusted: nat)
    requires root.Dir? && Given("a") in root.entries && root.entries[Given("a")].Dir?
    ensures Resolved(root, trusted, "/a/../b", false) == Success(([], "b"))
    ensures ThroughLinks(root, trusted, "/a/../b", false) == Failure(Conflict)
  {
    var path := "/a/../b";
    SplitUpwards();
    UpwardsAndBack(root);
    MeantHas(Split(path));
    assert ".." in ["", "a", "..", "b"] by {
      assert ["", "a", "..", "b"][2] == "..";
    }
    assert path[5] == '/' && path[6] == 'b' && LastSlash(path) == 5;
    assert path[..5] == "/a/.." && path[6..] == "b";
  }

  /** The one call gives an answer of its own, without the walk. */
  predicate OneCallAnswers(root: Node, path: string, followLast: bool)
    requires root.Dir?
  {
    var slash := LastSlash(path);
    slash < |path| &&
    var name := path[slash + 1..];
    !IsNothing(name) && name != ".." &&
    match Beneath(root, [], Split(path[..slash]))
    case LeftRoot => false
    case Refused(errno) => errno != Loop
    case Arrived(at) => !(followLast && LinkAt(root, at, name))
  }

  predicate LinkAt(root: Node, at: seq<Name>, name: string) {
    IsDir(root, at) && Given(name) in EntriesAt(root, at).value && EntriesAt(root, at).value[Given(name)].Link?
  }

  /** The two agree exactly on the normalised paths and where the one call leaves the answer to the walk. */
  lemma AgreesExactly(root: Node, trusted: nat, path: string, followLast: bool)
    requires root.Dir?
    ensures Resolved(root, trusted, path, followLast) == ThroughLinks(root, trusted, path, followLast)
      <==> IsNormalised(path) || !OneCallAnswers(root, path, followLast)
  {
    if IsNormalised(path) {
      OneCallAgreesWithTheWalk(root, trusted, path, followLast);
    }
  }

  // ---------------------------------------------------------------------------
  // What the walk keeps to

  /** The links that a walk follows, in order: `ResolveThroughLinks` collects them as it goes. */
  ghost function Followed(root: Node, trusted: nat, at: seq<Name>, remaining: seq<string>, hops: nat, followLast: bool): seq<Node>
    requires IsDir(root, at) && hops <= MAX_LINKS
    decreases MAX_LINKS - hops, |remaining|
  {
    if remaining == [] then []
    else if remaining[0] == ".." then
      if at == [] then Followed(root, trusted, at, remaining[1..], hops, followLast)
      else
        UpIsDir(root, at);
        Followed(root, trusted, at[..|at| - 1], remaining[1..], hops, followLast)
    else
      var name, rest := remaining[0], remaining[1..];
      var entries := EntriesAt(root, at).value;
      if Given(name) !in entries then []
      else
        var node := entries[Given(name)];
        if node.Link? && (rest != [] || followLast) then
          if node.owner.0 != trusted || hops == MAX_LINKS then []
          else [node] + Followed(root, trusted, if IsAbsolute(node.target) then [] else at,
                                 Components(node.target) + rest, hops + 1, followLast)
        else if rest == [] || !node.Dir? then []
        else
          DownIsDir(root, at, Given(name));
          Followed(root, trusted, at + [Given(name)], rest, hops, followLast)
  }

  /** The walk ends in a directory below the root, whatever the links and the steps upwards on its way. */
  lemma {:induction false} StaysBelowTheRoot(root: Node, trusted: nat, at: seq<Name>, remaining: seq<string>, hops: nat, followLast: bool)
    requires IsDir(root, at) && hops <= MAX_LINKS
    ensures var found := Walk(root, trusted, at, remaining, hops, followLast);
      found.Success? ==>
        IsDir(root, found.value.0) && found.value.1 != ".." &&
        (followLast && Given(found.value.1) in EntriesAt(root, found.value.0).value ==>
          !EntriesAt(root, found.value.0).value[Given(found.value.1)].Link?)
    decreases MAX_LINKS - hops, |remaining|
  {
    if remaining != [] {
      if remaining[0] == ".." {
        if at == [] {
          StaysBelowTheRoot(root, trusted, at, remaining[1..], hops, followLast);
        } else {
          UpIsDir(root, at);
          StaysBelowTheRoot(root, trusted, at[..|at| - 1], remaining[1..], hops, followLast);
        }
      } else {
        var name, rest, entries := Given(remaining[0]), remaining[1..], EntriesAt(root, at).value;
        if name in entries {
          var node := entries[name];
          if node.Link? && (rest != [] || followLast) {
            if node.owner.0 == trusted && hops < MAX_LINKS {
              StaysBelowTheRoot(root, trusted, if IsAbsolute(node.target) then [] else at, Components(node.target) + rest,
                                hops + 1, followLast);
            }
          } else if rest != [] && node.Dir? {
            DownIsDir(root, at, name);
            StaysBelowTheRoot(root, trusted, at + [name], rest, hops, followLast);
          }
        }
      }
    }
  }

  // ---------------------------------------------------------------------------
  // Links of other owners

  /** Two trees alike in everything but the targets of links that the trusted owner does not own. */
  ghost predicate Alike(a: Node, b: Node, trusted: nat)
    decreases a
  {
    a.id == b.id && a.mode == b.mode && a.owner == b.owner &&
    match a
    case File(_, _, _, contents) => b.File? && b.contents == contents
    case Link(_, _, _, target) => b.Link? && (a.owner.0 == trusted ==> b.target == target)
    case Dir(_, _, _, entries) =>
      b.Dir? && b.entries.Keys == entries.Keys && forall n :: n in entries ==> Alike(entries[n], b.entries[n], trusted)
  }

  ghost predicate EntriesAlike(a: Entries, b: Entries, trusted: nat) {
    a.Keys == b.Keys && forall n :: n in a ==> Alike(a[n], b[n], trusted)
  }

  lemma {:induction false} AlikeBelow(a: Node, b: Node, trusted: nat, dir: seq<Name>)
    requires Alike(a, b, trusted)
    ensures IsDir(a, dir) <==> IsDir(b, dir)
    ensures IsDir(a, dir) ==> EntriesAlike(EntriesAt(a, dir).value, EntriesAt(b, dir).value, trusted)
    decreases |dir|
  {
    if a.Dir? && dir != [] && dir[0] in a.entries {
      AlikeBelow(a.entries[dir[0]], b.entries[dir[0]], trusted, dir[1..]);
    }
  }

  /** The walk never reads where a link of another owner leads: in trees alike but for such targets it is the same. */
  lemma {:induction false} OthersLinksDoNotMatter(a: Node, b: Node, trusted: nat, at: seq<Name>, remaining: seq<string>,
                                                  hops: nat, followLast: bool)
    requires Alike(a, b, trusted) && IsDir(a, at) && hops <= MAX_LINKS
    ensures IsDir(b, at)
    ensures Walk(a, trusted, at, remaining, hops, followLast) == Walk(b, trusted, at, remaining, hops, followLast)
    decreases MAX_LINKS - hops, |remaining|
  {
    AlikeBelow(a, b, trusted, at);
    if remaining != [] {
      if remaining[0] == ".." {
        if at == [] {
          OthersLinksDoNotMatter(a, b, trusted, at, remaining[1..], hops, followLast);
        } else {
          UpIsDir(a, at);
          OthersLinksDoNotMatter(a, b, trusted, at[..|at| - 1], remaining[1..], hops, followLast);
        }
      } else {
        var name, rest, entries := Given(remaining[0]), remaining[1..], EntriesAt(a, at).value;
        if name in entries {
          var node := entries[name];
          assert Alike(node, EntriesAt(b, at).value[name], trusted);
          if node.Link? && (rest != [] || followLast) {
            if node.owner.0 == trusted && hops < MAX_LINKS {
              OthersLinksDoNotMatter(a, b, trusted, if IsAbsolute(node.target) then [] else at,
                                     Components(node.target) + rest, hops + 1, followLast);
            }
          } else if rest != [] && node.Dir? {
            DownIsDir(a, at, name);
            OthersLinksDoNotMatter(a, b, trusted, at + [name], rest, hops, followLast);
          }
        }
      }
    }
  }

  /** The lookup in one call never reads where any link leads. */
  lemma {:induction false} BeneathAlike(a: Node, b: Node, trusted: nat, at: seq<Name>, parts: seq<string>)
    requires Alike(a, b, trusted) && IsDir(a, at)
    ensures IsDir(b, at) && Beneath(a, at, parts) == Beneath(b, at, parts)
    decreases |parts|
  {
    AlikeBelow(a, b, trusted, at);
    if parts != [] {
      if IsNothing(parts[0]) {
        BeneathAlike(a, b, trusted, at, parts[1..]);
      } else if parts[0] == ".." {
        if at != [] {
          UpIsDir(a, at);
          BeneathAlike(a, b, trusted, at[..|at| - 1], parts[1..]);
        }
      } else {
        var name, entries := Given(parts[0]), EntriesAt(a, at).value;
        if name in entries {
          assert Alike(entries[name], EntriesAt(b, at).value[name], trusted);
          if entries[name].Dir? {
            DownIsDir(a, at, name);
            BeneathAlike(a, b, trusted, at + [name], parts[1..]);
          }
        }
      }
    }
  }

  lemma LinkAtAlike(a: Node, b: Node, trusted: nat, at: seq<Name>, name: string)
    requires Alike(a, b, trusted)
    ensures LinkAt(a, at, name) == LinkAt(b, at, name)
  {
    AlikeBelow(a, b, trusted, at);
    if IsDir(a, at) && Given(name) in EntriesAt(a, at).value {
      assert Alike(EntriesAt(a, at).value[Given(name)], EntriesAt(b, at).value[Given(name)], trusted);
    }
  }

  /** So it is for whole paths of any form, walked or looked up in one call. */
  lemma OthersLinksChangeNothing(a: Node, b: Node, trusted: nat, path: string, followLast: bool)
    requires a.Dir? && Alike(a, b, trusted)
    ensures ThroughLinks(a, trusted, path, followLast) == ThroughLinks(b, trusted, path, followLast)
    ensures Resolved(a, trusted, path, followLast) == Resolved(b, trusted, path, followLast)
  {
    OthersLinksDoNotMatter(a, b, trusted, [], Components(path), 0, followLast);
    var slash := LastSlash(path);
    if slash < |path| {
      var found := Beneath(a, [], Split(path[..slash]));
      BeneathAlike(a, b, trusted, [], Split(path[..slash]));
      if found.Arrived? {
        LinkAtAlike(a, b, trusted, found.at, path[slash + 1..]);
      }
    }
  }

  /** The links that the loop follows are the trusted owner's, and no more than the limit. */
  lemma {:induction false} FollowsOnlyTheTrusted(root: Node, trusted: nat, at: seq<Name>, remaining: seq<string>, hops: nat, followLast: bool)
    requires IsDir(root, at) && hops <= MAX_LINKS
    ensures var links := Followed(root, trusted, at, remaining, hops, followLast);
      |links| <= MAX_LINKS - hops && forall i :: 0 <= i < |links| ==> links[i].Link? && links[i].owner.0 == trusted
    decreases MAX_LINKS - hops, |remaining|
  {
    if remaining != [] {
      if remaining[0] == ".." {
        if at == [] {
          FollowsOnlyTheTrusted(root, trusted, at, remaining[1..], hops, followLast);
        } else {
          UpIsDir(root, at);
          FollowsOnlyTheTrusted(root, trusted, at[..|at| - 1], remaining[1..], hops, followLast);
        }
      } else {
        var name, rest, entries := Given(remaining[0]), remaining[1..], EntriesAt(root, at).value;
        if name in entries {
          var node := entries[name];
          if node.Link? && (rest != [] || followLast) {
            if node.owner.0 == trusted && hops < MAX_LINKS {
              FollowsOnlyTheTrusted(root, trusted, if IsAbsolute(node.target) then [] else at,
                                    Components(node.target) + rest, hops + 1, followLast);
            }
          } else if rest != [] && node.Dir? {
            DownIsDir(root, at, name);
            FollowsOnlyTheTrusted(root, trusted, at + [name], rest, hops, followLast);
          }
        }
      }
    }
  }

  // ---------------------------------------------------------------------------
  // The loops

  /** The directories from the root to the current one; the first always stays. */
  predicate IsStack(stack: seq<seq<Name>>) {
    stack != [] && stack[0] == [] && forall i :: 0 < i < |stack| ==> stack[i] != [] && stack[i][..|stack[i]| - 1] == stack[i - 1]
  }

  /** What is left of the walk comes to the whole, and what it will follow completes what was followed. */
  ghost predicate OnTrack(root: Node, trusted: nat, path: string, followLast: bool, at: seq<Name>, remaining: seq<string>,
                          hops: nat, followed: seq<Node>)
  {
    hops <= MAX_LINKS && IsDir(root, at) && root.Dir? &&
    Walk(root, trusted, at, remaining, hops, followLast) == ThroughLinks(root, trusted, path, followLast) &&
    followed + Followed(root, trusted, at, remaining, hops, followLast)
      == Followed(root, trusted, [], Components(path), 0, followLast)
  }

  lemma StepUp(root: Node, trusted: nat, path: string, followLast: bool, at: seq<Name>, remaining: seq<string>,
               hops: nat, followed: seq<Node>)
    requires OnTrack(root, trusted, path, followLast, at, [".."] + remaining, hops, followed)
    ensures OnTrack(root, trusted, path, followLast, if at == [] then at else at[..|at| - 1], remaining, hops, followed)
  {
    assert ([".."] + remaining)[1..] == remaining;
    if at != [] {
      UpIsDir(root, at);
    }
  }

  lemma StepDown(root: Node, trusted: nat, path: string, followLast: bool, at: seq<Name>, name: string,
                 remaining: seq<string>, hops: nat, followed: seq<Node>)
    requires OnTrack(root, trusted, path, followLast, at, [name] + remaining, hops, followed)
    requires name != ".." && remaining != [] && Given(name) in EntriesAt(root, at).value
    requires EntriesAt(root, at).value[Given(name)].Dir?
    ensures OnTrack(root, trusted, path, followLast, at + [Given(name)], remaining, hops, followed)
  {
    assert ([name] + remaining)[1..] == remaining;
    DownIsDir(root, at, Given(name));
  }

  /** One link is followed: the walk goes on where it leads, one hop further. */
  lemma StepAlong(root: Node, trusted: nat, path: string, followLast: bool, at: seq<Name>, name: string,
                  remaining: seq<string>, hops: nat, followed: seq<Node>)
    requires OnTrack(root, trusted, path, followLast, at, [name] + remaining, hops, followed)
    requires name != ".." && hops < MAX_LINKS && LinkAt(root, at, name) && (remaining != [] || followLast)
    requires EntriesAt(root, at).value[Given(name)].owner.0 == trusted
    ensures var node := EntriesAt(root, at).value[Given(name)];
      OnTrack(root, trusted, path, followLast, if IsAbsolute(node.target) then [] else at,
              Components(node.target) + remaining, hops + 1, followed + [node])
  {
    assert ([name] + remaining)[1..] == remaining;
    var node := EntriesAt(root, at).value[Given(name)];
    var more := Followed(root, trusted, if IsAbsolute(node.target) then [] else at,
                         Components(node.target) + remaining, hops + 1, followLast);
    assert followed + [node] + more == followed + ([node] + more);
  }

  /** The walk is over: the name is missing, last, no directory, or a link that is not followed. */
  lemma StepOut(root: Node, trusted: nat, path: string, followLast: bool, at: seq<Name>, name: string,
                remaining: seq<string>, hops: nat, followed: seq<Node>)
    requires OnTrack(root, trusted, path, followLast, at, [name] + remaining, hops, followed) && name != ".."
    ensures var entries, found := EntriesAt(root, at).value, ThroughLinks(root, trusted, path, followLast);
      var ended := followed == Followed(root, trusted, [], Components(path), 0, followLast);
      if Given(name) !in entries then ended && found == if remaining == [] then Success((at, name)) else Failure(Io(NoEnt))
      else if entries[Given(name)].Link? && (remaining != [] || followLast) then
        (entries[Given(name)].owner.0 != trusted ==> ended && found == Failure(Conflict)) &&
        (entries[Given(name)].owner.0 == trusted && hops == MAX_LINKS ==> ended && found == Failure(Io(Loop)))
      else if remaining == [] then ended && found == Success((at, name))
      else !entries[Given(name)].Dir? ==> ended && found == Failure(Io(NotDir))
  {
    assert ([name] + remaining)[1..] == remaining;
  }

  /** `followed` is what `readlinkat` was asked for. */
  method ResolveThroughLinks(root: Node, trusted: nat, path: string, followLast: bool)
    returns (found: Found, ghost followed: seq<Node>)
    requires root.Dir?
    ensures found == ThroughLinks(root, trusted, path, followLast)
    ensures followed == if IsNormalised(path) then Followed(root, trusted, [], Components(path), 0, followLast) else []
    ensures |followed| <= MAX_LINKS && forall i :: 0 <= i < |followed| ==> followed[i].Link? && followed[i].owner.0 == trusted
  {
    followed := [];
    if !IsNormalised(path) {
      return Failure(Conflict), followed;
    }
    FollowsOnlyTheTrusted(root, trusted, [], Components(path), 0, followLast);
    var remaining := Components(path);
    var stack: seq<seq<Name>> := [[]];
    var hops := 0;
    while remaining != []
      invariant hops <= MAX_LINKS && IsStack(stack) && IsDir(root, stack[|stack| - 1])
      invariant OnTrack(root, trusted, path, followLast, stack[|stack| - 1], remaining, hops, followed)
      decreases MAX_LINKS - hops, |remaining|
    {
      var name := remaining[0];
      assert remaining == [name] + remaining[1..];
      remaining := remaining[1..];
      var at := stack[|stack| - 1];
      if name == ".." {
        StepUp(root, trusted, path, followLast, at, remaining, hops, followed);
        if |stack| > 1 {
          UpIsDir(root, at);
          stack := stack[..|stack| - 1];
        }
        continue;
      }
      StepOut(root, trusted, path, followLast, at, name, remaining, hops, followed);
      var last := remaining == [];
      var entries := EntriesAt(root, at).value;
      if Given(name) !in entries {
        if last {
          return Success((at, name)), followed;
        }
        return Failure(Io(NoEnt)), followed;
      }
      var node := entries[Given(name)];
      if node.Link? && (!last || followLast) {
        if node.owner.0 != trusted {
          return Failure(Conflict), followed;
        }
        hops := hops + 1;
        if hops > MAX_LINKS {
          return Failure(Io(Loop)), followed;
        }
        StepAlong(root, trusted, path, followLast, at, name, remaining, hops - 1, followed);
        followed := followed + [node];
        if IsAbsolute(node.target) {
          stack := stack[..1];
        }
        remaining := Components(node.target) + remaining;
        continue;
      }
      if last {
        return Success((at, name)), followed;
      }
      if !node.Dir? {
        return Failure(Io(NotDir)), followed;
      }
      StepDown(root, trusted, path, followLast, at, name, remaining, hops, followed);
      DownIsDir(root, at, Given(name));
      assert (at + [Given(name)])[..|at|] == at;
      stack := stack + [at + [Given(name)]];
    }
    return Failure(Conflict), followed;
  }

  method Find(root: Node, trusted: nat, path: string, followLast: bool) returns (found: Found)
    requires root.Dir?
    ensures found == Resolved(root, trusted, path, followLast)
    ensures IsNormalised(path) ==> found == ThroughLinks(root, trusted, path, followLast)
  {
    if IsNormalised(path) {
      OneCallAgreesWithTheWalk(root, trusted, path, followLast);
    }
    ghost var followed: seq<Node>;
    var slash := LastSlash(path);
    if slash == |path| || IsNothing(path[slash + 1..]) || path[slash + 1..] == ".." {
      found, followed := ResolveThroughLinks(root, trusted, path, followLast);
      return;
    }
    var name := path[slash + 1..];
    var walked := Beneath(root, [], Split(path[..slash]));
    if walked.LeftRoot? || (walked.Refused? && walked.errno == Loop) {
      found, followed := ResolveThroughLinks(root, trusted, path, followLast);
      return;
    }
    if walked.Refused? {
      return Failure(Io(walked.errno));
    }
    if followLast && IsDir(root, walked.at) {
      var entries := EntriesAt(root, walked.at).value;
      if Given(name) in entries && entries[Given(name)].Link? {
        found, followed := ResolveThroughLinks(root, trusted, path, followLast);
        return;
      }
    }
    return Success((walked.at, name));
  }
}
