/** The attribute set of crates/nixgen/src/ast.rs: a vector of entries kept sorted by key. */
module AttrSet {
  import opened Wrappers
  import opened Ast
  import opened Reader

  // ---------------------------------------------------------------------------
  // The order of keys

  lemma {:induction false} LessOrEqualOrMore(a: string, b: string)
    ensures Less(a, b) || a == b || Less(b, a)
    ensures !(Less(a, b) && Less(b, a)) && !Less(a, a)
  {
    if a != "" {
      LessOrEqualOrMore(a[1..], a[1..]);
    }
    if a != "" && b != "" && a[0] == b[0] {
      LessOrEqualOrMore(a[1..], b[1..]);
      assert [a[0]] + a[1..] == a && [b[0]] + b[1..] == b;
    }
  }

  lemma {:induction false} LessChains(a: string, b: string, c: string)
    requires Less(a, b) && Less(b, c)
    ensures Less(a, c)
  {
    if a != "" && a[0] == b[0] == c[0] {
      LessChains(a[1..], b[1..], c[1..]);
    }
  }

  // ---------------------------------------------------------------------------
  // What a list of entries says of a key

  /** The value of the last entry with this key. */
  function Lookup(entries: seq<Entry>, key: string): Option<Expr> {
    if entries == [] then None
    else
      var n := |entries| - 1;
      if entries[n].key == key then Some(entries[n].value) else Lookup(entries[..n], key)
  }

  lemma {:induction false} LookupFinds(entries: seq<Entry>, i: nat)
    requires KeysIncrease(entries) && i < |entries|
    ensures Lookup(entries, entries[i].key) == Some(entries[i].value)
  {
    var n := |entries| - 1;
    if i < n {
      LessOrEqualOrMore(entries[i].key, entries[n].key);
      assert Less(entries[i].key, entries[n].key);
      LookupFinds(entries[..n], i);
    }
  }

  lemma {:induction false} LookupMisses(entries: seq<Entry>, key: string)
    ensures Lookup(entries, key) == None <==> forall i :: 0 <= i < |entries| ==> entries[i].key != key
  {
    if entries != [] {
      var n := |entries| - 1;
      LookupMisses(entries[..n], key);
      assert entries == entries[..n] + [entries[n]];
    }
  }

  lemma {:induction false} LookupJoins(a: seq<Entry>, b: seq<Entry>, key: string)
    ensures Lookup(a + b, key) == if Lookup(b, key).Some? then Lookup(b, key) else Lookup(a, key)
  {
    if b == [] {
      assert a + b == a;
    } else {
      var n := |b| - 1;
      assert (a + b)[..|a| + n] == a + b[..n];
      LookupJoins(a, b[..n], key);
    }
  }

  ghost predicate SameLookup(a: seq<Entry>, b: seq<Entry>) {
    forall key :: Lookup(a, key) == Lookup(b, key)
  }

  /** Increasing keys leave no choice: what the keys mean is the list. */
  lemma {:induction false} LookupDetermines(a: seq<Entry>, b: seq<Entry>)
    requires KeysIncrease(a) && KeysIncrease(b) && SameLookup(a, b)
    ensures a == b
    decreases |a|
  {
    EmptyTogether(a, b);
    EmptyTogether(b, a);
    if a != [] {
      var m, n := |a| - 1, |b| - 1;
      LastIsLargest(a, b);
      LastIsLargest(b, a);
      LessOrEqualOrMore(a[m].key, b[n].key);
      LookupFinds(a, m);
      LookupFinds(b, n);
      forall key
        ensures Lookup(a[..m], key) == Lookup(b[..n], key)
      {
        assert Lookup(a, key) == Lookup(b, key);
        if key == a[m].key {
          LastIsNew(a);
          LastIsNew(b);
        }
      }
      LookupDetermines(a[..m], b[..n]);
      assert a == a[..m] + [a[m]] && b == b[..n] + [b[n]];
    }
  }

  lemma LastIsNew(a: seq<Entry>)
    requires KeysIncrease(a) && a != []
    ensures Lookup(a[..|a| - 1], a[|a| - 1].key) == None
  {
    var m := |a| - 1;
    forall i | 0 <= i < m
      ensures a[i].key != a[m].key
    {
      LessOrEqualOrMore(a[i].key, a[m].key);
    }
    LookupMisses(a[..m], a[m].key);
  }

  lemma EmptyTogether(a: seq<Entry>, b: seq<Entry>)
    requires KeysIncrease(b) && SameLookup(a, b)
    ensures a == [] ==> b == []
  {
    if b != [] {
      LookupFinds(b, 0);
      assert Lookup(a, b[0].key).Some?;
    }
  }

  lemma LastIsLargest(a: seq<Entry>, b: seq<Entry>)
    requires KeysIncrease(a) && KeysIncrease(b) && SameLookup(a, b) && a != [] && b != []
    ensures !Less(b[|b| - 1].key, a[|a| - 1].key)
  {
    var m, n := |a| - 1, |b| - 1;
    LookupFinds(a, m);
    assert Lookup(a, a[m].key) == Lookup(b, a[m].key);
    LookupMisses(b, a[m].key);
    var i :| 0 <= i < |b| && b[i].key == a[m].key;
    LessOrEqualOrMore(b[i].key, b[n].key);
  }

  // ---------------------------------------------------------------------------
  // Inserting

  lemma {:induction false} InsertBehind(head: seq<Entry>, rest: seq<Entry>, entry: Entry)
    requires forall i :: 0 <= i < |head| ==> Less(head[i].key, entry.key)
    ensures InsertEntry(head + rest, entry) == head + InsertEntry(rest, entry)
  {
    if head == [] {
      assert head + rest == rest;
    } else {
      InsertBehind(head[1..], rest, entry);
      InsertPasses(head, rest, entry);
      assert [head[0]] + (head[1..] + InsertEntry(rest, entry)) == head + InsertEntry(rest, entry);
    }
  }

  lemma InsertPasses(head: seq<Entry>, rest: seq<Entry>, entry: Entry)
    requires head != [] && Less(head[0].key, entry.key)
    ensures InsertEntry(head + rest, entry) == [head[0]] + InsertEntry(head[1..] + rest, entry)
  {
    LessOrEqualOrMore(head[0].key, entry.key);
    assert (head + rest)[1..] == head[1..] + rest;
  }

  /** `InsertEntry` where the place is known: in front of `at`, or in place of it. */
  lemma InsertAt(entries: seq<Entry>, entry: Entry, at: nat)
    requires at <= |entries|
    requires forall i :: 0 <= i < at ==> Less(entries[i].key, entry.key)
    requires at < |entries| ==> !Less(entries[at].key, entry.key)
    ensures InsertEntry(entries, entry) ==
      if at < |entries| && entries[at].key == entry.key then entries[at := entry]
      else entries[..at] + [entry] + entries[at..]
  {
    var head, rest := entries[..at], entries[at..];
    assert entries == head + rest;
    InsertBehind(head, rest, entry);
    InsertInFront(rest, entry);
    if rest != [] && rest[0].key == entry.key {
      assert head + ([entry] + rest[1..]) == entries[at := entry];
    } else {
      assert head + ([entry] + rest) == head + [entry] + rest;
    }
  }

  lemma InsertInFront(rest: seq<Entry>, entry: Entry)
    requires rest != [] ==> !Less(rest[0].key, entry.key)
    ensures InsertEntry(rest, entry) ==
      if rest != [] && rest[0].key == entry.key then [entry] + rest[1..] else [entry] + rest
  {
    if rest != [] {
      LessOrEqualOrMore(rest[0].key, entry.key);
    }
  }

  /** Where `InsertEntry` puts an entry, found from the front. */
  ghost function Place(entries: seq<Entry>, key: string): (at: nat)
    ensures at <= |entries|
    ensures forall i :: 0 <= i < at ==> Less(entries[i].key, key)
    ensures at < |entries| ==> !Less(entries[at].key, key)
  {
    if entries == [] || !Less(entries[0].key, key) then 0 else 1 + Place(entries[1..], key)
  }

  /** The keys stay in order, and only the inserted key means something new. */
  lemma InsertKeeps(entries: seq<Entry>, entry: Entry)
    requires KeysIncrease(entries)
    ensures KeysIncrease(InsertEntry(entries, entry))
    ensures forall key :: Lookup(InsertEntry(entries, entry), key)
                       == if key == entry.key then Some(entry.value) else Lookup(entries, key)
  {
    var at := Place(entries, entry.key);
    var tail := InsertSplits(entries, entry, at);
    var head := entries[..at];
    TailIsAbove(entries, entry.key, at, tail);
    JoinIncreases(head, entry, tail);
    forall key
      ensures Lookup(InsertEntry(entries, entry), key)
           == if key == entry.key then Some(entry.value) else Lookup(entries, key)
    {
      if at < |entries| && entries[at].key == entry.key {
        LookupReplaced(head, entries[at], entry, tail, key);
      } else {
        LookupAdded(head, entry, tail, key);
      }
    }
  }

  lemma InsertSplits(entries: seq<Entry>, entry: Entry, at: nat) returns (tail: seq<Entry>)
    requires at <= |entries|
    requires forall i :: 0 <= i < at ==> Less(entries[i].key, entry.key)
    requires at < |entries| ==> !Less(entries[at].key, entry.key)
    ensures tail == if at < |entries| && entries[at].key == entry.key then entries[at + 1..] else entries[at..]
    ensures InsertEntry(entries, entry) == entries[..at] + [entry] + tail
    ensures entries == if at < |entries| && entries[at].key == entry.key then entries[..at] + [entries[at]] + tail
                       else entries[..at] + tail
  {
    InsertAt(entries, entry, at);
    tail := if at < |entries| && entries[at].key == entry.key then entries[at + 1..] else entries[at..];
  }

  lemma LookupReplaced(head: seq<Entry>, previous: Entry, entry: Entry, tail: seq<Entry>, key: string)
    requires previous.key == entry.key
    requires forall i :: 0 <= i < |tail| ==> Less(entry.key, tail[i].key)
    ensures Lookup(head + [entry] + tail, key)
         == if key == entry.key then Some(entry.value) else Lookup(head + [previous] + tail, key)
  {
    LookupAround(head, entry, tail, key);
    LookupAround(head, previous, tail, key);
    NotAbove(tail, entry.key);
  }

  lemma LookupAdded(head: seq<Entry>, entry: Entry, tail: seq<Entry>, key: string)
    requires forall i :: 0 <= i < |tail| ==> Less(entry.key, tail[i].key)
    ensures Lookup(head + [entry] + tail, key)
         == if key == entry.key then Some(entry.value) else Lookup(head + tail, key)
  {
    LookupAround(head, entry, tail, key);
    LookupJoins(head, tail, key);
    NotAbove(tail, entry.key);
  }

  lemma NotAbove(entries: seq<Entry>, key: string)
    requires forall i :: 0 <= i < |entries| ==> Less(key, entries[i].key)
    ensures Lookup(entries, key) == None
  {
    forall i | 0 <= i < |entries| ensures entries[i].key != key {
      LessOrEqualOrMore(key, entries[i].key);
    }
    LookupMisses(entries, key);
  }

  lemma TailIsAbove(entries: seq<Entry>, key: string, at: nat, tail: seq<Entry>)
    requires KeysIncrease(entries) && at <= |entries|
    requires at < |entries| ==> !Less(entries[at].key, key)
    requires tail == if at < |entries| && entries[at].key == key then entries[at + 1..] else entries[at..]
    ensures KeysIncrease(tail)
    ensures forall i :: 0 <= i < |tail| ==> Less(key, tail[i].key)
  {
    if at < |entries| {
      LessOrEqualOrMore(entries[at].key, key);
      forall i | 0 <= i < |tail|
        ensures Less(key, tail[i].key)
      {
        if entries[at].key != key && i > 0 {
          assert tail[i] == entries[at + i];
          LessChains(key, entries[at].key, tail[i].key);
        }
      }
    }
  }

  lemma JoinIncreases(a: seq<Entry>, entry: Entry, b: seq<Entry>)
    requires KeysIncrease(a) && KeysIncrease(b)
    requires forall i :: 0 <= i < |a| ==> Less(a[i].key, entry.key)
    requires forall i :: 0 <= i < |b| ==> Less(entry.key, b[i].key)
    ensures KeysIncrease(a + [entry] + b)
  {
    var r := a + [entry] + b;
    forall i, j | 0 <= i < j < |r|
      ensures Less(r[i].key, r[j].key)
    {
      var at := |a|;
      if i < at && at < j {
        assert r[i] == a[i] && r[j] == b[j - at - 1];
        LessChains(r[i].key, entry.key, r[j].key);
      }
    }
  }

  lemma LookupAround(a: seq<Entry>, entry: Entry, b: seq<Entry>, key: string)
    ensures Lookup(a + [entry] + b, key) ==
      if Lookup(b, key).Some? then Lookup(b, key)
      else if key == entry.key then Some(entry.value)
      else Lookup(a, key)
  {
    LookupJoins(a + [entry], b, key);
    assert (a + [entry])[..|a|] == a;
  }

  /** The entries inserted one by one, in the order given. */
  function InsertAll(entries: seq<Entry>): seq<Entry> {
    if entries == [] then []
    else InsertEntry(InsertAll(entries[..|entries| - 1]), entries[|entries| - 1])
  }

  lemma {:induction false} InsertAllMeans(entries: seq<Entry>)
    ensures KeysIncrease(InsertAll(entries)) && SameLookup(InsertAll(entries), entries)
  {
    if entries != [] {
      var n := |entries| - 1;
      InsertAllMeans(entries[..n]);
      InsertKeeps(InsertAll(entries[..n]), entries[n]);
      forall key
        ensures Lookup(InsertAll(entries), key) == Lookup(entries, key)
      {
        assert Lookup(InsertAll(entries[..n]), key) == Lookup(entries[..n], key);
      }
    }
  }

  // ---------------------------------------------------------------------------
  // Collecting

  ghost predicate KeysDoNotDecrease(entries: seq<Entry>) {
    forall i, j :: 0 <= i < j < |entries| ==> !Less(entries[j].key, entries[i].key)
  }

  function WithKey(entries: seq<Entry>, key: string): seq<Entry> {
    if entries == [] then []
    else
      var n := |entries| - 1;
      WithKey(entries[..n], key) + if entries[n].key == key then [entries[n]] else []
  }

  /** What `slice::sort_by` promises: order by key, and entries of one key as they came. */
  ghost predicate IsStableSort(entries: seq<Entry>, sorted: seq<Entry>) {
    KeysDoNotDecrease(sorted) && forall key :: WithKey(sorted, key) == WithKey(entries, key)
  }

  lemma {:induction false} LookupIsLastWithKey(entries: seq<Entry>, key: string)
    ensures Lookup(entries, key) ==
      var w := WithKey(entries, key); if w == [] then None else Some(w[|w| - 1].value)
  {
    if entries != [] {
      LookupIsLastWithKey(entries[..|entries| - 1], key);
    }
  }

  /** `Vec::sort_by`, as an insertion sort: each entry goes behind those with the same key. */
  method SortByKey(entries: seq<Entry>) returns (sorted: seq<Entry>)
    ensures IsStableSort(entries, sorted)
  {
    sorted := [];
    for i := 0 to |entries|
      invariant IsStableSort(entries[..i], sorted)
    {
      var at := |sorted|;
      while at > 0 && Less(entries[i].key, sorted[at - 1].key)
        invariant 0 <= at <= |sorted|
        invariant forall j :: at <= j < |sorted| ==> Less(entries[i].key, sorted[j].key)
      {
        at := at - 1;
      }
      SortedWithOneMore(entries[..i], sorted, entries[i], at);
      assert entries[..i + 1] == entries[..i] + [entries[i]];
      sorted := sorted[..at] + [entries[i]] + sorted[at..];
    }
    assert entries[..|entries|] == entries;
  }

  lemma {:induction false} WithKeyJoins(a: seq<Entry>, b: seq<Entry>, key: string)
    ensures WithKey(a + b, key) == WithKey(a, key) + WithKey(b, key)
  {
    if b == [] {
      assert a + b == a;
    } else {
      var n := |b| - 1;
      assert (a + b)[..|a| + n] == a + b[..n];
      WithKeyJoins(a, b[..n], key);
    }
  }

  lemma {:induction false} NoneWithKey(entries: seq<Entry>, key: string)
    requires forall i :: 0 <= i < |entries| ==> entries[i].key != key
    ensures WithKey(entries, key) == []
  {
    if entries != [] {
      NoneWithKey(entries[..|entries| - 1], key);
    }
  }

  lemma SortedWithOneMore(entries: seq<Entry>, sorted: seq<Entry>, entry: Entry, at: nat)
    requires IsStableSort(entries, sorted) && at <= |sorted|
    requires at > 0 ==> !Less(entry.key, sorted[at - 1].key)
    requires forall j :: at <= j < |sorted| ==> Less(entry.key, sorted[j].key)
    ensures IsStableSort(entries + [entry], sorted[..at] + [entry] + sorted[at..])
  {
    var head, tail := sorted[..at], sorted[at..];
    assert head + tail == sorted;
    HeadIsNotAbove(head, entry.key);
    JoinDoesNotDecrease(head, entry, tail);
    forall key
      ensures WithKey(head + [entry] + tail, key) == WithKey(entries + [entry], key)
    {
      WithKeyJoins(head + [entry], tail, key);
      WithKeyJoins(head, [entry], key);
      WithKeyJoins(head, tail, key);
      WithKeyJoins(entries, [entry], key);
      assert WithKey(sorted, key) == WithKey(entries, key);
      if key == entry.key {
        NoneAbove(tail, key);
      }
    }
  }

  lemma NoneAbove(entries: seq<Entry>, key: string)
    requires forall i :: 0 <= i < |entries| ==> Less(key, entries[i].key)
    ensures WithKey(entries, key) == []
  {
    forall i | 0 <= i < |entries| ensures entries[i].key != key {
      LessOrEqualOrMore(key, entries[i].key);
    }
    NoneWithKey(entries, key);
  }

  lemma HeadIsNotAbove(head: seq<Entry>, key: string)
    requires KeysDoNotDecrease(head)
    requires head != [] ==> !Less(key, head[|head| - 1].key)
    ensures forall i :: 0 <= i < |head| ==> !Less(key, head[i].key)
  {
    forall i | 0 <= i < |head|
      ensures !Less(key, head[i].key)
    {
      var last := head[|head| - 1].key;
      if i < |head| - 1 && Less(key, head[i].key) {
        assert !Less(last, head[i].key);
        LessOrEqualOrMore(head[i].key, last);
        if Less(head[i].key, last) {
          LessChains(key, head[i].key, last);
        }
      }
    }
  }

  lemma JoinDoesNotDecrease(a: seq<Entry>, entry: Entry, b: seq<Entry>)
    requires KeysDoNotDecrease(a + b)
    requires forall i :: 0 <= i < |a| ==> !Less(entry.key, a[i].key)
    requires forall i :: 0 <= i < |b| ==> Less(entry.key, b[i].key)
    ensures KeysDoNotDecrease(a + [entry] + b)
  {
    var at, s, r := |a|, a + b, a + [entry] + b;
    forall i, j | 0 <= i < j < |r|
      ensures !Less(r[j].key, r[i].key)
    {
      if i == at {
        assert r[j] == b[j - at - 1];
        LessOrEqualOrMore(entry.key, r[j].key);
      } else if j != at {
        assert r[i] == s[if i < at then i else i - 1] && r[j] == s[if j < at then j else j - 1];
      }
    }
  }

  /**
   `FromIterator`: sorts, then drops each entry whose key is that of the entry kept before it,
   handing its value over. The result is what inserting the entries one by one gives.
   */
  method FromEntries(entries: seq<Entry>) returns (kept: seq<Entry>)
    ensures kept == InsertAll(entries)
    ensures KeysIncrease(kept)
  {
    var sorted := SortByKey(entries);
    kept := [];
    for i := 0 to |sorted|
      invariant KeysIncrease(kept) && SameLookup(kept, sorted[..i])
      invariant if i == 0 then kept == [] else kept != [] && kept[|kept| - 1].key == sorted[i - 1].key
    {
      assert sorted[..i + 1][..i] == sorted[..i];
      ghost var before := kept;
      if kept != [] && kept[|kept| - 1].key == sorted[i].key {
        kept := kept[|kept| - 1 := Entry(kept[|kept| - 1].key, sorted[i].value)];
        assert kept[..|kept| - 1] == before[..|before| - 1];
      } else {
        if kept != [] {
          LessOrEqualOrMore(kept[|kept| - 1].key, sorted[i].key);
          assert !Less(sorted[i].key, sorted[i - 1].key);
        }
        AppendKeeps(kept, sorted[i]);
        kept := kept + [sorted[i]];
        assert kept[..|before|] == before;
      }
      forall key
        ensures Lookup(kept, key) == Lookup(sorted[..i + 1], key)
      {
        assert Lookup(before, key) == Lookup(sorted[..i], key);
      }
    }
    assert sorted[..|sorted|] == sorted;
    forall key
      ensures Lookup(kept, key) == Lookup(entries, key)
    {
      assert WithKey(sorted, key) == WithKey(entries, key);
      LookupIsLastWithKey(sorted, key);
      LookupIsLastWithKey(entries, key);
      assert Lookup(kept, key) == Lookup(sorted, key);
    }
    InsertAllMeans(entries);
    forall key
      ensures Lookup(kept, key) == Lookup(InsertAll(entries), key)
    {
      assert Lookup(InsertAll(entries), key) == Lookup(entries, key);
    }
    LookupDetermines(kept, InsertAll(entries));
  }

  lemma AppendKeeps(entries: seq<Entry>, entry: Entry)
    requires KeysIncrease(entries)
    requires entries != [] ==> Less(entries[|entries| - 1].key, entry.key)
    ensures KeysIncrease(entries + [entry])
  {
    var r := entries + [entry];
    forall i, j | 0 <= i < j < |r|
      ensures Less(r[i].key, r[j].key)
    {
      if j == |entries| && i < |entries| - 1 {
        LessChains(r[i].key, entries[|entries| - 1].key, entry.key);
      }
    }
  }

  class AttrSet {
    var entries: seq<Entry>

    ghost predicate Valid()
      reads this
    {
      KeysIncrease(entries)
    }

    constructor ()
      ensures Valid() && entries == []
    {
      entries := [];
    }

    /** `binary_search_by`: the index of the key, or where it belongs. */
    method Search(key: string) returns (found: bool, index: nat)
      requires Valid()
      ensures index <= |entries|
      ensures forall i :: 0 <= i < index ==> Less(entries[i].key, key)
      ensures index < |entries| ==> !Less(entries[index].key, key)
      ensures found <==> index < |entries| && entries[index].key == key
    {
      index := 0;
      var high := |entries|;
      while index < high
        invariant 0 <= index <= high <= |entries|
        invariant forall i :: 0 <= i < index ==> Less(entries[i].key, key)
        invariant forall i :: high <= i < |entries| ==> !Less(entries[i].key, key)
      {
        var middle := index + (high - index) / 2;
        if Less(entries[middle].key, key) {
          forall i | 0 <= i < middle ensures Less(entries[i].key, key) {
            LessChains(entries[i].key, entries[middle].key, key);
          }
          index := middle + 1;
        } else {
          forall i | middle < i < |entries| ensures !Less(entries[i].key, key) {
            if Less(entries[i].key, key) {
              LessChains(entries[middle].key, entries[i].key, key);
            }
          }
          high := middle;
        }
      }
      found := index < |entries| && entries[index].key == key;
    }

    /** Returns the value that the key had before. */
    method Insert(key: string, value: Expr) returns (previous: Option<Expr>)
      requires Valid()
      modifies this
      ensures Valid() && entries == InsertEntry(old(entries), Entry(key, value))
      ensures previous == Lookup(old(entries), key)
    {
      var found, index := Search(key);
      InsertAt(entries, Entry(key, value), index);
      InsertKeeps(entries, Entry(key, value));
      if found {
        LookupFinds(entries, index);
        previous := Some(entries[index].value);
        entries := entries[index := Entry(key, value)];
      } else {
        forall i | 0 <= i < |entries|
          ensures entries[i].key != key
        {
          LessOrEqualOrMore(entries[i].key, key);
          if i > index {
            LessOrEqualOrMore(entries[index].key, key);
            LessOrEqualOrMore(key, entries[index].key);
          }
        }
        LookupMisses(entries, key);
        previous := None;
        entries := entries[..index] + [Entry(key, value)] + entries[index..];
      }
    }
  }
}
