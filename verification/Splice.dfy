/**
 The flake template: a text is split once at its markers (the loop of crates/nixgen/build.rs), and
 later values are put where the markers stood (`FlakeConfig::render` of crates/nixgen/src/flake.rs).
 */
module Splice {
  import opened Wrappers

  // ---------------------------------------------------------------------------
  // Filling

  predicate AllIn<H>(holes: seq<H>, texts: map<H, string>) { forall i :: 0 <= i < |holes| ==> holes[i] in texts }

  predicate InRange(holes: seq<nat>, n: nat) { forall i :: 0 <= i < |holes| ==> holes[i] < n }

  /** The chunks with the texts of the holes between them. */
  function Fill<H>(chunks: seq<string>, holes: seq<H>, texts: map<H, string>): string
    requires |chunks| == |holes| + 1 && AllIn(holes, texts)
    decreases |holes|
  {
    if holes == [] then chunks[0] else chunks[0] + (texts[holes[0]] + Fill(chunks[1..], holes[1..], texts))
  }

  /** `render`: each chunk, and behind it the text of its hole if it has one. */
  method Render<H(==)>(chunks: seq<string>, holes: seq<H>, texts: map<H, string>) returns (out: string)
    requires |chunks| == |holes| + 1 && AllIn(holes, texts)
    ensures out == Fill(chunks, holes, texts)
  {
    out := "";
    assert chunks[0..] == chunks && holes[0..] == holes;
    assert out + Fill(chunks, holes, texts) == Fill(chunks, holes, texts);
    for i := 0 to |chunks|
      invariant i <= |holes| ==> out + Fill(chunks[i..], holes[i..], texts) == Fill(chunks, holes, texts)
      invariant i == |chunks| ==> out == Fill(chunks, holes, texts)
    {
      ghost var before := out;
      assert chunks[i..][1..] == chunks[i + 1..];
      out := out + chunks[i];
      if i < |holes| {
        assert holes[i..][1..] == holes[i + 1..];
        out := out + texts[holes[i]];
        Joined(before, chunks[i], texts[holes[i]], Fill(chunks[i + 1..], holes[i + 1..], texts));
      }
    }
  }

  lemma Joined(a: string, b: string, c: string, d: string)
    ensures a + (b + (c + d)) == a + b + c + d
  {}

  // ---------------------------------------------------------------------------
  // Finding

  predicate MarkerAt(text: string, marker: string, at: nat) {
    at + |marker| <= |text| && text[at..at + |marker|] == marker
  }

  /** `find`: the first place of the marker, the length of the text when there is none. */
  function Find(text: string, marker: string): (at: nat)
    ensures at <= |text| && (at < |text| ==> MarkerAt(text, marker, at))
  {
    FindFrom(text, marker, 0)
  }

  function FindFrom(text: string, marker: string, from: nat): (at: nat)
    requires from <= |text|
    ensures from <= at <= |text| && (at < |text| ==> MarkerAt(text, marker, at))
    decreases |text| - from
  {
    if from == |text| || MarkerAt(text, marker, from) then from else FindFrom(text, marker, from + 1)
  }

  lemma {:induction false} NothingBefore(text: string, marker: string, from: nat, p: nat)
    requires from <= |text| && from <= p < FindFrom(text, marker, from)
    ensures !MarkerAt(text, marker, p)
    decreases |text| - from
  {
    if p > from {
      NothingBefore(text, marker, from + 1, p);
    }
  }

  /** The marker stands here, and nowhere before. */
  lemma FoundFirst(text: string, marker: string, at: nat)
    requires at < |text| && MarkerAt(text, marker, at) && forall p :: 0 <= p < at ==> !MarkerAt(text, marker, p)
    ensures Find(text, marker) == at
  {
    if at < Find(text, marker) {
      NothingBefore(text, marker, 0, at);
    }
  }

  /** The index of the marker that comes first, the earlier in the list of two at one place. */
  function Leftmost(text: string, markers: seq<string>): (k: nat)
    ensures k <= |markers| && (k < |markers| ==> Find(text, markers[k]) < |text|)
  {
    if markers == [] then 0
    else
      var n := |markers| - 1;
      var k := Leftmost(text, markers[..n]);
      if k == n then (if Find(text, markers[n]) < |text| then n else n + 1)
      else if Find(text, markers[n]) < Find(text, markers[k]) then n
      else k
  }

  /** What is leftmost of all: before every other, and strictly before those listed earlier. */
  lemma {:induction false} LeftmostComesFirst(text: string, markers: seq<string>, j: nat)
    requires j < |markers|
    ensures var k := Leftmost(text, markers);
      if k == |markers| then Find(text, markers[j]) == |text|
      else Find(text, markers[k]) <= Find(text, markers[j]) && (j < k ==> Find(text, markers[k]) < Find(text, markers[j]))
  {
    var n := |markers| - 1;
    if j < n {
      LeftmostComesFirst(text, markers[..n], j);
    }
  }

  method FindLeftmost(text: string, markers: seq<string>) returns (found: Option<(nat, nat)>)
    ensures found == if Leftmost(text, markers) == |markers| then None
                     else Some((Find(text, markers[Leftmost(text, markers)]), Leftmost(text, markers)))
  {
    found := None;
    assert markers[..0] == [];
    for i := 0 to |markers|
      invariant found == if Leftmost(text, markers[..i]) == i then None
                         else Some((Find(text, markers[Leftmost(text, markers[..i])]), Leftmost(text, markers[..i])))
    {
      assert markers[..i + 1][..i] == markers[..i];
      var at := Find(text, markers[i]);
      if at < |text| && (found.None? || at < found.value.0) {
        found := Some((at, i));
      }
    }
    assert markers[..|markers|] == markers;
  }

  // ---------------------------------------------------------------------------
  // Splitting

  predicate AllThere(markers: seq<string>) { forall i :: 0 <= i < |markers| ==> markers[i] != "" }

  /** One cut put before the cuts of what follows it. */
  function Before(chunk: string, k: nat, later: (seq<string>, seq<nat>)): (seq<string>, seq<nat>) {
    ([chunk] + later.0, [k] + later.1)
  }

  /** The chunks between the markers, always cut at the leftmost, and which marker stood behind each. */
  function Split(text: string, markers: seq<string>): (r: (seq<string>, seq<nat>))
    requires AllThere(markers)
    ensures |r.0| == |r.1| + 1 && InRange(r.1, |markers|)
    decreases |text|, 1
  {
    var k := Leftmost(text, markers);
    if k == |markers| then ([text], []) else CutAt(text, markers, k, Find(text, markers[k]))
  }

  function CutAt(text: string, markers: seq<string>, k: nat, at: nat): (r: (seq<string>, seq<nat>))
    requires AllThere(markers) && k < |markers| && at + |markers[k]| <= |text|
    ensures |r.0| == |r.1| + 1 && InRange(r.1, |markers|)
    decreases |text|, 0
  {
    Before(text[..at], k, Split(text[at + |markers[k]|..], markers))
  }

  method SplitText(text: string, markers: seq<string>) returns (chunks: seq<string>, holes: seq<nat>)
    requires AllThere(markers)
    ensures (chunks, holes) == Split(text, markers)
  {
    chunks, holes := [], [];
    var rest := text;
    while true
      invariant chunks + Split(rest, markers).0 == Split(text, markers).0
      invariant holes + Split(rest, markers).1 == Split(text, markers).1
      decreases |rest|
    {
      var found := FindLeftmost(rest, markers);
      if found.None? {
        break;
      }
      var (at, k) := found.value;
      ghost var tail := Split(rest[at + |markers[k]|..], markers);
      assert chunks + ([rest[..at]] + tail.0) == chunks + [rest[..at]] + tail.0;
      assert holes + ([k] + tail.1) == holes + [k] + tail.1;
      chunks := chunks + [rest[..at]];
      holes := holes + [k];
      rest := rest[at + |markers[k]|..];
    }
    chunks := chunks + [rest];
    assert holes + [] == holes;
  }

  /** The texts under which the holes were written: the markers themselves. */
  function Marked(markers: seq<string>): map<nat, string> {
    map k: nat | k < |markers| :: markers[k]
  }

  lemma FillFirst(chunk: string, hole: nat, chunks: seq<string>, holes: seq<nat>, texts: map<nat, string>)
    requires |chunks| == |holes| + 1 && hole in texts && AllIn(holes, texts)
    ensures Fill([chunk] + chunks, [hole] + holes, texts) == chunk + (texts[hole] + Fill(chunks, holes, texts))
  {
    assert ([chunk] + chunks)[1..] == chunks && ([hole] + holes)[1..] == holes;
  }

  lemma SplitStep(text: string, markers: seq<string>, k: nat, at: nat, rest: string)
    requires AllThere(markers) && k < |markers| && k == Leftmost(text, markers) && at == Find(text, markers[k])
    requires rest == text[at + |markers[k]|..]
    ensures Split(text, markers) == Before(text[..at], k, Split(rest, markers))
  {}

  lemma InMarked(holes: seq<nat>, markers: seq<string>)
    requires InRange(holes, |markers|)
    ensures AllIn(holes, Marked(markers))
  {}

  /** Splitting loses nothing: with the markers put back the text is as it was. */
  lemma {:induction false} SplitFillsBack(text: string, markers: seq<string>)
    requires AllThere(markers)
    ensures AllIn(Split(text, markers).1, Marked(markers))
    ensures Fill(Split(text, markers).0, Split(text, markers).1, Marked(markers)) == text
    decreases |text|
  {
    InMarked(Split(text, markers).1, markers);
    var k := Leftmost(text, markers);
    if k < |markers| {
      var at := Find(text, markers[k]);
      var rest := text[at + |markers[k]|..];
      SplitFillsBack(rest, markers);
      SplitStep(text, markers, k, at, rest);
      FilledAround(text, markers, k, at, Split(rest, markers).0, Split(rest, markers).1);
    }
  }

  lemma FilledAround(text: string, markers: seq<string>, k: nat, at: nat, chunks: seq<string>, holes: seq<nat>)
    requires k < |markers| && MarkerAt(text, markers[k], at) && |chunks| == |holes| + 1 && AllIn(holes, Marked(markers))
    requires Fill(chunks, holes, Marked(markers)) == text[at + |markers[k]|..]
    ensures AllIn([k] + holes, Marked(markers)) && Fill([text[..at]] + chunks, [k] + holes, Marked(markers)) == text
  {
    FillFirst(text[..at], k, chunks, holes, Marked(markers));
    AroundMarker(text, markers[k], at);
  }

  lemma AroundMarker(text: string, marker: string, at: nat)
    requires MarkerAt(text, marker, at)
    ensures text[..at] + (marker + text[at + |marker|..]) == text
  {}

  // ---------------------------------------------------------------------------
  // Splitting finds the chunks again

  /** No marker begins inside the chunk, even if it ends in what follows. */
  predicate IsClear(chunk: string, rest: string, markers: seq<string>) {
    forall i, p :: 0 <= i < |markers| && 0 <= p < |chunk| ==> !MarkerAt(chunk + rest, markers[i], p)
  }

  /** In the text written with the markers, no marker stands but in the holes. */
  predicate AllClear(chunks: seq<string>, holes: seq<nat>, markers: seq<string>)
    requires |chunks| == |holes| + 1 && InRange(holes, |markers|)
    decreases |holes|
  {
    if holes == [] then IsClear(chunks[0], "", markers)
    else
      InMarked(holes[1..], markers);
      IsClear(chunks[0], markers[holes[0]] + Fill(chunks[1..], holes[1..], Marked(markers)), markers) &&
      AllClear(chunks[1..], holes[1..], markers)
  }

  /** No character of the chunk begins a marker. */
  predicate IsPlain(chunk: string, markers: seq<string>) {
    forall i, p :: 0 <= i < |markers| && 0 <= p < |chunk| && markers[i] != "" ==> chunk[p] != markers[i][0]
  }

  predicate AllPlain(chunks: seq<string>, markers: seq<string>) { forall i :: 0 <= i < |chunks| ==> IsPlain(chunks[i], markers) }

  /** No marker begins another. */
  predicate IsApart(markers: seq<string>) {
    AllThere(markers) && forall i, j :: 0 <= i < |markers| && 0 <= j < |markers| && i != j ==> !(markers[i] <= markers[j])
  }

  lemma PlainIsClear(chunk: string, rest: string, markers: seq<string>)
    requires IsPlain(chunk, markers) && AllThere(markers)
    ensures IsClear(chunk, rest, markers)
  {
    forall i, p | 0 <= i < |markers| && 0 <= p < |chunk|
      ensures !MarkerAt(chunk + rest, markers[i], p)
    {
      if p + |markers[i]| <= |chunk + rest| {
        assert (chunk + rest)[p..p + |markers[i]|][0] == chunk[p];
      }
    }
  }

  lemma {:induction false} AllPlainIsAllClear(chunks: seq<string>, holes: seq<nat>, markers: seq<string>)
    requires |chunks| == |holes| + 1 && InRange(holes, |markers|) && AllThere(markers) && AllPlain(chunks, markers)
    ensures AllClear(chunks, holes, markers)
    decreases |holes|
  {
    if holes == [] {
      PlainIsClear(chunks[0], "", markers);
    } else {
      InMarked(holes[1..], markers);
      PlainIsClear(chunks[0], markers[holes[0]] + Fill(chunks[1..], holes[1..], Marked(markers)), markers);
      AllPlainIsAllClear(chunks[1..], holes[1..], markers);
    }
  }

  lemma SamePlace(text: string, at: nat, a: string, b: string)
    requires MarkerAt(text, a, at) && MarkerAt(text, b, at)
    ensures a <= b || b <= a
  {
    if |a| <= |b| {
      assert text[at..at + |b|][..|a|] == text[at..at + |a|];
    } else {
      assert text[at..at + |a|][..|b|] == text[at..at + |b|];
    }
  }

  lemma OnlyItself(chunk: string, markers: seq<string>, k: nat, rest: string, j: nat)
    requires IsApart(markers) && k < |markers| && j < |markers|
    ensures MarkerAt(chunk + (markers[k] + rest), markers[j], |chunk|) <==> j == k
  {
    var text := chunk + (markers[k] + rest);
    assert text[|chunk|..|chunk| + |markers[k]|] == markers[k];
    if MarkerAt(text, markers[j], |chunk|) {
      SamePlace(text, |chunk|, markers[k], markers[j]);
    }
  }

  lemma FindsBehindChunk(chunk: string, markers: seq<string>, k: nat, rest: string)
    requires IsApart(markers) && k < |markers| && IsClear(chunk, markers[k] + rest, markers)
    ensures var text := chunk + (markers[k] + rest); Find(text, markers[k]) == |chunk| && Leftmost(text, markers) == k
  {
    var text := chunk + (markers[k] + rest);
    forall j | 0 <= j < |markers|
      ensures Find(text, markers[j]) >= |chunk| && (Find(text, markers[j]) == |chunk| ==> j == k)
    {
      OnlyItself(chunk, markers, k, rest, j);
    }
    OnlyItself(chunk, markers, k, rest, k);
    FoundFirst(text, markers[k], |chunk|);
    LeftmostComesFirst(text, markers, k);
  }

  lemma SplitFirst(chunk: string, markers: seq<string>, k: nat, rest: string)
    requires IsApart(markers) && k < |markers| && IsClear(chunk, markers[k] + rest, markers)
    ensures Split(chunk + (markers[k] + rest), markers) == Before(chunk, k, Split(rest, markers))
  {
    var text := chunk + (markers[k] + rest);
    FindsBehindChunk(chunk, markers, k, rest);
    Pieces(chunk, markers[k], rest);
    SplitStep(text, markers, k, |chunk|, rest);
  }

  lemma Pieces(a: string, b: string, c: string)
    ensures (a + (b + c))[..|a|] == a && (a + (b + c))[|a| + |b|..] == c
  {}

  lemma SplitLast(chunk: string, markers: seq<string>)
    requires IsApart(markers) && IsClear(chunk, "", markers)
    ensures Split(chunk, markers) == ([chunk], [])
  {
    assert chunk + "" == chunk;
    forall j | 0 <= j < |markers|
      ensures Find(chunk, markers[j]) == |chunk|
    {}
  }

  /** What is cut first has no marker in it: the cut is at the leftmost. */
  lemma FirstIsClear(text: string, markers: seq<string>)
    requires AllThere(markers)
    ensures forall i, p :: 0 <= i < |markers| && 0 <= p < |Split(text, markers).0[0]| ==> !MarkerAt(text, markers[i], p)
  {
    var chunk := Split(text, markers).0[0];
    forall i, p | 0 <= i < |markers| && 0 <= p < |chunk|
      ensures !MarkerAt(text, markers[i], p)
    {
      LeftmostComesFirst(text, markers, i);
      FirstChunk(text, markers);
      NothingBefore(text, markers[i], 0, p);
    }
  }

  lemma FirstChunk(text: string, markers: seq<string>)
    requires AllThere(markers)
    ensures var k := Leftmost(text, markers);
      |Split(text, markers).0[0]| == if k == |markers| then |text| else Find(text, markers[k])
  {}

  lemma HolesMarked(chunks: seq<string>, holes: seq<nat>, markers: seq<string>)
    requires |chunks| == |holes| + 1 && holes != [] && InRange(holes, |markers|)
    ensures InRange(holes[1..], |markers|)
    ensures AllIn(holes, Marked(markers)) && AllIn(holes[1..], Marked(markers))
    ensures chunks == [chunks[0]] + chunks[1..] && holes == [holes[0]] + holes[1..]
  {}

  /**
   A text written with the markers in its holes is split into the very chunks it was written with,
   exactly when no marker stands in it but in the holes.
   */
  lemma {:induction false} SplitRecovers(chunks: seq<string>, holes: seq<nat>, markers: seq<string>)
    requires IsApart(markers) && |chunks| == |holes| + 1 && InRange(holes, |markers|)
    ensures AllIn(holes, Marked(markers))
    ensures Split(Fill(chunks, holes, Marked(markers)), markers) == (chunks, holes) <==> AllClear(chunks, holes, markers)
    decreases |holes|
  {
    var text := Fill(chunks, holes, Marked(markers));
    if holes == [] {
      if IsClear(chunks[0], "", markers) {
        SplitLast(chunks[0], markers);
        assert chunks == [chunks[0]];
      }
      FirstIsClear(text, markers);
      assert chunks[0] + "" == chunks[0];
    } else {
      HolesMarked(chunks, holes, markers);
      var rest := Fill(chunks[1..], holes[1..], Marked(markers));
      SplitRecovers(chunks[1..], holes[1..], markers);
      FillFirst(chunks[0], holes[0], chunks[1..], holes[1..], Marked(markers));
      FirstIsClear(text, markers);
      if IsClear(chunks[0], markers[holes[0]] + rest, markers) {
        SplitFirst(chunks[0], markers, holes[0], rest);
        SameBehind(chunks, holes, Split(rest, markers));
      }
    }
  }

  lemma SameBehind(chunks: seq<string>, holes: seq<nat>, later: (seq<string>, seq<nat>))
    requires chunks != [] && holes != []
    ensures Before(chunks[0], holes[0], later) == (chunks, holes) <==> later == (chunks[1..], holes[1..])
  {
    assert chunks == [chunks[0]] + chunks[1..] && holes == [holes[0]] + holes[1..];
    assert ([chunks[0]] + later.0)[1..] == later.0 && ([holes[0]] + later.1)[1..] == later.1;
  }

  /** So splitting once and filling in any texts equals writing with those texts. */
  lemma SplicingEqualsWriting(chunks: seq<string>, holes: seq<nat>, markers: seq<string>, texts: map<nat, string>)
    requires IsApart(markers) && |chunks| == |holes| + 1 && InRange(holes, |markers|) && AllIn(holes, texts)
    requires AllClear(chunks, holes, markers)
    ensures var (cut, found) := Split(Fill(chunks, holes, Marked(markers)), markers);
      AllIn(found, texts) && Fill(cut, found, texts) == Fill(chunks, holes, texts)
  {
    SplitRecovers(chunks, holes, markers);
  }
}
