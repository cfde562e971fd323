/**
 How the flake is written in full (crates/nixgen/src/flake_write.rs): through one writer, each
 attribute opened, its value written inside, and closed. `WriteFlake` is proved to write the
 expression that `Flake` splices and reads; `BuildAndRender` is the way the program takes, from the
 template the build cuts to the file.
 */
module FlakeWriter {
  import opened Wrappers
  import opened Ast
  import opened Printed
  import opened Writer
  import opened Printer
  import opened Splice
  import opened Flake
  import opened Reader
  import Home

  // ---------------------------------------------------------------------------
  // The text of an attribute set, from what its writer pushed

  /** What one entry adds to the text. */
  predicate Wrote(before: string, after: string, key: string, value: Expr, depth: nat) {
    after == before + Indented(depth, ShowKey(key, " = ")) + Show(value, depth, "") + ";\n"
  }

  lemma EntryDone(before: string, after: string, key: string, value: Expr, depth: nat, rest: string)
    requires Wrote(before, after, key, value, depth)
    ensures after + rest == before + Opening(depth, key, Show(value, depth, Semi(rest)))
  {
    EntryText(Entry(key, value), depth, rest);
    AppendThree(before, Indented(depth, ShowKey(key, " = ")), Show(value, depth, ""), ";\n", rest,
                Opening(depth, key, Show(value, depth, Semi(rest))));
  }

  lemma Braces(start: string, inner: string, depth: nat)
    ensures start + "{\n" + inner == start + BraceOpen(inner)
    ensures Indented(depth, "}") == BraceClose(depth, "")
  {
    assert ['}'] + "" == "}";
    assert "{\n" + inner == ['{'] + (['\n'] + inner);
    Printed.Assoc(start, "{\n", inner);
  }

  lemma OneDone(start: string, mid: string, key: string, value: Expr, depth: nat)
    requires Wrote(start + "{\n", mid, key, value, depth + 1)
    ensures mid + Indented(depth, "}") == start + Show(Attrs([Entry(key, value)]), depth, "")
  {
    var end := BraceClose(depth, "");
    EntryDone(start + "{\n", mid, key, value, depth + 1, end);
    Braces(start, Opening(depth + 1, key, Show(value, depth + 1, Semi(end))), depth);
    AttrsOfOne(key, value, depth, "");
  }

  lemma NextDone(before: string, after: string, key: string, value: Expr, depth: nat, rest: string)
    requires Wrote(before + "", after, key, value, depth)
    ensures after + rest == before + Opening(depth, key, Show(value, depth, Semi(rest)))
  {
    assert before + "" == before;
    EntryDone(before, after, key, value, depth, rest);
  }

  lemma TwoDone(start: string, mid: string, out: string, k1: string, v1: Expr, k2: string, v2: Expr, depth: nat)
    requires Wrote(start + "{\n", mid, k1, v1, depth + 1)
    requires Wrote(mid + "", out, k2, v2, depth + 1)
    ensures out + Indented(depth, "}") == start + Show(Attrs([Entry(k1, v1), Entry(k2, v2)]), depth, "")
  {
    var end := BraceClose(depth, "");
    var second := Opening(depth + 1, k2, Show(v2, depth + 1, Semi(end)));
    NextDone(mid, out, k2, v2, depth + 1, end);
    EntryDone(start + "{\n", mid, k1, v1, depth + 1, second);
    Braces(start, Opening(depth + 1, k1, Show(v1, depth + 1, Semi(second))), depth);
    AttrsOfTwo(k1, v1, k2, v2, depth, "");
  }

  lemma ThreeDone(start: string, mid: string, mid2: string, out: string,
                  k1: string, v1: Expr, k2: string, v2: Expr, k3: string, v3: Expr, depth: nat)
    requires Wrote(start + "{\n", mid, k1, v1, depth + 1)
    requires Wrote(mid + "", mid2, k2, v2, depth + 1)
    requires Wrote(mid2 + "", out, k3, v3, depth + 1)
    ensures out + Indented(depth, "}") == start + Show(Attrs([Entry(k1, v1), Entry(k2, v2), Entry(k3, v3)]), depth, "")
  {
    var end := BraceClose(depth, "");
    var third := Opening(depth + 1, k3, Show(v3, depth + 1, Semi(end)));
    var second := Opening(depth + 1, k2, Show(v2, depth + 1, Semi(third)));
    NextDone(mid2, out, k3, v3, depth + 1, end);
    NextDone(mid, mid2, k2, v2, depth + 1, third);
    EntryDone(start + "{\n", mid, k1, v1, depth + 1, second);
    Braces(start, Opening(depth + 1, k1, Show(v1, depth + 1, Semi(second))), depth);
    AttrsOfThree(k1, v1, k2, v2, k3, v3, depth, "");
  }

  lemma KeysAscend()
    ensures Less("inputs", "url") && Less("modules", "pkgs") && Less(HOME_MANAGER, NIXPKGS)
    ensures Less("description", "inputs") && Less("inputs", "outputs")
  {}

  // ---------------------------------------------------------------------------
  // The inputs

  method WriteFollows(w: Writer)
    modifies w
    ensures w.out == old(w.out) + Show(Attrs([Entry("follows", Str([Lit(NIXPKGS)]))]), w.depth, "")
    ensures w.depth == old(w.depth)
  {
    NamesAreVerbatim();
    var a := new AttrsWriter(w);
    a.EntryStart("follows");
    Home.WriteVerbatim(w, NIXPKGS);
    a.EntryEnd();
    OneDone(old(w.out), w.out, "follows", Str([Lit(NIXPKGS)]), w.depth);
    a.End();
  }

  method WriteFollowed(w: Writer)
    modifies w
    ensures w.out == old(w.out) + Show(FOLLOWED, w.depth, "") && w.depth == old(w.depth)
  {
    var a := new AttrsWriter(w);
    a.EntryStart(NIXPKGS);
    WriteFollows(w);
    a.EntryEnd();
    OneDone(old(w.out), w.out, NIXPKGS, Attrs([Entry("follows", Str([Lit(NIXPKGS)]))]), w.depth);
    a.End();
  }

  method WriteUrl(w: Writer, owner: string, repo: string, rev: string)
    requires IsVerbatim(owner) && IsVerbatim(repo) && IsVerbatim(rev)
    modifies w
    ensures w.out == old(w.out) + Show(Url(owner, repo, rev), w.depth, "") && w.depth == old(w.depth)
  {
    ghost var none: seq<StrPart> := [];
    ghost var p5 := [Lit(rev)] + none;
    ghost var p4 := [Lit("/")] + p5;
    ghost var p3 := [Lit(repo)] + p4;
    ghost var p2 := [Lit("/")] + p3;
    ghost var p1 := [Lit(owner)] + p2;
    ghost var all := [Lit("github:")] + p1;
    assert all == [Lit("github:"), Lit(owner), Lit("/"), Lit(repo), Lit("/"), Lit(rev)];
    var s := new StrWriter(w);
    Printed.Assoc(old(w.out), "\"", ShowParts(all, false, w.depth, ""));
    Home.WriteVerbatimPart(s, "github:", p1);
    Home.WriteVerbatimPart(s, owner, p2);
    Home.WriteVerbatimPart(s, "/", p3);
    Home.WriteVerbatimPart(s, repo, p4);
    Home.WriteVerbatimPart(s, "/", p5);
    Home.WriteVerbatimPart(s, rev, none);
    s.End();
  }

  method WriteHomeManager(w: Writer, rev: string)
    requires IsVerbatim(rev)
    modifies w
    ensures w.out == old(w.out) + Show(Attrs([Entry("inputs", FOLLOWED),
                                              Entry("url", Url(HOME_MANAGER_OWNER, HOME_MANAGER, rev))]), w.depth, "")
    ensures w.depth == old(w.depth)
  {
    NamesAreVerbatim();
    var a := new AttrsWriter(w);
    a.EntryStart("inputs");
    WriteFollowed(w);
    a.EntryEnd();
    ghost var mid := w.out;
    KeysAscend();
    a.EntryStart("url");
    WriteUrl(w, HOME_MANAGER_OWNER, HOME_MANAGER, rev);
    a.EntryEnd();
    TwoDone(old(w.out), mid, w.out, "inputs", FOLLOWED, "url", Url(HOME_MANAGER_OWNER, HOME_MANAGER, rev), w.depth);
    a.End();
  }

  method WriteNixpkgs(w: Writer, rev: string)
    requires IsVerbatim(rev)
    modifies w
    ensures w.out == old(w.out) + Show(Attrs([Entry("url", Url(NIXPKGS_OWNER, NIXPKGS, rev))]), w.depth, "")
    ensures w.depth == old(w.depth)
  {
    NamesAreVerbatim();
    var a := new AttrsWriter(w);
    a.EntryStart("url");
    WriteUrl(w, NIXPKGS_OWNER, NIXPKGS, rev);
    a.EntryEnd();
    OneDone(old(w.out), w.out, "url", Url(NIXPKGS_OWNER, NIXPKGS, rev), w.depth);
    a.End();
  }

  /** The table of inputs, one after the other. */
  method WriteInputs(w: Writer, homeManagerRev: string, nixpkgsRev: string)
    requires IsVerbatim(homeManagerRev) && IsVerbatim(nixpkgsRev)
    modifies w
    ensures w.out == old(w.out) + Show(Inputs(homeManagerRev, nixpkgsRev), w.depth, "") && w.depth == old(w.depth)
  {
    ghost var first := Attrs([Entry("inputs", FOLLOWED), Entry("url", Url(HOME_MANAGER_OWNER, HOME_MANAGER, homeManagerRev))]);
    ghost var second := Attrs([Entry("url", Url(NIXPKGS_OWNER, NIXPKGS, nixpkgsRev))]);
    var a := new AttrsWriter(w);
    a.EntryStart(HOME_MANAGER);
    WriteHomeManager(w, homeManagerRev);
    a.EntryEnd();
    ghost var mid := w.out;
    KeysAscend();
    a.EntryStart(NIXPKGS);
    WriteNixpkgs(w, nixpkgsRev);
    a.EntryEnd();
    TwoDone(old(w.out), mid, w.out, HOME_MANAGER, first, NIXPKGS, second, w.depth);
    a.End();
  }

  // ---------------------------------------------------------------------------
  // The outputs

  /** A variable with its keys behind it. */
  method WriteSelected(w: Writer, name: string, first: string, second: string)
    modifies w`out
    ensures w.out == old(w.out) + Show(Select(Var(name), first, [second]), w.depth, "")
  {
    w.Var(name);
    w.Keys([first, second]);
    assert [first] + [second] == [first, second];
    BaseText(Var(name), w.depth, ShowKeys([first, second], ""));
    AppendAfter(old(w.out), Show(Var(name), w.depth, ""), ShowKeys([first, second], ""),
                ShowBase(Var(name), w.depth, ShowKeys([first, second], "")));
  }

  method WriteModules(w: Writer)
    modifies w
    ensures w.out == old(w.out) + Show(MODULES, w.depth, "") && w.depth == old(w.depth)
  {
    ghost var items, end := [Path("home.nix")], Indented(w.depth, "]");
    ghost var none: seq<Expr> := [];
    assert items[1..] == none;
    var l := new ListWriter(w);
    l.ItemStart();
    w.Path("home.nix");
    l.ItemEnd();
    ItemText(Path("home.nix"), w.depth + 1, end);
    AppendThree(old(w.out) + "[\n", Indented(w.depth + 1, ""), Show(Path("home.nix"), w.depth + 1, ""), "\n", end,
                ShowItems(items, w.depth + 1, end));
    l.End();
    ListText(items, w.depth);
    Printed.Assoc(old(w.out), "[\n", ShowItems(items, w.depth + 1, end));
  }

  method WriteArguments(w: Writer, system: string)
    modifies w
    ensures w.out == old(w.out) + Show(Configuration(system).argument, w.depth, "") && w.depth == old(w.depth)
  {
    ghost var pkgs := Select(Var(NIXPKGS), "legacyPackages", [system]);
    var a := new AttrsWriter(w);
    a.EntryStart("modules");
    WriteModules(w);
    a.EntryEnd();
    ghost var mid := w.out;
    KeysAscend();
    a.EntryStart("pkgs");
    WriteSelected(w, NIXPKGS, "legacyPackages", system);
    a.EntryEnd();
    TwoDone(old(w.out), mid, w.out, "modules", MODULES, "pkgs", pkgs, w.depth);
    a.End();
  }

  method WriteConfiguration(w: Writer, system: string)
    modifies w
    ensures w.out == old(w.out) + Show(Configuration(system), w.depth, "") && w.depth == old(w.depth)
  {
    WriteSelected(w, HOME_MANAGER, "lib", OUTPUT_OF);
    w.Push(" ");
    WriteArguments(w, system);
    ghost var argument := Configuration(system).argument;
    ghost var tail := [' '] + ShowOperand(argument, w.depth, "");
    CalleeText(CALLEE, w.depth, tail);
    AppendAfter(old(w.out), ShowCallee(CALLEE, w.depth, ""), tail, ShowCallee(CALLEE, w.depth, tail));
    Printed.Assoc(old(w.out) + ShowCallee(CALLEE, w.depth, ""), " ", ShowOperand(argument, w.depth, ""));
  }

  method WriteUser(w: Writer, username: string, system: string)
    modifies w
    ensures w.out == old(w.out) + Show(Attrs([Entry(username, Configuration(system))]), w.depth, "")
    ensures w.depth == old(w.depth)
  {
    var a := new AttrsWriter(w);
    a.EntryStart(username);
    WriteConfiguration(w, system);
    a.EntryEnd();
    OneDone(old(w.out), w.out, username, Configuration(system), w.depth);
    a.End();
  }

  method WriteConfigurations(w: Writer, username: string, system: string)
    modifies w
    ensures w.out == old(w.out) + Show(Outputs(username, system).body, w.depth, "") && w.depth == old(w.depth)
  {
    var a := new AttrsWriter(w);
    a.EntryStart("homeConfigurations");
    WriteUser(w, username, system);
    a.EntryEnd();
    OneDone(old(w.out), w.out, "homeConfigurations", Attrs([Entry(username, Configuration(system))]), w.depth);
    a.End();
  }

  method WriteOutputs(w: Writer, username: string, system: string)
    modifies w
    ensures w.out == old(w.out) + Show(Outputs(username, system), w.depth, "") && w.depth == old(w.depth)
  {
    KeysAscend();
    w.LambdaHead([HOME_MANAGER, NIXPKGS], true);
    WriteConfigurations(w, username, system);
    ghost var body := Show(Outputs(username, system).body, w.depth, "");
    LambdaText([HOME_MANAGER, NIXPKGS], true, body);
    AppendAfter(old(w.out), ['{'] + ShowFormals([HOME_MANAGER, NIXPKGS], false, true, ""), body,
                ['{'] + ShowFormals([HOME_MANAGER, NIXPKGS], false, true, body));
  }

  // ---------------------------------------------------------------------------
  // The whole

  method WriteDescription(w: Writer)
    modifies w
    ensures w.out == old(w.out) + Show(DESCRIPTION, w.depth, "") && w.depth == old(w.depth)
  {
    LongWords();
    Home.WriteVerbatim(w, "Generated by mix");
  }

  method WriteDescriptionEntry(a: AttrsWriter)
    requires a.last == None
    modifies a, a.w
    ensures a.last == Some("description") && a.w.depth == old(a.w.depth)
    ensures Wrote(old(a.w.out) + "{\n", a.w.out, "description", DESCRIPTION, a.w.depth + 1)
  {
    a.EntryStart("description");
    WriteDescription(a.w);
    a.EntryEnd();
  }

  method WriteInputsEntry(a: AttrsWriter, homeManagerRev: string, nixpkgsRev: string)
    requires a.last == Some("description") && IsVerbatim(homeManagerRev) && IsVerbatim(nixpkgsRev)
    modifies a, a.w
    ensures a.last == Some("inputs") && a.w.depth == old(a.w.depth)
    ensures Wrote(old(a.w.out) + "", a.w.out, "inputs", Inputs(homeManagerRev, nixpkgsRev), a.w.depth + 1)
  {
    KeysAscend();
    a.EntryStart("inputs");
    WriteInputs(a.w, homeManagerRev, nixpkgsRev);
    a.EntryEnd();
  }

  method WriteOutputsEntry(a: AttrsWriter, username: string, system: string)
    requires a.last == Some("inputs")
    modifies a, a.w
    ensures a.last == Some("outputs") && a.w.depth == old(a.w.depth)
    ensures Wrote(old(a.w.out) + "", a.w.out, "outputs", Outputs(username, system), a.w.depth + 1)
  {
    KeysAscend();
    a.EntryStart("outputs");
    WriteOutputs(a.w, username, system);
    a.EntryEnd();
  }

  /** `write_flake`. */
  method WriteFlake(w: Writer, username: string, system: string, homeManagerRev: string, nixpkgsRev: string)
    requires IsVerbatim(homeManagerRev) && IsVerbatim(nixpkgsRev)
    modifies w
    ensures w.out == old(w.out) + Show(FlakeExpr(username, system, homeManagerRev, nixpkgsRev), w.depth, "")
    ensures w.depth == old(w.depth)
  {
    var a := new AttrsWriter(w);
    WriteDescriptionEntry(a);
    ghost var mid := w.out;
    WriteInputsEntry(a, homeManagerRev, nixpkgsRev);
    ghost var mid2 := w.out;
    WriteOutputsEntry(a, username, system);
    ThreeDone(old(w.out), mid, mid2, w.out, "description", DESCRIPTION, "inputs", Inputs(homeManagerRev, nixpkgsRev),
              "outputs", Outputs(username, system), w.depth);
    a.End();
  }

  /** The flake written in full, from the header to the line end. */
  method WriteInFull(username: string, system: string, homeManagerRev: string, nixpkgsRev: string) returns (text: string)
    requires IsVerbatim(homeManagerRev) && IsVerbatim(nixpkgsRev)
    ensures text == FlakeText(username, system, homeManagerRev, nixpkgsRev)
  {
    var w := new Writer(Home.HEADER);
    WriteFlake(w, username, system, homeManagerRev, nixpkgsRev);
    w.Push("\n");
    return w.out;
  }

  /**
   The build writes the flake once with the markers in it and cuts it; `render` puts other values
   between the pieces. The file is the flake written in full, and reads back as it.
   */
  method BuildAndRender(username: string, system: string, homeManagerRev: string, nixpkgsRev: string) returns (text: string)
    requires HasNoNul(username) && HasNoNul(system)
    requires IsVerbatim(homeManagerRev) && IsVerbatim(nixpkgsRev) && homeManagerRev != "" && nixpkgsRev != ""
    ensures text == FlakeText(username, system, homeManagerRev, nixpkgsRev)
    ensures ReadSource(text) == Ok(ReadFlake(username, system, homeManagerRev, nixpkgsRev), "")
  {
    MarkersAreVerbatim();
    var template := WriteInFull(MARKERS[0], MARKERS[1], MARKERS[2], MARKERS[3]);
    SplicedIsWritten(username, system, homeManagerRev, nixpkgsRev);
    var chunks, holes := SplitText(template, MARKERS);
    text := Splice.Render(chunks, holes, Texts(username, system, homeManagerRev, nixpkgsRev));
    FlakeReads(username, system, homeManagerRev, nixpkgsRev);
  }
}
