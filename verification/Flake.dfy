/**
 The flake that mix writes (crates/nixgen/src/flake_write.rs) and the short way to it: the text is
 written once with markers for the user, the system and the two revisions, cut at them, and put
 together with other values later. `SplicedIsWritten` says that this is the flake written in full,
 `FlakeReads` what the reader makes of it.
 */
module Flake {
  import opened Ident
  import opened Ast
  import opened Printed
  import opened Writer
  import opened Home
  import opened Reader
  import opened RoundTrip
  import opened NormalForm
  import opened Splice

  const HOME_MANAGER: string := "home-manager"
  const NIXPKGS: string := "nixpkgs"
  const HOME_MANAGER_OWNER: string := "nix-community"
  const NIXPKGS_OWNER: string := "NixOS"
  const OUTPUT_OF: string := "homeManagerConfiguration"

  // ---------------------------------------------------------------------------
  // The expression that is written

  const DESCRIPTION: Expr := Str([Lit("Generated by mix")])
  const FOLLOWED: Expr := Attrs([Entry(NIXPKGS, Attrs([Entry("follows", Str([Lit(NIXPKGS)]))]))])
  const CALLEE: Expr := Select(Var(HOME_MANAGER), "lib", [OUTPUT_OF])
  const MODULES: Expr := List([Path("home.nix")])

  function Url(owner: string, repo: string, rev: string): Expr {
    Str([Lit("github:"), Lit(owner), Lit("/"), Lit(repo), Lit("/"), Lit(rev)])
  }

  function Inputs(homeManagerRev: string, nixpkgsRev: string): Expr {
    Attrs([Entry(HOME_MANAGER, Attrs([Entry("inputs", FOLLOWED),
                                      Entry("url", Url(HOME_MANAGER_OWNER, HOME_MANAGER, homeManagerRev))])),
           Entry(NIXPKGS, Attrs([Entry("url", Url(NIXPKGS_OWNER, NIXPKGS, nixpkgsRev))]))])
  }

  function Configuration(system: string): Expr {
    Apply(CALLEE, Attrs([Entry("modules", MODULES), Entry("pkgs", Select(Var(NIXPKGS), "legacyPackages", [system]))]))
  }

  function Outputs(username: string, system: string): Expr {
    Lambda([HOME_MANAGER, NIXPKGS], true,
           Attrs([Entry("homeConfigurations", Attrs([Entry(username, Configuration(system))]))]))
  }

  function FlakeExpr(username: string, system: string, homeManagerRev: string, nixpkgsRev: string): Expr {
    Attrs([Entry("description", DESCRIPTION), Entry("inputs", Inputs(homeManagerRev, nixpkgsRev)),
           Entry("outputs", Outputs(username, system))])
  }

  function FlakeText(username: string, system: string, homeManagerRev: string, nixpkgsRev: string): string {
    HEADER + Print(FlakeExpr(username, system, homeManagerRev, nixpkgsRev)) + "\n"
  }

  // ---------------------------------------------------------------------------
  // Its text, from hole to hole

  function Opening(depth: nat, key: string, rest: string): string {
    Indented(depth, ShowKey(key, [' '] + (['='] + ([' '] + rest))))
  }

  function Semi(rest: string): string { [';'] + (['\n'] + rest) }

  function BraceOpen(rest: string): string { ['{'] + (['\n'] + rest) }

  function BraceClose(depth: nat, rest: string): string { Indented(depth, ['}'] + rest) }

  function UrlStart(owner: string, repo: string, rest: string): string {
    ['"'] + ("github:" + (owner + ("/" + (repo + ("/" + rest)))))
  }

  function PkgsStart(rest: string): string { NIXPKGS + (['.'] + ("legacyPackages" + (['.'] + rest))) }

  function InputsStart(rest: string): string {
    var url := Opening(3, "url", UrlStart(HOME_MANAGER_OWNER, HOME_MANAGER, rest));
    BraceOpen(Opening(2, HOME_MANAGER, BraceOpen(Opening(3, "inputs", Show(FOLLOWED, 3, Semi(url))))))
  }

  /** Up to the revision of home-manager. */
  function Head0(rest: string): string {
    BraceOpen(Opening(1, "description", Show(DESCRIPTION, 1, Semi(Opening(1, "inputs", InputsStart(rest))))))
  }

  /** Up to the revision of nixpkgs. */
  function Head1(rest: string): string {
    ['"'] + Semi(BraceClose(2, Semi(Opening(2, NIXPKGS, BraceOpen(Opening(3, "url", UrlStart(NIXPKGS_OWNER, NIXPKGS, rest)))))))
  }

  /** Up to the user. */
  function Head2(rest: string): string {
    ['"'] + Semi(BraceClose(2, Semi(BraceClose(1, Semi(Opening(1, "outputs", ['{'] +
      ShowFormals([HOME_MANAGER, NIXPKGS], false, true, BraceOpen(Opening(2, "homeConfigurations", BraceOpen(
        Indented(3, rest)))))))))))
  }

  /** Up to the system. */
  function Head3(rest: string): string {
    [' '] + (['='] + ([' '] + Show(CALLEE, 3, [' '] + BraceOpen(
      Opening(4, "modules", Show(MODULES, 4, Semi(Opening(4, "pkgs", PkgsStart(rest)))))))))
  }

  /** To the end. */
  function Head4(rest: string): string {
    Semi(BraceClose(3, Semi(BraceClose(2, Semi(BraceClose(1, Semi(BraceClose(0, rest))))))))
  }

  lemma EntriesOne(key: string, value: Expr, more: seq<Entry>, depth: nat, rest: string)
    ensures ShowEntries([Entry(key, value)] + more, depth, rest)
         == Opening(depth, key, Show(value, depth, Semi(ShowEntries(more, depth, rest))))
  {
    assert ([Entry(key, value)] + more)[1..] == more;
  }

  lemma AttrsOfOne(key: string, value: Expr, depth: nat, rest: string)
    ensures Show(Attrs([Entry(key, value)]), depth, rest)
         == BraceOpen(Opening(depth + 1, key, Show(value, depth + 1, Semi(BraceClose(depth, rest)))))
  {
    var none: seq<Entry> := [];
    assert [Entry(key, value)] + none == [Entry(key, value)];
    EntriesOne(key, value, none, depth + 1, BraceClose(depth, rest));
  }

  lemma AttrsOfTwo(k1: string, v1: Expr, k2: string, v2: Expr, depth: nat, rest: string)
    ensures Show(Attrs([Entry(k1, v1), Entry(k2, v2)]), depth, rest)
         == BraceOpen(Opening(depth + 1, k1, Show(v1, depth + 1, Semi(
              Opening(depth + 1, k2, Show(v2, depth + 1, Semi(BraceClose(depth, rest))))))))
  {
    var none: seq<Entry> := [];
    assert [Entry(k2, v2)] + none == [Entry(k2, v2)];
    assert [Entry(k1, v1)] + [Entry(k2, v2)] == [Entry(k1, v1), Entry(k2, v2)];
    EntriesOne(k1, v1, [Entry(k2, v2)], depth + 1, BraceClose(depth, rest));
    EntriesOne(k2, v2, none, depth + 1, BraceClose(depth, rest));
  }

  lemma AttrsOfThree(k1: string, v1: Expr, k2: string, v2: Expr, k3: string, v3: Expr, depth: nat, rest: string)
    ensures Show(Attrs([Entry(k1, v1), Entry(k2, v2), Entry(k3, v3)]), depth, rest)
         == BraceOpen(Opening(depth + 1, k1, Show(v1, depth + 1, Semi(
              Opening(depth + 1, k2, Show(v2, depth + 1, Semi(
                Opening(depth + 1, k3, Show(v3, depth + 1, Semi(BraceClose(depth, rest)))))))))))
  {
    var none: seq<Entry> := [];
    var third := [Entry(k3, v3)] + none;
    var second := [Entry(k2, v2)] + third;
    assert [Entry(k1, v1)] + second == [Entry(k1, v1), Entry(k2, v2), Entry(k3, v3)];
    EntriesOne(k1, v1, second, depth + 1, BraceClose(depth, rest));
    EntriesOne(k2, v2, third, depth + 1, BraceClose(depth, rest));
    EntriesOne(k3, v3, none, depth + 1, BraceClose(depth, rest));
  }

  lemma VerbatimPart(text: string, parts: seq<StrPart>, depth: nat, rest: string)
    requires IsVerbatim(text) && text != ""
    ensures ShowParts([Lit(text)] + parts, false, depth, rest) == text + ShowParts(parts, false, depth, rest)
  {
    assert ([Lit(text)] + parts)[1..] == parts;
    assert StandsForItself(text[|text| - 1]);
    VerbatimIsEscaped(text, ShowParts(parts, false, depth, rest));
  }

  lemma UrlShown(owner: string, repo: string, rev: string, depth: nat, rest: string)
    requires IsVerbatim(owner) && IsVerbatim(repo) && IsVerbatim(rev) && owner != "" && repo != "" && rev != ""
    ensures Show(Url(owner, repo, rev), depth, rest) == UrlStart(owner, repo, rev + (['"'] + rest))
  {
    var none: seq<StrPart> := [];
    var p5 := [Lit(rev)] + none;
    var p4 := [Lit("/")] + p5;
    var p3 := [Lit(repo)] + p4;
    var p2 := [Lit("/")] + p3;
    var p1 := [Lit(owner)] + p2;
    assert [Lit("github:")] + p1 == [Lit("github:"), Lit(owner), Lit("/"), Lit(repo), Lit("/"), Lit(rev)];
    VerbatimPart(rev, none, depth, rest);
    VerbatimPart("/", p5, depth, rest);
    VerbatimPart(repo, p4, depth, rest);
    VerbatimPart("/", p3, depth, rest);
    VerbatimPart(owner, p2, depth, rest);
    VerbatimPart("github:", p1, depth, rest);
  }

  lemma KeyFirst(key: string, rest: string)
    ensures ShowKey(key, rest) == ShowKey(key, "") + rest
  {
    KeyAppends(key, "", rest);
    assert "" + rest == rest;
  }

  lemma PkgsShown(system: string, depth: nat, rest: string)
    ensures Show(Select(Var(NIXPKGS), "legacyPackages", [system]), depth, rest) == PkgsStart(ShowKey(system, "") + rest)
  {
    var none: seq<string> := [];
    var keys, one := ["legacyPackages", system], [system];
    assert ["legacyPackages"] + one == keys && keys[1..] == one && one[1..] == none;
    assert ShowKeys(one, rest) == ['.'] + ShowKey(system, ShowKeys(none, rest));
    assert ShowKeys(keys, rest) == ['.'] + ShowKey("legacyPackages", ShowKeys(one, rest));
    assert IsIdentifier("legacyPackages");
    KeyFirst(system, rest);
  }

  lemma ConfigurationShown(username: string, system: string, rest: string)
    ensures Opening(3, username, Show(Configuration(system), 3, rest))
         == Indented(3, ShowKey(username, "") + Head3(ShowKey(system, "") + Semi(BraceClose(3, rest))))
  {
    var pkgs := Select(Var(NIXPKGS), "legacyPackages", [system]);
    AttrsOfTwo("modules", MODULES, "pkgs", pkgs, 3, rest);
    PkgsShown(system, 4, Semi(BraceClose(3, rest)));
    KeyFirst(username, [' '] + (['='] + ([' '] + Show(Configuration(system), 3, rest))));
  }

  lemma OutputsShown(username: string, system: string, rest: string)
    ensures Show(Outputs(username, system), 1, rest)
         == ['{'] + ShowFormals([HOME_MANAGER, NIXPKGS], false, true, BraceOpen(Opening(2, "homeConfigurations", BraceOpen(
              Indented(3, ShowKey(username, "") + Head3(ShowKey(system, "") + Semi(BraceClose(3, Semi(BraceClose(2, Semi(
                BraceClose(1, rest))))))))))))
  {
    var configurations := Attrs([Entry(username, Configuration(system))]);
    AttrsOfOne("homeConfigurations", configurations, 1, rest);
    AttrsOfOne(username, Configuration(system), 2, Semi(BraceClose(1, rest)));
    ConfigurationShown(username, system, Semi(BraceClose(2, Semi(BraceClose(1, rest)))));
  }

  lemma NamesAreVerbatim()
    ensures IsVerbatim(HOME_MANAGER_OWNER) && IsVerbatim(HOME_MANAGER) && IsVerbatim(NIXPKGS_OWNER) && IsVerbatim(NIXPKGS)
  {}

  lemma SecondInputShown(nixpkgsRev: string, end: string)
    requires IsVerbatim(nixpkgsRev) && nixpkgsRev != ""
    ensures Opening(2, NIXPKGS, Show(Attrs([Entry("url", Url(NIXPKGS_OWNER, NIXPKGS, nixpkgsRev))]), 2, end))
         == Opening(2, NIXPKGS, BraceOpen(Opening(3, "url", UrlStart(NIXPKGS_OWNER, NIXPKGS,
              nixpkgsRev + (['"'] + Semi(BraceClose(2, end)))))))
  {
    var url := Url(NIXPKGS_OWNER, NIXPKGS, nixpkgsRev);
    NamesAreVerbatim();
    AttrsOfOne("url", url, 2, end);
    UrlShown(NIXPKGS_OWNER, NIXPKGS, nixpkgsRev, 3, Semi(BraceClose(2, end)));
  }

  lemma FirstInputShown(homeManagerRev: string, end: string)
    requires IsVerbatim(homeManagerRev) && homeManagerRev != ""
    ensures BraceOpen(Opening(2, HOME_MANAGER, Show(Attrs([Entry("inputs", FOLLOWED),
              Entry("url", Url(HOME_MANAGER_OWNER, HOME_MANAGER, homeManagerRev))]), 2, end)))
         == InputsStart(homeManagerRev + (['"'] + Semi(BraceClose(2, end))))
  {
    var url := Url(HOME_MANAGER_OWNER, HOME_MANAGER, homeManagerRev);
    NamesAreVerbatim();
    AttrsOfTwo("inputs", FOLLOWED, "url", url, 2, end);
    UrlShown(HOME_MANAGER_OWNER, HOME_MANAGER, homeManagerRev, 3, Semi(BraceClose(2, end)));
  }

  lemma InputsShown(homeManagerRev: string, nixpkgsRev: string, rest: string)
    requires IsVerbatim(homeManagerRev) && IsVerbatim(nixpkgsRev) && homeManagerRev != "" && nixpkgsRev != ""
    ensures Show(Inputs(homeManagerRev, nixpkgsRev), 1, rest)
         == InputsStart(homeManagerRev + Head1(nixpkgsRev + (['"'] + Semi(BraceClose(2, Semi(BraceClose(1, rest)))))))
  {
    var first := Attrs([Entry("inputs", FOLLOWED), Entry("url", Url(HOME_MANAGER_OWNER, HOME_MANAGER, homeManagerRev))]);
    var second := Attrs([Entry("url", Url(NIXPKGS_OWNER, NIXPKGS, nixpkgsRev))]);
    var end := Semi(BraceClose(1, rest));
    AttrsOfTwo(HOME_MANAGER, first, NIXPKGS, second, 1, rest);
    SecondInputShown(nixpkgsRev, end);
    FirstInputShown(homeManagerRev, Semi(Opening(2, NIXPKGS, Show(second, 2, end))));
  }

  /** The end of the inputs and the outputs, from the second revision on. */
  lemma Head2Shown(username: string, system: string, rest: string)
    ensures ['"'] + Semi(BraceClose(2, Semi(BraceClose(1, Semi(Opening(1, "outputs",
              Show(Outputs(username, system), 1, Semi(BraceClose(0, rest)))))))))
         == Head2(ShowKey(username, "") + Head3(ShowKey(system, "") + Head4(rest)))
  {
    OutputsShown(username, system, Semi(BraceClose(0, rest)));
  }

  /** The flake from hole to hole. */
  lemma FlakeShown(username: string, system: string, homeManagerRev: string, nixpkgsRev: string, rest: string)
    requires IsVerbatim(homeManagerRev) && IsVerbatim(nixpkgsRev) && homeManagerRev != "" && nixpkgsRev != ""
    ensures Show(FlakeExpr(username, system, homeManagerRev, nixpkgsRev), 0, rest)
         == Head0(homeManagerRev + Head1(nixpkgsRev + Head2(ShowKey(username, "") + Head3(ShowKey(system, "") + Head4(rest)))))
  {
    Head2Shown(username, system, rest);
    SetShown(DESCRIPTION, Inputs(homeManagerRev, nixpkgsRev), Outputs(username, system), rest);
    InputsShown(homeManagerRev, nixpkgsRev, Semi(Opening(1, "outputs", Show(Outputs(username, system), 1, Semi(BraceClose(0, rest))))));
  }

  lemma SetShown(description: Expr, inputs: Expr, outputs: Expr, rest: string)
    ensures Show(Attrs([Entry("description", description), Entry("inputs", inputs), Entry("outputs", outputs)]), 0, rest)
         == BraceOpen(Opening(1, "description", Show(description, 1, Semi(Opening(1, "inputs", Show(inputs, 1,
              Semi(Opening(1, "outputs", Show(outputs, 1, Semi(BraceClose(0, rest)))))))))))
  {
    AttrsOfThree("description", description, "inputs", inputs, "outputs", outputs, 0, rest);
  }

  // ---------------------------------------------------------------------------
  // What is between the holes does not depend on what is in them

  lemma OpeningAppends(depth: nat, key: string, rest: string, more: string)
    ensures Opening(depth, key, rest) + more == Opening(depth, key, rest + more)
  {
    var t := [' '] + (['='] + ([' '] + rest));
    IndentedAppends(depth, ShowKey(key, t), more);
    KeyAppends(key, t, more);
    assert t + more == [' '] + (['='] + ([' '] + (rest + more)));
  }

  lemma SemiAppends(rest: string, more: string)
    ensures Semi(rest) + more == Semi(rest + more) && BraceOpen(rest) + more == BraceOpen(rest + more)
  {}

  lemma CloseAppends(depth: nat, rest: string, more: string)
    ensures BraceClose(depth, rest) + more == BraceClose(depth, rest + more)
  {
    IndentedAppends(depth, ['}'] + rest, more);
    Printed.Assoc(['}'], rest, more);
  }

  lemma UrlStartAppends(owner: string, repo: string, rest: string, more: string)
    ensures UrlStart(owner, repo, rest) + more == UrlStart(owner, repo, rest + more)
  {
    Printed.Assoc("/", rest, more);
    Printed.Assoc(repo, "/" + rest, more);
    Printed.Assoc("/", repo + ("/" + rest), more);
    Printed.Assoc(owner, "/" + (repo + ("/" + rest)), more);
    Printed.Assoc("github:", owner + ("/" + (repo + ("/" + rest))), more);
    Printed.Assoc(['"'], "github:" + (owner + ("/" + (repo + ("/" + rest)))), more);
  }

  lemma PkgsStartAppends(rest: string, more: string)
    ensures PkgsStart(rest) + more == PkgsStart(rest + more)
  {
    Printed.Assoc(['.'], rest, more);
    Printed.Assoc("legacyPackages", ['.'] + rest, more);
    Printed.Assoc(['.'], "legacyPackages" + (['.'] + rest), more);
    Printed.Assoc(NIXPKGS, ['.'] + ("legacyPackages" + (['.'] + rest)), more);
  }

  lemma InputsStartAppends(rest: string, more: string)
    ensures InputsStart(rest) + more == InputsStart(rest + more)
  {
    var t0 := UrlStart(HOME_MANAGER_OWNER, HOME_MANAGER, rest);
    var t1 := Opening(3, "url", t0);
    var t2 := Show(FOLLOWED, 3, Semi(t1));
    var t3 := Opening(3, "inputs", t2);
    var t4 := Opening(2, HOME_MANAGER, BraceOpen(t3));
    UrlStartAppends(HOME_MANAGER_OWNER, HOME_MANAGER, rest, more);
    OpeningAppends(3, "url", t0, more);
    SemiAppends(t1, more);
    ShowAppends(FOLLOWED, 3, Semi(t1), more);
    OpeningAppends(3, "inputs", t2, more);
    SemiAppends(t3, more);
    OpeningAppends(2, HOME_MANAGER, BraceOpen(t3), more);
    SemiAppends(t4, more);
  }

  lemma Head0Appends(rest: string, more: string)
    ensures Head0(rest) + more == Head0(rest + more)
  {
    var t4 := InputsStart(rest);
    var t5 := Opening(1, "inputs", t4);
    var t6 := Show(DESCRIPTION, 1, Semi(t5));
    InputsStartAppends(rest, more);
    OpeningAppends(1, "inputs", t4, more);
    SemiAppends(t5, more);
    ShowAppends(DESCRIPTION, 1, Semi(t5), more);
    OpeningAppends(1, "description", t6, more);
    SemiAppends(Opening(1, "description", t6), more);
  }

  lemma Head1Appends(rest: string, more: string)
    ensures Head1(rest) + more == Head1(rest + more)
  {
    var t0 := UrlStart(NIXPKGS_OWNER, NIXPKGS, rest);
    var t1 := Opening(3, "url", t0);
    var t2 := Opening(2, NIXPKGS, BraceOpen(t1));
    UrlStartAppends(NIXPKGS_OWNER, NIXPKGS, rest, more);
    OpeningAppends(3, "url", t0, more);
    SemiAppends(t1, more);
    OpeningAppends(2, NIXPKGS, BraceOpen(t1), more);
    SemiAppends(t2, more);
    CloseAppends(2, Semi(t2), more);
    SemiAppends(BraceClose(2, Semi(t2)), more);
    Printed.Assoc(['"'], Semi(BraceClose(2, Semi(t2))), more);
  }

  lemma Head2Appends(rest: string, more: string)
    ensures Head2(rest) + more == Head2(rest + more)
  {
    var t0 := Indented(3, rest);
    var t1 := Opening(2, "homeConfigurations", BraceOpen(t0));
    var t2 := ShowFormals([HOME_MANAGER, NIXPKGS], false, true, BraceOpen(t1));
    var t3 := Opening(1, "outputs", ['{'] + t2);
    var t4 := BraceClose(1, Semi(t3));
    var t5 := BraceClose(2, Semi(t4));
    IndentedAppends(3, rest, more);
    SemiAppends(t0, more);
    OpeningAppends(2, "homeConfigurations", BraceOpen(t0), more);
    SemiAppends(t1, more);
    FormalsAppend([HOME_MANAGER, NIXPKGS], false, true, BraceOpen(t1), more);
    Printed.Assoc(['{'], t2, more);
    OpeningAppends(1, "outputs", ['{'] + t2, more);
    SemiAppends(t3, more);
    CloseAppends(1, Semi(t3), more);
    SemiAppends(t4, more);
    CloseAppends(2, Semi(t4), more);
    SemiAppends(t5, more);
    Printed.Assoc(['"'], Semi(t5), more);
  }

  lemma Head3Appends(rest: string, more: string)
    ensures Head3(rest) + more == Head3(rest + more)
  {
    var t0 := PkgsStart(rest);
    var t1 := Opening(4, "pkgs", t0);
    var t2 := Show(MODULES, 4, Semi(t1));
    var t3 := Opening(4, "modules", t2);
    var t4 := Show(CALLEE, 3, [' '] + BraceOpen(t3));
    PkgsStartAppends(rest, more);
    OpeningAppends(4, "pkgs", t0, more);
    SemiAppends(t1, more);
    ShowAppends(MODULES, 4, Semi(t1), more);
    OpeningAppends(4, "modules", t2, more);
    SemiAppends(t3, more);
    Printed.Assoc([' '], BraceOpen(t3), more);
    ShowAppends(CALLEE, 3, [' '] + BraceOpen(t3), more);
    Printed.Assoc([' '], t4, more);
    Printed.Assoc(['='], [' '] + t4, more);
    Printed.Assoc([' '], ['='] + ([' '] + t4), more);
  }

  lemma HeadsFirst(rest: string)
    ensures Head0(rest) == Head0("") + rest && Head1(rest) == Head1("") + rest
    ensures Head2(rest) == Head2("") + rest && Head3(rest) == Head3("") + rest
  {
    assert "" + rest == rest;
    Head0Appends("", rest);
    Head1Appends("", rest);
    Head2Appends("", rest);
    Head3Appends("", rest);
  }

  // ---------------------------------------------------------------------------
  // No marker begins between the holes

  predicate NoMark(s: string) { forall i :: 0 <= i < |s| ==> s[i] != '_' }

  lemma NoMarkJoins(a: string, b: string)
    ensures NoMark(a + b) <==> NoMark(a) && NoMark(b)
  {
    if NoMark(a + b) {
      forall i | 0 <= i < |a| ensures a[i] != '_' {
        assert (a + b)[i] == a[i];
      }
      forall i | 0 <= i < |b| ensures b[i] != '_' {
        assert (a + b)[|a| + i] == b[i];
      }
    }
  }

  lemma {:induction false} IndentedNoMark(depth: nat, rest: string)
    ensures NoMark(Indented(depth, rest)) <==> NoMark(rest)
  {
    if depth > 0 {
      IndentedNoMark(depth - 1, rest);
      NoMarkJoins([' '], [' '] + Indented(depth - 1, rest));
      NoMarkJoins([' '], Indented(depth - 1, rest));
    }
  }

  lemma OpeningNoMark(depth: nat, key: string, rest: string)
    requires IsIdentifier(key) && NoMark(key) && NoMark(rest)
    ensures NoMark(Opening(depth, key, rest))
  {
    IndentedNoMark(depth, ShowKey(key, [' '] + (['='] + ([' '] + rest))));
  }

  lemma CloseNoMark(depth: nat, rest: string)
    requires NoMark(rest)
    ensures NoMark(BraceClose(depth, rest)) && NoMark(Semi(rest)) && NoMark(BraceOpen(rest))
  {
    IndentedNoMark(depth, ['}'] + rest);
  }

  lemma UrlStartNoMark(owner: string, repo: string)
    requires NoMark(owner) && NoMark(repo)
    ensures NoMark(UrlStart(owner, repo, ""))
  {
    assert NoMark("github:");
  }

  /** A string of one verbatim text. */
  lemma TextShown(text: string, depth: nat, rest: string)
    requires IsVerbatim(text) && text != ""
    ensures Show(Str([Lit(text)]), depth, rest) == ['"'] + (text + (['"'] + rest))
  {
    var none: seq<StrPart> := [];
    assert [Lit(text)] + none == [Lit(text)];
    VerbatimPart(text, none, depth, rest);
  }

  predicate IsPlainWord(s: string) { IsIdentifier(s) && NoMark(s) }

  lemma ShortWords()
    ensures IsPlainWord("url") && IsPlainWord("pkgs") && IsPlainWord("lib")
  {}

  lemma InputWords()
    ensures IsPlainWord("inputs") && IsPlainWord("follows")
  {}

  lemma OutputWords()
    ensures IsPlainWord("outputs") && IsPlainWord("modules")
  {}

  lemma EntryWords()
    ensures IsPlainWord("description") && IsPlainWord("homeConfigurations")
  {}

  lemma InputNames()
    ensures IsPlainWord(HOME_MANAGER) && IsPlainWord(NIXPKGS) && NoMark(HOME_MANAGER_OWNER) && NoMark(NIXPKGS_OWNER)
  {}

  lemma FixedWords()
    ensures IsPlainWord("inputs") && IsPlainWord("url") && IsPlainWord("follows") && IsPlainWord("outputs")
    ensures IsPlainWord("pkgs") && IsPlainWord("lib") && IsPlainWord("modules")
    ensures IsPlainWord("description") && IsPlainWord("homeConfigurations")
    ensures IsPlainWord(HOME_MANAGER) && IsPlainWord(NIXPKGS) && NoMark(HOME_MANAGER_OWNER) && NoMark(NIXPKGS_OWNER)
  {
    ShortWords();
    InputWords();
    OutputWords();
    EntryWords();
    InputNames();
  }

  lemma LongWords()
    ensures IsIdentifier(OUTPUT_OF) && NoMark(OUTPUT_OF) && NoMark("legacyPackages")
    ensures IsVerbatim("Generated by mix") && NoMark("Generated by mix")
  {}

  lemma DescriptionNoMark(rest: string)
    requires NoMark(rest)
    ensures NoMark(Show(DESCRIPTION, 1, rest))
  {
    LongWords();
    TextShown("Generated by mix", 1, rest);
  }

  lemma FollowedNoMark(rest: string)
    requires NoMark(rest)
    ensures NoMark(Show(FOLLOWED, 3, rest))
  {
    FixedWords();
    NamesAreVerbatim();
    var follows := Attrs([Entry("follows", Str([Lit(NIXPKGS)]))]);
    AttrsOfOne(NIXPKGS, follows, 3, rest);
    var end := Semi(BraceClose(3, rest));
    CloseNoMark(3, rest);
    CloseNoMark(3, BraceClose(3, rest));
    AttrsOfOne("follows", Str([Lit(NIXPKGS)]), 4, end);
    var inner := Semi(BraceClose(4, end));
    CloseNoMark(4, end);
    CloseNoMark(4, BraceClose(4, end));
    TextShown(NIXPKGS, 5, inner);
    OpeningNoMark(5, "follows", ['"'] + (NIXPKGS + (['"'] + inner)));
    CloseNoMark(0, Opening(5, "follows", ['"'] + (NIXPKGS + (['"'] + inner))));
    OpeningNoMark(4, NIXPKGS, Show(follows, 4, end));
    CloseNoMark(0, Opening(4, NIXPKGS, Show(follows, 4, end)));
  }

  lemma CalleeNoMark(rest: string)
    requires NoMark(rest)
    ensures NoMark(Show(CALLEE, 3, rest))
  {
    FixedWords();
    LongWords();
    var none: seq<string> := [];
    var keys, one := ["lib", OUTPUT_OF], [OUTPUT_OF];
    assert ["lib"] + one == keys && keys[1..] == one && one[1..] == none;
    assert ShowKeys(one, rest) == ['.'] + ShowKey(OUTPUT_OF, ShowKeys(none, rest));
    assert ShowKeys(keys, rest) == ['.'] + ShowKey("lib", ShowKeys(one, rest));
    assert Show(CALLEE, 3, rest) == ShowBase(Var(HOME_MANAGER), 3, ShowKeys(keys, rest));
  }

  lemma ModulesNoMark(rest: string)
    requires NoMark(rest)
    ensures NoMark(Show(MODULES, 4, rest))
  {
    var none: seq<Expr> := [];
    var end := Indented(4, [']'] + rest);
    IndentedNoMark(4, [']'] + rest);
    assert [Path("home.nix")][1..] == none;
    var item := ['.'] + (['/'] + ("home.nix" + (['\n'] + end)));
    assert ShowItems([Path("home.nix")], 5, end) == Indented(5, ShowOperand(Path("home.nix"), 5, ['\n'] + ShowItems(none, 5, end)));
    IndentedNoMark(5, item);
    assert NoMark("home.nix");
  }

  lemma Head0NoMark()
    ensures NoMark(Head0(""))
  {
    FixedWords();
    UrlStartNoMark(HOME_MANAGER_OWNER, HOME_MANAGER);
    var t1 := Opening(3, "url", UrlStart(HOME_MANAGER_OWNER, HOME_MANAGER, ""));
    OpeningNoMark(3, "url", UrlStart(HOME_MANAGER_OWNER, HOME_MANAGER, ""));
    CloseNoMark(0, t1);
    FollowedNoMark(Semi(t1));
    var t3 := Opening(3, "inputs", Show(FOLLOWED, 3, Semi(t1)));
    OpeningNoMark(3, "inputs", Show(FOLLOWED, 3, Semi(t1)));
    CloseNoMark(0, t3);
    OpeningNoMark(2, HOME_MANAGER, BraceOpen(t3));
    CloseNoMark(0, Opening(2, HOME_MANAGER, BraceOpen(t3)));
    OpeningNoMark(1, "inputs", InputsStart(""));
    CloseNoMark(0, Opening(1, "inputs", InputsStart("")));
    var t5 := Semi(Opening(1, "inputs", InputsStart("")));
    DescriptionNoMark(t5);
    OpeningNoMark(1, "description", Show(DESCRIPTION, 1, t5));
    CloseNoMark(0, Opening(1, "description", Show(DESCRIPTION, 1, t5)));
  }

  lemma Head1NoMark()
    ensures NoMark(Head1(""))
  {
    FixedWords();
    UrlStartNoMark(NIXPKGS_OWNER, NIXPKGS);
    var t1 := Opening(3, "url", UrlStart(NIXPKGS_OWNER, NIXPKGS, ""));
    OpeningNoMark(3, "url", UrlStart(NIXPKGS_OWNER, NIXPKGS, ""));
    CloseNoMark(0, t1);
    OpeningNoMark(2, NIXPKGS, BraceOpen(t1));
    var t2 := Opening(2, NIXPKGS, BraceOpen(t1));
    CloseNoMark(0, t2);
    CloseNoMark(2, Semi(t2));
    CloseNoMark(0, BraceClose(2, Semi(t2)));
  }

  lemma Head2NoMark()
    ensures NoMark(Head2(""))
  {
    FixedWords();
    var t0 := Indented(3, "");
    IndentedNoMark(3, "");
    CloseNoMark(0, t0);
    OpeningNoMark(2, "homeConfigurations", BraceOpen(t0));
    var t1 := Opening(2, "homeConfigurations", BraceOpen(t0));
    CloseNoMark(0, t1);
    FormalsNoMark(BraceOpen(t1));
    var t2 := ['{'] + ShowFormals([HOME_MANAGER, NIXPKGS], false, true, BraceOpen(t1));
    OpeningNoMark(1, "outputs", t2);
    var t3 := Opening(1, "outputs", t2);
    CloseNoMark(1, t3);
    CloseNoMark(1, Semi(t3));
    CloseNoMark(2, BraceClose(1, Semi(t3)));
    CloseNoMark(2, Semi(BraceClose(1, Semi(t3))));
    CloseNoMark(2, BraceClose(2, Semi(BraceClose(1, Semi(t3)))));
  }

  lemma FormalsNoMark(rest: string)
    requires NoMark(rest)
    ensures NoMark(ShowFormals([HOME_MANAGER, NIXPKGS], false, true, rest))
  {
    FixedWords();
    var none: seq<string> := [];
    var one := [NIXPKGS];
    assert [HOME_MANAGER, NIXPKGS][1..] == one && one[1..] == none;
    var dots := ['.'] + (['.'] + (['.'] + ([' '] + (['}'] + ([':'] + ([' '] + rest))))));
    assert ShowFormals(none, true, true, rest) == Separator(true, dots);
    assert ShowFormals(one, true, true, rest) == Separator(true, NIXPKGS + ShowFormals(none, true, true, rest));
  }

  lemma Head3NoMark()
    ensures NoMark(Head3(""))
  {
    FixedWords();
    LongWords();
    var t0 := PkgsStart("");
    assert NoMark(t0);
    OpeningNoMark(4, "pkgs", t0);
    CloseNoMark(0, Opening(4, "pkgs", t0));
    ModulesNoMark(Semi(Opening(4, "pkgs", t0)));
    OpeningNoMark(4, "modules", Show(MODULES, 4, Semi(Opening(4, "pkgs", t0))));
    CloseNoMark(0, Opening(4, "modules", Show(MODULES, 4, Semi(Opening(4, "pkgs", t0)))));
    CalleeNoMark([' '] + BraceOpen(Opening(4, "modules", Show(MODULES, 4, Semi(Opening(4, "pkgs", t0))))));
  }

  lemma Head4NoMark()
    ensures NoMark(Head4("\n"))
  {
    var t0 := BraceClose(0, "\n");
    CloseNoMark(0, "\n");
    CloseNoMark(0, t0);
    CloseNoMark(1, Semi(t0));
    CloseNoMark(2, BraceClose(1, Semi(t0)));
    CloseNoMark(2, Semi(BraceClose(1, Semi(t0))));
    CloseNoMark(3, BraceClose(2, Semi(BraceClose(1, Semi(t0)))));
    CloseNoMark(3, Semi(BraceClose(2, Semi(BraceClose(1, Semi(t0))))));
    CloseNoMark(3, BraceClose(3, Semi(BraceClose(2, Semi(BraceClose(1, Semi(t0)))))));
  }

  lemma HeaderNoMark()
    ensures NoMark(HEADER)
  {
    assert NoMark(GENERATED) && NoMark(OVERWRITTEN);
    assert NoMark(" Use `mix` commands to manage") && NoMark(" this configuration.");
    NoMarkJoins(" Use `mix` commands to manage", " this configuration.");
    NoMarkJoins("#", GENERATED);
    NoMarkJoins("#" + GENERATED, "\n#");
    NoMarkJoins("#" + GENERATED + "\n#", OVERWRITTEN);
    NoMarkJoins("#" + GENERATED + "\n#" + OVERWRITTEN, USE_COMMANDS);
    NoMarkJoins("#" + GENERATED + "\n#" + OVERWRITTEN + USE_COMMANDS, "\n\n");
  }

  // ---------------------------------------------------------------------------
  // Spliced

  /** Behind `__mix_hole_`, which all markers begin with. */
  const HOLE: string := "__mix_hole_"
  const MARKERS: seq<string> := [HOLE + "username__", HOLE + "system__", HOLE + "rev_HomeManager__", HOLE + "rev_Nixpkgs__"]

  /** Which marker stands behind each chunk: the two revisions, the user, the system. */
  const HOLES: seq<nat> := [2, 3, 0, 1]

  function Chunks(): seq<string> { [HEADER + Head0(""), Head1(""), Head2(""), Head3(""), Head4("\n")] }

  function Values(user: string, system: string, homeManagerRev: string, nixpkgsRev: string): map<nat, string> {
    map[0 := user, 1 := system, 2 := homeManagerRev, 3 := nixpkgsRev]
  }

  /** What goes into the holes. */
  function Texts(username: string, system: string, homeManagerRev: string, nixpkgsRev: string): map<nat, string> {
    Values(ShowKey(username, ""), ShowKey(system, ""), homeManagerRev, nixpkgsRev)
  }

  lemma FillFive(c0: string, c1: string, c2: string, c3: string, c4: string, texts: map<nat, string>)
    requires 0 in texts && 1 in texts && 2 in texts && 3 in texts
    ensures Fill([c0, c1, c2, c3, c4], HOLES, texts)
         == c0 + (texts[2] + (c1 + (texts[3] + (c2 + (texts[0] + (c3 + (texts[1] + c4)))))))
  {
    assert [c0, c1, c2, c3, c4][1..] == [c1, c2, c3, c4] && HOLES[1..] == [3, 0, 1];
    assert [c1, c2, c3, c4][1..] == [c2, c3, c4] && [3, 0, 1][1..] == [0, 1];
    assert [c2, c3, c4][1..] == [c3, c4] && [0, 1][1..] == [1];
    assert [c3, c4][1..] == [c4] && [1][1..] == [];
    assert Fill([c3, c4], [1], texts) == c3 + (texts[1] + Fill([c4], [], texts));
    assert Fill([c2, c3, c4], [0, 1], texts) == c2 + (texts[0] + Fill([c3, c4], [1], texts));
    assert Fill([c1, c2, c3, c4], [3, 0, 1], texts) == c1 + (texts[3] + Fill([c2, c3, c4], [0, 1], texts));
  }

  lemma InHeads(u: string, s: string, hm: string, np: string)
    ensures (HEADER + Head0("")) + (hm + (Head1("") + (np + (Head2("") + (u + (Head3("") + (s + Head4("\n"))))))))
         == HEADER + Head0(hm + Head1(np + Head2(u + Head3(s + Head4("\n")))))
  {
    var t3 := s + Head4("\n");
    var t2 := u + Head3(t3);
    var t1 := np + Head2(t2);
    var t0 := hm + Head1(t1);
    HeadsFirst(t3);
    HeadsFirst(t2);
    HeadsFirst(t1);
    HeadsFirst(t0);
    Printed.Assoc(HEADER, Head0(""), t0);
  }

  lemma WithNewline(e: Expr)
    ensures HEADER + Print(e) + "\n" == HEADER + Show(e, 0, "\n")
  {
    ShowAppends(e, 0, "", "\n");
    assert "" + "\n" == "\n";
    Printed.Assoc(HEADER, Print(e), "\n");
  }

  lemma ChunksFilled(u: string, s: string, hm: string, np: string)
    ensures Fill(Chunks(), HOLES, Values(u, s, hm, np))
         == HEADER + Head0(hm + Head1(np + Head2(u + Head3(s + Head4("\n")))))
  {
    InHeads(u, s, hm, np);
    FillFive(HEADER + Head0(""), Head1(""), Head2(""), Head3(""), Head4("\n"), Values(u, s, hm, np));
  }

  lemma TextShownInHeads(username: string, system: string, homeManagerRev: string, nixpkgsRev: string)
    requires IsVerbatim(homeManagerRev) && IsVerbatim(nixpkgsRev) && homeManagerRev != "" && nixpkgsRev != ""
    ensures FlakeText(username, system, homeManagerRev, nixpkgsRev)
         == HEADER + Head0(homeManagerRev + Head1(nixpkgsRev + Head2(ShowKey(username, "")
                     + Head3(ShowKey(system, "") + Head4("\n")))))
  {
    FlakeShown(username, system, homeManagerRev, nixpkgsRev, "\n");
    WithNewline(FlakeExpr(username, system, homeManagerRev, nixpkgsRev));
  }

  /** The flake is the chunks with the values between them, whatever the values. */
  lemma FlakeIsFilled(username: string, system: string, homeManagerRev: string, nixpkgsRev: string)
    requires IsVerbatim(homeManagerRev) && IsVerbatim(nixpkgsRev) && homeManagerRev != "" && nixpkgsRev != ""
    ensures FlakeText(username, system, homeManagerRev, nixpkgsRev)
         == Fill(Chunks(), HOLES, Texts(username, system, homeManagerRev, nixpkgsRev))
  {
    TextShownInHeads(username, system, homeManagerRev, nixpkgsRev);
    ChunksFilled(ShowKey(username, ""), ShowKey(system, ""), homeManagerRev, nixpkgsRev);
  }

  lemma MarkersAreApart()
    ensures IsApart(MARKERS) && forall i :: 0 <= i < |MARKERS| ==> MARKERS[i][0] == '_'
  {
    var tails := ["username__", "system__", "rev_HomeManager__", "rev_Nixpkgs__"];
    forall i, j | 0 <= i < 4 && 0 <= j < 4 && i != j
      ensures !(MARKERS[i] <= MARKERS[j])
    {
      assert MARKERS[i] == HOLE + tails[i] && MARKERS[j] == HOLE + tails[j];
      TailsTellApart(HOLE, tails[i], tails[j], if tails[i][0] == tails[j][0] then 4 else 0);
    }
  }

  lemma TailsTellApart(front: string, a: string, b: string, at: nat)
    requires at < |a| && at < |b| && a[at] != b[at]
    ensures !(front + a <= front + b)
  {
    assert (front + a)[|front| + at] == a[at] && (front + b)[|front| + at] == b[at];
  }

  /** A marker is a key that needs no quotes. */
  lemma MarkerIsKey(tail: string)
    requires forall i :: 0 <= i < |tail| ==> ContinuesIdentifier(tail[i])
    ensures ShowKey(HOLE + tail, "") == HOLE + tail
  {
    var marker := HOLE + tail;
    assert marker[0] == '_';
    forall i | 1 <= i < |marker|
      ensures ContinuesIdentifier(marker[i])
    {
      assert i < |HOLE| ==> ContinuesIdentifier(HOLE[i]);
    }
    forall w | w in RESERVED_WORDS
      ensures w != marker
    {
      assert w[0] != '_';
    }
    assert marker + "" == marker;
  }

  lemma MarkersAreVerbatim()
    ensures IsVerbatim(MARKERS[2]) && IsVerbatim(MARKERS[3])
  {
    assert IsVerbatim(HOLE) && IsVerbatim("rev_HomeManager__") && IsVerbatim("rev_Nixpkgs__");
  }

  lemma MarkedIsTexts()
    ensures Marked(MARKERS) == Texts(MARKERS[0], MARKERS[1], MARKERS[2], MARKERS[3])
  {
    MarkerIsKey("username__");
    MarkerIsKey("system__");
  }

  lemma ChunksArePlain()
    ensures AllPlain(Chunks(), MARKERS)
  {
    HeaderNoMark();
    Head0NoMark();
    Head1NoMark();
    Head2NoMark();
    Head3NoMark();
    Head4NoMark();
    NoMarkJoins(HEADER, Head0(""));
    MarkersAreApart();
    forall i | 0 <= i < 5
      ensures IsPlain(Chunks()[i], MARKERS)
    {
      assert NoMark(Chunks()[i]);
    }
  }

  /** The flake with the markers in it, as it is written once. */
  function Template(): string { FlakeText(MARKERS[0], MARKERS[1], MARKERS[2], MARKERS[3]) }

  lemma HolesAreMarked()
    ensures AllThere(MARKERS) && InRange(HOLES, |MARKERS|) && AllIn(HOLES, Marked(MARKERS))
  {
    MarkersAreApart();
    assert |MARKERS| == 4 && HOLES == [2, 3, 0, 1];
    InMarked(HOLES, MARKERS);
  }

  lemma AnyTemplateIsCut(template: string, chunks: seq<string>)
    requires |chunks| == 5 && AllPlain(chunks, MARKERS) && AllIn(HOLES, Marked(MARKERS))
    requires template == Fill(chunks, HOLES, Marked(MARKERS))
    ensures AllThere(MARKERS) && Split(template, MARKERS) == (chunks, HOLES)
  {
    MarkersAreApart();
    HolesAreMarked();
    AllPlainIsAllClear(chunks, HOLES, MARKERS);
    SplitRecovers(chunks, HOLES, MARKERS);
  }

  lemma TemplateIsFilled()
    ensures AllIn(HOLES, Marked(MARKERS)) && Template() == Fill(Chunks(), HOLES, Marked(MARKERS))
  {
    HolesAreMarked();
    MarkersAreVerbatim();
    MarkedIsTexts();
    FlakeIsFilled(MARKERS[0], MARKERS[1], MARKERS[2], MARKERS[3]);
  }

  lemma TemplateIsCut()
    ensures AllThere(MARKERS) && Split(Template(), MARKERS) == (Chunks(), HOLES)
  {
    TemplateIsFilled();
    ChunksArePlain();
    AnyTemplateIsCut(Template(), Chunks());
  }

  /** The template is cut into the five chunks, each hole once, and filled with any values it is the flake in full. */
  lemma SplicedIsWritten(username: string, system: string, homeManagerRev: string, nixpkgsRev: string)
    requires IsVerbatim(homeManagerRev) && IsVerbatim(nixpkgsRev) && homeManagerRev != "" && nixpkgsRev != ""
    ensures AllThere(MARKERS) && Split(Template(), MARKERS) == (Chunks(), HOLES)
    ensures Fill(Chunks(), HOLES, Texts(username, system, homeManagerRev, nixpkgsRev))
         == FlakeText(username, system, homeManagerRev, nixpkgsRev)
  {
    TemplateIsCut();
    FlakeIsFilled(username, system, homeManagerRev, nixpkgsRev);
  }

  // ---------------------------------------------------------------------------
  // Read back

  /** The inputs as they are read: each url one text. */
  function ReadUrl(owner: string, repo: string, rev: string): Expr {
    Str([Lit("github:" + owner + "/" + repo + "/" + rev)])
  }

  function ReadInputs(homeManagerRev: string, nixpkgsRev: string): Expr {
    Attrs([Entry(HOME_MANAGER, Attrs([Entry("inputs", FOLLOWED),
                                      Entry("url", ReadUrl(HOME_MANAGER_OWNER, HOME_MANAGER, homeManagerRev))])),
           Entry(NIXPKGS, Attrs([Entry("url", ReadUrl(NIXPKGS_OWNER, NIXPKGS, nixpkgsRev))]))])
  }

  function ReadFlake(username: string, system: string, homeManagerRev: string, nixpkgsRev: string): Expr {
    Attrs([Entry("description", DESCRIPTION), Entry("inputs", ReadInputs(homeManagerRev, nixpkgsRev)),
           Entry("outputs", Outputs(username, system))])
  }

  /** Written or read, an expression that can be printed and comes back as `read`. */
  ghost predicate ComesBack(written: Expr, read: Expr) { Printable(written) && Normalize(written) == read }

  lemma TextReads(text: string)
    requires HasNoNul(text) && text != ""
    ensures ComesBack(Str([Lit(text)]), Str([Lit(text)]))
  {
    NormalText(text);
    assert PrintablePart(Lit(text));
  }

  lemma UrlNormalizes(owner: string, repo: string, rev: string)
    ensures Normalize(Url(owner, repo, rev)) == ReadUrl(owner, repo, rev)
  {
    var none: seq<StrPart> := [];
    var p5 := [Lit(rev)] + none;
    var p4 := [Lit("/")] + p5;
    var p3 := [Lit(repo)] + p4;
    var p2 := [Lit("/")] + p3;
    var p1 := [Lit(owner)] + p2;
    assert [Lit("github:")] + p1 == [Lit("github:"), Lit(owner), Lit("/"), Lit(repo), Lit("/"), Lit(rev)];
    MergeLit("", "github:", p1);
    MergeLit("github:", owner, p2);
    MergeLit("github:" + owner, "/", p3);
    MergeLit("github:" + owner + "/", repo, p4);
    MergeLit("github:" + owner + "/" + repo, "/", p5);
    MergeLit("github:" + owner + "/" + repo + "/", rev, none);
    assert "" + "github:" == "github:";
  }

  lemma UrlReads(owner: string, repo: string, rev: string)
    requires IsVerbatim(owner) && IsVerbatim(repo) && IsVerbatim(rev)
    ensures ComesBack(Url(owner, repo, rev), ReadUrl(owner, repo, rev))
  {
    assert HasNoNul("github:") && HasNoNul("/");
    assert PrintablePart(Lit("github:")) && PrintablePart(Lit("/"));
    assert PrintablePart(Lit(owner)) && PrintablePart(Lit(repo)) && PrintablePart(Lit(rev));
    UrlNormalizes(owner, repo, rev);
  }

  lemma AttrsReadOne(key: string, v: Expr, r: Expr)
    requires HasNoNul(key) && ComesBack(v, r)
    ensures ComesBack(Attrs([Entry(key, v)]), Attrs([Entry(key, r)]))
  {
    assert NormalizeEntries([Entry(key, v)]) == [Entry(key, r)];
  }

  lemma AttrsReadTwo(k1: string, v1: Expr, r1: Expr, k2: string, v2: Expr, r2: Expr)
    requires HasNoNul(k1) && HasNoNul(k2) && Less(k1, k2) && ComesBack(v1, r1) && ComesBack(v2, r2)
    ensures ComesBack(Attrs([Entry(k1, v1), Entry(k2, v2)]), Attrs([Entry(k1, r1), Entry(k2, r2)]))
  {
    assert NormalizeEntries([Entry(k1, v1), Entry(k2, v2)]) == [Entry(k1, r1), Entry(k2, r2)];
  }

  lemma AttrsReadThree(k1: string, v1: Expr, r1: Expr, k2: string, v2: Expr, r2: Expr, k3: string, v3: Expr, r3: Expr)
    requires HasNoNul(k1) && HasNoNul(k2) && HasNoNul(k3) && Less(k1, k2) && Less(k2, k3) && Less(k1, k3)
    requires ComesBack(v1, r1) && ComesBack(v2, r2) && ComesBack(v3, r3)
    ensures ComesBack(Attrs([Entry(k1, v1), Entry(k2, v2), Entry(k3, v3)]),
                      Attrs([Entry(k1, r1), Entry(k2, r2), Entry(k3, r3)]))
  {
    assert NormalizeEntries([Entry(k1, v1), Entry(k2, v2), Entry(k3, v3)]) == [Entry(k1, r1), Entry(k2, r2), Entry(k3, r3)];
  }

  /** A variable with two selections. */
  lemma SelectionReads(name: string, first: string, second: string)
    requires IsIdentifier(name) && name != "true" && name != "false" && HasNoNul(first) && HasNoNul(second)
    ensures ComesBack(Select(Var(name), first, [second]), Select(Var(name), first, [second]))
  {
    var e := Select(Var(name), first, [second]);
    assert Normalize(e) == SelectFrom(Normalize(Var(name)), first, [second]);
    assert Printable(Var(name));
  }

  lemma DescriptionReads()
    ensures ComesBack(DESCRIPTION, DESCRIPTION)
  {
    LongWords();
    TextReads("Generated by mix");
  }

  lemma WordReads(word: string)
    requires IsPlainWord(word)
    ensures HasNoNul(word) && IsIdentifier(word) && word != ""
  {}

  lemma WordsRead()
    ensures HasNoNul("inputs") && HasNoNul("url") && HasNoNul("follows") && HasNoNul("outputs") && HasNoNul("pkgs")
    ensures HasNoNul("modules") && HasNoNul("description") && HasNoNul("homeConfigurations") && HasNoNul("lib")
    ensures HasNoNul(HOME_MANAGER) && HasNoNul(NIXPKGS) && IsIdentifier(HOME_MANAGER) && IsIdentifier(NIXPKGS)
  {
    FixedWords();
    WordReads("inputs");
    WordReads("url");
    WordReads("follows");
    WordReads("outputs");
    WordReads("pkgs");
    WordReads("modules");
    WordReads("description");
    WordReads("homeConfigurations");
    WordReads("lib");
    WordReads(HOME_MANAGER);
    WordReads(NIXPKGS);
  }

  lemma FollowedReads()
    ensures ComesBack(FOLLOWED, FOLLOWED)
  {
    WordsRead();
    TextReads(NIXPKGS);
    var follows := Attrs([Entry("follows", Str([Lit(NIXPKGS)]))]);
    AttrsReadOne("follows", Str([Lit(NIXPKGS)]), Str([Lit(NIXPKGS)]));
    AttrsReadOne(NIXPKGS, follows, follows);
  }

  lemma InputsRead(homeManagerRev: string, nixpkgsRev: string)
    requires IsVerbatim(homeManagerRev) && IsVerbatim(nixpkgsRev)
    ensures ComesBack(Inputs(homeManagerRev, nixpkgsRev), ReadInputs(homeManagerRev, nixpkgsRev))
  {
    var hm, np := Url(HOME_MANAGER_OWNER, HOME_MANAGER, homeManagerRev), Url(NIXPKGS_OWNER, NIXPKGS, nixpkgsRev);
    var hmRead := ReadUrl(HOME_MANAGER_OWNER, HOME_MANAGER, homeManagerRev);
    var npRead := ReadUrl(NIXPKGS_OWNER, NIXPKGS, nixpkgsRev);
    NamesAreVerbatim();
    WordsRead();
    FollowedReads();
    UrlReads(HOME_MANAGER_OWNER, HOME_MANAGER, homeManagerRev);
    UrlReads(NIXPKGS_OWNER, NIXPKGS, nixpkgsRev);
    AttrsReadTwo("inputs", FOLLOWED, FOLLOWED, "url", hm, hmRead);
    AttrsReadOne("url", np, npRead);
    AttrsReadTwo(HOME_MANAGER, Attrs([Entry("inputs", FOLLOWED), Entry("url", hm)]),
                 Attrs([Entry("inputs", FOLLOWED), Entry("url", hmRead)]),
                 NIXPKGS, Attrs([Entry("url", np)]), Attrs([Entry("url", npRead)]));
  }

  lemma ModulesRead()
    ensures ComesBack(MODULES, MODULES)
  {
    assert IsRelPath("home.nix");
    assert Printable(Path("home.nix")) && Normalize(Path("home.nix")) == Path("home.nix");
    assert NormalizeAll([Path("home.nix")]) == [Path("home.nix")];
  }

  lemma ApplyReads(callee: Expr, argument: Expr)
    requires ComesBack(callee, callee) && ComesBack(argument, argument)
    ensures ComesBack(Apply(callee, argument), Apply(callee, argument))
  {}

  lemma CalleeReads()
    ensures ComesBack(CALLEE, CALLEE)
  {
    WordsRead();
    assert HasNoNul(OUTPUT_OF);
    SelectionReads(HOME_MANAGER, "lib", OUTPUT_OF);
  }

  lemma ConfigurationReads(system: string)
    requires HasNoNul(system)
    ensures ComesBack(Configuration(system), Configuration(system))
  {
    var pkgs := Select(Var(NIXPKGS), "legacyPackages", [system]);
    WordsRead();
    assert HasNoNul("legacyPackages");
    ModulesRead();
    CalleeReads();
    SelectionReads(NIXPKGS, "legacyPackages", system);
    AttrsReadTwo("modules", MODULES, MODULES, "pkgs", pkgs, pkgs);
    ApplyReads(CALLEE, Attrs([Entry("modules", MODULES), Entry("pkgs", pkgs)]));
  }

  lemma OutputsRead(username: string, system: string)
    requires HasNoNul(username) && HasNoNul(system)
    ensures ComesBack(Outputs(username, system), Outputs(username, system))
  {
    var configurations := Attrs([Entry(username, Configuration(system))]);
    WordsRead();
    ConfigurationReads(system);
    AttrsReadOne(username, Configuration(system), Configuration(system));
    AttrsReadOne("homeConfigurations", configurations, configurations);
    assert Less(HOME_MANAGER, NIXPKGS);
    assert Increasing([HOME_MANAGER, NIXPKGS]);
  }

  lemma WholeReads(e: Expr, read: Expr)
    requires ComesBack(e, read)
    ensures ReadSource(HEADER + Print(e) + "\n") == Ok(read, "")
  {
    WithNewline(e);
    ReadsAfterHeader(Show(e, 0, "\n"));
    ReadShown(e, 0, "\n");
    assert "\n"[1..] == "";
  }

  /** The whole of flake.nix, header and all, reads back as the set that holds the user, the system and the revisions. */
  lemma FlakeReads(username: string, system: string, homeManagerRev: string, nixpkgsRev: string)
    requires HasNoNul(username) && HasNoNul(system) && IsVerbatim(homeManagerRev) && IsVerbatim(nixpkgsRev)
    ensures ReadSource(FlakeText(username, system, homeManagerRev, nixpkgsRev))
         == Ok(ReadFlake(username, system, homeManagerRev, nixpkgsRev), "")
  {
    WordsRead();
    DescriptionReads();
    InputsRead(homeManagerRev, nixpkgsRev);
    OutputsRead(username, system);
    AttrsReadThree("description", DESCRIPTION, DESCRIPTION,
                   "inputs", Inputs(homeManagerRev, nixpkgsRev), ReadInputs(homeManagerRev, nixpkgsRev),
                   "outputs", Outputs(username, system), Outputs(username, system));
    WholeReads(FlakeExpr(username, system, homeManagerRev, nixpkgsRev),
               ReadFlake(username, system, homeManagerRev, nixpkgsRev));
  }
}
