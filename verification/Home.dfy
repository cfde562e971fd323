/**
 The generated home.nix of crates/nixgen/src/home.rs: what a module may hold, how it is written
 and, as the main result, that the whole text reads back as exactly the module that was written.
 */
module Home {
  import opened Wrappers
  import opened Ident
  import opened Ast
  import opened Printed
  import opened Reader
  import opened RoundTrip
  import opened NormalForm
  import opened Writer
  import opened Printer

  datatype InvalidInput = UserName(name: string) | HomeDirectory(path: string) | Package(name: string)

  datatype Copy = Copy(source: string, target: string)

  datatype HomeModule = HomeModule(username: string, homeDirectory: string, stateVersion: string,
                                   packages: seq<string>, files: seq<Copy>)

  // ---------------------------------------------------------------------------
  // What a module may hold

  predicate IsStateVersion(s: string) {
    |s| == 5 && IsDigit(s[0]) && IsDigit(s[1]) && s[2] == '.' && (s[3..] == "05" || s[3..] == "11")
  }

  predicate IsBlank(s: string) { forall c | c in s :: c == ' ' || c == '\t' || c == '\n' }

  predicate IsUserName(s: string) { HasNoNul(s) && !IsBlank(s) }

  predicate IsHomeDirectory(path: string) { path != "" && path[0] == '/' && HasNoNul(path) }

  predicate ValidCopy(copy: Copy) { IsFileName(copy.source) && IsFileName(copy.target) }

  predicate ValidHome(m: HomeModule) {
    IsUserName(m.username) && IsHomeDirectory(m.homeDirectory) && IsStateVersion(m.stateVersion) &&
    (forall p | p in m.packages :: IsIdentifier(p)) && (forall c | c in m.files :: ValidCopy(c))
  }

  /** `HomeModule::new`: the user name is checked first. */
  function NewHome(username: string, homeDirectory: string, stateVersion: string): (r: Result<HomeModule, InvalidInput>)
    requires IsStateVersion(stateVersion)
    ensures r.Success? <==> IsUserName(username) && IsHomeDirectory(homeDirectory)
    ensures r.Success? ==> ValidHome(r.value) && r.value.packages == [] && r.value.files == []
    ensures r.Failure? ==> r.error == if !IsUserName(username) then UserName(username) else HomeDirectory(homeDirectory)
  {
    if !IsUserName(username) then Failure(UserName(username))
    else if !IsHomeDirectory(homeDirectory) then Failure(HomeDirectory(homeDirectory))
    else Success(HomeModule(username, homeDirectory, stateVersion, [], []))
  }

  /** The names checked one by one, up to the first that is no identifier. */
  method WithPackages(m: HomeModule, names: seq<string>) returns (r: Result<HomeModule, InvalidInput>)
    requires ValidHome(m)
    ensures r.Success? <==> forall n | n in names :: IsIdentifier(n)
    ensures r.Success? ==> r.value == m.(packages := names) && ValidHome(r.value)
    ensures r.Failure? ==> exists i :: 0 <= i < |names| && r.error == Package(names[i]) && !IsIdentifier(names[i]) &&
                                       forall j :: 0 <= j < i ==> IsIdentifier(names[j])
  {
    for i := 0 to |names|
      invariant forall j :: 0 <= j < i ==> IsIdentifier(names[j])
    {
      var valid := IsIdentifierBytes(names[i]);
      if !valid {
        return Failure(Package(names[i]));
      }
    }
    return Success(m.(packages := names));
  }

  // ---------------------------------------------------------------------------
  // The expression that is written

  const PKGS: string := "pkgs"
  const HOME: string := "home"
  const USERNAME: string := "username"
  const HOME_DIRECTORY: string := "homeDirectory"
  const STATE_VERSION: string := "stateVersion"
  const PACKAGES: string := "packages"
  const BUILDER_COMMANDS: string := "extraBuilderCommands"

  const CP: string := "cp "
  const NEXT_CP: string := "\ncp "
  const INTO_OUT: string := " $out/"

  /** The calls that write the commands, one part each. */
  function WrittenCommands(files: seq<Copy>, started: bool): seq<StrPart> {
    if files == [] then []
    else
      [Lit(if started then NEXT_CP else CP), Interp(Path(files[0].source)), Lit(INTO_OUT), Lit(files[0].target)] +
      WrittenCommands(files[1..], true)
  }

  function Selections(packages: seq<string>): (r: seq<Expr>)
    ensures |r| == |packages| && forall i :: 0 <= i < |r| ==> r[i] == Select(Var(PKGS), packages[i], [])
  {
    if packages == [] then [] else [Select(Var(PKGS), packages[0], [])] + Selections(packages[1..])
  }

  /** The attributes of `home`, given the text of the commands. */
  function Settings(m: HomeModule, commands: seq<StrPart>): seq<Entry> {
    (if m.files == [] then [] else [Entry(BUILDER_COMMANDS, Str(commands))]) +
    [Entry(HOME_DIRECTORY, Str([Lit(m.homeDirectory)])),
     Entry(PACKAGES, List(Selections(m.packages))),
     Entry(STATE_VERSION, Str([Lit(m.stateVersion)])),
     Entry(USERNAME, Str([Lit(m.username)]))]
  }

  function LambdaOver(settings: seq<Entry>): Expr {
    Lambda([PKGS], true, Attrs([Entry(HOME, Attrs(settings))]))
  }

  function Written(m: HomeModule): Expr { LambdaOver(Settings(m, WrittenCommands(m.files, false))) }

  /** The commands as they are read back: one literal between two interpolations. */
  function CommandParts(files: seq<Copy>): seq<StrPart>
    requires files != []
  {
    [Lit(CP)] + AfterCp(files)
  }

  function AfterCp(files: seq<Copy>): seq<StrPart>
    requires files != []
  {
    [Interp(Path(files[0].source))] +
    if |files| == 1 then [Lit(INTO_OUT + files[0].target)]
    else [Lit(INTO_OUT + files[0].target + NEXT_CP)] + AfterCp(files[1..])
  }

  /** What a reader of home.nix gets: a lambda over `pkgs` that holds the module and nothing else. */
  function HomeLambda(m: HomeModule): Expr {
    LambdaOver(Settings(m, if m.files == [] then [] else CommandParts(m.files)))
  }

  // ---------------------------------------------------------------------------
  // Writing

  const GENERATED: string := " Code generated by mix. DO NOT EDIT."
  const OVERWRITTEN: string := " Manual changes will be overwritten."
  const USE_COMMANDS: string := " Use `mix` commands to manage" + " this configuration."

  /** Two comment lines and an empty one. */
  const HEADER: string := "#" + GENERATED + "\n#" + OVERWRITTEN + USE_COMMANDS + "\n\n"

  method WriteText(w: Writer, text: string)
    modifies w
    ensures w.out == old(w.out) + Show(Str([Lit(text)]), w.depth, "") && w.depth == old(w.depth)
  {
    var s := new StrWriter(w);
    s.Lit(text);
    s.End();
    TextInQuotes(old(w.out), text, w.depth);
  }

  method WriteVerbatim(w: Writer, text: string)
    requires IsVerbatim(text)
    modifies w
    ensures w.out == old(w.out) + Show(Str([Lit(text)]), w.depth, "") && w.depth == old(w.depth)
  {
    var s := new StrWriter(w);
    s.Verbatim(text);
    s.End();
    TextInQuotes(old(w.out), text, w.depth);
  }

  /** A string of one literal, as the string writer pushes it. */
  lemma TextInQuotes(before: string, text: string, depth: nat)
    ensures before + "\"" + (if text == "" then "" else Dollar(false, text[0] == '{', Escaped(Body(text), ""))) +
              Dollar(if text == "" then false else EndsWithDollar(text), false, ['"'] + "")
         == before + Show(Str([Lit(text)]), depth, "")
  {
    var pushed := if text == "" then "" else Dollar(false, text[0] == '{', Escaped(Body(text), ""));
    var closed := Dollar(if text == "" then false else EndsWithDollar(text), false, ['"'] + "");
    LitText(text, [], false, depth);
    OneLit(text, depth);
    assert before + "\"" + pushed + closed == before + ("\"" + (pushed + closed));
  }

  lemma OneLit(text: string, depth: nat)
    ensures [Lit(text)] + [] == [Lit(text)]
    ensures Show(Str([Lit(text)]), depth, "") == "\"" + ShowParts([Lit(text)], false, depth, "")
  {}

  /** `select_ident`, as an item of a list. */
  method WriteSelection(w: Writer, attr: string)
    requires IsIdentifier(attr)
    modifies w`out
    ensures w.out == old(w.out) + ShowOperand(Select(Var(PKGS), attr, []), w.depth, "")
  {
    w.Push(PKGS);
    w.Push(".");
    w.Push(attr);
    SelectionText(attr, w.depth);
    AppendAfter(old(w.out) + PKGS, ".", attr, "." + attr);
    AppendAfter(old(w.out), PKGS, "." + attr, PKGS + ("." + attr));
  }

  lemma SelectionText(attr: string, depth: nat)
    requires IsIdentifier(attr)
    ensures ShowOperand(Select(Var(PKGS), attr, []), depth, "") == PKGS + ("." + attr)
  {
    var none: seq<string> := [];
    assert [attr] + none == [attr] && [attr][1..] == none;
    assert attr + "" == attr;
    assert ShowKeys([attr], "") == ['.'] + ShowKey(attr, ShowKeys(none, ""));
    assert Show(Select(Var(PKGS), attr, []), depth, "") == ShowBase(Var(PKGS), depth, ShowKeys([attr] + none, ""));
  }

  method WritePackages(w: Writer, packages: seq<string>)
    requires forall p | p in packages :: IsIdentifier(p)
    modifies w
    ensures w.out == old(w.out) + Show(List(Selections(packages)), w.depth, "") && w.depth == old(w.depth)
  {
    var l := new ListWriter(w);
    ghost var items, end := Selections(packages), Indented(w.depth, "]");
    ghost var todo := ShowItems(items, w.depth + 1, end);
    ghost var goal := w.out + ("[\n" + todo);
    assert items[0..] == items && w.out + "[\n" + todo == goal;
    for i := 0 to |packages|
      invariant fresh(l) && l.w == w && w.depth == old(w.depth)
      invariant l.begun == (i > 0) && (i == 0 ==> w.out == old(w.out))
      invariant todo == ShowItems(items[i..], w.depth + 1, end) && OwesItems(l, todo, goal)
    {
      FirstItem(packages, i, w.depth + 1, end);
      todo := ShowItems(items[i + 1..], w.depth + 1, end);
      WritePackage(l, packages[i], todo, goal);
    }
    assert items[|packages|..] == [];
    NothingAdded(w.out);
    l.End();
    ListText(items, w.depth);
  }

  /** Once `rest` is written behind what is, the text is `goal`. */
  ghost predicate OwesItems(l: ListWriter, rest: string, goal: string)
    reads l, l.w
  {
    l.w.out + Unless(l.begun, "[\n") + rest == goal
  }

  lemma FirstItem(packages: seq<string>, i: nat, depth: nat, end: string)
    requires i < |packages|
    ensures var items, item := Selections(packages), Select(Var(PKGS), packages[i], []);
      ShowItems(items[i..], depth, end) == Indented(depth, ShowOperand(item, depth, ['\n'] + ShowItems(items[i + 1..], depth, end)))
  {
    assert Selections(packages)[i..][1..] == Selections(packages)[i + 1..];
  }

  method WritePackage(l: ListWriter, package: string, ghost rest: string, ghost goal: string)
    requires IsIdentifier(package)
    requires OwesItems(l, Indented(l.w.depth + 1, ShowOperand(Select(Var(PKGS), package, []), l.w.depth + 1, ['\n'] + rest)), goal)
    modifies l, l.w
    ensures l.w.depth == old(l.w.depth) && l.begun && OwesItems(l, rest, goal)
  {
    ghost var before, depth, item := l.w.out + Unless(l.begun, "[\n"), l.w.depth + 1, Select(Var(PKGS), package, []);
    l.ItemStart();
    WriteSelection(l.w, package);
    l.ItemEnd();
    ItemText(item, depth, rest);
    AppendThree(before, Indented(depth, ""), ShowOperand(item, depth, ""), "\n", rest,
                Indented(depth, ShowOperand(item, depth, ['\n'] + rest)));
    assert l.w.out == before + Indented(depth, "") + ShowOperand(item, depth, "") + "\n";
    NothingAdded(l.w.out);
  }

  method WriteCommands(w: Writer, files: seq<Copy>)
    requires forall c | c in files :: ValidCopy(c)
    modifies w
    ensures w.out == old(w.out) + Show(Str(WrittenCommands(files, false)), w.depth, "") && w.depth == old(w.depth)
  {
    var s := new StrWriter(w);
    ghost var whole := "\"" + ShowParts(WrittenCommands(files, false), false, w.depth, "");
    for i := 0 to |files|
      invariant fresh(s) && s.w == w && w.depth == old(w.depth)
      invariant w.out + ShowParts(WrittenCommands(files[i..], i > 0), s.pendingDollar, w.depth, "") == old(w.out) + whole
    {
      assert files[i..][1..] == files[i + 1..] && files[i..][0] == files[i];
      WriteCommand(s, files[i], i > 0, WrittenCommands(files[i + 1..], true));
    }
    assert files[|files|..] == [];
    s.End();
  }

  /** The four calls for one file. */
  method WriteCommand(s: StrWriter, copy: Copy, started: bool, ghost after: seq<StrPart>)
    requires ValidCopy(copy)
    modifies s, s.w
    ensures s.w.depth == old(s.w.depth)
    ensures s.w.out + ShowParts(after, s.pendingDollar, s.w.depth, "")
         == old(s.w.out) + ShowParts([Lit(if started then NEXT_CP else CP), Interp(Path(copy.source)),
                                      Lit(INTO_OUT), Lit(copy.target)] + after, old(s.pendingDollar), s.w.depth, "")
  {
    FileNameIsVerbatim(copy.target);
    ghost var target := [Lit(copy.target)] + after;
    ghost var intoOut := [Lit(INTO_OUT)] + target;
    ghost var source := [Interp(Path(copy.source))] + intoOut;
    assert [Lit(if started then NEXT_CP else CP), Interp(Path(copy.source)), Lit(INTO_OUT), Lit(copy.target)] + after
        == [Lit(if started then NEXT_CP else CP)] + source;
    WriteVerbatimPart(s, if started then NEXT_CP else CP, source);
    WriteSource(s, copy.source, intoOut);
    WriteLit(s, INTO_OUT, target);
    WriteVerbatimPart(s, copy.target, after);
  }

  method WriteVerbatimPart(s: StrWriter, text: string, ghost after: seq<StrPart>)
    requires IsVerbatim(text)
    modifies s, s.w`out
    ensures s.w.out + ShowParts(after, s.pendingDollar, s.w.depth, "")
         == old(s.w.out) + ShowParts([Lit(text)] + after, old(s.pendingDollar), s.w.depth, "")
  {
    ghost var pending, depth := s.pendingDollar, s.w.depth;
    s.Verbatim(text);
    LitText(text, after, pending, depth);
    AppendAfter(old(s.w.out),
                if text == "" then "" else Dollar(pending, text[0] == '{', Escaped(Body(text), "")),
                ShowParts(after, s.pendingDollar, depth, ""), ShowParts([Lit(text)] + after, pending, depth, ""));
  }

  method WriteLit(s: StrWriter, text: string, ghost after: seq<StrPart>)
    modifies s, s.w`out
    ensures s.w.out + ShowParts(after, s.pendingDollar, s.w.depth, "")
         == old(s.w.out) + ShowParts([Lit(text)] + after, old(s.pendingDollar), s.w.depth, "")
  {
    ghost var pending, depth := s.pendingDollar, s.w.depth;
    s.Lit(text);
    LitText(text, after, pending, depth);
    AppendAfter(old(s.w.out),
                if text == "" then "" else Dollar(pending, text[0] == '{', Escaped(Body(text), "")),
                ShowParts(after, s.pendingDollar, depth, ""), ShowParts([Lit(text)] + after, pending, depth, ""));
  }

  method WriteSource(s: StrWriter, source: string, ghost after: seq<StrPart>)
    modifies s, s.w`out
    ensures s.w.out + ShowParts(after, s.pendingDollar, s.w.depth, "")
         == old(s.w.out) + ShowParts([Interp(Path(source))] + after, old(s.pendingDollar), s.w.depth, "")
  {
    ghost var pending, depth := s.pendingDollar, s.w.depth;
    s.InterpStart();
    s.w.Path(source);
    s.InterpEnd();
    InterpText(Path(source), after, pending, depth);
    AppendThree(old(s.w.out), Dollar(pending, true, ['$'] + (['{'] + "")), Show(Path(source), depth, ""), "}",
                ShowParts(after, false, depth, ""), ShowParts([Interp(Path(source))] + after, pending, depth, ""));
  }

  lemma FileNameIsVerbatim(s: string)
    requires IsFileName(s)
    ensures IsVerbatim(s) && IsRelPath(s) && HasNoNul(s)
  {
    forall i | 0 <= i < |s|
      ensures StandsForItself(s[i])
    {
      assert IsLower(s[i]) || IsDigit(s[i]) || s[i] == '-' || s[i] == '.';
    }
    assert !InnerDot(s, 0);
  }

  // ---------------------------------------------------------------------------
  // The attributes, in the order of their keys

  ghost function EntryShown(entry: Entry, depth: nat, rest: string): string {
    Indented(depth, ShowKey(entry.key, [' '] + (['='] + ([' '] + Show(entry.value, depth, [';'] + (['\n'] + rest))))))
  }

  /** Once `rest` is written behind what is, the text is `goal`. */
  ghost predicate Owes(a: AttrsWriter, rest: string, goal: string)
    reads a, a.w
  {
    a.w.out + Unless(a.last.Some?, "{\n") + rest == goal
  }

  lemma EntryWritten(before: string, after: string, entry: Entry, depth: nat, rest: string, goal: string)
    requires after == before + Indented(depth, ShowKey(entry.key, " = ")) + Show(entry.value, depth, "") + ";\n"
    requires before + EntryShown(entry, depth, rest) == goal
    ensures after + Unless(true, "{\n") + rest == goal
  {
    EntryText(entry, depth, rest);
    NothingAdded(after);
    AppendThree(before, Indented(depth, ShowKey(entry.key, " = ")), Show(entry.value, depth, ""), ";\n", rest,
                EntryShown(entry, depth, rest));
  }

  method WriteTextEntry(a: AttrsWriter, key: string, text: string, ghost rest: string, ghost goal: string)
    requires a.last.Some? ==> Less(a.last.value, key)
    requires Owes(a, EntryShown(Entry(key, Str([Lit(text)])), a.w.depth + 1, rest), goal)
    modifies a, a.w
    ensures a.last == Some(key) && a.w.depth == old(a.w.depth) && Owes(a, rest, goal)
  {
    ghost var before, depth := a.w.out + Unless(a.last.Some?, "{\n"), a.w.depth + 1;
    a.EntryStart(key);
    WriteText(a.w, text);
    a.EntryEnd();
    EntryWritten(before, a.w.out, Entry(key, Str([Lit(text)])), depth, rest, goal);
  }

  method WriteVersionEntry(a: AttrsWriter, version: string, ghost rest: string, ghost goal: string)
    requires IsVerbatim(version)
    requires a.last.Some? ==> Less(a.last.value, STATE_VERSION)
    requires Owes(a, EntryShown(Entry(STATE_VERSION, Str([Lit(version)])), a.w.depth + 1, rest), goal)
    modifies a, a.w
    ensures a.last == Some(STATE_VERSION) && a.w.depth == old(a.w.depth) && Owes(a, rest, goal)
  {
    ghost var before, depth := a.w.out + Unless(a.last.Some?, "{\n"), a.w.depth + 1;
    a.EntryStart(STATE_VERSION);
    WriteVerbatim(a.w, version);
    a.EntryEnd();
    EntryWritten(before, a.w.out, Entry(STATE_VERSION, Str([Lit(version)])), depth, rest, goal);
  }

  method WritePackagesEntry(a: AttrsWriter, packages: seq<string>, ghost rest: string, ghost goal: string)
    requires forall p | p in packages :: IsIdentifier(p)
    requires a.last.Some? ==> Less(a.last.value, PACKAGES)
    requires Owes(a, EntryShown(Entry(PACKAGES, List(Selections(packages))), a.w.depth + 1, rest), goal)
    modifies a, a.w
    ensures a.last == Some(PACKAGES) && a.w.depth == old(a.w.depth) && Owes(a, rest, goal)
  {
    ghost var before, depth := a.w.out + Unless(a.last.Some?, "{\n"), a.w.depth + 1;
    a.EntryStart(PACKAGES);
    WritePackages(a.w, packages);
    a.EntryEnd();
    EntryWritten(before, a.w.out, Entry(PACKAGES, List(Selections(packages))), depth, rest, goal);
  }

  method WriteCommandsEntry(a: AttrsWriter, files: seq<Copy>, ghost rest: string, ghost goal: string)
    requires forall c | c in files :: ValidCopy(c)
    requires a.last == None
    requires Owes(a, EntryShown(Entry(BUILDER_COMMANDS, Str(WrittenCommands(files, false))), a.w.depth + 1, rest), goal)
    modifies a, a.w
    ensures a.last == Some(BUILDER_COMMANDS) && a.w.depth == old(a.w.depth) && Owes(a, rest, goal)
  {
    ghost var before, depth := a.w.out + Unless(a.last.Some?, "{\n"), a.w.depth + 1;
    a.EntryStart(BUILDER_COMMANDS);
    WriteCommands(a.w, files);
    a.EntryEnd();
    EntryWritten(before, a.w.out, Entry(BUILDER_COMMANDS, Str(WrittenCommands(files, false))), depth, rest, goal);
  }

  /** The text of the attributes that every module has, from each of them on. */
  ghost function FromUsername(m: HomeModule, depth: nat, end: string): string {
    EntryShown(Entry(USERNAME, Str([Lit(m.username)])), depth, end)
  }

  ghost function FromVersion(m: HomeModule, depth: nat, end: string): string {
    EntryShown(Entry(STATE_VERSION, Str([Lit(m.stateVersion)])), depth, FromUsername(m, depth, end))
  }

  ghost function FromPackages(m: HomeModule, depth: nat, end: string): string {
    EntryShown(Entry(PACKAGES, List(Selections(m.packages))), depth, FromVersion(m, depth, end))
  }

  ghost function FromDirectory(m: HomeModule, depth: nat, end: string): string {
    EntryShown(Entry(HOME_DIRECTORY, Str([Lit(m.homeDirectory)])), depth, FromPackages(m, depth, end))
  }

  lemma EntriesShown(entry: Entry, more: seq<Entry>, depth: nat, end: string)
    ensures ShowEntries([entry] + more, depth, end) == EntryShown(entry, depth, ShowEntries(more, depth, end))
  {
    assert ([entry] + more)[1..] == more;
  }

  /** The text of the attributes of `home` behind the opening brace. */
  ghost function SettingsText(m: HomeModule, depth: nat): string {
    var directory := FromDirectory(m, depth + 1, Indented(depth, "}"));
    if m.files == [] then directory
    else EntryShown(Entry(BUILDER_COMMANDS, Str(WrittenCommands(m.files, false))), depth + 1, directory)
  }

  lemma SettingsShown(m: HomeModule, depth: nat)
    ensures Show(Attrs(Settings(m, WrittenCommands(m.files, false))), depth, "") == "{\n" + SettingsText(m, depth)
  {
    var none: seq<Entry> := [];
    var end, commands := Indented(depth, "}"), Entry(BUILDER_COMMANDS, Str(WrittenCommands(m.files, false)));
    var username := [Entry(USERNAME, Str([Lit(m.username)]))] + none;
    var version := [Entry(STATE_VERSION, Str([Lit(m.stateVersion)]))] + username;
    var packages := [Entry(PACKAGES, List(Selections(m.packages)))] + version;
    var directory := [Entry(HOME_DIRECTORY, Str([Lit(m.homeDirectory)]))] + packages;
    EntriesShown(username[0], none, depth + 1, end);
    EntriesShown(version[0], username, depth + 1, end);
    EntriesShown(packages[0], version, depth + 1, end);
    EntriesShown(directory[0], packages, depth + 1, end);
    EntriesShown(commands, directory, depth + 1, end);
    assert Settings(m, commands.value.parts) == if m.files == [] then directory else [commands] + directory;
    AttrsText(Settings(m, commands.value.parts), depth);
  }

  method WriteSettings(w: Writer, m: HomeModule)
    requires ValidHome(m)
    modifies w
    ensures w.out == old(w.out) + Show(Attrs(Settings(m, WrittenCommands(m.files, false))), w.depth, "")
    ensures w.depth == old(w.depth)
  {
    SettingsShown(m, w.depth);
    WriteSettingsText(w, m);
  }

  method WriteSettingsText(w: Writer, m: HomeModule)
    requires ValidHome(m)
    modifies w
    ensures w.out == old(w.out) + ("{\n" + SettingsText(m, w.depth)) && w.depth == old(w.depth)
  {
    var a := new AttrsWriter(w);
    ghost var end, goal := Indented(w.depth, "}"), w.out + ("{\n" + SettingsText(m, w.depth));
    BeginsWriting(w.out, SettingsText(m, w.depth));
    if m.files != [] {
      WriteCommandsEntry(a, m.files, FromDirectory(m, w.depth + 1, end), goal);
    }
    WriteAlways(a, m, end, goal);
    a.End();
  }

  method WriteAlways(a: AttrsWriter, m: HomeModule, ghost end: string, ghost goal: string)
    requires ValidHome(m) && (a.last == None || a.last == Some(BUILDER_COMMANDS))
    requires Owes(a, FromDirectory(m, a.w.depth + 1, end), goal)
    modifies a, a.w
    ensures a.last == Some(USERNAME) && a.w.depth == old(a.w.depth) && a.w.out + end == goal
  {
    KeyOrder();
    VersionIsVerbatim(m.stateVersion);
    WriteTextEntry(a, HOME_DIRECTORY, m.homeDirectory, FromPackages(m, a.w.depth + 1, end), goal);
    WritePackagesEntry(a, m.packages, FromVersion(m, a.w.depth + 1, end), goal);
    WriteVersionEntry(a, m.stateVersion, FromUsername(m, a.w.depth + 1, end), goal);
    WriteTextEntry(a, USERNAME, m.username, end, goal);
    NothingAdded(a.w.out);
  }

  lemma KeyOrder()
    ensures Less(BUILDER_COMMANDS, HOME_DIRECTORY) && Less(BUILDER_COMMANDS, PACKAGES)
    ensures Less(BUILDER_COMMANDS, STATE_VERSION) && Less(BUILDER_COMMANDS, USERNAME)
    ensures Less(HOME_DIRECTORY, PACKAGES) && Less(HOME_DIRECTORY, STATE_VERSION) && Less(HOME_DIRECTORY, USERNAME)
    ensures Less(PACKAGES, STATE_VERSION) && Less(PACKAGES, USERNAME) && Less(STATE_VERSION, USERNAME)
  {}

  lemma BeginsWriting(start: string, rest: string)
    ensures start + "{\n" + rest == start + ("{\n" + rest)
  {}

  lemma VersionIsVerbatim(s: string)
    requires IsStateVersion(s)
    ensures IsVerbatim(s) && HasNoNul(s)
  {
    assert s[3..][0] == s[3] && s[3..][1] == s[4];
  }

  method Write(w: Writer, m: HomeModule)
    requires ValidHome(m)
    modifies w
    ensures w.out == old(w.out) + Show(Written(m), w.depth, "") && w.depth == old(w.depth)
  {
    w.LambdaHead([PKGS], true);
    ghost var head := w.out;
    WriteBody(w, m);
    ghost var body := Attrs([Entry(HOME, Attrs(Settings(m, WrittenCommands(m.files, false))))]);
    LambdaText([PKGS], true, Show(body, w.depth, ""));
    assert Show(Written(m), w.depth, "") == ['{'] + ShowFormals([PKGS], false, true, Show(body, w.depth, ""));
    AppendAfter(old(w.out), ['{'] + ShowFormals([PKGS], false, true, ""), Show(body, w.depth, ""),
                Show(Written(m), w.depth, ""));
  }

  method WriteBody(w: Writer, m: HomeModule)
    requires ValidHome(m)
    modifies w
    ensures w.out == old(w.out) + Show(Attrs([Entry(HOME, Attrs(Settings(m, WrittenCommands(m.files, false))))]), w.depth, "")
    ensures w.depth == old(w.depth)
  {
    var a := new AttrsWriter(w);
    ghost var home := Entry(HOME, Attrs(Settings(m, WrittenCommands(m.files, false))));
    ghost var end := Indented(w.depth, "}");
    ghost var goal := w.out + ("{\n" + ShowEntries([home], w.depth + 1, end));
    OneEntryStarts(home, w.depth + 1, end, w.out);
    WriteHomeEntry(a, m, end, goal);
    AttrsEndText([home], w.depth, old(w.out), w.out);
    a.End();
  }

  lemma OneEntryStarts(entry: Entry, depth: nat, end: string, start: string)
    ensures start + "{\n" + EntryShown(entry, depth, end) == start + ("{\n" + ShowEntries([entry], depth, end))
  {
    var none: seq<Entry> := [];
    assert [entry] + none == [entry];
    EntriesShown(entry, none, depth, end);
    BeginsWriting(start, ShowEntries([entry], depth, end));
  }

  method WriteHomeEntry(a: AttrsWriter, m: HomeModule, ghost rest: string, ghost goal: string)
    requires ValidHome(m) && a.last == None
    requires Owes(a, EntryShown(Entry(HOME, Attrs(Settings(m, WrittenCommands(m.files, false)))), a.w.depth + 1, rest), goal)
    modifies a, a.w
    ensures a.last == Some(HOME) && a.w.depth == old(a.w.depth) && Owes(a, rest, goal)
  {
    ghost var before, depth := a.w.out + Unless(a.last.Some?, "{\n"), a.w.depth + 1;
    a.EntryStart(HOME);
    WriteSettings(a.w, m);
    a.EntryEnd();
    EntryWritten(before, a.w.out, Entry(HOME, Attrs(Settings(m, WrittenCommands(m.files, false)))), depth, rest, goal);
  }

  /** `render`: the header, the lambda and a line end. */
  method Render(m: HomeModule) returns (text: string)
    requires ValidHome(m)
    ensures text == Rendered(m)
    ensures ReadSource(text) == Ok(HomeLambda(m), "")
  {
    var w := new Writer(HEADER);
    Write(w, m);
    w.Push("\n");
    RenderedReads(m);
    return w.out;
  }

  // ---------------------------------------------------------------------------
  // What is read back

  function Rendered(m: HomeModule): string { HEADER + Print(Written(m)) + "\n" }

  lemma {:induction false} CommentSkipped(line: string, rest: string)
    requires IsOneLine(line)
    ensures SkipComment(line + (['\n'] + rest)) == ['\n'] + rest
  {
    if line != "" {
      assert (line + (['\n'] + rest))[1..] == line[1..] + (['\n'] + rest);
      CommentSkipped(line[1..], rest);
    } else {
      assert line + (['\n'] + rest) == ['\n'] + rest;
    }
  }

  lemma LineSkipped(line: string, rest: string)
    requires IsOneLine(line)
    ensures SkipTrivia(['#'] + (line + (['\n'] + rest))) == SkipTrivia(rest)
  {
    var t, end := ['#'] + (line + (['\n'] + rest)), ['\n'] + rest;
    CommentSkipped(line, rest);
    assert t[1..] == line + end && end[1..] == rest;
    assert SkipTrivia(t) == SkipTrivia(SkipComment(t[1..]));
    assert SkipTrivia(end) == SkipTrivia(end[1..]);
  }

  predicate IsOneLine(s: string) { forall i :: 0 <= i < |s| ==> s[i] != '\n' && s[i] != '\r' }

  lemma LinesOfHeader()
    ensures IsOneLine(GENERATED) && IsOneLine(OVERWRITTEN + USE_COMMANDS)
  {
    assert IsOneLine(GENERATED);
    assert IsOneLine(OVERWRITTEN);
    assert IsOneLine(" Use `mix` commands to manage");
    assert IsOneLine(" this configuration.");
  }

  lemma SplitHeader(a: string, b: string, rest: string)
    ensures "#" + a + "\n#" + b + "\n\n" + rest
         == ['#'] + (a + (['\n'] + (['#'] + (b + (['\n'] + (['\n'] + rest))))))
  {
    assert "\n#" == ['\n'] + ['#'] && "\n\n" == ['\n'] + ['\n'];
  }

  lemma HeaderSkipped(rest: string)
    ensures SkipTrivia(HEADER + rest) == SkipTrivia(rest)
  {
    var line, blank := OVERWRITTEN + USE_COMMANDS, ['\n'] + rest;
    JoinLines("#" + GENERATED + "\n#", OVERWRITTEN, USE_COMMANDS, "\n\n", rest);
    SplitHeader(GENERATED, line, rest);
    LinesOfHeader();
    LineSkipped(GENERATED, ['#'] + (line + (['\n'] + blank)));
    LineSkipped(line, blank);
    assert blank[1..] == rest;
  }

  lemma JoinLines(a: string, b: string, c: string, d: string, e: string)
    ensures a + b + c + d + e == a + (b + c) + d + e
  {
    assert a + b + c == a + (b + c);
  }

  lemma ReadsAfterHeader(rest: string)
    ensures ReadExpr(HEADER + rest) == ReadExpr(rest)
  {
    HeaderSkipped(rest);
  }

  lemma {:induction false} CommandsArePrintable(files: seq<Copy>, started: bool)
    requires forall c | c in files :: ValidCopy(c)
    ensures forall p | p in WrittenCommands(files, started) :: PrintablePart(p)
  {
    if files != [] {
      CommandIsPrintable(files[0], started);
      CommandsArePrintable(files[1..], true);
    }
  }

  lemma CommandIsPrintable(copy: Copy, started: bool)
    requires ValidCopy(copy)
    ensures forall p | p in [Lit(if started then NEXT_CP else CP), Interp(Path(copy.source)), Lit(INTO_OUT), Lit(copy.target)]
      :: PrintablePart(p)
  {
    FileNameIsVerbatim(copy.source);
    FileNameIsVerbatim(copy.target);
    assert PrintablePart(Lit(NEXT_CP)) && PrintablePart(Lit(CP)) && PrintablePart(Lit(INTO_OUT));
    assert PrintablePart(Lit(copy.target)) && PrintablePart(Interp(Path(copy.source)));
  }

  lemma TextIsPrintable(text: string)
    requires HasNoNul(text)
    ensures Printable(Str([Lit(text)]))
  {}

  lemma SelectionsArePrintable(packages: seq<string>)
    requires forall p | p in packages :: IsIdentifier(p)
    ensures Printable(List(Selections(packages)))
  {
    forall i | 0 <= i < |packages|
      ensures Printable(Selections(packages)[i])
    {
      assert IsIdentifier(packages[i]);
      IdentifierHasNoNul(packages[i]);
      assert IsIdentifier(PKGS);
    }
  }

  lemma IdentifierHasNoNul(s: string)
    requires IsIdentifier(s)
    ensures HasNoNul(s)
  {}

  lemma SettingsIncrease(m: HomeModule, commands: seq<StrPart>)
    ensures KeysIncrease(Settings(m, commands))
  {
    KeyOrder();
  }

  lemma CommandsStringIsPrintable(files: seq<Copy>)
    requires forall c | c in files :: ValidCopy(c)
    ensures Printable(Str(WrittenCommands(files, false)))
  {
    CommandsArePrintable(files, false);
    forall p | p in WrittenCommands(files, false)
      ensures ValidPart(p) && (p.Interp? ==> NoBooleanName(p.expr))
    {
      assert PrintablePart(p);
    }
  }

  lemma AttrsArePrintable(entries: seq<Entry>)
    requires KeysIncrease(entries) && forall x | x in entries :: PrintableEntry(x)
    ensures Printable(Attrs(entries))
  {
    forall x | x in entries
      ensures HasNoNul(x.key) && Valid(x.value) && NoBooleanName(x.value)
    {
      assert PrintableEntry(x);
    }
  }

  lemma SettingIsPrintable(m: HomeModule, x: Entry)
    requires ValidHome(m) && x in Settings(m, WrittenCommands(m.files, false))
    ensures PrintableEntry(x)
  {
    CommandsStringIsPrintable(m.files);
    SelectionsArePrintable(m.packages);
    VersionIsVerbatim(m.stateVersion);
    TextIsPrintable(m.stateVersion);
    TextIsPrintable(m.username);
    TextIsPrintable(m.homeDirectory);
    KeysHaveNoNul();
  }

  lemma KeysHaveNoNul()
    ensures HasNoNul(BUILDER_COMMANDS) && HasNoNul(HOME_DIRECTORY) && HasNoNul(PACKAGES)
    ensures HasNoNul(STATE_VERSION) && HasNoNul(USERNAME) && HasNoNul(HOME)
  {}

  lemma SettingsArePrintable(m: HomeModule)
    requires ValidHome(m)
    ensures Printable(Attrs(Settings(m, WrittenCommands(m.files, false))))
  {
    var settings := Settings(m, WrittenCommands(m.files, false));
    SettingsIncrease(m, WrittenCommands(m.files, false));
    forall x | x in settings
      ensures PrintableEntry(x)
    {
      SettingIsPrintable(m, x);
    }
    AttrsArePrintable(settings);
  }

  lemma WrittenIsPrintable(m: HomeModule)
    requires ValidHome(m)
    ensures Printable(Written(m))
  {
    SettingsArePrintable(m);
    assert IsIdentifier(PKGS);
    var settings := Attrs(Settings(m, WrittenCommands(m.files, false)));
    KeysHaveNoNul();
    assert PrintableEntry(Entry(HOME, settings));
    AttrsArePrintable([Entry(HOME, settings)]);
  }

  lemma FirstCommandMerges(text: string, files: seq<Copy>, started: bool)
    requires files != []
    ensures MergeParts(text, WrittenCommands(files, started))
         == [Lit(text + if started then NEXT_CP else CP)] + [Interp(Path(files[0].source))]
          + MergeParts(INTO_OUT + files[0].target, WrittenCommands(files[1..], true))
  {
    var copy, rest, cp := files[0], WrittenCommands(files[1..], true), if started then NEXT_CP else CP;
    var target := [Lit(copy.target)] + rest;
    var intoOut := [Lit(INTO_OUT)] + target;
    var source := [Interp(Path(copy.source))] + intoOut;
    assert WrittenCommands(files, started) == [Lit(cp)] + source;
    MergeLit(text, cp, source);
    MergeInterp(text + cp, Path(copy.source), intoOut);
    MergeLit("", INTO_OUT, target);
    assert "" + INTO_OUT == INTO_OUT;
    MergeLit(INTO_OUT, copy.target, rest);
  }

  /** Neighbouring literals join: one literal remains between two interpolations. */
  lemma {:induction false} CommandsMerge(text: string, files: seq<Copy>, started: bool)
    requires files != []
    ensures MergeParts(text, WrittenCommands(files, started))
         == [Lit(text + if started then NEXT_CP else CP)] + AfterCp(files)
    decreases |files|
  {
    FirstCommandMerges(text, files, started);
    var first, source := [Lit(text + if started then NEXT_CP else CP)], [Interp(Path(files[0].source))];
    var last := INTO_OUT + files[0].target;
    if |files| == 1 {
      assert MergeParts(last, []) == [Lit(last)];
      Grouped(first, source, [Lit(last)]);
    } else {
      CommandsMerge(last, files[1..], true);
      Grouped(first, source, [Lit(last + NEXT_CP)] + AfterCp(files[1..]));
    }
  }

  lemma Grouped(a: seq<StrPart>, b: seq<StrPart>, c: seq<StrPart>)
    ensures a + b + c == a + (b + c)
  {}

  lemma NormalText(text: string)
    requires text != ""
    ensures Normalize(Str([Lit(text)])) == Str([Lit(text)])
  {
    assert "" + text == text && [Lit(text)] + [] == [Lit(text)];
    MergeLit("", text, []);
  }

  lemma NormalSelections(packages: seq<string>)
    ensures Normalize(List(Selections(packages))) == List(Selections(packages))
  {
    var selections := Selections(packages);
    forall i | 0 <= i < |packages|
      ensures Normalize(selections[i]) == selections[i]
    {
      var none: seq<string> := [];
      assert Normalize(Select(Var(PKGS), packages[i], none)) == SelectFrom(Normalize(Var(PKGS)), packages[i], none);
    }
    assert NormalizeAll(selections) == selections;
  }

  lemma WrittenNormalizes(m: HomeModule)
    requires ValidHome(m)
    ensures Normalize(Written(m)) == HomeLambda(m)
  {
    var written := Settings(m, WrittenCommands(m.files, false));
    var settings := Settings(m, if m.files == [] then [] else CommandParts(m.files));
    NormalText(m.username);
    NormalText(m.homeDirectory);
    NormalText(m.stateVersion);
    NormalSelections(m.packages);
    if m.files != [] {
      CommandsMerge("", m.files, false);
      assert "" + CP == CP;
    }
    assert NormalizeEntries(written) == settings;
    assert NormalizeEntries([Entry(HOME, Attrs(written))]) == [Entry(HOME, Attrs(settings))];
  }

  /** The whole of home.nix, header and all, reads back as the lambda that holds the module. */
  lemma RenderedReads(m: HomeModule)
    requires ValidHome(m)
    ensures ReadSource(Rendered(m)) == Ok(HomeLambda(m), "")
  {
    WrittenIsPrintable(m);
    WrittenNormalizes(m);
    var shown := Show(Written(m), 0, "\n");
    ExprText(Written(m), 0, "\n");
    assert Rendered(m) == HEADER + shown;
    ReadsAfterHeader(shown);
    ReadShown(Written(m), 0, "\n");
    assert "\n"[1..] == "";
  }

  lemma {:induction false} CommandsTellFiles(a: seq<Copy>, b: seq<Copy>)
    requires a != [] && b != [] && AfterCp(a) == AfterCp(b)
    ensures a == b
    decreases |a|
  {
    AfterCpLength(a);
    AfterCpLength(b);
    assert AfterCp(a)[0] == AfterCp(b)[0] && AfterCp(a)[1] == AfterCp(b)[1];
    if |a| == 1 {
      TargetTold(a[0].target, b[0].target, "");
      assert a == [a[0]] && b == [b[0]];
    } else {
      TargetTold(a[0].target, b[0].target, NEXT_CP);
      assert AfterCp(a)[2..] == AfterCp(a[1..]) && AfterCp(b)[2..] == AfterCp(b[1..]);
      CommandsTellFiles(a[1..], b[1..]);
      assert a == [a[0]] + a[1..] && b == [b[0]] + b[1..];
    }
  }

  lemma {:induction false} AfterCpLength(files: seq<Copy>)
    requires files != []
    ensures |AfterCp(files)| == 2 * |files|
  {
    if |files| > 1 {
      AfterCpLength(files[1..]);
    }
  }

  lemma TargetTold(a: string, b: string, end: string)
    ensures INTO_OUT + a + end == INTO_OUT + b + end ==> a == b
    ensures INTO_OUT + a == INTO_OUT + b ==> a == b
  {
    if INTO_OUT + a + end == INTO_OUT + b + end {
      var n, t := |INTO_OUT|, INTO_OUT + a + end;
      assert |a| == |b|;
      assert a == t[n..n + |a|] == b;
    }
    if INTO_OUT + a == INTO_OUT + b {
      assert a == (INTO_OUT + a)[|INTO_OUT|..] == b;
    }
  }

  lemma {:induction false} SelectionsTellPackages(a: seq<string>, b: seq<string>)
    requires Selections(a) == Selections(b)
    ensures a == b
  {
    forall i | 0 <= i < |a|
      ensures a[i] == b[i]
    {
      assert Selections(a)[i] == Selections(b)[i];
    }
  }

  /** Two modules never have the same text. */
  lemma RenderingTellsModulesApart(a: HomeModule, b: HomeModule)
    requires ValidHome(a) && ValidHome(b) && Rendered(a) == Rendered(b)
    ensures a == b
  {
    RenderedReads(a);
    RenderedReads(b);
    var s, t := HomeLambda(a).body.entries[0].value.entries, HomeLambda(b).body.entries[0].value.entries;
    assert s == t;
    var i := if a.files == [] then 0 else 1;
    assert |s| == 4 + i && (b.files == [] <==> a.files == []);
    assert s[i] == t[i] && s[i + 1] == t[i + 1] && s[i + 2] == t[i + 2] && s[i + 3] == t[i + 3];
    SelectionsTellPackages(a.packages, b.packages);
    if a.files != [] {
      assert s[0] == t[0] && CommandParts(a.files)[1..] == AfterCp(a.files) && CommandParts(b.files)[1..] == AfterCp(b.files);
      CommandsTellFiles(a.files, b.files);
    }
  }
}
