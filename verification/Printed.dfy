/**
 The text of an expression, as a specification of the printer (crates/nixgen/src/print.rs).

 Every function takes the text that follows, `rest`, so that what a reader sees after a piece of
 an expression is at hand where the piece is printed: `Show(e, depth, rest)` is the text of `e`
 and then `rest`.
 */
module Printed {
  import opened Ident
  import opened Ast

  function Indented(depth: nat, rest: string): string {
    if depth == 0 then rest else [' '] + ([' '] + Indented(depth - 1, rest))
  }

  /** `text` inside quotes: quotes, backslashes, carriage returns and `${` are escaped. */
  function Escaped(text: string, rest: string): string {
    if text == "" then rest
    else
      var more := Escaped(text[1..], rest);
      if text[0] == '"' then ['\\'] + (['"'] + more)
      else if text[0] == '\\' then ['\\'] + (['\\'] + more)
      else if text[0] == '\r' then ['\\'] + (['r'] + more)
      else if text[0] == '$' && |text| > 1 && text[1] == '{' then ['\\'] + (['$'] + more)
      else [text[0]] + more
  }

  function ShowKey(key: string, rest: string): string {
    if IsIdentifier(key) then key + rest else ['"'] + Escaped(key, ['"'] + rest)
  }

  function ShowKeys(keys: seq<string>, rest: string): string {
    if keys == [] then rest else ['.'] + ShowKey(keys[0], ShowKeys(keys[1..], rest))
  }

  predicate EndsWithDollar(text: string) { text != "" && text[|text| - 1] == '$' }

  /** `text` without its last dollar, which waits for what follows. */
  function Body(text: string): string {
    if EndsWithDollar(text) then text[..|text| - 1] else text
  }

  /** The dollar that waited, escaped when a brace follows. */
  function Dollar(pending: bool, brace: bool, rest: string): string {
    if !pending then rest
    else if brace then ['\\'] + (['$'] + rest)
    else ['$'] + rest
  }

  /** The rest of a string whose text so far ended with a waiting dollar if `pending`. */
  function ShowParts(parts: seq<StrPart>, pending: bool, depth: nat, rest: string): string
    decreases parts, 1
  {
    if parts == [] then Dollar(pending, false, ['"'] + rest)
    else
      match parts[0]
      case Lit(text) =>
        if text == "" then ShowParts(parts[1..], pending, depth, rest)
        else
          Dollar(pending, text[0] == '{',
                 Escaped(Body(text), ShowParts(parts[1..], EndsWithDollar(text), depth, rest)))
      case Interp(expr) =>
        assert (parts decreases to parts[0]);
        Dollar(pending, true,
               ['$'] + (['{'] + Show(expr, depth, ['}'] + ShowParts(parts[1..], false, depth, rest))))
  }

  function ShowItems(items: seq<Expr>, depth: nat, rest: string): string
    decreases items, 2
  {
    if items == [] then rest
    else Indented(depth, ShowOperand(items[0], depth, ['\n'] + ShowItems(items[1..], depth, rest)))
  }

  function ShowEntries(entries: seq<Entry>, depth: nat, rest: string): string
    decreases entries, 1
  {
    if entries == [] then rest
    else
      Indented(depth, ShowKey(entries[0].key,
        [' '] + (['='] + ([' '] +
        Show(entries[0].value, depth, [';'] + (['\n'] + ShowEntries(entries[1..], depth, rest)))))))
  }

  /** The formals from the first one (`!started`) or a later one on, up to and with `}: `. */
  function ShowFormals(formals: seq<string>, started: bool, ellipsis: bool, rest: string): string {
    if formals != [] then
      Separator(started, formals[0] + ShowFormals(formals[1..], true, ellipsis, rest))
    else if ellipsis then
      Separator(started, ['.'] + (['.'] + (['.'] + ([' '] + (['}'] + ([':'] + ([' '] + rest)))))))
    else if started then [' '] + (['}'] + ([':'] + ([' '] + rest)))
    else ['}'] + ([':'] + ([' '] + rest))
  }

  function Separator(started: bool, rest: string): string {
    if started then [','] + ([' '] + rest) else [' '] + rest
  }

  predicate IsOperand(e: Expr) { !e.Apply? && !e.Lambda? }

  function ShowOperand(e: Expr, depth: nat, rest: string): string
    decreases e, 1
  {
    if IsOperand(e) then Show(e, depth, rest) else ['('] + Show(e, depth, [')'] + rest)
  }

  /** The base of a selection: a path keeps its dots to itself. */
  function ShowBase(e: Expr, depth: nat, rest: string): string
    decreases e, 2
  {
    if e.Path? then ['('] + Show(e, depth, [')'] + rest) else ShowOperand(e, depth, rest)
  }

  function ShowCallee(e: Expr, depth: nat, rest: string): string
    decreases e, 1
  {
    if e.Lambda? then ['('] + Show(e, depth, [')'] + rest) else Show(e, depth, rest)
  }

  function Show(e: Expr, depth: nat, rest: string): string
    decreases e, 0
  {
    match e
    case Str(parts) => ['"'] + ShowParts(parts, false, depth, rest)
    case Bool(value) => (if value then "true" else "false") + rest
    case List(items) =>
      if items == [] then ['['] + ([' '] + ([']'] + rest))
      else ['['] + (['\n'] + ShowItems(items, depth + 1, Indented(depth, [']'] + rest)))
    case Attrs(entries) =>
      if entries == [] then ['{'] + ([' '] + (['}'] + rest))
      else ['{'] + (['\n'] + ShowEntries(entries, depth + 1, Indented(depth, ['}'] + rest)))
    case Var(name) => name + rest
    case Select(base, first, keys) => ShowBase(base, depth, ShowKeys([first] + keys, rest))
    case Apply(callee, argument) =>
      ShowCallee(callee, depth, [' '] + ShowOperand(argument, depth, rest))
    case Lambda(formals, ellipsis, body) =>
      ['{'] + ShowFormals(formals, false, ellipsis, Show(body, depth, rest))
    case Path(path) => ['.'] + (['/'] + (path + rest))
  }

  // ---------------------------------------------------------------------------
  // What follows only follows: the text of an expression does not depend on it

  lemma Assoc(a: string, b: string, c: string)
    ensures (a + b) + c == a + (b + c)
  {}

  lemma {:induction false} IndentedAppends(depth: nat, rest: string, more: string)
    ensures Indented(depth, rest) + more == Indented(depth, rest + more)
  {
    if depth > 0 {
      IndentedAppends(depth - 1, rest, more);
      Assoc([' '], [' '] + Indented(depth - 1, rest), more);
      Assoc([' '], Indented(depth - 1, rest), more);
    }
  }

  lemma {:induction false} EscapedAppends(text: string, rest: string, more: string)
    ensures Escaped(text, rest) + more == Escaped(text, rest + more)
  {
    if text != "" {
      EscapedAppends(text[1..], rest, more);
      var tail := Escaped(text[1..], rest);
      forall c: char, d: char
        ensures (['\\'] + ([c] + tail)) + more == ['\\'] + ([c] + (tail + more))
        ensures ([d] + tail) + more == [d] + (tail + more)
      {
        Assoc(['\\'], [c] + tail, more);
        Assoc([c], tail, more);
        Assoc([d], tail, more);
      }
    }
  }

  lemma KeyAppends(key: string, rest: string, more: string)
    ensures ShowKey(key, rest) + more == ShowKey(key, rest + more)
  {
    if IsIdentifier(key) {
      Assoc(key, rest, more);
    } else {
      EscapedAppends(key, ['"'] + rest, more);
      Assoc(['"'], rest, more);
      Assoc(['"'], Escaped(key, ['"'] + rest), more);
    }
  }

  lemma {:induction false} KeysAppend(keys: seq<string>, rest: string, more: string)
    ensures ShowKeys(keys, rest) + more == ShowKeys(keys, rest + more)
  {
    if keys != [] {
      KeysAppend(keys[1..], rest, more);
      KeyAppends(keys[0], ShowKeys(keys[1..], rest), more);
      Assoc(['.'], ShowKey(keys[0], ShowKeys(keys[1..], rest)), more);
    }
  }

  lemma DollarAppends(pending: bool, brace: bool, rest: string, more: string)
    ensures Dollar(pending, brace, rest) + more == Dollar(pending, brace, rest + more)
  {
    Assoc(['\\'], ['$'] + rest, more);
    Assoc(['$'], rest, more);
  }

  lemma {:induction false} PartsAppend(parts: seq<StrPart>, pending: bool, depth: nat, rest: string, more: string)
    ensures ShowParts(parts, pending, depth, rest) + more == ShowParts(parts, pending, depth, rest + more)
    decreases parts, 1
  {
    if parts == [] {
      DollarAppends(pending, false, ['"'] + rest, more);
      Assoc(['"'], rest, more);
    } else {
      match parts[0]
      case Lit(text) =>
        if text == "" {
          PartsAppend(parts[1..], pending, depth, rest, more);
        } else {
          var tail := ShowParts(parts[1..], EndsWithDollar(text), depth, rest);
          PartsAppend(parts[1..], EndsWithDollar(text), depth, rest, more);
          EscapedAppends(Body(text), tail, more);
          DollarAppends(pending, text[0] == '{', Escaped(Body(text), tail), more);
        }
      case Interp(expr) =>
        assert (parts decreases to parts[0]);
        var tail := ShowParts(parts[1..], false, depth, rest);
        PartsAppend(parts[1..], false, depth, rest, more);
        ShowAppends(expr, depth, ['}'] + tail, more);
        Assoc(['}'], tail, more);
        var inner := Show(expr, depth, ['}'] + tail);
        Assoc(['{'], inner, more);
        Assoc(['$'], ['{'] + inner, more);
        DollarAppends(pending, true, ['$'] + (['{'] + inner), more);
    }
  }

  lemma {:induction false} ItemsAppend(items: seq<Expr>, depth: nat, rest: string, more: string)
    ensures ShowItems(items, depth, rest) + more == ShowItems(items, depth, rest + more)
    decreases items, 2
  {
    if items != [] {
      var tail := ShowItems(items[1..], depth, rest);
      ItemsAppend(items[1..], depth, rest, more);
      Assoc(['\n'], tail, more);
      OperandAppends(items[0], depth, ['\n'] + tail, more);
      IndentedAppends(depth, ShowOperand(items[0], depth, ['\n'] + tail), more);
    }
  }

  lemma {:induction false} EntriesAppend(entries: seq<Entry>, depth: nat, rest: string, more: string)
    ensures ShowEntries(entries, depth, rest) + more == ShowEntries(entries, depth, rest + more)
    decreases entries, 1
  {
    if entries != [] {
      var tail := ShowEntries(entries[1..], depth, rest);
      EntriesAppend(entries[1..], depth, rest, more);
      Assoc(['\n'], tail, more);
      Assoc([';'], ['\n'] + tail, more);
      ShowAppends(entries[0].value, depth, [';'] + (['\n'] + tail), more);
      var value := Show(entries[0].value, depth, [';'] + (['\n'] + tail));
      Assoc([' '], value, more);
      Assoc(['='], [' '] + value, more);
      Assoc([' '], ['='] + ([' '] + value), more);
      var line := [' '] + (['='] + ([' '] + value));
      KeyAppends(entries[0].key, line, more);
      IndentedAppends(depth, ShowKey(entries[0].key, line), more);
    }
  }

  lemma SeparatorAppends(started: bool, rest: string, more: string)
    ensures Separator(started, rest) + more == Separator(started, rest + more)
  {
    Assoc([','], [' '] + rest, more);
    Assoc([' '], rest, more);
  }

  lemma {:induction false} FormalsAppend(formals: seq<string>, started: bool, ellipsis: bool, rest: string, more: string)
    ensures ShowFormals(formals, started, ellipsis, rest) + more == ShowFormals(formals, started, ellipsis, rest + more)
  {
    if formals != [] {
      var tail := ShowFormals(formals[1..], true, ellipsis, rest);
      FormalsAppend(formals[1..], true, ellipsis, rest, more);
      Assoc(formals[0], tail, more);
      SeparatorAppends(started, formals[0] + tail, more);
    } else {
      Assoc([' '], rest, more);
      Assoc([':'], [' '] + rest, more);
      Assoc(['}'], [':'] + ([' '] + rest), more);
      var close := ['}'] + ([':'] + ([' '] + rest));
      Assoc([' '], close, more);
      Assoc(['.'], [' '] + close, more);
      Assoc(['.'], ['.'] + ([' '] + close), more);
      Assoc(['.'], ['.'] + (['.'] + ([' '] + close)), more);
      SeparatorAppends(started, ['.'] + (['.'] + (['.'] + ([' '] + close))), more);
    }
  }

  lemma {:induction false} ParenAppends(e: Expr, depth: nat, rest: string, more: string)
    ensures (['('] + Show(e, depth, [')'] + rest)) + more == ['('] + Show(e, depth, [')'] + (rest + more))
    decreases e, 1
  {
    ShowAppends(e, depth, [')'] + rest, more);
    Assoc([')'], rest, more);
    Assoc(['('], Show(e, depth, [')'] + rest), more);
  }

  lemma {:induction false} OperandAppends(e: Expr, depth: nat, rest: string, more: string)
    ensures ShowOperand(e, depth, rest) + more == ShowOperand(e, depth, rest + more)
    decreases e, 2
  {
    ShowAppends(e, depth, rest, more);
    ParenAppends(e, depth, rest, more);
  }

  lemma {:induction false} ShowAppends(e: Expr, depth: nat, rest: string, more: string)
    ensures Show(e, depth, rest) + more == Show(e, depth, rest + more)
    decreases e, 0
  {
    match e
    case Str(parts) =>
      PartsAppend(parts, false, depth, rest, more);
      Assoc(['"'], ShowParts(parts, false, depth, rest), more);
    case Bool(value) => Assoc(if value then "true" else "false", rest, more);
    case List(items) =>
      Assoc([']'], rest, more);
      Assoc([' '], [']'] + rest, more);
      Assoc(['['], [' '] + ([']'] + rest), more);
      IndentedAppends(depth, [']'] + rest, more);
      ItemsAppend(items, depth + 1, Indented(depth, [']'] + rest), more);
      var body := ShowItems(items, depth + 1, Indented(depth, [']'] + rest));
      Assoc(['\n'], body, more);
      Assoc(['['], ['\n'] + body, more);
    case Attrs(entries) =>
      Assoc(['}'], rest, more);
      Assoc([' '], ['}'] + rest, more);
      Assoc(['{'], [' '] + (['}'] + rest), more);
      IndentedAppends(depth, ['}'] + rest, more);
      EntriesAppend(entries, depth + 1, Indented(depth, ['}'] + rest), more);
      var body := ShowEntries(entries, depth + 1, Indented(depth, ['}'] + rest));
      Assoc(['\n'], body, more);
      Assoc(['{'], ['\n'] + body, more);
    case Var(name) => Assoc(name, rest, more);
    case Select(base, first, keys) =>
      var tail := ShowKeys([first] + keys, rest);
      KeysAppend([first] + keys, rest, more);
      OperandAppends(base, depth, tail, more);
      ParenAppends(base, depth, tail, more);
    case Apply(callee, argument) =>
      var tail := [' '] + ShowOperand(argument, depth, rest);
      OperandAppends(argument, depth, rest, more);
      Assoc([' '], ShowOperand(argument, depth, rest), more);
      ShowAppends(callee, depth, tail, more);
      ParenAppends(callee, depth, tail, more);
    case Lambda(formals, ellipsis, body) =>
      ShowAppends(body, depth, rest, more);
      FormalsAppend(formals, false, ellipsis, Show(body, depth, rest), more);
      Assoc(['{'], ShowFormals(formals, false, ellipsis, Show(body, depth, rest)), more);
    case Path(path) =>
      Assoc(path, rest, more);
      Assoc(['/'], path + rest, more);
      Assoc(['.'], ['/'] + (path + rest), more);
  }
}
