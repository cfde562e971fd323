/**
 Reading what was printed: the reader of crates/nixgen/src/parse.rs takes the text of every
 expression back to its normal form, provided no variable is named `true` or `false`.
 */
module RoundTrip {
  import opened Ident
  import opened Ast
  import opened Printed
  import opened Reader

  // ---------------------------------------------------------------------------
  // Variables named like booleans

  /** The reader takes these two names for booleans wherever a variable may stand. */
  predicate IsBooleanName(name: string) { name == "true" || name == "false" }

  ghost predicate NoBooleanName(e: Expr) {
    match e
    case Str(parts) => forall p | p in parts :: p.Interp? ==> NoBooleanName(p.expr)
    case Bool(_) => true
    case List(items) => forall x | x in items :: NoBooleanName(x)
    case Attrs(entries) => forall x | x in entries :: NoBooleanName(x.value)
    case Var(name) => !IsBooleanName(name)
    case Select(base, _, _) => NoBooleanName(base)
    case Apply(callee, argument) => NoBooleanName(callee) && NoBooleanName(argument)
    case Lambda(_, _, body) => NoBooleanName(body)
    case Path(_) => true
  }

  ghost predicate Printable(e: Expr) { Valid(e) && NoBooleanName(e) }

  ghost predicate PrintablePart(p: StrPart) { ValidPart(p) && (p.Interp? ==> NoBooleanName(p.expr)) }

  ghost predicate PrintableEntry(x: Entry) { HasNoNul(x.key) && Printable(x.value) }

  // ---------------------------------------------------------------------------
  // Blanks and tokens

  /** What may follow a printed name, key, string or bracket. */
  predicate Breaks(rest: string) {
    rest == "" || rest[0] in [';', ')', '}', ' ', '\n', '.']
  }

  /** What may follow a whole printed expression. */
  predicate EndsExpr(rest: string) {
    rest == "" || rest == "\n" || rest[0] in [';', ')', '}']
  }

  lemma FirstMoves<T>(before: seq<T>, xs: seq<T>)
    requires xs != []
    ensures before + [xs[0]] + xs[1..] == before + xs
  {}

  lemma {:induction false} SkipTriviaTwice(t: string)
    ensures SkipTrivia(SkipTrivia(t)) == SkipTrivia(t)
    decreases |t|
  {
    if t != "" && IsSpace(t[0]) {
      SkipTriviaTwice(t[1..]);
    } else if t != "" && t[0] == '#' {
      SkipTriviaTwice(SkipComment(t[1..]));
    }
  }

  lemma {:induction false} SkipIndented(depth: nat, rest: string)
    ensures SkipTrivia(Indented(depth, rest)) == SkipTrivia(rest)
    ensures SkipSpace(Indented(depth, rest)) == SkipSpace(rest)
  {
    if depth > 0 {
      SkipIndented(depth - 1, rest);
      var tail := Indented(depth - 1, rest);
      assert ([' '] + ([' '] + tail))[1..] == [' '] + tail;
      assert ([' '] + tail)[1..] == tail;
    }
  }

  lemma {:induction false} TailLengthOf(name: string, rest: string)
    requires forall i :: 0 <= i < |name| ==> ContinuesIdentifier(name[i])
    requires Breaks(rest) || At(rest, ',')
    ensures TailLength(name + rest) == |name|
  {
    if name == "" {
      assert name + rest == rest;
    } else {
      assert (name + rest)[1..] == name[1..] + rest;
      TailLengthOf(name[1..], rest);
    }
  }

  lemma IdentifierLengthOf(name: string, rest: string)
    requires IdentifierShaped(name)
    requires Breaks(rest) || At(rest, ',')
    ensures IdentifierLength(name + rest) == |name|
    ensures Identifier(name + rest) == Ok(name, rest)
  {
    assert (name + rest)[1..] == name[1..] + rest;
    TailLengthOf(name[1..], rest);
  }

  lemma {:induction false} PathLengthOf(path: string, rest: string)
    requires forall i :: 0 <= i < |path| ==> InPath(path[i])
    requires Breaks(rest) && !At(rest, '.')
    ensures PathLength(path + rest) == |path|
  {
    if path == "" {
      assert path + rest == rest;
    } else {
      assert (path + rest)[1..] == path[1..] + rest;
      PathLengthOf(path[1..], rest);
    }
  }

  lemma OperandIsNoTrivia(t: string)
    requires AtOperand(t)
    ensures SkipTrivia(t) == t && SkipSpace(t) == t && !AtSelection(t)
  {}

  // ---------------------------------------------------------------------------
  // Order of keys and formals

  lemma {:induction false} LessOneWay(a: string, b: string)
    requires Less(a, b)
    ensures !Less(b, a) && a != b
  {
    if a != "" && a[0] == b[0] {
      LessOneWay(a[1..], b[1..]);
    }
  }

  lemma {:induction false} InsertNameLast(names: seq<string>, name: string)
    requires forall n | n in names :: Less(n, name)
    ensures InsertName(names, name) == names + [name]
    ensures name !in names
  {
    if names != [] {
      LessOneWay(names[0], name);
      InsertNameLast(names[1..], name);
    }
  }

  lemma {:induction false} InsertEntryLast(entries: seq<Entry>, entry: Entry)
    requires forall x | x in entries :: Less(x.key, entry.key)
    ensures InsertEntry(entries, entry) == entries + [entry]
    ensures !HasKey(entries, entry.key)
  {
    if entries != [] {
      LessOneWay(entries[0].key, entry.key);
      InsertEntryLast(entries[1..], entry);
      forall i | 0 <= i < |entries|
        ensures entries[i].key != entry.key
      {
        if i > 0 {
          assert entries[i] == entries[1..][i - 1];
        }
      }
    }
  }

  // ---------------------------------------------------------------------------
  // Strings

  /** A dollar printed in front of `t` is neither an interpolation nor half of one. */
  predicate DollarSafe(t: string) {
    t != "" ==> t[0] != '{' && (t[0] == '$' ==> DollarSafe(t[1..]))
  }

  lemma {:induction false} PlainDollar(t: string, text: string, parts: seq<StrPart>)
    requires DollarSafe(t)
    ensures ReadParts(['$'] + t, text, parts) == ReadParts(t, text + ['$'], parts)
  {
    var s := ['$'] + t;
    assert s[1..] == t;
    if t != "" && t[0] == '$' {
      PlainDollar(t[1..], text + ['$'], parts);
      assert ['$'] + t[1..] == t;
      assert s[2..] == t[1..];
      assert text + "$$" == text + ['$'] + ['$'];
    } else if t != "" && t[0] == '\\' {
      if |t| > 1 {
        assert s[3..] == t[2..];
      }
    }
  }

  lemma {:induction false} EscapedIsSafe(text: string, rest: string)
    requires text != "" ==> text[0] != '{'
    requires text == "" || EndsWithDollar(text) ==> DollarSafe(rest)
    ensures DollarSafe(Escaped(text, rest))
  {
    if text != "" {
      var more := Escaped(text[1..], rest);
      if text[0] == '$' && (|text| == 1 || text[1] != '{') {
        EscapedIsSafe(text[1..], rest);
        assert (['$'] + more)[1..] == more;
      }
    }
  }

  /** A backslash and the character it stands before, or the letter for a carriage return. */
  lemma ReadOneEscape(c: char, more: string, before: string, parts: seq<StrPart>)
    requires c == '"' || c == '\\' || c == '\r' || c == '$'
    ensures ReadParts(['\\'] + ([if c == '\r' then 'r' else c] + more), before, parts) == ReadParts(more, before + [c], parts)
  {
    var d := if c == '\r' then 'r' else c;
    assert (['\\'] + ([d] + more))[2..] == more;
  }

  lemma {:induction false} ReadEscaped(text: string, rest: string, before: string, parts: seq<StrPart>)
    requires EndsWithDollar(text) ==> DollarSafe(rest)
    ensures ReadParts(Escaped(text, rest), before, parts) == ReadParts(rest, before + text, parts)
  {
    if text == "" {
      assert before + text == before;
    } else {
      var c := text[0];
      var more := Escaped(text[1..], rest);
      ReadEscaped(text[1..], rest, before + [c], parts);
      assert before + [c] + text[1..] == before + text;
      if c == '"' || c == '\\' || c == '\r' || (c == '$' && |text| > 1 && text[1] == '{') {
        ReadOneEscape(c, more, before, parts);
      } else if c == '$' {
        EscapedIsSafe(text[1..], rest);
        PlainDollar(more, before, parts);
      } else {
        assert ([c] + more)[1..] == more;
      }
    }
  }

  function Waiting(pending: bool): string { if pending then ['$'] else "" }

  lemma ReadDollar(pending: bool, brace: bool, rest: string, text: string, parts: seq<StrPart>)
    requires pending && !brace ==> DollarSafe(rest)
    ensures ReadParts(Dollar(pending, brace, rest), text, parts)
         == ReadParts(rest, text + Waiting(pending), parts)
  {
    if !pending {
      assert text + "" == text;
    } else if brace {
      assert (['\\'] + (['$'] + rest))[2..] == rest;
    } else {
      PlainDollar(rest, text, parts);
    }
  }

  lemma {:induction false} PendingIsSafe(parts: seq<StrPart>, depth: nat, rest: string)
    ensures DollarSafe(ShowParts(parts, true, depth, rest))
    decreases parts, 0
  {
    if parts == [] {
      assert (['$'] + (['"'] + rest))[1..] == ['"'] + rest;
    } else if parts[0].Lit? {
      var text := parts[0].text;
      if text == "" {
        PendingIsSafe(parts[1..], depth, rest);
      } else if text[0] != '{' {
        LiteralIsSafe(text, parts[1..], depth, rest);
        var y := Escaped(Body(text), ShowParts(parts[1..], EndsWithDollar(text), depth, rest));
        assert (['$'] + y)[1..] == y;
      }
    }
  }

  lemma {:induction false} LiteralIsSafe(text: string, parts: seq<StrPart>, depth: nat, rest: string)
    requires text != "" && text[0] != '{'
    ensures DollarSafe(Escaped(Body(text), ShowParts(parts, EndsWithDollar(text), depth, rest)))
    decreases parts, 1
  {
    if EndsWithDollar(text) {
      PendingIsSafe(parts, depth, rest);
    }
    EscapedIsSafe(Body(text), ShowParts(parts, EndsWithDollar(text), depth, rest));
  }

  // ---------------------------------------------------------------------------
  // Keys

  lemma ReadShownKey(key: string, rest: string)
    requires HasNoNul(key) && Breaks(rest)
    ensures ReadKey(ShowKey(key, rest)) == Ok(key, rest)
  {
    if IsIdentifier(key) {
      IdentifierLengthOf(key, rest);
    } else {
      var inner := Escaped(key, ['"'] + rest);
      var t := ['"'] + inner;
      assert t[1..] == inner;
      ReadEscaped(key, ['"'] + rest, "", []);
      assert "" + key == key;
      assert (['"'] + rest)[1..] == rest;
      assert [] + [Lit(key)] == [Lit(key)];
      assert Flush([], key, rest) == Ok(LitParts(key), rest);
      assert ReadParts(inner, "", []) == ReadParts(['"'] + rest, key, []);
      assert SkipTrivia(t) == t;
      assert ReadString(t) == Ok(LitParts(key), rest);
      assert MergeParts("", LitParts(key)) == LitParts(key);
    }
  }

  lemma KeyStarts(key: string, rest: string)
    ensures ShowKey(key, rest) != ""
    ensures var c := ShowKey(key, rest)[0]; c == '"' || StartsIdentifier(c)
  {}

  lemma ReadOneKey(t: string, key: string, rest: string, before: seq<string>)
    requires AtSelection(t) && ReadKey(t[1..]) == Ok(key, rest)
    ensures ReadKeys(t, before) == ReadKeys(rest, before + [key])
  {
    assert SkipTrivia(t) == t;
  }

  lemma {:induction false} ReadShownKeys(keys: seq<string>, rest: string, before: seq<string>)
    requires forall k | k in keys :: HasNoNul(k)
    requires Breaks(rest)
    ensures ReadKeys(ShowKeys(keys, rest), before) == ReadKeys(rest, before + keys)
  {
    if keys == [] {
      assert before + keys == before;
    } else {
      var tail := ShowKeys(keys[1..], rest);
      assert HasNoNul(keys[0]) && Breaks(tail);
      ReadShownKeyAfterDot(keys[0], tail, before);
      ReadShownKeys(keys[1..], rest, before + [keys[0]]);
      FirstMoves(before, keys);
    }
  }

  lemma ReadShownKeyAfterDot(key: string, rest: string, before: seq<string>)
    requires HasNoNul(key) && Breaks(rest)
    ensures ReadKeys(['.'] + ShowKey(key, rest), before) == ReadKeys(rest, before + [key])
  {
    var shown := ShowKey(key, rest);
    ReadShownKey(key, rest);
    KeyStarts(key, rest);
    assert (['.'] + shown)[1..] == shown && (['.'] + shown)[1] == shown[0];
    ReadOneKey(['.'] + shown, key, rest, before);
  }

  // ---------------------------------------------------------------------------
  // Formals

  function AfterComma(started: bool, t: string): string {
    if started then SkipComma(t) else t
  }

  lemma {:induction false} ReadShownFormals(formals: seq<string>, started: bool, ellipsis: bool, rest: string, before: seq<string>)
    requires forall f | f in formals :: IsIdentifier(f)
    requires Increasing(before + formals)
    ensures ReadFormals(AfterComma(started, ShowFormals(formals, started, ellipsis, rest)), before)
         == Ok((before + formals, ellipsis), [':'] + ([' '] + rest))
  {
    if formals == [] {
      assert before + formals == before;
      ReadFormalsEnd(started, ellipsis, rest, before);
    } else {
      var name := formals[0];
      var tail := ShowFormals(formals[1..], true, ellipsis, rest);
      assert IsIdentifier(name);
      SeparatorSkipped(started, name + tail);
      IncreasingSplits(before, formals);
      FormalsBreak(formals[1..], ellipsis, rest);
      ReadOneFormal(AfterComma(started, Separator(started, name + tail)), name, tail, before);
      FirstMoves(before, formals);
      ReadShownFormals(formals[1..], true, ellipsis, rest, before + [name]);
    }
  }

  lemma IncreasingSplits(before: seq<string>, after: seq<string>)
    requires Increasing(before + after) && after != []
    ensures forall n | n in before :: Less(n, after[0])
  {
    forall n | n in before
      ensures Less(n, after[0])
    {
      var i :| 0 <= i < |before| && before[i] == n;
      assert (before + after)[i] == n && (before + after)[|before|] == after[0];
    }
  }

  lemma FormalsBreak(formals: seq<string>, ellipsis: bool, rest: string)
    ensures var tail := ShowFormals(formals, true, ellipsis, rest); Breaks(tail) || At(tail, ',')
  {}

  lemma ReadOneFormal(t: string, name: string, tail: string, before: seq<string>)
    requires SkipTrivia(t) == name + tail
    requires IsIdentifier(name) && (Breaks(tail) || At(tail, ','))
    requires forall n | n in before :: Less(n, name)
    ensures ReadFormals(t, before) == ReadFormals(SkipComma(tail), before + [name])
  {
    IdentifierLengthOf(name, tail);
    InsertNameLast(before, name);
  }

  lemma ReadFormalsEnd(started: bool, ellipsis: bool, rest: string, before: seq<string>)
    ensures ReadFormals(AfterComma(started, ShowFormals([], started, ellipsis, rest)), before)
         == Ok((before, ellipsis), [':'] + ([' '] + rest))
  {
    var close := ['}'] + ([':'] + ([' '] + rest));
    assert close[1..] == [':'] + ([' '] + rest);
    assert ([' '] + close)[1..] == close;
    assert SkipTrivia(close) == SkipTrivia([' '] + close) == close;
    if ellipsis {
      var inner := ['.'] + (['.'] + (['.'] + ([' '] + close)));
      SeparatorSkipped(started, inner);
      assert AtDots(inner) && inner[3..] == [' '] + close;
    }
  }

  lemma SeparatorSkipped(started: bool, inner: string)
    requires inner != "" && (StartsIdentifier(inner[0]) || inner[0] == '.')
    ensures SkipTrivia(AfterComma(started, Separator(started, inner))) == inner
  {
    assert ([','] + ([' '] + inner))[1..] == [' '] + inner;
    assert ([' '] + inner)[1..] == inner;
  }

  // ---------------------------------------------------------------------------
  // First characters

  /** Every printed expression starts like an operand, so blanks before it are skipped up to it. */
  lemma {:induction false} StartsOperand(e: Expr, depth: nat, rest: string)
    requires Valid(e)
    ensures AtOperand(Show(e, depth, rest))
    ensures AtOperand(ShowOperand(e, depth, rest))
    ensures AtOperand(ShowBase(e, depth, rest))
    ensures AtOperand(ShowCallee(e, depth, rest))
    decreases e
  {
    match e
    case Select(base, first, keys) => StartsOperand(base, depth, ShowKeys([first] + keys, rest));
    case Apply(callee, argument) => StartsOperand(callee, depth, [' '] + ShowOperand(argument, depth, rest));
    case Bool(value) => assert Show(e, depth, rest)[0] == (if value then 't' else 'f');
    case Var(name) => assert Show(e, depth, rest)[0] == name[0];
    case _ =>
  }

  /** Nothing but a lambda looks like one. */
  lemma {:induction false} NotAtLambda(e: Expr, depth: nat, rest: string)
    requires Valid(e) && !e.Lambda?
    requires !At(SkipSpace(rest), ':')
    ensures !AtLambda(Show(e, depth, rest))
    decreases e
  {
    match e
    case Attrs(entries) => EntriesAreNoFormals(entries, depth, rest);
    case Select(base, first, keys) =>
      var tail := ShowKeys([first] + keys, rest);
      assert tail[0] == '.';
      assert Show(e, depth, rest) == ShowBase(base, depth, tail);
      if IsOperand(base) && !base.Path? {
        assert ShowBase(base, depth, tail) == Show(base, depth, tail);
        NotAtLambda(base, depth, tail);
      } else {
        assert ShowBase(base, depth, tail) == ['('] + Show(base, depth, [')'] + tail);
      }
    case Apply(callee, argument) =>
      if !callee.Lambda? {
        var tail := [' '] + ShowOperand(argument, depth, rest);
        StartsOperand(argument, depth, rest);
        assert tail[1..] == ShowOperand(argument, depth, rest);
        NotAtLambda(callee, depth, tail);
      }
    case Bool(value) => assert Show(e, depth, rest)[0] == (if value then 't' else 'f');
    case Var(name) => assert Show(e, depth, rest)[0] == name[0];
    case _ =>
  }

  lemma BracketOpens(open: char, body: string)
    ensures var t := [open] + (['\n'] + body);
      t[1..] == ['\n'] + body && SkipTrivia(t[1..]) == SkipTrivia(body) && SkipSpace(t[1..]) == SkipSpace(body)
  {
    assert (['\n'] + body)[1..] == body;
  }

  lemma EntriesAreNoFormals(entries: seq<Entry>, depth: nat, rest: string)
    requires !At(SkipSpace(rest), ':')
    ensures !AtLambda(Show(Attrs(entries), depth, rest))
  {
    if entries == [] {
      var t := ['{'] + ([' '] + (['}'] + rest));
      assert t[1..] == [' '] + (['}'] + rest);
      assert ([' '] + (['}'] + rest))[1..] == ['}'] + rest;
      assert (['}'] + rest)[1..] == rest;
      assert SkipSpace(t[1..]) == ['}'] + rest;
    } else {
      var tail := [';'] + (['\n'] + ShowEntries(entries[1..], depth + 1, Indented(depth, ['}'] + rest)));
      KeyIsNoFormal(entries[0].key, depth + 1, Show(entries[0].value, depth + 1, tail));
    }
  }

  lemma KeyIsNoFormal(key: string, depth: nat, value: string)
    ensures !AtLambda(['{'] + (['\n'] + Indented(depth, ShowKey(key, [' '] + (['='] + ([' '] + value))))))
  {
    var line := [' '] + (['='] + ([' '] + value));
    BracketOpens('{', Indented(depth, ShowKey(key, line)));
    SkipIndented(depth, ShowKey(key, line));
    KeyStarts(key, line);
    EqualsAfterKey(key, value);
  }

  lemma EqualsAfterKey(key: string, value: string)
    ensures var p := ShowKey(key, [' '] + (['='] + ([' '] + value)));
      IdentifierLength(p) > 0 ==> At(SkipSpace(p[IdentifierLength(p)..]), '=')
  {
    if IsIdentifier(key) {
      var line := [' '] + (['='] + ([' '] + value));
      IdentifierLengthOf(key, line);
      assert (key + line)[|key|..] == line;
      assert line[1..] == ['='] + ([' '] + value);
    }
  }

  // ---------------------------------------------------------------------------
  // Expressions

  /** What may follow the printed operand `e`: a path would swallow a dot. */
  predicate Follows(e: Expr, rest: string) {
    Breaks(rest) && (e.Path? ==> !At(rest, '.'))
  }

  function SpineBase(e: Expr): Expr { if e.Select? then e.base else e }

  function SpineKeys(e: Expr): seq<string> { if e.Select? then [e.first] + e.rest else [] }

  lemma SpineRejoins(e: Expr, rest: string)
    ensures Selected(SpineBase(e), Ok(SpineKeys(e), rest)) == Ok(e, rest)
  {
    if e.Select? {
      assert ([e.first] + e.rest)[1..] == e.rest;
    }
  }

  lemma SpineGrows(base: Expr, first: string, keys: seq<string>)
    ensures SpineBase(SelectFrom(base, first, keys)) == SpineBase(base)
    ensures SpineKeys(SelectFrom(base, first, keys)) == SpineKeys(base) + ([first] + keys)
  {}

  lemma {:induction false} ReadShownParts(parts: seq<StrPart>, pending: bool, depth: nat, rest: string, text: string, before: seq<StrPart>)
    requires forall p | p in parts :: PrintablePart(p)
    requires HasNoNul(text)
    ensures ReadParts(ShowParts(parts, pending, depth, rest), text, before)
         == Ok(before + MergeParts(text + Waiting(pending), parts), rest)
    decreases parts, 10
  {
    if parts == [] {
      ReadPartsEnd(pending, rest, text, before);
    } else if parts[0].Lit? {
      var piece := parts[0].text;
      assert PrintablePart(parts[0]);
      if piece == "" {
        ReadShownParts(parts[1..], pending, depth, rest, text, before);
        assert text + Waiting(pending) + "" == text + Waiting(pending);
      } else {
        ReadFirstLiteral(parts, pending, depth, rest, text, before);
        ReadShownParts(parts[1..], EndsWithDollar(piece), depth, rest, text + Waiting(pending) + Body(piece), before);
      }
    } else {
      assert (parts decreases to parts[0]);
      assert PrintablePart(parts[0]);
      var flushed := before + LitParts(text + Waiting(pending)) + [Interp(Normalize(parts[0].expr))];
      assert parts == [Interp(parts[0].expr)] + parts[1..];
      ReadShownInterpolation(parts[0].expr, parts[1..], pending, depth, rest, text, before);
      ReadShownParts(parts[1..], false, depth, rest, "", flushed);
      assert "" + Waiting(false) == "";
      MergedInterpolation(parts, text + Waiting(pending), before);
    }
  }

  lemma ReadFirstLiteral(parts: seq<StrPart>, pending: bool, depth: nat, rest: string, text: string, before: seq<StrPart>)
    requires parts != [] && parts[0].Lit? && parts[0].text != ""
    ensures var piece := parts[0].text;
      var now := text + Waiting(pending) + Body(piece);
      ReadParts(ShowParts(parts, pending, depth, rest), text, before)
      == ReadParts(ShowParts(parts[1..], EndsWithDollar(piece), depth, rest), now, before) &&
      MergeParts(text + Waiting(pending), parts) == MergeParts(now + Waiting(EndsWithDollar(piece)), parts[1..])
  {
    var piece := parts[0].text;
    ReadLiteral(piece, parts[1..], pending, depth, rest, text, before);
    assert text + Waiting(pending) + Body(piece) + Waiting(EndsWithDollar(piece)) == text + Waiting(pending) + piece;
  }

  lemma MergedInterpolation(parts: seq<StrPart>, text: string, before: seq<StrPart>)
    requires parts != [] && parts[0].Interp?
    ensures before + MergeParts(text, parts)
         == before + LitParts(text) + [Interp(Normalize(parts[0].expr))] + MergeParts("", parts[1..])
  {}

  lemma ReadPartsEnd(pending: bool, rest: string, text: string, before: seq<StrPart>)
    requires HasNoNul(text)
    ensures ReadParts(ShowParts([], pending, 0, rest), text, before)
         == Ok(before + LitParts(text + Waiting(pending)), rest)
  {
    assert (['"'] + rest)[1..] == rest;
    ReadDollar(pending, false, ['"'] + rest, text, before);
    assert before + [] == before;
  }

  lemma {:induction false} ReadShownInterpolation(expr: Expr, parts: seq<StrPart>, pending: bool, depth: nat, rest: string, text: string, before: seq<StrPart>)
    requires Printable(expr) && HasNoNul(text)
    ensures ReadParts(ShowParts([Interp(expr)] + parts, pending, depth, rest), text, before)
         == ReadParts(ShowParts(parts, false, depth, rest), "",
                      before + LitParts(text + Waiting(pending)) + [Interp(Normalize(expr))])
    decreases expr, 10
  {
    var tail := ShowParts(parts, false, depth, rest);
    var inner := Show(expr, depth, ['}'] + tail);
    assert ([Interp(expr)] + parts)[1..] == parts;
    ReadDollar(pending, true, ['$'] + (['{'] + inner), text, before);
    ReadShown(expr, depth, ['}'] + tail);
    assert SkipTrivia(['}'] + tail) == ['}'] + tail && (['}'] + tail)[1..] == tail;
    ReadOneInterpolation(inner, Normalize(expr), tail, text + Waiting(pending), before);
  }

  lemma ReadLiteral(piece: string, parts: seq<StrPart>, pending: bool, depth: nat, rest: string, text: string, before: seq<StrPart>)
    requires piece != ""
    ensures var tail := ShowParts(parts, EndsWithDollar(piece), depth, rest);
      ReadParts(Dollar(pending, piece[0] == '{', Escaped(Body(piece), tail)), text, before)
      == ReadParts(tail, text + Waiting(pending) + Body(piece), before)
  {
    var tail := ShowParts(parts, EndsWithDollar(piece), depth, rest);
    if EndsWithDollar(piece) {
      PendingIsSafe(parts, depth, rest);
    }
    if piece[0] != '{' {
      LiteralIsSafe(piece, parts, depth, rest);
    }
    ReadDollar(pending, piece[0] == '{', Escaped(Body(piece), tail), text, before);
    ReadEscaped(Body(piece), tail, text + Waiting(pending), before);
  }

  lemma ReadOneInterpolation(inner: string, expr: Expr, tail: string, text: string, before: seq<StrPart>)
    requires ReadInterpolation(inner) == Ok(expr, tail) && HasNoNul(text)
    ensures ReadParts(['$'] + (['{'] + inner), text, before)
         == ReadParts(tail, "", before + LitParts(text) + [Interp(expr)])
  {
    assert (['$'] + (['{'] + inner))[2..] == inner;
    assert before + [] == before;
    assert Flush(before, text, inner) == Ok(before + LitParts(text), inner);
  }

  lemma {:induction false} ReadShownItems(items: seq<Expr>, depth: nat, close: nat, rest: string, before: seq<Expr>)
    requires forall x | x in items :: Printable(x)
    ensures ReadItems(ShowItems(items, depth, Indented(close, [']'] + rest)), before)
         == Ok(List(before + NormalizeAll(items)), rest)
    decreases items, 10
  {
    if items == [] {
      ItemsEnd(close, rest, before);
      assert before + [] == before;
    } else {
      var item := Normalize(items[0]);
      assert Printable(items[0]);
      NextItem(items[1..], depth, close, rest);
      ReadFirstItem(items[0], depth, ShowItems(items[1..], depth, Indented(close, [']'] + rest)), before);
      ReadShownItems(items[1..], depth, close, rest, before + [item]);
      FirstMoves(before, NormalizeAll(items));
    }
  }

  lemma ItemsEnd(close: nat, rest: string, before: seq<Expr>)
    ensures ReadItems(Indented(close, [']'] + rest), before) == Ok(List(before), rest)
  {
    SkipIndented(close, [']'] + rest);
    assert ([']'] + rest)[1..] == rest;
  }

  lemma {:induction false} ReadFirstItem(item: Expr, depth: nat, tail: string, before: seq<Expr>)
    requires Printable(item) && !AtSelection(SkipTrivia(tail))
    ensures ReadItems(Indented(depth, ShowOperand(item, depth, ['\n'] + tail)), before)
         == ReadItems(tail, before + [Normalize(item)])
    decreases item, 10
  {
    var shown := ShowOperand(item, depth, ['\n'] + tail);
    SkipIndented(depth, shown);
    StartsOperand(item, depth, ['\n'] + tail);
    OperandIsNoTrivia(shown);
    assert (['\n'] + tail)[1..] == tail;
    ReadShownOperand(item, depth, ['\n'] + tail);
    ItemsSkipTrivia(tail, before + [Normalize(item)]);
  }

  lemma ItemsSkipTrivia(t: string, before: seq<Expr>)
    ensures ReadItems(SkipTrivia(t), before) == ReadItems(t, before)
  {
    SkipTriviaTwice(t);
  }

  lemma NextItem(items: seq<Expr>, depth: nat, close: nat, rest: string)
    requires forall x | x in items :: Printable(x)
    ensures !AtSelection(SkipTrivia(ShowItems(items, depth, Indented(close, [']'] + rest))))
  {
    var end := Indented(close, [']'] + rest);
    if items == [] {
      SkipIndented(close, [']'] + rest);
    } else {
      var tail := ['\n'] + ShowItems(items[1..], depth, end);
      assert Printable(items[0]);
      SkipIndented(depth, ShowOperand(items[0], depth, tail));
      StartsOperand(items[0], depth, tail);
      OperandIsNoTrivia(ShowOperand(items[0], depth, tail));
    }
  }

  lemma {:induction false} ReadShownEntries(entries: seq<Entry>, depth: nat, close: nat, rest: string, before: seq<Entry>)
    requires forall x | x in entries :: PrintableEntry(x)
    requires KeysIncrease(before + entries)
    ensures ReadEntries(ShowEntries(entries, depth, Indented(close, ['}'] + rest)), before)
         == Ok(Attrs(before + NormalizeEntries(entries)), rest)
    decreases entries, 10
  {
    var end := Indented(close, ['}'] + rest);
    if entries == [] {
      EntriesEnd(close, rest, before);
      assert before + [] == before;
    } else {
      var entry := Entry(entries[0].key, Normalize(entries[0].value));
      var tail := ShowEntries(entries[1..], depth, end);
      ReadFirstEntry(entries[0], depth, tail, before, entries);
      ReadShownEntries(entries[1..], depth, close, rest, before + [entry]);
      FirstNormalized(entries, before);
    }
  }

  lemma FirstNormalized(entries: seq<Entry>, before: seq<Entry>)
    requires entries != []
    ensures before + [Entry(entries[0].key, Normalize(entries[0].value))] + NormalizeEntries(entries[1..])
         == before + NormalizeEntries(entries)
  {}

  lemma EntriesEnd(close: nat, rest: string, before: seq<Entry>)
    ensures ReadEntries(Indented(close, ['}'] + rest), before) == Ok(Attrs(before), rest)
  {
    SkipIndented(close, ['}'] + rest);
    assert (['}'] + rest)[1..] == rest;
  }

  lemma {:induction false} ReadFirstEntry(first: Entry, depth: nat, tail: string, before: seq<Entry>, entries: seq<Entry>)
    requires entries != [] && first == entries[0]
    requires PrintableEntry(first)
    requires KeysIncrease(before + entries)
    ensures var entry := Entry(first.key, Normalize(first.value));
      KeysIncrease(before + [entry] + entries[1..]) &&
      ReadEntries(Indented(depth, ShowKey(first.key, [' '] + (['='] + ([' '] +
                  Show(first.value, depth, [';'] + (['\n'] + tail)))))), before)
      == ReadEntries(tail, before + [entry])
    decreases first, 10
  {
    var entry := Entry(first.key, Normalize(first.value));
    var line := Show(first.value, depth, [';'] + (['\n'] + tail));
    var shown := ShowKey(first.key, [' '] + (['='] + ([' '] + line)));
    SkipIndented(depth, shown);
    ReadShownEntry(first, depth, ['\n'] + tail);
    KeysSplit(before, entries, entry);
    ReadOneEntry(Indented(depth, shown), entry, tail, before);
  }

  lemma ReadOneEntry(t: string, entry: Entry, tail: string, before: seq<Entry>)
    requires !At(SkipTrivia(t), '}') && ReadEntry(SkipTrivia(t)) == Ok(entry, ['\n'] + tail)
    requires forall x | x in before :: Less(x.key, entry.key)
    ensures ReadEntries(t, before) == ReadEntries(tail, before + [entry])
  {
    assert (['\n'] + tail)[1..] == tail;
    EntriesSkipTrivia(['\n'] + tail, before + [entry]);
    EntriesSkipTrivia(tail, before + [entry]);
    InsertEntryLast(before, entry);
  }

  lemma EntriesSkipTrivia(t: string, before: seq<Entry>)
    ensures ReadEntries(SkipTrivia(t), before) == ReadEntries(t, before)
  {
    SkipTriviaTwice(t);
  }

  lemma KeysSplit(before: seq<Entry>, after: seq<Entry>, entry: Entry)
    requires KeysIncrease(before + after) && after != [] && entry.key == after[0].key
    ensures forall x | x in before :: Less(x.key, entry.key)
    ensures KeysIncrease(before + [entry] + after[1..])
  {
    var all := before + after;
    forall x | x in before
      ensures Less(x.key, entry.key)
    {
      var i :| 0 <= i < |before| && before[i] == x;
      assert all[i] == x && all[|before|] == after[0];
    }
    var swapped := before + [entry] + after[1..];
    forall i, j | 0 <= i < j < |swapped|
      ensures Less(swapped[i].key, swapped[j].key)
    {
      assert swapped[i].key == all[i].key && swapped[j].key == all[j].key;
    }
  }

  lemma {:induction false} ReadShownEntry(entry: Entry, depth: nat, rest: string)
    requires PrintableEntry(entry)
    ensures var t := ShowKey(entry.key, [' '] + (['='] + ([' '] + Show(entry.value, depth, [';'] + rest))));
      SkipTrivia(t) == t && !At(t, '}') &&
      ReadEntry(t) == Ok(Entry(entry.key, Normalize(entry.value)), rest)
    decreases entry, 9
  {
    StartsOperand(entry.value, depth, [';'] + rest);
    ReadShown(entry.value, depth, [';'] + rest);
    assert SkipTrivia([';'] + rest) == [';'] + rest && ([';'] + rest)[1..] == rest;
    ReadEntryLine(entry.key, Show(entry.value, depth, [';'] + rest), Normalize(entry.value), rest);
  }

  lemma ReadEntryLine(key: string, shown: string, value: Expr, rest: string)
    requires HasNoNul(key) && AtOperand(shown)
    requires ReadExpr(shown) == Ok(value, [';'] + rest)
    ensures var t := ShowKey(key, [' '] + (['='] + ([' '] + shown)));
      SkipTrivia(t) == t && !At(t, '}') && ReadEntry(t) == Ok(Entry(key, value), rest)
  {
    var line := [' '] + (['='] + ([' '] + shown));
    KeyStarts(key, line);
    ReadShownKey(key, line);
    ExpectEquals(shown);
    SpaceBeforeExpr(shown);
    ExpectSemicolon(rest);
  }

  lemma ExpectSemicolon(rest: string)
    ensures Expect([';'] + rest, ';') == Ok((), rest)
  {
    assert ([';'] + rest)[1..] == rest;
  }

  lemma ExpectEquals(shown: string)
    ensures Expect([' '] + (['='] + ([' '] + shown)), '=') == Ok((), [' '] + shown)
  {
    var line := [' '] + (['='] + ([' '] + shown));
    assert line[1..] == ['='] + ([' '] + shown);
    assert SkipTrivia(line) == line[1..];
    assert (['='] + ([' '] + shown))[1..] == [' '] + shown;
  }

  /** An operand other than a selection is read up to its last character. */
  lemma {:induction false} ReadShownSimple(e: Expr, depth: nat, rest: string)
    requires Printable(e) && IsOperand(e) && !e.Select?
    requires Follows(e, rest)
    ensures ReadSimple(Show(e, depth, rest)) == Ok(Normalize(e), rest)
    decreases e, 0
  {
    var t := Show(e, depth, rest);
    StartsOperand(e, depth, rest);
    OperandIsNoTrivia(t);
    match e
    case Str(parts) =>
      var inner := ShowParts(parts, false, depth, rest);
      assert t[1..] == inner;
      ReadShownParts(parts, false, depth, rest, "", []);
      assert "" + Waiting(false) == "";
      assert [] + MergeParts("", parts) == MergeParts("", parts);
      assert ReadString(t) == Ok(MergeParts("", parts), rest);
      assert ReadBare(t) == ReadText(t);
    case Bool(value) => IdentifierLengthOf(if value then "true" else "false", rest);
    case Var(name) => IdentifierLengthOf(name, rest);
    case Path(path) =>
      assert t[2..] == path + rest;
      PathLengthOf(path, rest);
    case List(items) => ReadShownList(items, depth, rest);
    case Attrs(entries) => ReadShownAttrs(entries, depth, rest);
  }

  lemma {:induction false} ReadShownList(items: seq<Expr>, depth: nat, rest: string)
    requires forall x | x in items :: Printable(x)
    ensures ReadItems(Show(List(items), depth, rest)[1..], []) == Ok(List(NormalizeAll(items)), rest)
    decreases items, 11
  {
    if items == [] {
      EmptyBrackets('[', ']', rest);
      ItemsSkipTrivia([' '] + ([']'] + rest), []);
    } else {
      var body := ShowItems(items, depth + 1, Indented(depth, [']'] + rest));
      BracketOpens('[', body);
      ItemsSkipTrivia(['\n'] + body, []);
      ItemsSkipTrivia(body, []);
      ReadShownItems(items, depth + 1, depth, rest, []);
      assert [] + NormalizeAll(items) == NormalizeAll(items);
    }
  }

  lemma EmptyBrackets(open: char, close: char, rest: string)
    requires !IsSpace(close) && close != '#'
    ensures var t := [open] + ([' '] + ([close] + rest));
      t[1..] == [' '] + ([close] + rest) &&
      SkipTrivia(t[1..]) == SkipTrivia([close] + rest) == [close] + rest && ([close] + rest)[1..] == rest
  {
    assert ([' '] + ([close] + rest))[1..] == [close] + rest;
  }

  lemma {:induction false} ReadShownAttrs(entries: seq<Entry>, depth: nat, rest: string)
    requires forall x | x in entries :: PrintableEntry(x)
    requires KeysIncrease(entries)
    ensures ReadEntries(Show(Attrs(entries), depth, rest)[1..], []) == Ok(Attrs(NormalizeEntries(entries)), rest)
    decreases entries, 11
  {
    if entries == [] {
      EmptyBrackets('{', '}', rest);
      EntriesSkipTrivia([' '] + (['}'] + rest), []);
    } else {
      var body := ShowEntries(entries, depth + 1, Indented(depth, ['}'] + rest));
      BracketOpens('{', body);
      EntriesSkipTrivia(['\n'] + body, []);
      EntriesSkipTrivia(body, []);
      NothingBefore(entries);
      ReadShownEntries(entries, depth + 1, depth, rest, []);
    }
  }

  lemma NothingBefore(entries: seq<Entry>)
    ensures [] + entries == entries && [] + NormalizeEntries(entries) == NormalizeEntries(entries)
  {}

  /** An operand is read up to the keys that may follow it. */
  lemma {:induction false} ReadShownSpine(e: Expr, depth: nat, rest: string)
    requires Printable(e) && IsOperand(e)
    requires Follows(e, rest)
    ensures ReadSelection(Show(e, depth, rest))
         == Selected(SpineBase(Normalize(e)), ReadKeys(rest, SpineKeys(Normalize(e))))
    decreases e, 1
  {
    if e.Select? {
      var base, all := e.base, [e.first] + e.rest;
      var tail := ShowKeys(all, rest);
      var n := Normalize(base);
      assert tail[0] == '.';
      if base.Path? || !IsOperand(base) {
        ReadShownParen(base, depth, tail);
      } else {
        ReadShownSpine(base, depth, tail);
      }
      assert ReadSelection(ShowBase(base, depth, tail)) == Selected(SpineBase(n), ReadKeys(tail, SpineKeys(n)));
      ReadShownKeys(all, rest, SpineKeys(n));
      SpineGrows(n, e.first, e.rest);
    } else {
      ReadShownSimple(e, depth, rest);
    }
  }

  lemma {:induction false} ReadShownParen(e: Expr, depth: nat, rest: string)
    requires Printable(e)
    ensures ReadSimple(['('] + Show(e, depth, [')'] + rest)) == Ok(Normalize(e), rest)
    decreases e, 5
  {
    var inner := Show(e, depth, [')'] + rest);
    var t := ['('] + inner;
    assert t[1..] == inner && SkipTrivia(t) == t;
    assert ReadBare(t) == ReadParenthesized(inner);
    ReadShown(e, depth, [')'] + rest);
    assert SkipTrivia([')'] + rest) == [')'] + rest && ([')'] + rest)[1..] == rest;
  }

  lemma {:induction false} ReadShownOperand(e: Expr, depth: nat, rest: string)
    requires Printable(e)
    requires Follows(e, rest) && !AtSelection(SkipTrivia(rest))
    ensures ReadSelection(ShowOperand(e, depth, rest)) == Ok(Normalize(e), SkipTrivia(rest))
    decreases e, 6
  {
    if IsOperand(e) {
      ReadShownSpine(e, depth, rest);
      SpineRejoins(Normalize(e), SkipTrivia(rest));
    } else {
      ReadShownParen(e, depth, rest);
    }
  }

  /** Anything but a lambda is read up to the arguments that may follow it. */
  lemma {:induction false} ReadShownApplication(e: Expr, depth: nat, rest: string)
    requires Printable(e) && !e.Lambda?
    requires Breaks(rest) && !At(rest, '.') && !AtSelection(SkipTrivia(rest))
    ensures ReadApplication(Show(e, depth, rest)) == ReadArguments(SkipTrivia(rest), Normalize(e))
    decreases e, 3
  {
    if e.Apply? {
      var shown := ShowOperand(e.argument, depth, rest);
      var tail := [' '] + shown;
      assert tail[1..] == shown;
      StartsOperand(e.argument, depth, rest);
      OperandIsNoTrivia(shown);
      assert SkipTrivia(tail) == shown;
      var n := Normalize(e.callee);
      if e.callee.Lambda? {
        ReadShownOperand(e.callee, depth, tail);
      } else {
        ReadShownApplication(e.callee, depth, tail);
      }
      assert ReadApplication(ShowCallee(e.callee, depth, tail)) == ReadArguments(shown, n);
      ReadShownOperand(e.argument, depth, rest);
      ReadOneArgument(shown, n, Normalize(e.argument), SkipTrivia(rest));
    } else {
      ReadShownSpine(e, depth, rest);
      SpineRejoins(Normalize(e), SkipTrivia(rest));
    }
  }

  lemma ReadOneArgument(t: string, callee: Expr, argument: Expr, rest: string)
    requires AtOperand(t) && ReadSelection(t) == Ok(argument, rest)
    ensures ReadArguments(t, callee) == ReadArguments(rest, Apply(callee, argument))
  {
    OperandIsNoTrivia(t);
  }

  lemma {:induction false} ReadShown(e: Expr, depth: nat, rest: string)
    requires Printable(e) && EndsExpr(rest)
    ensures ReadExpr(Show(e, depth, rest)) == Ok(Normalize(e), SkipTrivia(rest))
    decreases e, 4
  {
    StartsOperand(e, depth, rest);
    OperandIsNoTrivia(Show(e, depth, rest));
    if e.Lambda? {
      ReadShownLambda(e, depth, rest);
    } else {
      EndsSkipped(rest);
      NotAtLambda(e, depth, rest);
      ReadShownApplication(e, depth, rest);
    }
  }

  lemma EndsSkipped(rest: string)
    requires EndsExpr(rest)
    ensures Breaks(rest) && !At(rest, '.') && !At(SkipSpace(rest), ':')
    ensures var u := SkipTrivia(rest); SkipTrivia(u) == u && !AtSelection(u) && !AtOperand(u)
  {
    assert rest == "\n" ==> rest[1..] == "";
    SkipTriviaTwice(rest);
  }

  lemma {:induction false} ReadShownLambda(e: Expr, depth: nat, rest: string)
    requires Printable(e) && EndsExpr(rest) && e.Lambda?
    ensures AtLambda(Show(e, depth, rest))
    ensures ReadLambda(Show(e, depth, rest)) == Ok(Normalize(e), SkipTrivia(rest))
    decreases e, 2
  {
    var inner := Show(e.body, depth, rest);
    var tail := ShowFormals(e.formals, false, e.ellipsis, inner);
    assert (['{'] + tail)[1..] == tail;
    assert Expect(Show(e, depth, rest), '{') == Ok((), tail);
    FormalsAreSeen(e.formals, e.ellipsis, inner);
    assert [] + e.formals == e.formals;
    ReadShownFormals(e.formals, false, e.ellipsis, inner, []);
    var after := [':'] + ([' '] + inner);
    assert ReadFormals(tail, []) == Ok((e.formals, e.ellipsis), after);
    assert after[1..] == [' '] + inner;
    assert Expect(after, ':') == Ok((), [' '] + inner);
    StartsOperand(e.body, depth, rest);
    SpaceBeforeExpr(inner);
    ReadShown(e.body, depth, rest);
  }

  lemma SpaceBeforeExpr(t: string)
    requires AtOperand(t)
    ensures ReadExpr([' '] + t) == ReadExpr(t)
  {
    assert ([' '] + t)[1..] == t;
    OperandIsNoTrivia(t);
  }

  lemma NamesAreSeen(formals: seq<string>, ellipsis: bool, rest: string)
    requires formals != [] && IsIdentifier(formals[0])
    ensures AtLambda(['{'] + ShowFormals(formals, false, ellipsis, rest))
  {
    var tail := ShowFormals(formals, false, ellipsis, rest);
    var name, more := formals[0], ShowFormals(formals[1..], true, ellipsis, rest);
    assert (['{'] + tail)[1..] == tail;
    assert tail[1..] == name + more;
    assert SkipSpace(tail) == name + more;
    FormalsBreak(formals[1..], ellipsis, rest);
    IdentifierLengthOf(name, more);
    assert (name + more)[|name|..] == more;
    FormalContinues(formals[1..], ellipsis, rest);
  }

  lemma NoNamesAreSeen(ellipsis: bool, rest: string)
    ensures AtLambda(['{'] + ShowFormals([], false, ellipsis, rest))
  {
    var tail := ShowFormals([], false, ellipsis, rest);
    assert (['{'] + tail)[1..] == tail;
    if ellipsis {
      var dots := tail[1..];
      assert AtDots(dots) && SkipSpace(tail) == dots && !At(dots, '}');
    } else {
      assert tail[1..] == [':'] + ([' '] + rest);
      assert SkipSpace(tail) == tail && SkipSpace(tail[1..]) == tail[1..];
    }
  }

  lemma FormalsAreSeen(formals: seq<string>, ellipsis: bool, rest: string)
    requires forall f | f in formals :: IsIdentifier(f)
    ensures AtLambda(['{'] + ShowFormals(formals, false, ellipsis, rest))
  {
    if formals == [] {
      NoNamesAreSeen(ellipsis, rest);
    } else {
      NamesAreSeen(formals, ellipsis, rest);
    }
  }

  lemma FormalContinues(formals: seq<string>, ellipsis: bool, rest: string)
    ensures var after := SkipSpace(ShowFormals(formals, true, ellipsis, rest)); At(after, ',') || At(after, '}')
  {
    var close := ['}'] + ([':'] + ([' '] + rest));
    assert ([' '] + close)[1..] == close;
    assert SkipSpace(close) == close;
  }
}
