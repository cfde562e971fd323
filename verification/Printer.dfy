/** `write_expr` of crates/nixgen/src/print.rs: every expression, through the writers. */
module Printer {
  import opened Wrappers
  import opened Ast
  import opened Printed
  import opened Writer
  import opened NormalForm

  // ---------------------------------------------------------------------------
  // Pieces appended one after the other are the text of the whole

  lemma IndentedText(depth: nat, text: string)
    ensures Indented(depth, "") + text == Indented(depth, text)
  {
    IndentedAppends(depth, "", text);
    assert "" + text == text;
  }

  lemma OperandText(e: Expr, depth: nat, rest: string)
    ensures ShowOperand(e, depth, "") + rest == ShowOperand(e, depth, rest)
  {
    OperandAppends(e, depth, "", rest);
    assert "" + rest == rest;
  }

  lemma ExprText(e: Expr, depth: nat, rest: string)
    ensures Show(e, depth, "") + rest == Show(e, depth, rest)
  {
    ShowAppends(e, depth, "", rest);
    assert "" + rest == rest;
  }

  lemma ItemText(item: Expr, depth: nat, rest: string)
    ensures Indented(depth, "") + ShowOperand(item, depth, "") + "\n" + rest
         == Indented(depth, ShowOperand(item, depth, ['\n'] + rest))
  {
    OperandText(item, depth, ['\n'] + rest);
    IndentedText(depth, ShowOperand(item, depth, ['\n'] + rest));
    assert Indented(depth, "") + ShowOperand(item, depth, "") + "\n" + rest
        == Indented(depth, "") + (ShowOperand(item, depth, "") + (['\n'] + rest));
  }

  lemma EntryText(entry: Entry, depth: nat, rest: string)
    ensures Indented(depth, ShowKey(entry.key, " = ")) + Show(entry.value, depth, "") + ";\n" + rest
         == Indented(depth, ShowKey(entry.key, [' '] + (['='] + ([' '] +
              Show(entry.value, depth, [';'] + (['\n'] + rest))))))
  {
    var tail := [';'] + (['\n'] + rest);
    var value := Show(entry.value, depth, tail);
    ExprText(entry.value, depth, tail);
    KeyAppends(entry.key, " = ", value);
    IndentedAppends(depth, ShowKey(entry.key, " = "), value);
    assert " = " + value == [' '] + (['='] + ([' '] + value));
    assert Indented(depth, ShowKey(entry.key, " = ")) + Show(entry.value, depth, "") + ";\n" + rest
        == Indented(depth, ShowKey(entry.key, " = ")) + (Show(entry.value, depth, "") + tail);
  }

  lemma LitText(text: string, parts: seq<StrPart>, pending: bool, depth: nat)
    ensures (if text == "" then "" else Dollar(pending, text[0] == '{', Escaped(Body(text), "")))
          + ShowParts(parts, if text == "" then pending else EndsWithDollar(text), depth, "")
         == ShowParts([Lit(text)] + parts, pending, depth, "")
  {
    assert ([Lit(text)] + parts)[1..] == parts;
    if text == "" {
      var t := ShowParts(parts, pending, depth, "");
      assert "" + t == t;
    } else {
      var t := ShowParts(parts, EndsWithDollar(text), depth, "");
      EscapedAppends(Body(text), "", t);
      assert "" + t == t;
      DollarAppends(pending, text[0] == '{', Escaped(Body(text), ""), t);
    }
  }

  lemma InterpShown(expr: Expr, parts: seq<StrPart>, pending: bool, depth: nat)
    ensures ShowParts([Interp(expr)] + parts, pending, depth, "")
         == Dollar(pending, true, ['$'] + (['{'] + Show(expr, depth, ['}'] + ShowParts(parts, false, depth, ""))))
  {
    assert ([Interp(expr)] + parts)[1..] == parts;
  }

  lemma JoinFour(a: string, b: string, c: string, d: string, cd: string)
    requires c + d == cd
    ensures a + b + c + d == a + (b + cd)
  {}

  lemma BraceBefore(inner: string)
    ensures (['$'] + (['{'] + "")) + inner == ['$'] + (['{'] + inner)
  {}

  lemma InterpText(expr: Expr, parts: seq<StrPart>, pending: bool, depth: nat)
    ensures Dollar(pending, true, ['$'] + (['{'] + "")) + Show(expr, depth, "") + "}" + ShowParts(parts, false, depth, "")
         == ShowParts([Interp(expr)] + parts, pending, depth, "")
  {
    var t := ShowParts(parts, false, depth, "");
    var start, closing := ['$'] + (['{'] + ""), ['}'] + t;
    InterpShown(expr, parts, pending, depth);
    BraceBefore(Show(expr, depth, closing));
    DollarAppends(pending, true, start, Show(expr, depth, closing));
    ExprText(expr, depth, closing);
    JoinFour(Dollar(pending, true, start), Show(expr, depth, ""), "}", t, closing);
  }

  // ---------------------------------------------------------------------------
  // Writing

  method WriteExpr(w: Writer, e: Expr)
    requires Valid(e)
    modifies w
    ensures w.out == old(w.out) + Show(e, w.depth, "") && w.depth == old(w.depth)
    decreases e, 1
  {
    match e
    case Str(parts) => WriteString(w, parts);
    case Bool(value) => w.Bool(value);
    case List(items) => WriteList(w, items);
    case Attrs(entries) => WriteAttrs(w, entries);
    case Var(name) => w.Var(name);
    case Select(base, first, rest) => WriteSelect(w, base, [first] + rest);
    case Apply(callee, argument) => WriteApply(w, callee, argument);
    case Lambda(formals, ellipsis, body) => WriteLambda(w, formals, ellipsis, body);
    case Path(path) => w.Path(path);
  }

  method WriteApply(w: Writer, callee: Expr, argument: Expr)
    requires Valid(callee) && Valid(argument)
    modifies w
    ensures w.out == old(w.out) + Show(Apply(callee, argument), w.depth, "") && w.depth == old(w.depth)
    decreases Apply(callee, argument), 0
  {
    WriteCallee(w, callee);
    w.Push(" ");
    WriteOperand(w, argument);
    ghost var tail := [' '] + ShowOperand(argument, w.depth, "");
    CalleeText(callee, w.depth, tail);
    AppendAfter(old(w.out), ShowCallee(callee, w.depth, ""), tail, ShowCallee(callee, w.depth, tail));
    Assoc(old(w.out) + ShowCallee(callee, w.depth, ""), " ", ShowOperand(argument, w.depth, ""));
  }

  lemma CalleeText(e: Expr, depth: nat, rest: string)
    ensures ShowCallee(e, depth, "") + rest == ShowCallee(e, depth, rest)
  {
    ExprText(e, depth, rest);
    ParenText(e, depth, rest);
  }

  method WriteCallee(w: Writer, e: Expr)
    requires Valid(e)
    modifies w
    ensures w.out == old(w.out) + ShowCallee(e, w.depth, "") && w.depth == old(w.depth)
    decreases e, 3
  {
    if e.Lambda? {
      WriteParenthesized(w, e);
    } else {
      WriteExpr(w, e);
    }
  }

  method WriteLambda(w: Writer, formals: seq<string>, ellipsis: bool, body: Expr)
    requires Valid(Lambda(formals, ellipsis, body))
    modifies w
    ensures w.out == old(w.out) + Show(Lambda(formals, ellipsis, body), w.depth, "") && w.depth == old(w.depth)
    decreases Lambda(formals, ellipsis, body), 0
  {
    w.LambdaHead(formals, ellipsis);
    WriteExpr(w, body);
    LambdaText(formals, ellipsis, Show(body, w.depth, ""));
    AppendAfter(old(w.out), ['{'] + ShowFormals(formals, false, ellipsis, ""), Show(body, w.depth, ""),
                ['{'] + ShowFormals(formals, false, ellipsis, Show(body, w.depth, "")));
  }

  lemma LambdaText(formals: seq<string>, ellipsis: bool, rest: string)
    ensures (['{'] + ShowFormals(formals, false, ellipsis, "")) + rest
         == ['{'] + ShowFormals(formals, false, ellipsis, rest)
  {
    FormalsAppend(formals, false, ellipsis, "", rest);
    assert "" + rest == rest;
    Assoc(['{'], ShowFormals(formals, false, ellipsis, ""), rest);
  }

  lemma ParenText(e: Expr, depth: nat, rest: string)
    ensures (['('] + Show(e, depth, [')'] + "")) + rest == ['('] + Show(e, depth, [')'] + rest)
  {
    ParenAppends(e, depth, "", rest);
    assert "" + rest == rest;
  }

  method WriteParenthesized(w: Writer, e: Expr)
    requires Valid(e)
    modifies w
    ensures w.out == old(w.out) + (['('] + Show(e, w.depth, [')'] + "")) && w.depth == old(w.depth)
    decreases e, 2
  {
    w.Push("(");
    WriteExpr(w, e);
    w.Push(")");
    ExprText(e, w.depth, ")");
    assert [')'] + "" == ")";
    assert w.out == old(w.out) + (['('] + (Show(e, w.depth, "") + ")"));
  }

  method WriteOperand(w: Writer, e: Expr)
    requires Valid(e)
    modifies w
    ensures w.out == old(w.out) + ShowOperand(e, w.depth, "") && w.depth == old(w.depth)
    decreases e, 3
  {
    if IsOperand(e) {
      WriteExpr(w, e);
    } else {
      WriteParenthesized(w, e);
    }
  }

  method WriteSelect(w: Writer, base: Expr, keys: seq<string>)
    requires Valid(base)
    modifies w
    ensures w.out == old(w.out) + ShowBase(base, w.depth, ShowKeys(keys, "")) && w.depth == old(w.depth)
    decreases base, 4
  {
    if base.Path? {
      WriteParenthesized(w, base);
    } else {
      WriteOperand(w, base);
    }
    w.Keys(keys);
    BaseText(base, w.depth, ShowKeys(keys, ""));
    AppendAfter(old(w.out), ShowBase(base, w.depth, ""), ShowKeys(keys, ""), ShowBase(base, w.depth, ShowKeys(keys, "")));
  }

  lemma BaseText(e: Expr, depth: nat, rest: string)
    ensures ShowBase(e, depth, "") + rest == ShowBase(e, depth, rest)
  {
    ParenText(e, depth, rest);
    OperandText(e, depth, rest);
  }

  method WriteString(w: Writer, parts: seq<StrPart>)
    requires forall p | p in parts :: ValidPart(p)
    modifies w
    ensures w.out == old(w.out) + Show(Str(parts), w.depth, "") && w.depth == old(w.depth)
    decreases parts, 5
  {
    var s := new StrWriter(w);
    ghost var whole := "\"" + ShowParts(parts, false, w.depth, "");
    for i := 0 to |parts|
      invariant fresh(s) && s.w == w && w.depth == old(w.depth)
      invariant w.out + ShowParts(parts[i..], s.pendingDollar, w.depth, "") == old(w.out) + whole
    {
      assert parts[i..] == [parts[i]] + parts[i + 1..];
      assert (parts decreases to parts[i]);
      WritePart(s, parts[i], parts[i + 1..]);
    }
    assert parts[|parts|..] == [];
    s.End();
    assert whole == Show(Str(parts), w.depth, "");
  }

  method WritePart(s: StrWriter, part: StrPart, ghost after: seq<StrPart>)
    requires ValidPart(part)
    modifies s, s.w
    ensures s.w.depth == old(s.w.depth)
    ensures s.w.out + ShowParts(after, s.pendingDollar, s.w.depth, "")
         == old(s.w.out) + ShowParts([part] + after, old(s.pendingDollar), s.w.depth, "")
    decreases part, 0
  {
    ghost var pending, depth := s.pendingDollar, s.w.depth;
    match part
    case Lit(text) =>
      s.Lit(text);
      LitText(text, after, pending, depth);
      AppendAfter(old(s.w.out),
                  if text == "" then "" else Dollar(pending, text[0] == '{', Escaped(Body(text), "")),
                  ShowParts(after, s.pendingDollar, depth, ""), ShowParts([part] + after, pending, depth, ""));
    case Interp(expr) =>
      s.InterpStart();
      WriteExpr(s.w, expr);
      s.InterpEnd();
      InterpText(expr, after, pending, depth);
      AppendThree(old(s.w.out), Dollar(pending, true, ['$'] + (['{'] + "")), Show(expr, depth, ""), "}",
                  ShowParts(after, false, depth, ""), ShowParts([part] + after, pending, depth, ""));
  }

  method WriteList(w: Writer, items: seq<Expr>)
    requires forall x | x in items :: Valid(x)
    modifies w
    ensures w.out == old(w.out) + Show(List(items), w.depth, "") && w.depth == old(w.depth)
    decreases items, 5
  {
    var l := new ListWriter(w);
    ghost var end := Indented(w.depth, "]");
    ghost var whole := "[\n" + ShowItems(items, w.depth + 1, end);
    for i := 0 to |items|
      invariant fresh(l) && l.w == w && w.depth == old(w.depth)
      invariant l.begun == (i > 0) && (i == 0 ==> w.out == old(w.out))
      invariant w.out + Unless(l.begun, "[\n") + ShowItems(items[i..], w.depth + 1, end) == old(w.out) + whole
    {
      assert items[i..][1..] == items[i + 1..];
      WriteItem(l, items[i], ShowItems(items[i + 1..], w.depth + 1, end));
    }
    assert items[|items|..] == [];
    NothingAdded(w.out);
    l.End();
    ListText(items, w.depth);
  }

  lemma NothingAdded(text: string)
    ensures text + "" == text
  {}

  function Unless(begun: bool, text: string): string { if begun then "" else text }

  lemma ListText(items: seq<Expr>, depth: nat)
    ensures Show(List(items), depth, "")
         == if items == [] then "[ ]" else "[\n" + ShowItems(items, depth + 1, Indented(depth, "]"))
  {
    assert [']'] + "" == "]";
    assert ['['] + ([' '] + "]") == "[ ]";
    var shown := ShowItems(items, depth + 1, Indented(depth, "]"));
    assert "[\n" + shown == ['['] + (['\n'] + shown);
  }

  method WriteItem(l: ListWriter, item: Expr, ghost rest: string)
    requires Valid(item)
    modifies l, l.w
    ensures l.w.depth == old(l.w.depth) && l.begun
    ensures l.w.out + Unless(true, "[\n") + rest == old(l.w.out) + Unless(old(l.begun), "[\n") +
              Indented(l.w.depth + 1, ShowOperand(item, l.w.depth + 1, ['\n'] + rest))
    decreases item, 4
  {
    ghost var before, depth := l.w.out + Unless(l.begun, "[\n"), l.w.depth + 1;
    ghost var shown := ShowOperand(item, depth, "");
    l.ItemStart();
    WriteOperand(l.w, item);
    l.ItemEnd();
    ItemText(item, depth, rest);
    AppendThree(before, Indented(depth, ""), shown, "\n", rest, Indented(depth, ShowOperand(item, depth, ['\n'] + rest)));
    assert l.w.out == before + Indented(depth, "") + shown + "\n";
    NothingAdded(l.w.out);
  }

  method WriteAttrs(w: Writer, entries: seq<Entry>)
    requires KeysIncrease(entries) && forall i :: 0 <= i < |entries| ==> Valid(entries[i].value)
    modifies w
    ensures w.out == old(w.out) + Show(Attrs(entries), w.depth, "") && w.depth == old(w.depth)
    decreases entries, 5
  {
    var a := new AttrsWriter(w);
    ghost var end := Indented(w.depth, "}");
    ghost var todo := ShowEntries(entries, w.depth + 1, end);
    ghost var whole := "{\n" + todo;
    assert entries[0..] == entries;
    for i := 0 to |entries|
      invariant fresh(a) && a.w == w && w.depth == old(w.depth)
      invariant a.last == if i == 0 then None else Some(entries[i - 1].key)
      invariant i == 0 ==> w.out == old(w.out)
      invariant todo == ShowEntries(entries[i..], w.depth + 1, end)
      invariant w.out + Unless(a.last.Some?, "{\n") + todo == old(w.out) + whole
    {
      ghost var rest := ShowEntries(entries[i + 1..], w.depth + 1, end);
      FirstEntry(entries, i, w.depth + 1, end);
      KeyIsAbove(entries, i);
      WriteEntry(a, entries[i], rest);
      todo := rest;
    }
    assert entries[|entries|..] == [];
    AttrsEndText(entries, w.depth, old(w.out), w.out);
    a.End();
  }

  lemma AttrsEndText(entries: seq<Entry>, depth: nat, before: string, out: string)
    requires out + Unless(entries != [], "{\n") + Indented(depth, "}")
          == before + ("{\n" + ShowEntries(entries, depth + 1, Indented(depth, "}")))
    requires entries == [] ==> out == before
    ensures out + (if entries != [] then Indented(depth, "}") else "{ }") == before + Show(Attrs(entries), depth, "")
  {
    NothingAdded(out);
    AttrsText(entries, depth);
  }

  lemma FirstEntry(entries: seq<Entry>, i: nat, depth: nat, rest: string)
    requires i < |entries|
    ensures ShowEntries(entries[i..], depth, rest)
         == Indented(depth, ShowKey(entries[i].key, [' '] + (['='] + ([' '] +
              Show(entries[i].value, depth, [';'] + (['\n'] + ShowEntries(entries[i + 1..], depth, rest)))))))
  {
    assert entries[i..][1..] == entries[i + 1..];
  }

  lemma KeyIsAbove(entries: seq<Entry>, i: nat)
    requires KeysIncrease(entries) && i < |entries|
    ensures i > 0 ==> Less(entries[i - 1].key, entries[i].key)
  {}

  lemma AttrsText(entries: seq<Entry>, depth: nat)
    ensures Show(Attrs(entries), depth, "")
         == if entries == [] then "{ }" else "{\n" + ShowEntries(entries, depth + 1, Indented(depth, "}"))
  {
    assert ['}'] + "" == "}";
    assert ['{'] + ([' '] + "}") == "{ }";
    var shown := ShowEntries(entries, depth + 1, Indented(depth, "}"));
    assert "{\n" + shown == ['{'] + (['\n'] + shown);
  }

  method WriteEntry(a: AttrsWriter, entry: Entry, ghost rest: string)
    requires Valid(entry.value)
    requires a.last.Some? ==> Less(a.last.value, entry.key)
    modifies a, a.w
    ensures a.w.depth == old(a.w.depth) && a.last == Some(entry.key)
    ensures a.w.out + Unless(true, "{\n") + rest == old(a.w.out) + Unless(old(a.last.Some?), "{\n") +
              Indented(a.w.depth + 1, ShowKey(entry.key, [' '] + (['='] + ([' '] +
                Show(entry.value, a.w.depth + 1, [';'] + (['\n'] + rest))))))
    decreases entry, 4
  {
    ghost var before, depth := a.w.out + Unless(a.last.Some?, "{\n"), a.w.depth + 1;
    a.EntryStart(entry.key);
    WriteExpr(a.w, entry.value);
    a.EntryEnd();
    EntryText(entry, depth, rest);
    NothingAdded(a.w.out);
    AppendThree(before, Indented(depth, ShowKey(entry.key, " = ")), Show(entry.value, depth, ""), ";\n", rest,
                Indented(depth, ShowKey(entry.key, [' '] + (['='] + ([' '] +
                  Show(entry.value, depth, [';'] + (['\n'] + rest)))))));
  }

  /** `Expr::print`. */
  method PrintExpr(e: Expr) returns (text: string)
    requires Valid(e)
    ensures text == Print(e)
  {
    var w := new Writer("");
    WriteExpr(w, e);
    assert "" + Print(e) == Print(e);
    return w.out;
  }
}
