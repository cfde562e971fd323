/**
 The normal form of crates/nixgen/src/parse.rs and the main results about printing and reading:
 the text of an expression and its normal form determine each other.
 */
module NormalForm {
  import opened Ast
  import opened Printed
  import opened Reader
  import opened RoundTrip

  // ---------------------------------------------------------------------------
  // The normal form is normal

  lemma {:induction false} MergeTwice(text: string, more: string, parts: seq<StrPart>)
    ensures MergeParts(text, MergeParts(more, parts)) == MergeParts(text + more, parts)
    decreases parts, 1
  {
    if parts == [] {
      MergeLitParts(text, more, []);
      assert LitParts(more) + [] == LitParts(more);
    } else if parts[0].Lit? {
      MergeTwice(text, more + parts[0].text, parts[1..]);
      assert text + (more + parts[0].text) == text + more + parts[0].text;
    } else {
      assert (parts decreases to parts[0]);
      var n, tail := Normalize(parts[0].expr), MergeParts("", parts[1..]);
      NormalizeTwice(parts[0].expr);
      MergeTwice("", "", parts[1..]);
      assert "" + "" == "";
      assert LitParts(more) + [Interp(n)] + tail == LitParts(more) + ([Interp(n)] + tail);
      MergeLitParts(text, more, [Interp(n)] + tail);
      assert ([Interp(n)] + tail)[1..] == tail;
    }
  }

  lemma MergeLitParts(text: string, more: string, parts: seq<StrPart>)
    ensures MergeParts(text, LitParts(more) + parts) == MergeParts(text + more, parts)
  {
    if more == "" {
      assert LitParts(more) + parts == parts;
      assert text + more == text;
    } else {
      MergeLit(text, more, parts);
    }
  }

  lemma {:induction false} NormalizeTwice(e: Expr)
    ensures Normalize(Normalize(e)) == Normalize(e)
    decreases e, 0
  {
    match e
    case Str(parts) =>
      MergeTwice("", "", parts);
      assert "" + "" == "";
    case List(items) =>
      forall i | 0 <= i < |items| ensures Normalize(Normalize(items[i])) == Normalize(items[i]) {
        NormalizeTwice(items[i]);
      }
      assert NormalizeAll(NormalizeAll(items)) == NormalizeAll(items);
    case Attrs(entries) =>
      forall i | 0 <= i < |entries|
        ensures Normalize(Normalize(entries[i].value)) == Normalize(entries[i].value)
      {
        NormalizeTwice(entries[i].value);
      }
      assert NormalizeEntries(NormalizeEntries(entries)) == NormalizeEntries(entries);
    case Select(base, first, rest) =>
      NormalizeTwice(base);
      var n := Normalize(base);
      if n.Select? {
        assert n.rest + [first] + rest == n.rest + ([first] + rest);
      }
    case Apply(callee, argument) =>
      NormalizeTwice(callee);
      NormalizeTwice(argument);
    case Lambda(_, _, body) => NormalizeTwice(body);
    case _ =>
  }

  // ---------------------------------------------------------------------------
  // Printing does not see the difference

  /** A literal cut anywhere, also between a dollar and a brace, is escaped like the whole. */
  lemma {:induction false} EscapedWaits(text: string, more: string, rest: string)
    ensures Escaped(text + more, rest)
         == Escaped(Body(text), Dollar(EndsWithDollar(text), At(more, '{'), Escaped(more, rest)))
  {
    if text == "" {
      assert text + more == more;
    } else {
      var all := text + more;
      assert all[1..] == text[1..] + more;
      EscapedWaits(text[1..], more, rest);
      if |text| > 1 {
        assert all[1] == text[1];
        assert Body(text)[1..] == Body(text[1..]);
        assert EndsWithDollar(text) == EndsWithDollar(text[1..]);
      } else {
        assert text[1..] == "" && text[1..] + more == more;
        assert |all| > 1 ==> all[1] == more[0];
      }
    }
  }

  /** What `text` and the parts after it print as. */
  function ShowText(text: string, parts: seq<StrPart>, pending: bool, depth: nat, rest: string): string {
    if text == "" then ShowParts(parts, pending, depth, rest)
    else
      Dollar(pending, text[0] == '{',
             Escaped(Body(text), ShowParts(parts, EndsWithDollar(text), depth, rest)))
  }

  lemma LiteralsJoin(text: string, more: string, parts: seq<StrPart>, pending: bool, depth: nat, rest: string)
    ensures ShowText(text + more, parts, pending, depth, rest)
         == ShowText(text, [Lit(more)] + parts, pending, depth, rest)
  {
    assert ([Lit(more)] + parts)[1..] == parts;
    if more == "" {
      assert text + more == text;
    } else if text == "" {
      assert text + more == more;
    } else {
      var tail := ShowParts(parts, EndsWithDollar(more), depth, rest);
      assert Body(text + more) == text + Body(more);
      EscapedWaits(text, Body(more), tail);
      assert EndsWithDollar(text + more) == EndsWithDollar(more);
      assert At(Body(more), '{') == (more[0] == '{');
    }
  }

  lemma {:induction false} ShowMerged(text: string, parts: seq<StrPart>, pending: bool, depth: nat, rest: string)
    ensures ShowParts(MergeParts(text, parts), pending, depth, rest) == ShowText(text, parts, pending, depth, rest)
    decreases parts, 1
  {
    if parts == [] {
      if text != "" {
        assert [Lit(text)][1..] == [];
      }
    } else if parts[0].Lit? {
      ShowMerged(text + parts[0].text, parts[1..], pending, depth, rest);
      LiteralsJoin(text, parts[0].text, parts[1..], pending, depth, rest);
      assert [Lit(parts[0].text)] + parts[1..] == parts;
    } else {
      assert (parts decreases to parts[0]);
      var expr := parts[0].expr;
      var merged := MergeParts("", parts[1..]);
      var tail := [Interp(Normalize(expr))] + merged;
      ShowMerged("", parts[1..], false, depth, rest);
      var after := ['}'] + ShowParts(parts[1..], false, depth, rest);
      ShowNormalized(expr, depth, after);
      assert tail[1..] == merged;
      assert forall p :: ShowParts(tail, p, depth, rest) == ShowParts(parts, p, depth, rest);
      assert MergeParts(text, parts) == LitParts(text) + tail;
      if text == "" {
        assert LitParts(text) + tail == tail;
      } else {
        assert ([Lit(text)] + tail)[1..] == tail;
      }
    }
  }

  lemma {:induction false} ShowKeysJoin(keys: seq<string>, more: seq<string>, rest: string)
    ensures ShowKeys(keys + more, rest) == ShowKeys(keys, ShowKeys(more, rest))
  {
    if keys == [] {
      assert keys + more == more;
    } else {
      assert (keys + more)[1..] == keys[1..] + more;
      ShowKeysJoin(keys[1..], more, rest);
    }
  }

  lemma {:induction false} ShowNormalizedItems(items: seq<Expr>, depth: nat, rest: string)
    ensures ShowItems(NormalizeAll(items), depth, rest) == ShowItems(items, depth, rest)
    decreases items, 1
  {
    if items != [] {
      ShowNormalizedItems(items[1..], depth, rest);
      assert NormalizeAll(items)[1..] == NormalizeAll(items[1..]);
      var tail := ['\n'] + ShowItems(items[1..], depth, rest);
      ShowNormalized(items[0], depth, tail);
      ShowNormalized(items[0], depth, [')'] + tail);
    }
  }

  lemma {:induction false} ShowNormalizedEntries(entries: seq<Entry>, depth: nat, rest: string)
    ensures ShowEntries(NormalizeEntries(entries), depth, rest) == ShowEntries(entries, depth, rest)
    decreases entries, 1
  {
    if entries != [] {
      ShowNormalizedEntries(entries[1..], depth, rest);
      assert NormalizeEntries(entries)[1..] == NormalizeEntries(entries[1..]);
      ShowNormalized(entries[0].value, depth, [';'] + (['\n'] + ShowEntries(entries[1..], depth, rest)));
    }
  }

  predicate SameShape(a: Expr, b: Expr) {
    a.Path? == b.Path? && a.Lambda? == b.Lambda? && a.Apply? == b.Apply?
  }

  lemma SameBase(a: Expr, b: Expr, depth: nat, rest: string)
    requires SameShape(a, b)
    requires Show(a, depth, rest) == Show(b, depth, rest)
    requires Show(a, depth, [')'] + rest) == Show(b, depth, [')'] + rest)
    ensures ShowBase(a, depth, rest) == ShowBase(b, depth, rest)
  {}

  lemma ShowSelectFrom(base: Expr, first: string, keys: seq<string>, depth: nat, rest: string)
    ensures Show(SelectFrom(base, first, keys), depth, rest)
         == ShowBase(base, depth, ShowKeys([first] + keys, rest))
  {
    if base.Select? {
      var inner, tail := [base.first] + base.rest, ShowKeys([first] + keys, rest);
      ShowKeysJoin(inner, [first] + keys, rest);
      KeysRegroup(base.first, base.rest, first, keys);
      ShowSelect(base.base, base.first, base.rest + [first] + keys, depth, rest);
      ShowSelect(base.base, base.first, base.rest, depth, tail);
    } else {
      ShowSelect(base, first, keys, depth, rest);
    }
  }

  lemma KeysRegroup(a: string, b: seq<string>, c: string, d: seq<string>)
    ensures [a] + b + ([c] + d) == [a] + (b + [c] + d)
  {}

  lemma ShowSelect(base: Expr, first: string, keys: seq<string>, depth: nat, rest: string)
    ensures Show(Select(base, first, keys), depth, rest) == ShowBase(base, depth, ShowKeys([first] + keys, rest))
    ensures ShowBase(Select(base, first, keys), depth, rest) == Show(Select(base, first, keys), depth, rest)
  {}

  /** Printing an expression and printing its normal form give the same text. */
  lemma {:induction false} ShowNormalized(e: Expr, depth: nat, rest: string)
    ensures Show(Normalize(e), depth, rest) == Show(e, depth, rest)
    decreases e, 0
  {
    match e
    case Str(parts) => ShowMerged("", parts, false, depth, rest);
    case List(items) => ShowNormalizedItems(items, depth + 1, Indented(depth, [']'] + rest));
    case Attrs(entries) => ShowNormalizedEntries(entries, depth + 1, Indented(depth, ['}'] + rest));
    case Select(base, first, keys) =>
      var tail := ShowKeys([first] + keys, rest);
      ShowNormalized(base, depth, tail);
      ShowNormalized(base, depth, [')'] + tail);
      SameBase(Normalize(base), base, depth, tail);
      ShowSelectFrom(Normalize(base), first, keys, depth, rest);
    case Apply(callee, argument) =>
      ShowNormalized(argument, depth, rest);
      ShowNormalized(argument, depth, [')'] + rest);
      var tail := [' '] + ShowOperand(argument, depth, rest);
      ShowNormalized(callee, depth, tail);
      ShowNormalized(callee, depth, [')'] + tail);
    case Lambda(formals, ellipsis, body) => ShowNormalized(body, depth, rest);
    case _ =>
  }

  // ---------------------------------------------------------------------------
  // Variables that read as booleans

  function BooleanParts(parts: seq<StrPart>): (r: seq<StrPart>)
    ensures |r| == |parts|
    ensures forall i :: 0 <= i < |parts| ==>
      r[i] == if parts[i].Lit? then parts[i] else (assert (parts decreases to parts[i]); Interp(Booleans(parts[i].expr)))
    decreases parts, 1
  {
    if parts == [] then []
    else if parts[0].Lit? then [parts[0]] + BooleanParts(parts[1..])
    else
      assert (parts decreases to parts[0]);
      [Interp(Booleans(parts[0].expr))] + BooleanParts(parts[1..])
  }

  function BooleanItems(items: seq<Expr>): (r: seq<Expr>)
    ensures |r| == |items|
    ensures forall i :: 0 <= i < |items| ==> r[i] == Booleans(items[i])
    decreases items, 1
  {
    if items == [] then [] else [Booleans(items[0])] + BooleanItems(items[1..])
  }

  function BooleanEntries(entries: seq<Entry>): (r: seq<Entry>)
    ensures |r| == |entries|
    ensures forall i :: 0 <= i < |entries| ==> r[i] == Entry(entries[i].key, Booleans(entries[i].value))
    decreases entries, 1
  {
    if entries == [] then []
    else [Entry(entries[0].key, Booleans(entries[0].value))] + BooleanEntries(entries[1..])
  }

  /** `e` with the booleans that its variables named `true` and `false` read as. */
  function Booleans(e: Expr): Expr
    decreases e, 0
  {
    match e
    case Var(name) => if IsBooleanName(name) then Bool(name == "true") else e
    case Str(parts) => Str(BooleanParts(parts))
    case List(items) => List(BooleanItems(items))
    case Attrs(entries) => Attrs(BooleanEntries(entries))
    case Select(base, first, rest) => Select(Booleans(base), first, rest)
    case Apply(callee, argument) => Apply(Booleans(callee), Booleans(argument))
    case Lambda(formals, ellipsis, body) => Lambda(formals, ellipsis, Booleans(body))
    case _ => e
  }

  lemma {:induction false} BooleansArePrintable(e: Expr)
    requires Valid(e)
    ensures Printable(Booleans(e))
    decreases e
  {
    match e
    case Str(parts) =>
      forall i | 0 <= i < |parts|
        ensures PrintablePart(BooleanParts(parts)[i])
      {
        assert ValidPart(parts[i]);
        if parts[i].Interp? {
          assert (parts decreases to parts[i]);
          BooleansArePrintable(parts[i].expr);
        }
      }
    case List(items) =>
      forall i | 0 <= i < |items| ensures Printable(BooleanItems(items)[i]) {
        BooleansArePrintable(items[i]);
      }
    case Attrs(entries) =>
      forall i | 0 <= i < |entries| ensures PrintableEntry(BooleanEntries(entries)[i]) {
        BooleansArePrintable(entries[i].value);
      }
    case Select(base, _, _) => BooleansArePrintable(base);
    case Apply(callee, argument) =>
      BooleansArePrintable(callee);
      BooleansArePrintable(argument);
    case Lambda(_, _, body) => BooleansArePrintable(body);
    case _ =>
  }

  lemma {:induction false} ShowBooleanParts(parts: seq<StrPart>, pending: bool, depth: nat, rest: string)
    ensures ShowParts(BooleanParts(parts), pending, depth, rest) == ShowParts(parts, pending, depth, rest)
    decreases parts, 1
  {
    if parts != [] {
      assert BooleanParts(parts)[1..] == BooleanParts(parts[1..]);
      if parts[0].Lit? {
        var text := parts[0].text;
        ShowBooleanParts(parts[1..], if text == "" then pending else EndsWithDollar(text), depth, rest);
      } else {
        assert (parts decreases to parts[0]);
        ShowBooleanParts(parts[1..], false, depth, rest);
        ShowBooleans(parts[0].expr, depth, ['}'] + ShowParts(parts[1..], false, depth, rest));
      }
    }
  }

  lemma {:induction false} ShowBooleanItems(items: seq<Expr>, depth: nat, rest: string)
    ensures ShowItems(BooleanItems(items), depth, rest) == ShowItems(items, depth, rest)
    decreases items, 1
  {
    if items != [] {
      ShowBooleanItems(items[1..], depth, rest);
      assert BooleanItems(items)[1..] == BooleanItems(items[1..]);
      var tail := ['\n'] + ShowItems(items[1..], depth, rest);
      ShowBooleans(items[0], depth, tail);
      ShowBooleans(items[0], depth, [')'] + tail);
    }
  }

  lemma {:induction false} ShowBooleanEntries(entries: seq<Entry>, depth: nat, rest: string)
    ensures ShowEntries(BooleanEntries(entries), depth, rest) == ShowEntries(entries, depth, rest)
    decreases entries, 1
  {
    if entries != [] {
      ShowBooleanEntries(entries[1..], depth, rest);
      assert BooleanEntries(entries)[1..] == BooleanEntries(entries[1..]);
      ShowBooleans(entries[0].value, depth, [';'] + (['\n'] + ShowEntries(entries[1..], depth, rest)));
    }
  }

  /** The text does not tell such a variable from the boolean. */
  lemma {:induction false} ShowBooleans(e: Expr, depth: nat, rest: string)
    ensures Show(Booleans(e), depth, rest) == Show(e, depth, rest)
    decreases e, 0
  {
    match e
    case Str(parts) => ShowBooleanParts(parts, false, depth, rest);
    case List(items) => ShowBooleanItems(items, depth + 1, Indented(depth, [']'] + rest));
    case Attrs(entries) => ShowBooleanEntries(entries, depth + 1, Indented(depth, ['}'] + rest));
    case Select(base, first, keys) =>
      var tail := ShowKeys([first] + keys, rest);
      ShowBooleans(base, depth, tail);
      ShowBooleans(base, depth, [')'] + tail);
      SameBase(Booleans(base), base, depth, tail);
    case Apply(callee, argument) =>
      ShowBooleans(argument, depth, rest);
      ShowBooleans(argument, depth, [')'] + rest);
      var tail := [' '] + ShowOperand(argument, depth, rest);
      ShowBooleans(callee, depth, tail);
      ShowBooleans(callee, depth, [')'] + tail);
    case Lambda(formals, ellipsis, body) => ShowBooleans(body, depth, rest);
    case _ =>
  }

  ghost predicate NoBooleanPart(p: StrPart) { p.Interp? ==> NoBooleanName(p.expr) }

  lemma {:induction false} MergeKeepsNames(text: string, parts: seq<StrPart>)
    ensures (forall p | p in MergeParts(text, parts) :: NoBooleanPart(p)) <==> (forall p | p in parts :: NoBooleanPart(p))
    decreases parts, 1
  {
    if parts == [] {
    } else {
      assert parts == [parts[0]] + parts[1..];
      if parts[0].Lit? {
        MergeKeepsNames(text + parts[0].text, parts[1..]);
      } else {
        assert (parts decreases to parts[0]);
        NormalizeKeepsNames(parts[0].expr);
        MergeKeepsNames("", parts[1..]);
        var n := Interp(Normalize(parts[0].expr));
        var merged := MergeParts("", parts[1..]);
        assert MergeParts(text, parts) == LitParts(text) + [n] + merged;
        assert n in MergeParts(text, parts);
        assert NoBooleanPart(n) <==> NoBooleanPart(parts[0]);
        assert forall p :: p in MergeParts(text, parts) <==> p in LitParts(text) || p == n || p in merged;
      }
    }
  }

  lemma {:induction false} NormalizeKeepsNames(e: Expr)
    ensures NoBooleanName(Normalize(e)) <==> NoBooleanName(e)
    decreases e, 0
  {
    match e
    case Str(parts) =>
      MergeKeepsNames("", parts);
      assert NoBooleanName(e) <==> forall p | p in parts :: NoBooleanPart(p);
      var merged := MergeParts("", parts);
      assert NoBooleanName(Str(merged)) <==> forall p | p in merged :: NoBooleanPart(p);
    case List(items) =>
      forall i | 0 <= i < |items|
        ensures NoBooleanName(NormalizeAll(items)[i]) <==> NoBooleanName(items[i])
      {
        NormalizeKeepsNames(items[i]);
      }
      SameNames(NormalizeAll(items), items);
    case Attrs(entries) =>
      forall i | 0 <= i < |entries|
        ensures NoBooleanName(NormalizeEntries(entries)[i].value) <==> NoBooleanName(entries[i].value)
      {
        NormalizeKeepsNames(entries[i].value);
      }
      SameEntryNames(NormalizeEntries(entries), entries);
    case Select(base, _, _) => NormalizeKeepsNames(base);
    case Apply(callee, argument) =>
      NormalizeKeepsNames(callee);
      NormalizeKeepsNames(argument);
    case Lambda(_, _, body) => NormalizeKeepsNames(body);
    case _ =>
  }

  lemma SameNames(a: seq<Expr>, b: seq<Expr>)
    requires |a| == |b| && forall i :: 0 <= i < |a| ==> (NoBooleanName(a[i]) <==> NoBooleanName(b[i]))
    ensures NoBooleanName(List(a)) <==> NoBooleanName(List(b))
  {
    assert NoBooleanName(List(a)) <==> forall i :: 0 <= i < |a| ==> NoBooleanName(a[i]);
    assert NoBooleanName(List(b)) <==> forall i :: 0 <= i < |b| ==> NoBooleanName(b[i]);
  }

  lemma SameEntryNames(a: seq<Entry>, b: seq<Entry>)
    requires |a| == |b|
    requires forall i :: 0 <= i < |a| ==> (NoBooleanName(a[i].value) <==> NoBooleanName(b[i].value))
    ensures NoBooleanName(Attrs(a)) <==> NoBooleanName(Attrs(b))
  {
    assert NoBooleanName(Attrs(a)) <==> forall i :: 0 <= i < |a| ==> NoBooleanName(a[i].value);
    assert NoBooleanName(Attrs(b)) <==> forall i :: 0 <= i < |b| ==> NoBooleanName(b[i].value);
  }

  // ---------------------------------------------------------------------------
  // Main results

  /** `print`: the text of an expression on its own. */
  function Print(e: Expr): string { Show(e, 0, "") }

  /** Whatever was printed reads back, and what is read is already in normal form. */
  lemma PrintedReads(e: Expr)
    requires Valid(e)
    ensures ReadSource(Print(e)) == Ok(Normalize(Booleans(e)), "")
    ensures Normalize(Normalize(Booleans(e))) == Normalize(Booleans(e))
  {
    BooleansArePrintable(e);
    ShowBooleans(e, 0, "");
    ReadShown(Booleans(e), 0, "");
    NormalizeTwice(Booleans(e));
  }

  /** The round trip holds exactly for the expressions without a variable named like a boolean. */
  lemma RoundTrips(e: Expr)
    requires Valid(e)
    ensures ReadSource(Print(e)) == Ok(Normalize(e), "") <==> NoBooleanName(e)
  {
    PrintedReads(e);
    if NoBooleanName(e) {
      ReadShown(e, 0, "");
    }
    BooleansArePrintable(e);
    NormalizeKeepsNames(Booleans(e));
    NormalizeKeepsNames(e);
  }

  /** The smallest expression that does not come back: a variable named `true`. */
  lemma AVariableNamedTrueIsLost()
    ensures Valid(Var("true"))
    ensures ReadSource(Print(Var("true"))) == Ok(Bool(true), "")
    ensures Normalize(Var("true")) == Var("true")
  {
    PrintedReads(Var("true"));
  }

  /** Two expressions have the same text exactly when they have the same normal form. */
  lemma SameTextSameNormalForm(a: Expr, b: Expr)
    requires Printable(a) && Printable(b)
    ensures Print(a) == Print(b) <==> Normalize(a) == Normalize(b)
  {
    RoundTrips(a);
    RoundTrips(b);
    ShowNormalized(a, 0, "");
    ShowNormalized(b, 0, "");
  }
}
