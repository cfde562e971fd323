/**
 The printer of crates/nixgen/src/print.rs: an object that appends to a text at some depth, and
 short-lived ones on top of it for a string, a set of attributes and a list. A closure that the
 source passes in is here a call before and a call after what the closure writes.

 Every method is proved to append what the functions of `Printed` say.
 */
module Writer {
  import opened Wrappers
  import opened Ident
  import opened Ast
  import opened Printed

  const INDENT: string := "  "

  const SPACES: string := "                                "

  lemma AppendAfter(a: string, b: string, c: string, d: string)
    requires b + c == d
    ensures (a + b) + c == a + d
  {}

  lemma AppendThree(a: string, b: string, c: string, d: string, rest: string, whole: string)
    requires b + c + d + rest == whole
    ensures a + b + c + d + rest == a + whole
  {
    assert a + b + c + d + rest == a + (b + c + d + rest);
  }

  lemma EscapedAt(text: string, index: nat, escape: string)
    requires index < |text|
    requires escape == if text[index] == '"' then "\\\""
                       else if text[index] == '\\' then "\\\\"
                       else if text[index] == '\r' then "\\r"
                       else if text[index] == '$' && index + 1 < |text| && text[index + 1] == '{' then "\\$"
                       else ""
    ensures Escaped(text[index..], "")
         == (if escape != "" then escape else [text[index]]) + Escaped(text[index + 1..], "")
  {
    assert text[index..][1..] == text[index + 1..];
  }

  lemma Regroup(a: string, b: string, c: string, d: string)
    ensures a + b + (c + d) == a + b + c + d
  {}

  lemma NothingBetween(out: string, text: string, at: nat, tail: string)
    requires at <= |text|
    ensures out + text[at..at] + tail == out + tail
  {}

  lemma OneMore(out: string, text: string, start: nat, index: nat, tail: string)
    requires start <= index < |text|
    ensures out + text[start..index] + ([text[index]] + tail) == out + text[start..index + 1] + tail
  {
    assert text[start..index + 1] == text[start..index] + [text[index]];
  }

  class Writer {
    var out: string
    var depth: nat

    constructor (out: string)
      ensures this.out == out && depth == 0
    {
      this.out := out;
      depth := 0;
    }

    method Push(text: string)
      modifies this`out
      ensures out == old(out) + text
    {
      out := out + text;
    }

    method Bool(value: bool)
      modifies this`out
      ensures out == old(out) + Show(Expr.Bool(value), depth, "")
    {
      Push(if value then "true" else "false");
    }

    method Var(name: string)
      modifies this`out
      ensures out == old(out) + Show(Expr.Var(name), depth, "")
    {
      Push(name);
      assert name + "" == name;
    }

    method Path(path: string)
      modifies this`out
      ensures out == old(out) + Show(Expr.Path(path), depth, "")
    {
      Push("./");
      Push(path);
      assert "./" + path == ['.'] + (['/'] + (path + ""));
    }

    method Indent()
      modifies this`out
      ensures out == old(out) + Indented(depth, "")
    {
      var width := depth * |INDENT|;
      if width <= |SPACES| {
        IndentedIsSpaces(depth);
        Push(SPACES[..width]);
      } else {
        for i := 0 to depth
          invariant out == old(out) + Indented(i, "")
        {
          Push(INDENT);
          IndentedGrows(i);
        }
      }
    }

    /** Quotes, backslashes, carriage returns and `${` escaped; all else copied in runs. */
    method Escape(text: string)
      modifies this`out
      ensures out == old(out) + Escaped(text, "")
    {
      var start := 0;
      for index := 0 to |text|
        invariant 0 <= start <= index
        invariant out + text[start..index] + Escaped(text[index..], "") == old(out) + Escaped(text, "")
      {
        var escape :=
          if text[index] == '"' then "\\\""
          else if text[index] == '\\' then "\\\\"
          else if text[index] == '\r' then "\\r"
          else if text[index] == '$' && index + 1 < |text| && text[index + 1] == '{' then "\\$"
          else "";
        EscapedAt(text, index, escape);
        ghost var tail := Escaped(text[index + 1..], "");
        if escape != "" {
          Regroup(out, text[start..index], escape, tail);
          Push(text[start..index]);
          Push(escape);
          start := index + 1;
          NothingBetween(out, text, start, tail);
        } else {
          OneMore(out, text, start, index, tail);
        }
      }
      Push(text[start..]);
      assert text[|text|..] == "" && text[start..|text|] == text[start..];
      assert out + "" == out;
    }

    method Key(key: string)
      modifies this`out
      ensures out == old(out) + ShowKey(key, "")
    {
      var bare := IsIdentifierBytes(key);
      if bare {
        Push(key);
        assert key + "" == key;
      } else {
        Push("\"");
        Escape(key);
        Push("\"");
        EscapedAppends(key, "", "\"");
        assert "" + "\"" == ['"'] + "";
        AppendAfter(['"'], Escaped(key, ""), "\"", Escaped(key, ['"'] + ""));
        AppendAfter(old(out), ['"'] + Escaped(key, ""), "\"", ShowKey(key, ""));
      }
    }

    method Keys(keys: seq<string>)
      modifies this`out
      ensures out == old(out) + ShowKeys(keys, "")
    {
      for i := 0 to |keys|
        invariant out + ShowKeys(keys[i..], "") == old(out) + ShowKeys(keys, "")
      {
        assert keys[i..][1..] == keys[i + 1..];
        ghost var before, tail := out, ShowKeys(keys[i + 1..], "");
        Push(".");
        Key(keys[i]);
        KeyAppends(keys[i], "", tail);
        assert "" + tail == tail;
        AppendAfter(before + ".", ShowKey(keys[i], ""), tail, ShowKey(keys[i], tail));
        AppendAfter(before, ".", ShowKey(keys[i], tail), ShowKeys(keys[i..], ""));
      }
      assert keys[|keys|..] == [];
      assert out + "" == out;
    }

    /** `lambda` up to its body; the source asserts that the formals increase. */
    method LambdaHead(formals: seq<string>, ellipsis: bool)
      requires Increasing(formals)
      modifies this`out
      ensures out == old(out) + (['{'] + ShowFormals(formals, false, ellipsis, ""))
    {
      Push("{");
      var previous: Option<string> := None;
      ghost var head := out;
      for i := 0 to |formals|
        invariant previous == if i == 0 then None else Some(formals[i - 1])
        invariant out + ShowFormals(formals[i..], i > 0, ellipsis, "") == head + ShowFormals(formals, false, ellipsis, "")
      {
        assert previous.Some? ==> Less(previous.value, formals[i]);
        assert formals[i..][1..] == formals[i + 1..];
        ghost var before, tail := out, ShowFormals(formals[i + 1..], true, ellipsis, "");
        Push(if previous.None? then " " else ", ");
        Push(formals[i]);
        SeparatorAppends(i > 0, formals[i], tail);
        assert (if i > 0 then ", " else " ") + formals[i] == Separator(i > 0, formals[i]);
        assert out == before + Separator(i > 0, formals[i]);
        AppendAfter(before, Separator(i > 0, formals[i]), tail, Separator(i > 0, formals[i] + tail));
        previous := Some(formals[i]);
      }
      assert formals[|formals|..] == [];
      LambdaClose(formals != [], ellipsis);
      assert head + ShowFormals(formals, false, ellipsis, "")
          == old(out) + (['{'] + ShowFormals(formals, false, ellipsis, ""));
    }

    method LambdaClose(started: bool, ellipsis: bool)
      modifies this`out
      ensures out == old(out) + ShowFormals([], started, ellipsis, "")
    {
      if ellipsis {
        Push(if !started then " ..." else ", ...");
      }
      Push(if !started && !ellipsis then "}: " else " }: ");
      FormalsClose(started, ellipsis);
    }
  }

  lemma FormalsClose(started: bool, ellipsis: bool)
    ensures ShowFormals([], started, ellipsis, "")
         == (if !ellipsis then "" else if started then ", ..." else " ...") + (if !started && !ellipsis then "}: " else " }: ")
  {
    var close := ['}'] + ([':'] + ([' '] + ""));
    assert close == "}: " && [' '] + close == " }: ";
    assert Separator(started, ['.'] + (['.'] + (['.'] + ([' '] + close))))
        == (if started then ", ..." else " ...") + " }: ";
  }

  lemma IndentedIsSpaces(depth: nat)
    requires depth * 2 <= |SPACES|
    ensures Indented(depth, "") == SPACES[..depth * 2]
  {
    IndentedIsBlank(depth);
  }

  lemma {:induction false} IndentedIsBlank(depth: nat)
    ensures |Indented(depth, "")| == depth * 2
    ensures forall i :: 0 <= i < depth * 2 ==> Indented(depth, "")[i] == ' '
  {
    if depth > 0 {
      IndentedIsBlank(depth - 1);
    }
  }

  lemma {:induction false} IndentedGrows(depth: nat)
    ensures Indented(depth, "") + INDENT == Indented(depth + 1, "")
  {
    if depth > 0 {
      IndentedGrows(depth - 1);
      assert ([' '] + ([' '] + Indented(depth - 1, ""))) + INDENT
          == [' '] + ([' '] + (Indented(depth - 1, "") + INDENT));
    }
  }

  lemma {:induction false} VerbatimIsEscaped(text: string, rest: string)
    requires IsVerbatim(text)
    ensures Escaped(text, rest) == text + rest
  {
    if text != "" {
      assert StandsForItself(text[0]);
      VerbatimIsEscaped(text[1..], rest);
      assert [text[0]] + (text[1..] + rest) == text + rest;
    } else {
      assert text + rest == rest;
    }
  }

  lemma VerbatimIsLit(text: string, pending: bool)
    requires IsVerbatim(text) && text != ""
    ensures !EndsWithDollar(text)
    ensures Dollar(pending, text[0] == '{', Escaped(Body(text), ""))
         == (if !pending then "" else if text[0] == '{' then "\\$" else "$") + text
  {
    assert StandsForItself(text[|text| - 1]);
    VerbatimIsEscaped(text, "");
    assert text + "" == text && "" + text == text;
    assert "\\$" + text == ['\\'] + (['$'] + text);
  }

  /** One string: its opening quote is written when it is made, its closing one by `End`. */
  class StrWriter {
    const w: Writer
    var pendingDollar: bool

    constructor (w: Writer)
      modifies w`out
      ensures this.w == w && !pendingDollar
      ensures w.out == old(w.out) + "\""
    {
      this.w := w;
      pendingDollar := false;
      new;
      w.Push("\"");
    }

    method Lit(text: string)
      modifies this, w`out
      ensures w.out == old(w.out) +
        if text == "" then "" else Dollar(old(pendingDollar), text[0] == '{', Escaped(Body(text), ""))
      ensures pendingDollar == if text == "" then old(pendingDollar) else EndsWithDollar(text)
    {
      if text == "" {
        return;
      }
      ghost var escaped := Escaped(Body(text), "");
      if pendingDollar {
        w.Push(if text[0] == '{' then "\\$" else "$");
        assert "\\$" + escaped == ['\\'] + (['$'] + escaped);
        pendingDollar := false;
      }
      ghost var before := w.out;
      if text[|text| - 1] == '$' {
        pendingDollar := true;
        w.Escape(text[..|text| - 1]);
      } else {
        w.Escape(text);
      }
      assert w.out == before + escaped;
    }

    /** Like `Lit`, without looking for what to escape: there is nothing. */
    method Verbatim(text: string)
      requires IsVerbatim(text)
      modifies this, w`out
      ensures w.out == old(w.out) +
        if text == "" then "" else Dollar(old(pendingDollar), text[0] == '{', Escaped(Body(text), ""))
      ensures pendingDollar == if text == "" then old(pendingDollar) else EndsWithDollar(text)
    {
      if text == "" {
        return;
      }
      VerbatimIsLit(text, pendingDollar);
      if pendingDollar {
        w.Push(if text[0] == '{' then "\\$" else "$");
        pendingDollar := false;
      }
      w.Push(text);
    }

    method InterpStart()
      modifies this, w`out
      ensures w.out == old(w.out) + Dollar(old(pendingDollar), true, ['$'] + (['{'] + ""))
      ensures !pendingDollar
    {
      if pendingDollar {
        w.Push("\\$");
        pendingDollar := false;
      }
      w.Push("${");
      assert "${" == ['$'] + (['{'] + "");
      assert "\\$" + "${" == ['\\'] + (['$'] + "${");
    }

    method InterpEnd()
      modifies w`out
      ensures w.out == old(w.out) + "}"
    {
      w.Push("}");
    }

    method End()
      modifies w`out
      ensures w.out == old(w.out) + Dollar(pendingDollar, false, ['"'] + "")
    {
      if pendingDollar {
        w.Push("$");
      }
      w.Push("\"");
      assert "$" + "\"" == ['$'] + (['"'] + "");
    }
  }

  /** One set of attributes; the source asserts that every key is above the one before. */
  class AttrsWriter {
    const w: Writer
    var last: Option<string>

    constructor (w: Writer)
      ensures this.w == w && last == None
    {
      this.w := w;
      last := None;
    }

    method EntryStart(key: string)
      requires last.Some? ==> Less(last.value, key)
      modifies this, w
      ensures w.out == old(w.out) + (if old(last) == None then "{\n" else "") +
        Indented(old(w.depth) + 1, ShowKey(key, " = "))
      ensures w.depth == old(w.depth) + 1 && last == Some(key)
    {
      if last == None {
        w.Push("{\n");
      }
      ghost var before := w.out;
      last := Some(key);
      w.depth := w.depth + 1;
      w.Indent();
      w.Key(key);
      w.Push(" = ");
      KeyAppends(key, "", " = ");
      assert "" + " = " == " = ";
      IndentedAppends(w.depth, "", ShowKey(key, " = "));
      assert "" + ShowKey(key, " = ") == ShowKey(key, " = ");
      AppendAfter(before + Indented(w.depth, ""), ShowKey(key, ""), " = ", ShowKey(key, " = "));
      AppendAfter(before, Indented(w.depth, ""), ShowKey(key, " = "), Indented(w.depth, ShowKey(key, " = ")));
      assert old(w.out) + "" == old(w.out);
    }

    method EntryEnd()
      requires w.depth > 0
      modifies w
      ensures w.out == old(w.out) + ";\n" && w.depth == old(w.depth) - 1
    {
      w.Push(";\n");
      w.depth := w.depth - 1;
    }

    method End()
      modifies w`out
      ensures w.out == old(w.out) + if last.Some? then Indented(w.depth, "}") else "{ }"
    {
      if last.Some? {
        w.Indent();
        w.Push("}");
        IndentedAppends(w.depth, "", "}");
        assert "" + "}" == "}";
        AppendAfter(old(w.out), Indented(w.depth, ""), "}", Indented(w.depth, "}"));
      } else {
        w.Push("{ }");
      }
    }
  }

  class ListWriter {
    const w: Writer
    var begun: bool

    constructor (w: Writer)
      ensures this.w == w && !begun
    {
      this.w := w;
      begun := false;
    }

    method ItemStart()
      modifies this, w
      ensures w.out == old(w.out) + (if old(begun) then "" else "[\n") + Indented(old(w.depth) + 1, "")
      ensures w.depth == old(w.depth) + 1 && begun
    {
      if !begun {
        w.Push("[\n");
        begun := true;
      }
      assert old(w.out) + "" == old(w.out);
      w.depth := w.depth + 1;
      w.Indent();
    }

    method ItemEnd()
      requires w.depth > 0
      modifies w
      ensures w.out == old(w.out) + "\n" && w.depth == old(w.depth) - 1
    {
      w.Push("\n");
      w.depth := w.depth - 1;
    }

    method End()
      modifies w`out
      ensures w.out == old(w.out) + if begun then Indented(w.depth, "]") else "[ ]"
    {
      if begun {
        w.Indent();
        w.Push("]");
        IndentedAppends(w.depth, "", "]");
        assert "" + "]" == "]";
        AppendAfter(old(w.out), Indented(w.depth, ""), "]", Indented(w.depth, "]"));
      } else {
        w.Push("[ ]");
      }
    }
  }
}
