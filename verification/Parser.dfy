/**
 The hand-written reader of crates/nixgen/src/parse.rs: an object that moves a position along the
 source text. Every method is proved to do to that position, and to return, what the function of
 `Reader` says about the text left.

 Positions count characters where the source counts bytes.
 */
module Parser {
  import opened Wrappers
  import opened Ident
  import opened Ast
  import opened Reader
  import opened AttrSet

  datatype ParseError = ParseError(offset: nat, message: string)

  method SkipSpaceFrom(source: string, start: nat) returns (p: nat)
    requires start <= |source|
    ensures start <= p <= |source|
    ensures source[p..] == SkipSpace(source[start..])
  {
    p := start;
    while p < |source| && IsSpace(source[p])
      invariant start <= p <= |source|
      invariant SkipSpace(source[p..]) == SkipSpace(source[start..])
    {
      assert source[p..][1..] == source[p + 1..];
      p := p + 1;
    }
  }

  method IdentifierEnd(source: string, start: nat) returns (p: nat)
    requires start <= |source|
    ensures p == start + IdentifierLength(source[start..])
  {
    if start >= |source| || !StartsIdentifier(source[start]) {
      return start;
    }
    p := start + 1;
    assert source[start..][1..] == source[start + 1..];
    while p < |source| && ContinuesIdentifier(source[p])
      invariant start + 1 <= p <= |source|
      invariant p - start + TailLength(source[p..]) == IdentifierLength(source[start..])
    {
      assert source[p..][1..] == source[p + 1..];
      p := p + 1;
    }
  }

  /** `normalize_parts`: drops empty literals and joins each literal to one just before it. */
  method NormalizeParts(parts: seq<StrPart>) returns (out: seq<StrPart>)
    ensures out == MergeParts("", parts)
  {
    out := [];
    for i := 0 to |parts|
      invariant |out| > 0 ==> out[|out| - 1] != Lit("")
      invariant MergeParts("", parts) == Reopened(out, parts[i..])
    {
      assert [parts[i]] + parts[i + 1..] == parts[i..];
      out := AddPart(out, parts[i], parts[i + 1..]);
    }
    assert parts[|parts|..] == [];
    NothingReopens(out);
  }

  method AddPart(before: seq<StrPart>, part: StrPart, ghost rest: seq<StrPart>) returns (out: seq<StrPart>)
    requires |before| > 0 ==> before[|before| - 1] != Lit("")
    ensures |out| > 0 ==> out[|out| - 1] != Lit("")
    ensures Reopened(before, [part] + rest) == Reopened(out, rest)
  {
    match part
    case Lit(text) =>
      LitReopens(before, text, rest);
      if text == "" {
        return before;
      }
      if |before| > 0 && before[|before| - 1].Lit? {
        return before[|before| - 1 := Lit(before[|before| - 1].text + text)];
      }
      return before + [Lit(text)];
    case Interp(expr) =>
      InterpCloses(before, expr, rest);
      return before + [Interp(Normalize(expr))];
  }

  /** The parts that `rest` becomes behind `out`, whose last literal may still grow. */
  ghost function Reopened(out: seq<StrPart>, rest: seq<StrPart>): seq<StrPart> {
    if |out| > 0 && out[|out| - 1].Lit? then out[..|out| - 1] + MergeParts(out[|out| - 1].text, rest)
    else out + MergeParts("", rest)
  }

  lemma LitReopens(out: seq<StrPart>, text: string, rest: seq<StrPart>)
    ensures Reopened(out, [Lit(text)] + rest)
         == if text == "" then Reopened(out, rest)
            else if |out| > 0 && out[|out| - 1].Lit? then Reopened(out[|out| - 1 := Lit(out[|out| - 1].text + text)], rest)
            else Reopened(out + [Lit(text)], rest)
  {
    assert ([Lit(text)] + rest)[1..] == rest;
    if |out| > 0 && out[|out| - 1].Lit? {
      var n := |out| - 1;
      var longer := out[n := Lit(out[n].text + text)];
      assert longer[..n] == out[..n];
      assert text == "" ==> out[n].text + text == out[n].text;
    } else {
      assert "" + text == text;
      assert (out + [Lit(text)])[..|out|] == out;
    }
  }

  lemma Regroup(out: seq<StrPart>, front: seq<StrPart>, last: seq<StrPart>, closed: seq<StrPart>, after: seq<StrPart>)
    requires out == front + last
    ensures front + (last + closed + after) == out + closed + after
  {}

  lemma InterpCloses(out: seq<StrPart>, expr: Expr, rest: seq<StrPart>)
    requires |out| > 0 ==> out[|out| - 1] != Lit("")
    ensures Reopened(out, [Interp(expr)] + rest) == Reopened(out + [Interp(Normalize(expr))], rest)
  {
    var closed, after := [Interp(Normalize(expr))], MergeParts("", rest);
    assert Reopened(out + closed, rest) == out + closed + after;
    if |out| > 0 && out[|out| - 1].Lit? {
      var n := |out| - 1;
      MergeInterp(out[n].text, expr, rest);
      Regroup(out, out[..n], [out[n]], closed, after);
    } else {
      MergeInterp("", expr, rest);
      Regroup(out, out, [], closed, after);
    }
  }

  lemma NothingReopens(out: seq<StrPart>)
    requires |out| > 0 ==> out[|out| - 1] != Lit("")
    ensures Reopened(out, []) == out
  {
    if |out| > 0 && out[|out| - 1].Lit? {
      assert out[..|out| - 1] + [out[|out| - 1]] == out;
    }
  }

  method AddEntry(attrs: AttrSet, entry: Entry) returns (known: bool)
    requires attrs.Valid()
    modifies attrs
    ensures attrs.Valid() && attrs.entries == InsertEntry(old(attrs.entries), entry)
    ensures known == HasKey(old(attrs.entries), entry.key)
  {
    LookupMisses(attrs.entries, entry.key);
    var previous := attrs.Insert(entry.key, entry.value);
    return previous.Some?;
  }

  lemma EntriesStep(t: string, entries: seq<Entry>)
    requires !At(SkipTrivia(t), '}')
    ensures var r := ReadEntry(SkipTrivia(t));
      ReadEntries(t, entries)
      == if r.Fail? then Fail(r.left, r.message)
         else if HasKey(entries, r.value.key) then Fail(|r.rest|, "attribute already defined")
         else ReadEntries(r.rest, InsertEntry(entries, r.value))
  {}

  class Parser {
    const source: string
    var pos: nat

    ghost predicate Valid()
      reads this
    {
      pos <= |source|
    }

    /** The text from the position on. */
    ghost function Rest(): string
      requires Valid()
      reads this
    {
      source[pos..]
    }

    /** A result and a position that are what the reading says. */
    ghost predicate Agrees<T>(r: Result<T, ParseError>, reading: Reading<T>)
      reads this
    {
      Valid() &&
      match reading
      case Ok(value, rest) => r == Success(value) && Rest() == rest
      case Fail(left, message) =>
        left <= |source| && pos == |source| - left && r == Failure(ParseError(|source| - left, message))
    }

    constructor (source: string)
      ensures this.source == source && pos == 0
      ensures Valid() && Rest() == source
    {
      this.source := source;
      pos := 0;
    }

    function Error(message: string): ParseError
      reads this
    {
      ParseError(pos, message)
    }

    function Peek(): Option<char>
      requires Valid()
      reads this
    {
      PeekAt(0)
    }

    function PeekAt(offset: nat): (c: Option<char>)
      requires Valid()
      reads this
      ensures c == if offset < |Rest()| then Some(Rest()[offset]) else None
    {
      if pos + offset < |source| then Some(source[pos + offset]) else None
    }

    /** One or more characters further on. */
    method Advance(count: nat)
      requires Valid() && count <= |Rest()|
      modifies this`pos
      ensures Valid() && Rest() == old(Rest())[count..] && pos == old(pos) + count
    {
      pos := pos + count;
    }

    method SkipBlanks()
      requires Valid()
      modifies this`pos
      ensures Valid() && Rest() == SkipTrivia(old(Rest()))
    {
      while pos < |source|
        invariant Valid()
        invariant SkipTrivia(Rest()) == SkipTrivia(old(Rest()))
      {
        ghost var before := Rest();
        if IsSpace(source[pos]) {
          Advance(1);
        } else if source[pos] == '#' {
          Advance(1);
          ghost var comment := Rest();
          while pos < |source| && source[pos] != '\n' && source[pos] != '\r'
            invariant Valid() && pos > |source| - |before|
            invariant SkipComment(Rest()) == SkipComment(comment)
          {
            Advance(1);
          }
          assert Rest() == SkipComment(comment);
        } else {
          break;
        }
      }
    }

    method ExpectToken(token: char) returns (r: Result<(), ParseError>)
      requires Valid()
      modifies this`pos
      ensures Agrees(r, Expect(old(Rest()), token))
    {
      SkipBlanks();
      if Peek() == Some(token) {
        Advance(1);
        return Success(());
      }
      return Failure(Error("unexpected token"));
    }

    method LooksLikeLambda() returns (lambda: bool)
      requires Valid()
      ensures lambda == AtLambda(Rest())
    {
      if Peek() != Some('{') {
        return false;
      }
      assert Rest()[1..] == source[pos + 1..];
      var p := SkipSpaceFrom(source, pos + 1);
      if p < |source| && source[p] == '}' {
        lambda := OneOfFollows(p + 1, [':']);
        assert source[p..][1..] == source[p + 1..];
      } else if p + 3 <= |source| && source[p] == '.' && source[p + 1] == '.' && source[p + 2] == '.' {
        lambda := true;
      } else {
        lambda := NameContinuesFormals(p);
      }
    }

    method NameContinuesFormals(p: nat) returns (continues: bool)
      requires p <= |source|
      ensures var t := source[p..];
        var n := IdentifierLength(t);
        continues == (n > 0 && (At(SkipSpace(t[n..]), ',') || At(SkipSpace(t[n..]), '}')))
    {
      var end := IdentifierEnd(source, p);
      assert source[p..][end - p..] == source[end..];
      if end == p {
        return false;
      }
      continues := OneOfFollows(end, [',', '}']);
    }

    /** One of `tokens` stands behind the blanks from `start` on. */
    method OneOfFollows(start: nat, tokens: seq<char>) returns (follows: bool)
      requires start <= |source|
      ensures var after := SkipSpace(source[start..]); follows == (after != "" && after[0] in tokens)
    {
      var p := SkipSpaceFrom(source, start);
      return p < |source| && source[p] in tokens;
    }

    predicate LooksLikeOperand()
      requires Valid()
      reads this
      ensures LooksLikeOperand() == AtOperand(Rest())
    {
      match Peek()
      case Some(c) =>
        c in ['"', '[', '{', '('] || (c == '.' && PeekAt(1) == Some('/')) || StartsIdentifier(c)
      case None => false
    }

    method Name() returns (r: Result<string, ParseError>)
      requires Valid()
      modifies this`pos
      ensures Agrees(r, Identifier(old(Rest())))
    {
      SkipBlanks();
      var start := pos;
      var end := IdentifierEnd(source, start);
      if end == start {
        return Failure(Error("expected an identifier"));
      }
      ghost var n := IdentifierLength(Rest());
      assert source[start..end] == Rest()[..n];
      Advance(end - start);
      return Success(source[start..end]);
    }

    method Expression() returns (r: Result<Expr, ParseError>)
      requires Valid()
      modifies this`pos
      ensures Agrees(r, ReadExpr(old(Rest())))
      decreases |source| - pos, 9
    {
      SkipBlanks();
      var lambda := LooksLikeLambda();
      if lambda {
        r := LambdaExpression();
      } else {
        r := Application();
      }
    }

    method LambdaExpression() returns (r: Result<Expr, ParseError>)
      requires Valid()
      modifies this`pos
      ensures Agrees(r, ReadLambda(old(Rest())))
      decreases |source| - pos, 8
    {
      var _ :- ExpectToken('{');
      var head :- Formals();
      r := LambdaBody(head.0, head.1);
    }

    method LambdaBody(formals: seq<string>, ellipsis: bool) returns (r: Result<Expr, ParseError>)
      requires Valid()
      modifies this`pos
      ensures Agrees(r, ReadLambdaBody(old(Rest()), formals, ellipsis))
      decreases |source| - pos, 10
    {
      var _ :- ExpectToken(':');
      ghost var after := Rest();
      var body :- Expression();
      assert ReadExpr(after) == Ok(body, Rest());
      return Success(Lambda(formals, ellipsis, body));
    }

    method Formals() returns (r: Result<(seq<string>, bool), ParseError>)
      requires Valid()
      modifies this`pos
      ensures Agrees(r, ReadFormals(old(Rest()), []))
    {
      var formals := [];
      while true
        invariant Valid() && |Rest()| <= |old(Rest())|
        invariant ReadFormals(old(Rest()), []) == ReadFormals(Rest(), formals)
        decreases |source| - pos
      {
        SkipBlanks();
        ghost var u := Rest();
        if Peek() == Some('}') {
          Advance(1);
          return Success((formals, false));
        }
        if LooksLikeDots() {
          Advance(3);
          r := FormalsEnd(formals);
          return;
        }
        assert !At(u, '}') && !AtDots(u);
        formals :- Formal(formals);
      }
    }

    predicate LooksLikeSelection()
      requires Valid()
      reads this
      ensures LooksLikeSelection() == AtSelection(Rest())
    {
      Peek() == Some('.') && PeekAt(1) != Some('.') && PeekAt(1) != Some('/')
    }

    predicate LooksLikeDots()
      requires Valid()
      reads this
      ensures LooksLikeDots() == AtDots(Rest())
    {
      pos + 3 <= |source| && source[pos] == '.' && source[pos + 1] == '.' && source[pos + 2] == '.'
    }

    method FormalsEnd(formals: seq<string>) returns (r: Result<(seq<string>, bool), ParseError>)
      requires Valid()
      modifies this`pos
      ensures Agrees(r, match Expect(old(Rest()), '}')
                        case Fail(left, message) => Fail(left, message)
                        case Ok(_, v) => Ok((formals, true), v))
    {
      var _ :- ExpectToken('}');
      return Success((formals, true));
    }

    method Formal(formals: seq<string>) returns (r: Result<seq<string>, ParseError>)
      requires Valid()
      modifies this`pos
      ensures Agrees(r, ReadFormal(old(Rest()), formals))
    {
      var name :- Name();
      var valid := IsIdentifierBytes(name);
      if !valid {
        return Failure(Error("a keyword as a formal"));
      }
      if name in formals {
        return Failure(Error("duplicate formal function argument"));
      }
      SkipBlanks();
      if Peek() == Some(',') {
        Advance(1);
      }
      return Success(InsertName(formals, name));
    }

    method Application() returns (r: Result<Expr, ParseError>)
      requires Valid()
      modifies this`pos
      ensures Agrees(r, ReadApplication(old(Rest())))
      decreases |source| - pos, 8
    {
      var callee :- Selection();
      while true
        invariant Valid() && |Rest()| < |old(Rest())|
        invariant ReadApplication(old(Rest())) == ReadArguments(Rest(), callee)
        decreases |source| - pos
      {
        SkipBlanks();
        if !LooksLikeOperand() {
          return Success(callee);
        }
        var argument :- Selection();
        callee := Apply(callee, argument);
      }
    }

    method Selection() returns (r: Result<Expr, ParseError>)
      requires Valid()
      modifies this`pos
      ensures Agrees(r, ReadSelection(old(Rest())))
      decreases |source| - pos, 7
    {
      var base :- Simple();
      var keys :- Keys();
      if keys == [] {
        return Success(base);
      }
      return Success(Select(base, keys[0], keys[1..]));
    }

    method Keys() returns (r: Result<seq<string>, ParseError>)
      requires Valid()
      modifies this`pos
      ensures Agrees(r, ReadKeys(old(Rest()), []))
      decreases |source| - pos, 6
    {
      var keys := [];
      while true
        invariant Valid() && |Rest()| <= |old(Rest())|
        invariant ReadKeys(old(Rest()), []) == ReadKeys(Rest(), keys)
        decreases |source| - pos
      {
        SkipBlanks();
        if LooksLikeSelection() {
          Advance(1);
          var key :- KeyName();
          keys := keys + [key];
        } else {
          return Success(keys);
        }
      }
    }

    method Simple() returns (r: Result<Expr, ParseError>)
      requires Valid()
      modifies this`pos
      ensures Agrees(r, ReadSimple(old(Rest())))
      decreases |source| - pos, 6
    {
      SkipBlanks();
      r := Bare();
    }

    method Bare() returns (r: Result<Expr, ParseError>)
      requires Valid()
      modifies this`pos
      ensures Agrees(r, ReadBare(old(Rest())))
      decreases |source| - pos, 5
    {
      if Peek() == Some('"') {
        r := StringExpression();
      } else if Peek() == Some('[') {
        Advance(1);
        r := Items();
      } else if Peek() == Some('{') {
        Advance(1);
        r := Entries();
      } else if Peek() == Some('(') {
        Advance(1);
        r := Parenthesized();
      } else if Peek() == Some('.') && PeekAt(1) == Some('/') {
        r := RelativePath();
      } else {
        r := Variable();
      }
    }

    method StringExpression() returns (r: Result<Expr, ParseError>)
      requires Valid()
      modifies this`pos
      ensures Agrees(r, ReadText(old(Rest())))
      decreases |source| - pos, 4
    {
      var parts :- StringLiteral();
      return Success(Str(parts));
    }

    method Parenthesized() returns (r: Result<Expr, ParseError>)
      requires Valid()
      modifies this`pos
      ensures Agrees(r, ReadParenthesized(old(Rest())))
      decreases |source| - pos, 10
    {
      var expr :- Expression();
      var _ :- ExpectToken(')');
      return Success(expr);
    }

    method Variable() returns (r: Result<Expr, ParseError>)
      requires Valid()
      modifies this`pos
      ensures Agrees(r, ReadVariable(old(Rest())))
    {
      var name :- Name();
      if name == "true" {
        return Success(Bool(true));
      }
      if name == "false" {
        return Success(Bool(false));
      }
      var valid := IsIdentifierBytes(name);
      if valid {
        return Success(Var(name));
      }
      return Failure(Error("a keyword where a variable was expected"));
    }

    method RelativePath() returns (r: Result<Expr, ParseError>)
      requires Valid() && At(Rest(), '.') && AtSecond(Rest(), '/')
      modifies this`pos
      ensures Agrees(r, ReadPath(old(Rest())[2..]))
    {
      Advance(2);
      var start := pos;
      ghost var v := Rest();
      while pos < |source| && InPath(source[pos])
        invariant Valid() && start <= pos
        invariant pos - start + PathLength(Rest()) == PathLength(v)
      {
        Advance(1);
      }
      assert source[start..pos] == v[..PathLength(v)] && Rest() == v[PathLength(v)..];
      if IsRelPath(source[start..pos]) {
        return Success(Path(source[start..pos]));
      }
      return Failure(Error("a path mix does not write"));
    }

    method Items() returns (r: Result<Expr, ParseError>)
      requires Valid()
      modifies this`pos
      ensures Agrees(r, ReadItems(old(Rest()), []))
      decreases |source| - pos, 8
    {
      var items := [];
      while true
        invariant Valid() && |Rest()| <= |old(Rest())|
        invariant ReadItems(old(Rest()), []) == ReadItems(Rest(), items)
        decreases |source| - pos
      {
        SkipBlanks();
        if Peek() == Some(']') {
          Advance(1);
          return Success(List(items));
        }
        var item :- Selection();
        items := items + [item];
      }
    }

    method Entries() returns (r: Result<Expr, ParseError>)
      requires Valid()
      modifies this`pos
      ensures Agrees(r, ReadEntries(old(Rest()), []))
      decreases |source| - pos, 8
    {
      var attrs := new AttrSet();
      while true
        invariant fresh(attrs) && attrs.Valid()
        invariant Valid() && |Rest()| <= |old(Rest())|
        invariant ReadEntries(old(Rest()), []) == ReadEntries(Rest(), attrs.entries)
        decreases |source| - pos
      {
        ghost var before := Rest();
        SkipBlanks();
        if Peek() == Some('}') {
          Advance(1);
          return Success(Attrs(attrs.entries));
        }
        EntriesStep(before, attrs.entries);
        var entry :- KeyAndValue();
        var known := AddEntry(attrs, entry);
        if known {
          return Failure(Error("attribute already defined"));
        }
      }
    }

    method KeyAndValue() returns (r: Result<Entry, ParseError>)
      requires Valid()
      modifies this`pos
      ensures Agrees(r, ReadEntry(old(Rest())))
      decreases |source| - pos, 7
    {
      var key :- KeyName();
      r := ValueOf(key);
    }

    method ValueOf(key: string) returns (r: Result<Entry, ParseError>)
      requires Valid()
      modifies this`pos
      ensures Agrees(r, ReadValue(key, old(Rest())))
      decreases |source| - pos, 7
    {
      var _ :- ExpectToken('=');
      ghost var afterEquals := Rest();
      var value :- Expression();
      assert ReadExpr(afterEquals) == Ok(value, Rest());
      var _ :- ExpectToken(';');
      return Success(Entry(key, value));
    }

    method KeyName() returns (r: Result<string, ParseError>)
      requires Valid()
      modifies this`pos
      ensures Agrees(r, ReadKey(old(Rest())))
      decreases |source| - pos, 5
    {
      SkipBlanks();
      if Peek() == Some('"') {
        var read :- StringLiteral();
        var parts := NormalizeParts(read);
        if parts == [] {
          return Success("");
        }
        if |parts| == 1 && parts[0].Lit? {
          if HasNoNul(parts[0].text) {
            return Success(parts[0].text);
          }
          return Failure(Error("a null byte in a key"));
        }
        return Failure(Error("an interpolated key"));
      }
      var name :- Name();
      var valid := IsIdentifierBytes(name);
      if !valid {
        return Failure(Error("a keyword as a key"));
      }
      return Success(name);
    }

    method NextChar() returns (r: Result<char, ParseError>)
      requires Valid()
      modifies this`pos
      ensures Agrees(r, if old(Rest()) == "" then Fail(0, "unterminated escape") else Ok(old(Rest())[0], old(Rest())[1..]))
    {
      if pos == |source| {
        return Failure(Error("unterminated escape"));
      }
      var c := source[pos];
      Advance(1);
      return Success(c);
    }

    /** Closes the literal `text` behind `parts`. */
    method FlushText(parts: seq<StrPart>, text: string) returns (r: Result<seq<StrPart>, ParseError>)
      requires Valid()
      ensures Agrees(r, Flush(parts, text, Rest()))
    {
      if text == "" {
        return Success(parts);
      }
      if HasNoNul(text) {
        return Success(parts + [Lit(text)]);
      }
      return Failure(Error("a null byte in a string"));
    }

    method Interpolation() returns (r: Result<Expr, ParseError>)
      requires Valid()
      modifies this`pos
      ensures Agrees(r, ReadInterpolation(old(Rest())))
      decreases |source| - pos, 10
    {
      var expr :- Expression();
      var _ :- ExpectToken('}');
      return Success(expr);
    }

    /** A dollar of a string and what it changes: an interpolation, or one or two characters. */
    method AfterDollar(parts: seq<StrPart>, text: string) returns (r: Result<(seq<StrPart>, string), ParseError>)
      requires Valid() && At(Rest(), '$')
      modifies this`pos
      ensures Valid() && |Rest()| < |old(Rest())|
      ensures r.Success? ==>
        ReadParts(old(Rest()), text, parts) == ReadParts(Rest(), r.value.1, r.value.0)
      ensures r.Failure? ==>
        Agrees<seq<StrPart>>(Failure(r.error), ReadParts(old(Rest()), text, parts))
      decreases |source| - pos, 3
    {
      if PeekAt(1) == Some('{') {
        Advance(2);
        var flushed :- FlushText(parts, text);
        var expr :- Interpolation();
        return Success((flushed + [Interp(expr)], ""));
      } else if PeekAt(1) == Some('$') {
        Advance(2);
        return Success((parts, text + "$$"));
      } else if PeekAt(1) == Some('\\') {
        Advance(2);
        var escaped :- NextChar();
        return Success((parts, text + ['$'] + [Unescape(escaped)]));
      } else {
        Advance(1);
        return Success((parts, text + ['$']));
      }
    }

    /** A character that stands for itself; a line may end as on Windows. */
    method AfterPlain(ghost parts: seq<StrPart>, text: string) returns (more: string)
      requires Valid() && Rest() != "" && Rest()[0] !in ['"', '\\', '$']
      modifies this`pos
      ensures Valid() && |Rest()| < |old(Rest())|
      ensures ReadParts(old(Rest()), text, parts) == ReadParts(Rest(), more, parts)
    {
      var c := source[pos];
      Advance(1);
      if c == '\r' {
        if Peek() == Some('\n') {
          Advance(1);
        }
        return text + ['\n'];
      }
      return text + [c];
    }

    method StringLiteral() returns (r: Result<seq<StrPart>, ParseError>)
      requires Valid()
      modifies this`pos
      ensures Agrees(r, ReadString(old(Rest())))
      decreases |source| - pos, 3
    {
      var _ :- ExpectToken('"');
      var parts: seq<StrPart>, text := [], "";
      while true
        invariant Valid() && |Rest()| < |old(Rest())|
        invariant ReadString(old(Rest())) == ReadParts(Rest(), text, parts)
        decreases |source| - pos
      {
        if pos == |source| {
          return Failure(Error("unterminated string"));
        }
        var c := source[pos];
        if c == '"' {
          Advance(1);
          r := FlushText(parts, text);
          return;
        } else if c == '\\' {
          Advance(1);
          var escaped :- NextChar();
          text := text + [Unescape(escaped)];
        } else if c == '$' {
          var read :- AfterDollar(parts, text);
          parts, text := read.0, read.1;
        } else {
          text := AfterPlain(parts, text);
        }
      }
    }
  }

  /** The result of a reading of the whole source, the failure with its position. */
  ghost predicate Tells(length: nat, reading: Reading<Expr>, r: Result<Expr, ParseError>) {
    match reading
    case Ok(expr, _) => r == Success(expr)
    case Fail(left, message) => left <= length && r == Failure(ParseError(length - left, message))
  }

  lemma SourceFails(source: string, left: nat, message: string)
    requires ReadExpr(source) == Fail(left, message)
    ensures ReadSource(source) == Fail(left, message)
  {}

  lemma SourceEnds(source: string, expr: Expr, rest: string)
    requires ReadExpr(source) == Ok(expr, rest)
    ensures ReadSource(source)
         == if SkipTrivia(rest) == "" then Ok(expr, "") else Fail(|SkipTrivia(rest)|, "trailing input")
  {}

  /** `parse`: an expression and nothing but blanks and comments after it. */
  method Parse(source: string) returns (r: Result<Expr, ParseError>)
    ensures Tells(|source|, ReadSource(source), r)
  {
    var parser := new Parser(source);
    ghost var reading := ReadExpr(source);
    r := parser.Expression();
    if r.Failure? {
      SourceFails(source, reading.left, reading.message);
      return;
    }
    SourceEnds(source, reading.value, reading.rest);
    parser.SkipBlanks();
    if parser.pos != |source| {
      return Failure(parser.Error("trailing input"));
    }
  }
}
