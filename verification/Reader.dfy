/**
 What the reader of crates/nixgen/src/parse.rs does with the text that is left, as functions.

 `t` is always the text from the reader's position to the end, and a successful reading gives
 the value and the text left behind it. A failure gives how much text was left where it was
 noticed, and the source's message.
 */
module Reader {
  import opened Ident
  import opened Ast

  datatype Reading<+T> = Ok(value: T, rest: string) | Fail(left: nat, message: string)

  predicate IsSpace(c: char) { c == ' ' || c == '\t' || c == '\n' || c == '\r' }

  function SkipSpace(t: string): (u: string)
    ensures |u| <= |t|
  {
    if t != "" && IsSpace(t[0]) then SkipSpace(t[1..]) else t
  }

  /** Up to the end of the line. */
  function SkipComment(t: string): (u: string)
    ensures |u| <= |t|
  {
    if t != "" && t[0] != '\n' && t[0] != '\r' then SkipComment(t[1..]) else t
  }

  function SkipTrivia(t: string): (u: string)
    ensures |u| <= |t|
    decreases |t|
  {
    if t != "" && IsSpace(t[0]) then SkipTrivia(t[1..])
    else if t != "" && t[0] == '#' then SkipTrivia(SkipComment(t[1..]))
    else t
  }

  predicate At(t: string, c: char) { t != "" && t[0] == c }

  predicate AtSecond(t: string, c: char) { |t| > 1 && t[1] == c }

  predicate AtDots(t: string) { |t| >= 3 && t[0] == '.' && t[1] == '.' && t[2] == '.' }

  function TailLength(t: string): (n: nat)
    ensures n <= |t|
  {
    if t != "" && ContinuesIdentifier(t[0]) then 1 + TailLength(t[1..]) else 0
  }

  function IdentifierLength(t: string): (n: nat)
    ensures n <= |t|
  {
    if t != "" && StartsIdentifier(t[0]) then 1 + TailLength(t[1..]) else 0
  }

  predicate InPath(c: char) {
    IsAlpha(c) || IsDigit(c) || c == '.' || c == '_' || c == '-' || c == '+'
  }

  function PathLength(t: string): (n: nat)
    ensures n <= |t|
  {
    if t != "" && InPath(t[0]) then 1 + PathLength(t[1..]) else 0
  }

  function Expect(t: string, token: char): (r: Reading<()>)
    ensures r.Ok? ==> |r.rest| < |t|
    ensures r.Fail? ==> r.left <= |t|
  {
    var u := SkipTrivia(t);
    if At(u, token) then Ok((), u[1..]) else Fail(|u|, "unexpected token")
  }

  function Identifier(t: string): (r: Reading<string>)
    ensures r.Ok? ==> |r.rest| < |t| && IdentifierShaped(r.value)
    ensures r.Fail? ==> r.left <= |t|
  {
    var u := SkipTrivia(t);
    var n := IdentifierLength(u);
    if n == 0 then Fail(|u|, "expected an identifier")
    else
      TailContinues(u[1..]);
      Ok(u[..n], u[n..])
  }

  lemma {:induction false} TailContinues(t: string)
    ensures forall i :: 0 <= i < TailLength(t) ==> ContinuesIdentifier(t[i])
  {
    if t != "" && ContinuesIdentifier(t[0]) {
      TailContinues(t[1..]);
      forall i | 1 <= i < TailLength(t)
        ensures ContinuesIdentifier(t[i])
      {
        assert t[i] == t[1..][i - 1];
      }
    }
  }

  /** `{` starts a lambda exactly when formals, dots or `}:` follow. */
  predicate AtLambda(t: string) {
    At(t, '{') &&
    var p := SkipSpace(t[1..]);
    if At(p, '}') then At(SkipSpace(p[1..]), ':')
    else if AtDots(p) then true
    else
      var n := IdentifierLength(p);
      n > 0 && var after := SkipSpace(p[n..]); At(after, ',') || At(after, '}')
  }

  predicate AtOperand(t: string) {
    t != "" &&
    (t[0] in ['"', '[', '{', '('] || (t[0] == '.' && AtSecond(t, '/')) || StartsIdentifier(t[0]))
  }

  /** A dot that selects, not one of `..` or `./`. */
  predicate AtSelection(t: string) {
    At(t, '.') && !AtSecond(t, '.') && !AtSecond(t, '/')
  }

  /** `BTreeSet::insert`: the names stay in increasing order, each once. */
  function InsertName(names: seq<string>, name: string): seq<string> {
    if names == [] || Less(name, names[0]) then [name] + names
    else if names[0] == name then names
    else [names[0]] + InsertName(names[1..], name)
  }

  /** `AttrSet::insert`: the keys stay in increasing order, a known key takes the new value. */
  function InsertEntry(entries: seq<Entry>, entry: Entry): seq<Entry> {
    if entries == [] || Less(entry.key, entries[0].key) then [entry] + entries
    else if entries[0].key == entry.key then [entry] + entries[1..]
    else [entries[0]] + InsertEntry(entries[1..], entry)
  }

  predicate HasKey(entries: seq<Entry>, key: string) {
    exists i :: 0 <= i < |entries| && entries[i].key == key
  }

  function Unescape(c: char): char {
    if c == 'n' then '\n' else if c == 'r' then '\r' else if c == 't' then '\t' else c
  }

  function ReadExpr(t: string): (r: Reading<Expr>)
    ensures r.Ok? ==> |r.rest| < |t|
    ensures r.Fail? ==> r.left <= |t|
    decreases |t|, 9
  {
    var u := SkipTrivia(t);
    if AtLambda(u) then ReadLambda(u) else ReadApplication(u)
  }

  function ReadLambda(t: string): (r: Reading<Expr>)
    ensures r.Ok? ==> |r.rest| < |t|
    ensures r.Fail? ==> r.left <= |t|
    decreases |t|, 8
  {
    match Expect(t, '{')
    case Fail(left, message) => Fail(left, message)
    case Ok(_, u) =>
      match ReadFormals(u, [])
      case Fail(left, message) => Fail(left, message)
      case Ok((formals, ellipsis), v) => ReadLambdaBody(v, formals, ellipsis)
  }

  function ReadLambdaBody(t: string, formals: seq<string>, ellipsis: bool): (r: Reading<Expr>)
    ensures r.Ok? ==> |r.rest| < |t|
    ensures r.Fail? ==> r.left <= |t|
    decreases |t|, 10
  {
    match Expect(t, ':')
    case Fail(left, message) => Fail(left, message)
    case Ok(_, u) =>
      match ReadExpr(u)
      case Fail(left, message) => Fail(left, message)
      case Ok(body, v) => Ok(Lambda(formals, ellipsis, body), v)
  }

  /** A comma after a formal is optional. */
  function SkipComma(t: string): (u: string)
    ensures |u| <= |t|
  {
    var w := SkipTrivia(t);
    if At(w, ',') then w[1..] else w
  }

  function ReadFormals(t: string, formals: seq<string>): (r: Reading<(seq<string>, bool)>)
    ensures r.Ok? ==> |r.rest| < |t|
    ensures r.Fail? ==> r.left <= |t|
    decreases |t|
  {
    var u := SkipTrivia(t);
    if At(u, '}') then Ok((formals, false), u[1..])
    else if AtDots(u) then
      match Expect(u[3..], '}')
      case Fail(left, message) => Fail(left, message)
      case Ok(_, v) => Ok((formals, true), v)
    else
      match ReadFormal(u, formals)
      case Fail(left, message) => Fail(left, message)
      case Ok(more, v) => ReadFormals(v, more)
  }

  /** One more formal and the comma that may follow it. */
  function ReadFormal(t: string, formals: seq<string>): (r: Reading<seq<string>>)
    ensures r.Ok? ==> |r.rest| < |t|
    ensures r.Fail? ==> r.left <= |t|
  {
    match Identifier(t)
    case Fail(left, message) => Fail(left, message)
    case Ok(name, u) =>
      if !IsIdentifier(name) then Fail(|u|, "a keyword as a formal")
      else if name in formals then Fail(|u|, "duplicate formal function argument")
      else Ok(InsertName(formals, name), SkipComma(u))
  }

  function ReadApplication(t: string): (r: Reading<Expr>)
    ensures r.Ok? ==> |r.rest| < |t|
    ensures r.Fail? ==> r.left <= |t|
    decreases |t|, 8
  {
    match ReadSelection(t)
    case Fail(left, message) => Fail(left, message)
    case Ok(callee, u) => ReadArguments(u, callee)
  }

  function ReadArguments(t: string, callee: Expr): (r: Reading<Expr>)
    ensures r.Ok? ==> |r.rest| <= |t|
    ensures r.Fail? ==> r.left <= |t|
    decreases |t|, 8
  {
    var u := SkipTrivia(t);
    if !AtOperand(u) then Ok(callee, u)
    else
      match ReadSelection(u)
      case Fail(left, message) => Fail(left, message)
      case Ok(argument, v) => ReadArguments(v, Apply(callee, argument))
  }

  function ReadSelection(t: string): (r: Reading<Expr>)
    ensures r.Ok? ==> |r.rest| < |t|
    ensures r.Fail? ==> r.left <= |t|
    decreases |t|, 7
  {
    match ReadSimple(t)
    case Fail(left, message) => Fail(left, message)
    case Ok(base, u) => Selected(base, ReadKeys(u, []))
  }

  function Selected(base: Expr, keys: Reading<seq<string>>): (r: Reading<Expr>)
    ensures r.Ok? <==> keys.Ok?
    ensures r.Ok? ==> r.rest == keys.rest
    ensures r.Fail? ==> r.left == keys.left
  {
    match keys
    case Fail(left, message) => Fail(left, message)
    case Ok(ks, v) => Ok(if ks == [] then base else Select(base, ks[0], ks[1..]), v)
  }

  function ReadKeys(t: string, keys: seq<string>): (r: Reading<seq<string>>)
    ensures r.Ok? ==> |r.rest| <= |t|
    ensures r.Fail? ==> r.left <= |t|
    decreases |t|, 6
  {
    var u := SkipTrivia(t);
    if AtSelection(u) then
      match ReadKey(u[1..])
      case Fail(left, message) => Fail(left, message)
      case Ok(key, v) => ReadKeys(v, keys + [key])
    else Ok(keys, u)
  }

  function ReadSimple(t: string): (r: Reading<Expr>)
    ensures r.Ok? ==> |r.rest| < |t|
    ensures r.Fail? ==> r.left <= |t|
    decreases |t|, 6
  {
    ReadBare(SkipTrivia(t))
  }

  /** An expression of one piece, no blanks before it. */
  function ReadBare(u: string): (r: Reading<Expr>)
    ensures r.Ok? ==> |r.rest| < |u|
    ensures r.Fail? ==> r.left <= |u|
    decreases |u|, 5
  {
    if At(u, '"') then ReadText(u)
    else if At(u, '[') then ReadItems(u[1..], [])
    else if At(u, '{') then ReadEntries(u[1..], [])
    else if At(u, '(') then ReadParenthesized(u[1..])
    else if At(u, '.') && AtSecond(u, '/') then ReadPath(u[2..])
    else ReadVariable(u)
  }

  function ReadText(t: string): (r: Reading<Expr>)
    ensures r.Ok? ==> |r.rest| < |t|
    ensures r.Fail? ==> r.left <= |t|
    decreases |t|, 4
  {
    match ReadString(t)
    case Fail(left, message) => Fail(left, message)
    case Ok(parts, u) => Ok(Str(parts), u)
  }

  function ReadParenthesized(t: string): (r: Reading<Expr>)
    ensures r.Ok? ==> |r.rest| < |t|
    ensures r.Fail? ==> r.left <= |t|
    decreases |t|, 10
  {
    match ReadExpr(t)
    case Fail(left, message) => Fail(left, message)
    case Ok(inner, u) =>
      match Expect(u, ')')
      case Fail(left, message) => Fail(left, message)
      case Ok(_, v) => Ok(inner, v)
  }

  function ReadPath(t: string): (r: Reading<Expr>)
    ensures r.Ok? ==> |r.rest| <= |t|
    ensures r.Fail? ==> r.left <= |t|
  {
    var n := PathLength(t);
    if IsRelPath(t[..n]) then Ok(Path(t[..n]), t[n..])
    else Fail(|t| - n, "a path mix does not write")
  }

  function ReadVariable(t: string): (r: Reading<Expr>)
    ensures r.Ok? ==> |r.rest| < |t|
    ensures r.Fail? ==> r.left <= |t|
  {
    match Identifier(t)
    case Fail(left, message) => Fail(left, message)
    case Ok(name, u) =>
      if name == "true" then Ok(Bool(true), u)
      else if name == "false" then Ok(Bool(false), u)
      else if IsIdentifier(name) then Ok(Var(name), u)
      else Fail(|u|, "a keyword where a variable was expected")
  }

  function ReadItems(t: string, items: seq<Expr>): (r: Reading<Expr>)
    ensures r.Ok? ==> |r.rest| < |t|
    ensures r.Fail? ==> r.left <= |t|
    decreases |t|, 8
  {
    var u := SkipTrivia(t);
    if At(u, ']') then Ok(List(items), u[1..])
    else
      match ReadSelection(u)
      case Fail(left, message) => Fail(left, message)
      case Ok(item, v) => ReadItems(v, items + [item])
  }

  function ReadEntries(t: string, entries: seq<Entry>): (r: Reading<Expr>)
    ensures r.Ok? ==> |r.rest| < |t|
    ensures r.Fail? ==> r.left <= |t|
    decreases |t|, 8
  {
    var u := SkipTrivia(t);
    if At(u, '}') then Ok(Attrs(entries), u[1..])
    else
      match ReadEntry(u)
      case Fail(left, message) => Fail(left, message)
      case Ok(entry, v) =>
        if HasKey(entries, entry.key) then Fail(|v|, "attribute already defined")
        else ReadEntries(v, InsertEntry(entries, entry))
  }

  function ReadEntry(t: string): (r: Reading<Entry>)
    ensures r.Ok? ==> |r.rest| < |t|
    ensures r.Fail? ==> r.left <= |t|
    decreases |t|, 7
  {
    match ReadKey(t)
    case Fail(left, message) => Fail(left, message)
    case Ok(key, u) => ReadValue(key, u)
  }

  function ReadValue(key: string, t: string): (r: Reading<Entry>)
    ensures r.Ok? ==> |r.rest| < |t|
    ensures r.Fail? ==> r.left <= |t|
    decreases |t|, 7
  {
    match Expect(t, '=')
    case Fail(left, message) => Fail(left, message)
    case Ok(_, u) =>
      match ReadExpr(u)
      case Fail(left, message) => Fail(left, message)
      case Ok(value, v) =>
        match Expect(v, ';')
        case Fail(left, message) => Fail(left, message)
        case Ok(_, w) => Ok(Entry(key, value), w)
  }

  function ReadKey(t: string): (r: Reading<string>)
    ensures r.Ok? ==> |r.rest| < |t|
    ensures r.Fail? ==> r.left <= |t|
    decreases |t|, 5
  {
    var u := SkipTrivia(t);
    if At(u, '"') then
      match ReadString(u)
      case Fail(left, message) => Fail(left, message)
      case Ok(parts, v) => KeyOf(MergeParts("", parts), v)
    else
      match Identifier(u)
      case Fail(left, message) => Fail(left, message)
      case Ok(name, v) => if IsIdentifier(name) then Ok(name, v) else Fail(|v|, "a keyword as a key")
  }

  /** A quoted key is plain text. */
  function KeyOf(parts: seq<StrPart>, rest: string): (r: Reading<string>)
    ensures r.Ok? ==> r.rest == rest
    ensures r.Fail? ==> r.left == |rest|
  {
    if parts == [] then Ok("", rest)
    else if |parts| == 1 && parts[0].Lit? then
      if HasNoNul(parts[0].text) then Ok(parts[0].text, rest)
      else Fail(|rest|, "a null byte in a key")
    else Fail(|rest|, "an interpolated key")
  }

  function ReadString(t: string): (r: Reading<seq<StrPart>>)
    ensures r.Ok? ==> |r.rest| < |t|
    ensures r.Fail? ==> r.left <= |t|
    decreases |t|, 3
  {
    match Expect(t, '"')
    case Fail(left, message) => Fail(left, message)
    case Ok(_, u) => ReadParts(u, "", [])
  }

  /** Adds the literal read so far, which is refused if it holds a null byte. */
  function Flush(parts: seq<StrPart>, text: string, rest: string): (r: Reading<seq<StrPart>>)
    ensures r.Ok? ==> r.rest == rest
    ensures r.Fail? ==> r.left == |rest|
  {
    if text == "" then Ok(parts, rest)
    else if HasNoNul(text) then Ok(parts + [Lit(text)], rest)
    else Fail(|rest|, "a null byte in a string")
  }

  /** The rest of a string, `text` read since its last part. */
  function ReadParts(t: string, text: string, parts: seq<StrPart>): (r: Reading<seq<StrPart>>)
    ensures r.Ok? ==> |r.rest| < |t|
    ensures r.Fail? ==> r.left <= |t|
    decreases |t|, 3
  {
    if t == "" then Fail(0, "unterminated string")
    else if t[0] == '"' then Flush(parts, text, t[1..])
    else if t[0] == '\\' then
      if |t| == 1 then Fail(0, "unterminated escape")
      else ReadParts(t[2..], text + [Unescape(t[1])], parts)
    else if t[0] == '$' then
      if AtSecond(t, '{') then
        match Flush(parts, text, t[2..])
        case Fail(left, message) => Fail(left, message)
        case Ok(flushed, u) =>
          match ReadInterpolation(u)
          case Fail(left, message) => Fail(left, message)
          case Ok(expr, v) => ReadParts(v, "", flushed + [Interp(expr)])
      else if AtSecond(t, '$') then ReadParts(t[2..], text + "$$", parts)
      else if AtSecond(t, '\\') then
        if |t| == 2 then Fail(0, "unterminated escape")
        else ReadParts(t[3..], text + ['$'] + [Unescape(t[2])], parts)
      else ReadParts(t[1..], text + ['$'], parts)
    else if t[0] == '\r' then
      ReadParts(if AtSecond(t, '\n') then t[2..] else t[1..], text + ['\n'], parts)
    else ReadParts(t[1..], text + [t[0]], parts)
  }

  function ReadInterpolation(t: string): (r: Reading<Expr>)
    ensures r.Ok? ==> |r.rest| < |t|
    ensures r.Fail? ==> r.left <= |t|
    decreases |t|, 10
  {
    match ReadExpr(t)
    case Fail(left, message) => Fail(left, message)
    case Ok(expr, u) =>
      match Expect(u, '}')
      case Fail(left, message) => Fail(left, message)
      case Ok(_, v) => Ok(expr, v)
  }

  /** `parse`: one expression and nothing after it. */
  function ReadSource(source: string): (r: Reading<Expr>) {
    match ReadExpr(source)
    case Fail(left, message) => Fail(left, message)
    case Ok(expr, u) =>
      var v := SkipTrivia(u);
      if v == "" then Ok(expr, "") else Fail(|v|, "trailing input")
  }
}
