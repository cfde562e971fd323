/**
 The expressions mix writes and reads (crates/nixgen/src/ast.rs), their normal form
 (`normalize` of crates/nixgen/src/parse.rs) and the attribute set that keeps its keys sorted.

 The constructors of the source check keys, literals, names and paths once; here those checks
 are the predicate `Valid` over plain strings.
 */
module Ast {
  import opened Ident

  datatype StrPart = Lit(text: string) | Interp(expr: Expr)

  datatype Entry = Entry(key: string, value: Expr)

  datatype Expr =
    | Str(parts: seq<StrPart>)
    | Bool(value: bool)
    | List(items: seq<Expr>)
    | Attrs(entries: seq<Entry>)
    | Var(name: string)
    | Select(base: Expr, first: string, rest: seq<string>)
    | Apply(callee: Expr, argument: Expr)
    | Lambda(formals: seq<string>, ellipsis: bool, body: Expr)
    | Path(path: string)

  // ---------------------------------------------------------------------------
  // What the constructors of the source guarantee

  const NUL: char := 0 as char

  /** `NixStr` and `Key`: any text without a null byte. */
  predicate HasNoNul(s: string) { NUL !in s }

  /** `RelPath`: what may follow `./`. */
  predicate IsRelPath(s: string) {
    s != "" && s[0] != '.' &&
    forall i :: 0 <= i < |s| ==> IsLower(s[i]) || IsDigit(s[i]) || s[i] == '-' || s[i] == '.'
  }

  /** `Verbatim`: text that a string holds without any escape. */
  predicate IsVerbatim(s: string) {
    forall i :: 0 <= i < |s| ==> StandsForItself(s[i])
  }

  predicate StandsForItself(c: char) {
    c != '"' && c != '\\' && c != '\r' && c != '$' && c != NUL
  }

  /** The order of texts by their code points, which is the order of their UTF-8 bytes. */
  predicate Less(a: string, b: string) {
    if b == "" then false
    else if a == "" then true
    else a[0] < b[0] || (a[0] == b[0] && Less(a[1..], b[1..]))
  }

  ghost predicate Increasing(names: seq<string>) {
    forall i, j :: 0 <= i < j < |names| ==> Less(names[i], names[j])
  }

  ghost predicate KeysIncrease(entries: seq<Entry>) {
    forall i, j :: 0 <= i < j < |entries| ==> Less(entries[i].key, entries[j].key)
  }

  ghost predicate Valid(e: Expr) {
    match e
    case Str(parts) => forall p | p in parts :: ValidPart(p)
    case Bool(_) => true
    case List(items) => forall x | x in items :: Valid(x)
    case Attrs(entries) =>
      KeysIncrease(entries) && forall x | x in entries :: HasNoNul(x.key) && Valid(x.value)
    case Var(name) => IsIdentifier(name)
    case Select(base, first, rest) =>
      Valid(base) && HasNoNul(first) && forall k | k in rest :: HasNoNul(k)
    case Apply(callee, argument) => Valid(callee) && Valid(argument)
    case Lambda(formals, _, body) =>
      Increasing(formals) && (forall f | f in formals :: IsIdentifier(f)) && Valid(body)
    case Path(path) => IsRelPath(path)
  }

  ghost predicate ValidPart(p: StrPart) {
    match p
    case Lit(text) => HasNoNul(text)
    case Interp(expr) => Valid(expr)
  }

  // ---------------------------------------------------------------------------
  // Normal form

  /** Joins neighbouring literals behind `text` and drops empty ones. */
  function MergeParts(text: string, parts: seq<StrPart>): seq<StrPart>
    decreases parts, 1
  {
    if parts == [] then LitParts(text)
    else
      match parts[0]
      case Lit(more) => MergeParts(text + more, parts[1..])
      case Interp(expr) =>
        assert (parts decreases to parts[0]);
        LitParts(text) + [Interp(Normalize(expr))] + MergeParts("", parts[1..])
  }

  function LitParts(text: string): seq<StrPart> {
    if text == "" then [] else [Lit(text)]
  }

  function NormalizeAll(items: seq<Expr>): (r: seq<Expr>)
    ensures |r| == |items|
    ensures forall i :: 0 <= i < |items| ==> r[i] == Normalize(items[i])
    decreases items, 1
  {
    if items == [] then [] else [Normalize(items[0])] + NormalizeAll(items[1..])
  }

  function NormalizeEntries(entries: seq<Entry>): (r: seq<Entry>)
    ensures |r| == |entries|
    ensures forall i :: 0 <= i < |entries| ==> r[i] == Entry(entries[i].key, Normalize(entries[i].value))
    decreases entries, 1
  {
    if entries == [] then []
    else [Entry(entries[0].key, Normalize(entries[0].value))] + NormalizeEntries(entries[1..])
  }

  /** `base` with one more selection, a nested selection flattened. */
  function SelectFrom(base: Expr, first: string, rest: seq<string>): Expr {
    match base
    case Select(inner, innerFirst, innerRest) => Select(inner, innerFirst, innerRest + [first] + rest)
    case _ => Select(base, first, rest)
  }

  function Normalize(e: Expr): Expr
    decreases e, 0
  {
    match e
    case Str(parts) => Str(MergeParts("", parts))
    case List(items) => List(NormalizeAll(items))
    case Attrs(entries) => Attrs(NormalizeEntries(entries))
    case Select(base, first, rest) => SelectFrom(Normalize(base), first, rest)
    case Apply(callee, argument) => Apply(Normalize(callee), Normalize(argument))
    case Lambda(formals, ellipsis, body) => Lambda(formals, ellipsis, Normalize(body))
    case _ => e
  }
  lemma MergeLit(text: string, more: string, rest: seq<StrPart>)
    ensures MergeParts(text, [Lit(more)] + rest) == MergeParts(text + more, rest)
  {
    assert ([Lit(more)] + rest)[1..] == rest;
  }

  lemma MergeInterp(text: string, expr: Expr, rest: seq<StrPart>)
    ensures MergeParts(text, [Interp(expr)] + rest) == LitParts(text) + [Interp(Normalize(expr))] + MergeParts("", rest)
  {
    assert ([Interp(expr)] + rest)[1..] == rest;
  }
}
