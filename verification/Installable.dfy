/**
 What mix asks nix to build (crates/nixgen/src/installable.rs): a flake, `#` and an attribute path.

 Texts are sequences of bytes, each a character below 256. `Read` is a reader for the rendered
 form: the address up to the first `#`, percent-decoding (section 2.1 of RFC 3986), the query, and
 segments that are bare or quoted. It recovers every installable, so no two share a text.
 */
module Installable {
  import opened Wrappers
  import opened Ident

  datatype GitAt = Branch(name: string) | Commit(rev: string)

  datatype FlakeRef = PathRef(dir: string) | GitFile(dir: string, signer: Option<string>, at: Option<GitAt>)

  datatype Installable = Installable(flake: FlakeRef, segments: seq<string>)

  datatype InvalidInstallable =
    | RelativePath(dir: string) | EmptySegment | Quote(segment: string) | NotAKey(base64: string)

  predicate AreBytes(s: string) { forall i :: 0 <= i < |s| ==> s[i] as int < 256 }

  // ---------------------------------------------------------------------------
  // What the constructors accept

  predicate IsBase64(c: char) { IsAlpha(c) || IsDigit(c) || c == '+' || c == '/' || c == '=' }

  predicate IsPublicKey(s: string) { s != "" && forall i :: 0 <= i < |s| ==> IsBase64(s[i]) }

  predicate IsRev(s: string) { |s| == 40 && forall i :: 0 <= i < |s| ==> IsDigit(s[i]) || 'a' <= s[i] <= 'f' }

  predicate IsAbsolute(dir: string) { dir != "" && dir[0] == '/' }

  predicate IsSegment(s: string) { s != "" && '"' !in s }

  predicate ValidFlake(f: FlakeRef) {
    IsAbsolute(f.dir) && AreBytes(f.dir) &&
    (f.GitFile? ==>
      (f.signer.Some? ==> IsPublicKey(f.signer.value)) &&
      (f.at.Some? ==> if f.at.value.Branch? then AreBytes(f.at.value.name) else IsRev(f.at.value.rev)))
  }

  predicate ValidInstallable(i: Installable) {
    ValidFlake(i.flake) && i.segments != [] && forall s | s in i.segments :: AreBytes(s) && IsSegment(s)
  }

  function NewPublicKey(base64: string): (r: Result<string, InvalidInstallable>)
    ensures r.Success? ==> r.value == base64 && IsPublicKey(base64)
    ensures r.Failure? ==> !IsPublicKey(base64)
  {
    if base64 != "" && forall c | c in base64 :: IsBase64(c) then Success(base64) else Failure(NotAKey(base64))
  }

  function Absolute(dir: string): Result<string, InvalidInstallable> {
    if IsAbsolute(dir) then Success(dir) else Failure(RelativePath(dir))
  }

  function NewPath(dir: string): (r: Result<FlakeRef, InvalidInstallable>)
    requires AreBytes(dir)
    ensures r.Success? ==> ValidFlake(r.value)
    ensures r.Failure? <==> !IsAbsolute(dir)
  {
    var dir :- Absolute(dir);
    Success(PathRef(dir))
  }

  function NewGitFile(dir: string, signer: Option<string>): (r: Result<FlakeRef, InvalidInstallable>)
    requires AreBytes(dir) && (signer.Some? ==> IsPublicKey(signer.value))
    ensures r.Success? ==> ValidFlake(r.value)
    ensures r.Failure? <==> !IsAbsolute(dir)
  {
    var dir :- Absolute(dir);
    Success(GitFile(dir, signer, None))
  }

  function NewGitAt(dir: string, at: GitAt): (r: Result<FlakeRef, InvalidInstallable>)
    requires AreBytes(dir) && (if at.Branch? then AreBytes(at.name) else IsRev(at.rev))
    ensures r.Success? ==> ValidFlake(r.value)
    ensures r.Failure? <==> !IsAbsolute(dir)
  {
    var dir :- Absolute(dir);
    Success(GitFile(dir, None, Some(at)))
  }

  /** `AttrPath::new`: the segments are checked up to the first that nix cannot hold. */
  method NewAttrPath(segments: seq<string>) returns (r: Result<seq<string>, InvalidInstallable>)
    ensures r.Success? <==> segments != [] && forall s | s in segments :: IsSegment(s)
    ensures r.Success? ==> r.value == segments
    ensures r.Failure? && segments != [] ==>
      exists i :: 0 <= i < |segments| && !IsSegment(segments[i]) && (forall j :: 0 <= j < i ==> IsSegment(segments[j])) &&
                  r.error == if segments[i] == "" then EmptySegment else Quote(segments[i])
    ensures segments == [] ==> r == Failure(EmptySegment)
  {
    for i := 0 to |segments|
      invariant forall j :: 0 <= j < i ==> IsSegment(segments[j])
    {
      assert segments[i] in segments;
      if segments[i] == "" {
        return Failure(EmptySegment);
      }
      if '"' in segments[i] {
        return Failure(Quote(segments[i]));
      }
    }
    if segments == [] {
      return Failure(EmptySegment);
    }
    return Success(segments);
  }

  // ---------------------------------------------------------------------------
  // Percent-encoding

  predicate IsUnreserved(c: char) {
    IsAlpha(c) || IsDigit(c) || c == '-' || c == '.' || c == '_' || c == '~'
  }

  /** What an encoded text keeps: the unreserved characters, in a path the slash too. */
  predicate Keeps(path: bool, c: char) { IsUnreserved(c) || (path && c == '/') }

  const HEX: string := "0123456789ABCDEF"

  function HexDigit(n: nat): (c: char)
    requires n < 16
  {
    if n < 10 then '0' + n as char else 'A' + (n - 10) as char
  }

  lemma HexDigits(n: nat)
    requires n < 16
    ensures HEX[n] == HexDigit(n)
  {}

  function Encoded(path: bool, bytes: string): string
    requires AreBytes(bytes)
  {
    if bytes == "" then ""
    else EncodedByte(path, bytes[0]) + Encoded(path, bytes[1..])
  }

  function EncodedByte(path: bool, c: char): string
    requires c as int < 256
  {
    if Keeps(path, c) then [c] else ['%', HexDigit(c as int / 16), HexDigit(c as int % 16)]
  }

  lemma Assoc(a: string, b: string, c: string)
    ensures a + b + c == a + (b + c)
  {}

  method PercentEncode(bytes: string, path: bool, out: string) returns (r: string)
    requires AreBytes(bytes)
    ensures r == out + Encoded(path, bytes)
  {
    r := out;
    for i := 0 to |bytes|
      invariant r + Encoded(path, bytes[i..]) == out + Encoded(path, bytes)
    {
      var c := bytes[i];
      assert bytes[i..][1..] == bytes[i + 1..];
      ghost var before := r;
      if Keeps(path, c) {
        r := r + [c];
      } else {
        HexDigits(c as int / 16);
        HexDigits(c as int % 16);
        r := r + ['%'];
        r := r + [HEX[c as int / 16]];
        r := r + [HEX[c as int % 16]];
      }
      assert r == before + EncodedByte(path, c);
      Assoc(before, EncodedByte(path, c), Encoded(path, bytes[i + 1..]));
    }
    assert bytes[|bytes|..] == "";
  }

  function HexValue(c: char): Option<nat> {
    if '0' <= c <= '9' then Some(c as int - '0' as int)
    else if 'A' <= c <= 'F' then Some(c as int - 'A' as int + 10)
    else if 'a' <= c <= 'f' then Some(c as int - 'a' as int + 10)
    else None
  }

  function Prepend(c: char, t: Option<string>): Option<string> {
    match t
    case None => None
    case Some(s) => Some([c] + s)
  }

  /** Percent-decoding, as any reader of the address does it. */
  function Decoded(t: string): Option<string>
    decreases |t|
  {
    if t == "" then Some("")
    else if t[0] != '%' then Prepend(t[0], Decoded(t[1..]))
    else if |t| < 3 || HexValue(t[1]).None? || HexValue(t[2]).None? then None
    else
      assert HexValue(t[1]).value < 16 && HexValue(t[2]).value < 16;
      Prepend((16 * HexValue(t[1]).value + HexValue(t[2]).value) as char, Decoded(t[3..]))
  }

  lemma HexRoundTrip(n: nat)
    requires n < 16
    ensures HexValue(HexDigit(n)) == Some(n) && IsUnreserved(HexDigit(n)) && HexDigit(n) != '%'
  {}

  /** Decoding undoes encoding, whatever the bytes. */
  lemma {:induction false} DecodesEncoded(path: bool, bytes: string)
    requires AreBytes(bytes)
    ensures Decoded(Encoded(path, bytes)) == Some(bytes)
  {
    if bytes != "" {
      var c, rest := bytes[0], Encoded(path, bytes[1..]);
      DecodesEncoded(path, bytes[1..]);
      assert [c] + bytes[1..] == bytes;
      if Keeps(path, c) {
        assert ([c] + rest)[1..] == rest;
      } else {
        DecodesByte(c, rest);
      }
    }
  }

  lemma DecodesByte(c: char, rest: string)
    requires c as int < 256
    ensures Decoded(['%', HexDigit(c as int / 16), HexDigit(c as int % 16)] + rest) == Prepend(c, Decoded(rest))
  {
    var high, low := c as int / 16, c as int % 16;
    HexRoundTrip(high);
    HexRoundTrip(low);
    var t := ['%', HexDigit(high), HexDigit(low)] + rest;
    assert t[0] == '%' && t[1] == HexDigit(high) && t[2] == HexDigit(low) && t[3..] == rest;
    assert (16 * high + low) as char == c;
  }

  /** An encoded text holds no delimiter (section 2.3 of RFC 3986). */
  lemma {:induction false} EncodedIsPlain(path: bool, bytes: string, c: char)
    requires AreBytes(bytes) && !Keeps(path, c) && c != '%'
    ensures c !in Encoded(path, bytes)
  {
    if bytes != "" {
      HexRoundTrip(bytes[0] as int / 16);
      HexRoundTrip(bytes[0] as int % 16);
      EncodedIsPlain(path, bytes[1..], c);
    }
  }

  // ---------------------------------------------------------------------------
  // Rendering

  const PATH: string := "path:"
  const GIT: string := "git+file://"
  const REF: string := "ref="
  const REV: string := "rev="
  const SIGNER: string := "verifyCommit=1" + ("&keytype=ssh-ed25519" + "&publicKey=")

  function ShownAt(at: GitAt): string
    requires if at.Branch? then AreBytes(at.name) else AreBytes(at.rev)
  {
    match at
    case Branch(name) => REF + Encoded(false, name)
    case Commit(rev) => REV + Encoded(false, rev)
  }

  function ShownQuery(signer: Option<string>, at: Option<GitAt>): string
    requires signer.Some? ==> AreBytes(signer.value)
    requires at.Some? ==> if at.value.Branch? then AreBytes(at.value.name) else AreBytes(at.value.rev)
  {
    (if at.Some? then ['?'] + ShownAt(at.value) else "") +
    (if signer.Some? then [if at.Some? then '&' else '?'] + (SIGNER + Encoded(false, signer.value)) else "")
  }

  lemma ValidAreBytes(f: FlakeRef)
    requires ValidFlake(f)
    ensures f.GitFile? && f.signer.Some? ==> AreBytes(f.signer.value)
    ensures f.GitFile? && f.at.Some? ==> if f.at.value.Branch? then AreBytes(f.at.value.name) else AreBytes(f.at.value.rev)
  {}

  function ShownFlake(f: FlakeRef): string
    requires ValidFlake(f)
  {
    ValidAreBytes(f);
    match f
    case PathRef(dir) => PATH + Encoded(true, dir)
    case GitFile(dir, signer, at) => GIT + (Encoded(true, dir) + ShownQuery(signer, at))
  }

  function ShownSegment(s: string): string { if IsIdentifier(s) then s else ['"'] + (s + ['"']) }

  function ShownSegments(segments: seq<string>): string
    requires segments != []
  {
    ShownSegment(segments[0]) + if |segments| == 1 then "" else ['.'] + ShownSegments(segments[1..])
  }

  method WriteFlake(f: FlakeRef, out: string) returns (r: string)
    requires ValidFlake(f)
    ensures r == out + ShownFlake(f)
  {
    ValidAreBytes(f);
    match f
    case PathRef(dir) =>
      r := PercentEncode(dir, true, out + PATH);
      Assoc(out, PATH, Encoded(true, dir));
    case GitFile(dir, signer, at) =>
      r := PercentEncode(dir, true, out + GIT);
      r := WriteQuery(signer, at, r);
      Assoc(out, GIT, Encoded(true, dir));
      Assoc(out, GIT + Encoded(true, dir), ShownQuery(signer, at));
      Assoc(GIT, Encoded(true, dir), ShownQuery(signer, at));
  }

  method WriteQuery(signer: Option<string>, at: Option<GitAt>, out: string) returns (r: string)
    requires signer.Some? ==> AreBytes(signer.value)
    requires at.Some? ==> if at.value.Branch? then AreBytes(at.value.name) else AreBytes(at.value.rev)
    ensures r == out + ShownQuery(signer, at)
  {
    r := out;
    var separator := '?';
    ghost var asked := "";
    if at.Some? {
      r := WriteAt(at.value, r + [separator]);
      asked := [separator] + ShownAt(at.value);
      Assoc(out, [separator], ShownAt(at.value));
      separator := '&';
    } else {
      assert out + asked == out;
    }
    ghost var signed := "";
    if signer.Some? {
      signed := [separator] + (SIGNER + Encoded(false, signer.value));
      Assoc(r + [separator], SIGNER, Encoded(false, signer.value));
      Assoc(r, [separator], SIGNER + Encoded(false, signer.value));
      r := PercentEncode(signer.value, false, r + [separator] + SIGNER);
    } else {
      assert r + signed == r;
    }
    Assoc(out, asked, signed);
  }

  method WriteAt(at: GitAt, out: string) returns (r: string)
    requires if at.Branch? then AreBytes(at.name) else AreBytes(at.rev)
    ensures r == out + ShownAt(at)
  {
    match at
    case Branch(name) =>
      r := PercentEncode(name, false, out + REF);
      Assoc(out, REF, Encoded(false, name));
    case Commit(rev) =>
      r := PercentEncode(rev, false, out + REV);
      Assoc(out, REV, Encoded(false, rev));
  }

  /** What is left to write of the segments from index `i` on. */
  function Left(segments: seq<string>, i: nat): string
    requires i <= |segments|
  {
    if i == |segments| then "" else (if i > 0 then ['.'] else "") + ShownSegments(segments[i..])
  }

  method WriteAttrPath(segments: seq<string>, out: string) returns (r: string)
    requires segments != [] && forall s | s in segments :: AreBytes(s)
    ensures AreBytes(ShownSegments(segments)) && r == out + Encoded(false, ShownSegments(segments))
  {
    SegmentsAreBytes(segments);
    var fragment := "";
    assert segments[0..] == segments && fragment + Left(segments, 0) == ShownSegments(segments);
    for i := 0 to |segments|
      invariant fragment + Left(segments, i) == ShownSegments(segments)
    {
      ghost var before := fragment;
      if i > 0 {
        fragment := fragment + ['.'];
      } else {
        assert fragment + "" == fragment;
      }
      fragment := WriteSegment(segments[i], fragment);
      SegmentWritten(segments, i, before, fragment, ShownSegments(segments));
    }
    assert fragment + "" == fragment;
    r := PercentEncode(fragment, false, out);
  }

  method WriteSegment(segment: string, fragment: string) returns (r: string)
    ensures r == fragment + ShownSegment(segment)
  {
    var bare := IsIdentifierBytes(segment);
    if bare {
      return fragment + segment;
    }
    Assoc(fragment + ['"'], segment, ['"']);
    Assoc(fragment, ['"'], segment + ['"']);
    return fragment + ['"'] + segment + ['"'];
  }

  lemma SegmentWritten(segments: seq<string>, i: nat, before: string, after: string, whole: string)
    requires i < |segments| && before + Left(segments, i) == whole
    requires after == before + (if i > 0 then ['.'] else "") + ShownSegment(segments[i])
    ensures after + Left(segments, i + 1) == whole
  {
    var dot := if i > 0 then ['.'] else "";
    LeftShrinks(segments, i);
    Assoc(before + dot, ShownSegment(segments[i]), Left(segments, i + 1));
    Assoc(before, dot, ShownSegment(segments[i]) + Left(segments, i + 1));
  }

  lemma LeftShrinks(segments: seq<string>, i: nat)
    requires i < |segments|
    ensures Left(segments, i) == (if i > 0 then ['.'] else "") + (ShownSegment(segments[i]) + Left(segments, i + 1))
  {
    assert segments[i..][0] == segments[i] && segments[i..][1..] == segments[i + 1..];
  }

  lemma {:induction false} SegmentsAreBytes(segments: seq<string>)
    requires segments != [] && forall s | s in segments :: AreBytes(s)
    ensures AreBytes(ShownSegments(segments))
  {
    assert AreBytes(segments[0]);
    if |segments| > 1 {
      SegmentsAreBytes(segments[1..]);
    }
  }

  function Rendered(i: Installable): string
    requires ValidInstallable(i)
  {
    SegmentsAreBytes(i.segments);
    ShownFlake(i.flake) + (['#'] + Encoded(false, ShownSegments(i.segments)))
  }

  method Render(i: Installable) returns (text: string)
    requires ValidInstallable(i)
    ensures text == Rendered(i) && Read(text) == Some(i)
  {
    text := WriteFlake(i.flake, "");
    assert "" + ShownFlake(i.flake) == ShownFlake(i.flake);
    text := WriteAttrPath(i.segments, text + ['#']);
    Assoc(ShownFlake(i.flake), ['#'], Encoded(false, ShownSegments(i.segments)));
    ReadsRendered(i);
  }

  // ---------------------------------------------------------------------------
  // A reader for the rendered form

  function Before(t: string, c: char): string { if t == "" || t[0] == c then "" else [t[0]] + Before(t[1..], c) }

  function Behind(t: string, c: char): Option<string> {
    if t == "" then None else if t[0] == c then Some(t[1..]) else Behind(t[1..], c)
  }

  function Strip(t: string, prefix: string): Option<string> {
    if prefix <= t then Some(t[|prefix|..]) else None
  }

  function ReadSigner(t: string): Option<string> {
    match Strip(t, SIGNER)
    case None => None
    case Some(key) => Decoded(key)
  }

  /** What is left of a query: a signer, if there is any. */
  function ReadLast(dir: string, at: Option<GitAt>, t: Option<string>): Option<FlakeRef> {
    match t
    case None => Some(GitFile(dir, None, at))
    case Some(query) =>
      match ReadSigner(query)
      case None => None
      case Some(key) => Some(GitFile(dir, Some(key), at))
  }

  function ReadQuery(dir: string, t: Option<string>): Option<FlakeRef> {
    if t.Some? && Strip(t.value, REF).Some? then
      match Decoded(Before(Strip(t.value, REF).value, '&'))
      case None => None
      case Some(name) => ReadLast(dir, Some(Branch(name)), Behind(Strip(t.value, REF).value, '&'))
    else if t.Some? && Strip(t.value, REV).Some? then
      match Decoded(Before(Strip(t.value, REV).value, '&'))
      case None => None
      case Some(rev) => ReadLast(dir, Some(Commit(rev)), Behind(Strip(t.value, REV).value, '&'))
    else ReadLast(dir, None, t)
  }

  function ReadFlake(t: string): Option<FlakeRef> {
    if Strip(t, PATH).Some? then
      match Decoded(Strip(t, PATH).value)
      case None => None
      case Some(dir) => Some(PathRef(dir))
    else if Strip(t, GIT).Some? then
      match Decoded(Before(Strip(t, GIT).value, '?'))
      case None => None
      case Some(dir) => ReadQuery(dir, Behind(Strip(t, GIT).value, '?'))
    else None
  }

  function ReadSegments(t: string): Option<seq<string>>
    decreases |t|
  {
    if t != "" && t[0] == '"' then
      match Behind(t[1..], '"')
      case None => None
      case Some(rest) =>
        BehindIsShorter(t[1..], '"');
        ReadMore(Before(t[1..], '"'), rest)
    else
      BehindIsShorter(t, '.');
      match Behind(t, '.')
      case None => Some([t])
      case Some(rest) => AndThen(Before(t, '.'), ReadSegments(rest))
  }

  /** Behind a quoted segment: the end, or a dot and more. */
  function ReadMore(first: string, t: string): Option<seq<string>>
    decreases |t|
  {
    if t == "" then Some([first])
    else if t[0] == '.' then AndThen(first, ReadSegments(t[1..]))
    else None
  }

  function AndThen(first: string, more: Option<seq<string>>): Option<seq<string>> {
    match more
    case None => None
    case Some(segments) => Some([first] + segments)
  }

  function Read(t: string): Option<Installable> {
    match Behind(t, '#')
    case None => None
    case Some(fragment) =>
      match ReadFlake(Before(t, '#'))
      case None => None
      case Some(flake) =>
        match Decoded(fragment)
        case None => None
        case Some(attrPath) =>
          match ReadSegments(attrPath)
          case None => None
          case Some(segments) => Some(Installable(flake, segments))
  }

  lemma {:induction false} BehindIsShorter(t: string, c: char)
    ensures Behind(t, c).Some? ==> |Behind(t, c).value| < |t|
  {
    if t != "" && t[0] != c {
      BehindIsShorter(t[1..], c);
    }
  }

  // ---------------------------------------------------------------------------
  // It recovers what was rendered

  lemma {:induction false} SplitsAtFirst(a: string, c: char, b: string)
    requires c !in a
    ensures Before(a + ([c] + b), c) == a && Behind(a + ([c] + b), c) == Some(b)
  {
    var t := a + ([c] + b);
    if a == "" {
      assert t == [c] + b && t[1..] == b;
    } else {
      assert t[1..] == a[1..] + ([c] + b);
      SplitsAtFirst(a[1..], c, b);
    }
  }

  lemma {:induction false} NothingToSplit(a: string, c: char)
    requires c !in a
    ensures Before(a, c) == a && Behind(a, c) == None
  {
    if a != "" {
      NothingToSplit(a[1..], c);
    }
  }

  lemma Strips(prefix: string, t: string)
    ensures Strip(prefix + t, prefix) == Some(t)
  {
    assert (prefix + t)[..|prefix|] == prefix;
  }

  lemma StripsNot(a: string, b: string, t: string, i: nat)
    requires i < |a| && i < |b| && a[i] != b[i]
    ensures Strip(a + t, b) == None
  {
    assert (a + t)[i] == a[i];
  }

  lemma ReadsSigner(key: string)
    requires AreBytes(key)
    ensures ReadSigner(SIGNER + Encoded(false, key)) == Some(key)
  {
    Strips(SIGNER, Encoded(false, key));
    DecodesEncoded(false, key);
  }

  lemma SignerIsNoPosition(key: string)
    ensures Strip(SIGNER + key, REF) == None && Strip(SIGNER + key, REV) == None
  {
    assert SIGNER[0] == 'v';
    StripsNot(SIGNER, REF, key, 0);
    StripsNot(SIGNER, REV, key, 0);
  }

  /** The text of a query behind its `?`. */
  function QueryText(signer: Option<string>, at: Option<GitAt>): string
    requires signer.Some? ==> AreBytes(signer.value)
    requires at.Some? ==> if at.value.Branch? then AreBytes(at.value.name) else AreBytes(at.value.rev)
    requires signer.Some? || at.Some?
  {
    if at.None? then SIGNER + Encoded(false, signer.value)
    else if signer.None? then ShownAt(at.value)
    else ShownAt(at.value) + (['&'] + (SIGNER + Encoded(false, signer.value)))
  }

  lemma QueryShown(signer: Option<string>, at: Option<GitAt>)
    requires signer.Some? ==> AreBytes(signer.value)
    requires at.Some? ==> if at.value.Branch? then AreBytes(at.value.name) else AreBytes(at.value.rev)
    ensures ShownQuery(signer, at) == if signer.None? && at.None? then "" else ['?'] + QueryText(signer, at)
  {
    if at.Some? && signer.Some? {
      var tail := ['&'] + (SIGNER + Encoded(false, signer.value));
      assert ['?'] + ShownAt(at.value) + tail == ['?'] + (ShownAt(at.value) + tail);
    }
  }

  /** What follows a position: nothing, or a signer. */
  function SignerText(signer: Option<string>): string
    requires signer.Some? ==> AreBytes(signer.value)
  {
    if signer.None? then "" else ['&'] + (SIGNER + Encoded(false, signer.value))
  }

  lemma ReadsPosition(prefix: string, value: string, signer: Option<string>)
    requires AreBytes(value) && (signer.Some? ==> AreBytes(signer.value))
    ensures var t := prefix + (Encoded(false, value) + SignerText(signer));
      Strip(t, prefix) == Some(Encoded(false, value) + SignerText(signer)) &&
      Decoded(Before(Encoded(false, value) + SignerText(signer), '&')) == Some(value) &&
      Behind(Encoded(false, value) + SignerText(signer), '&') ==
        if signer.None? then None else Some(SIGNER + Encoded(false, signer.value))
  {
    var shown := Encoded(false, value);
    Strips(prefix, shown + SignerText(signer));
    EncodedIsPlain(false, value, '&');
    DecodesEncoded(false, value);
    if signer.None? {
      assert shown + "" == shown;
      NothingToSplit(shown, '&');
    } else {
      SplitsAtFirst(shown, '&', SIGNER + Encoded(false, signer.value));
    }
  }

  lemma QueryBegins(signer: Option<string>, at: GitAt)
    requires signer.Some? ==> AreBytes(signer.value)
    requires if at.Branch? then AreBytes(at.name) else AreBytes(at.rev)
    ensures QueryText(signer, Some(at))
         == if at.Branch? then REF + (Encoded(false, at.name) + SignerText(signer))
            else REV + (Encoded(false, at.rev) + SignerText(signer))
  {
    var prefix := if at.Branch? then REF else REV;
    var shown := Encoded(false, if at.Branch? then at.name else at.rev);
    Assoc(prefix, shown, SignerText(signer));
    assert shown + "" == shown;
  }

  lemma ReadsQuery(dir: string, signer: Option<string>, at: Option<GitAt>)
    requires signer.Some? ==> AreBytes(signer.value)
    requires at.Some? ==> if at.value.Branch? then AreBytes(at.value.name) else AreBytes(at.value.rev)
    requires signer.Some? || at.Some?
    ensures ReadQuery(dir, Some(QueryText(signer, at))) == Some(GitFile(dir, signer, at))
  {
    if signer.Some? {
      ReadsSigner(signer.value);
    }
    if at.None? {
      SignerIsNoPosition(Encoded(false, signer.value));
    } else {
      QueryBegins(signer, at.value);
      if at.value.Branch? {
        ReadsPosition(REF, at.value.name, signer);
      } else {
        ReadsPosition(REV, at.value.rev, signer);
        StripsNot(REV, REF, Encoded(false, at.value.rev) + SignerText(signer), 2);
      }
    }
  }

  lemma ReadsFlake(f: FlakeRef)
    requires ValidFlake(f)
    ensures ReadFlake(ShownFlake(f)) == Some(f)
  {
    ValidAreBytes(f);
    var dir := Encoded(true, f.dir);
    DecodesEncoded(true, f.dir);
    EncodedIsPlain(true, f.dir, '?');
    if f.PathRef? {
      Strips(PATH, dir);
    } else {
      var query := ShownQuery(f.signer, f.at);
      StripsNot(GIT, PATH, dir + query, 0);
      Strips(GIT, dir + query);
      QueryShown(f.signer, f.at);
      if f.signer.None? && f.at.None? {
        assert dir + "" == dir;
        NothingToSplit(dir, '?');
      } else {
        SplitsAtFirst(dir, '?', QueryText(f.signer, f.at));
        ReadsQuery(f.dir, f.signer, f.at);
      }
    }
  }

  lemma NoHashInQuery(signer: Option<string>, at: Option<GitAt>)
    requires signer.Some? ==> AreBytes(signer.value)
    requires at.Some? ==> if at.value.Branch? then AreBytes(at.value.name) else AreBytes(at.value.rev)
    ensures '#' !in ShownQuery(signer, at)
  {
    if signer.Some? {
      EncodedIsPlain(false, signer.value, '#');
    }
    if at.Some? {
      EncodedIsPlain(false, if at.value.Branch? then at.value.name else at.value.rev, '#');
    }
    assert '#' !in SIGNER && '#' !in REF && '#' !in REV;
  }

  /** The first `#` always separates the flake from the attribute path. */
  lemma NoHashInFlake(f: FlakeRef)
    requires ValidFlake(f)
    ensures '#' !in ShownFlake(f)
  {
    ValidAreBytes(f);
    EncodedIsPlain(true, f.dir, '#');
    assert '#' !in PATH && '#' !in GIT;
    if f.GitFile? {
      NoHashInQuery(f.signer, f.at);
    }
  }

  lemma IdentifierIsBare(s: string)
    requires IsIdentifier(s)
    ensures s != "" && s[0] != '"' && '.' !in s
  {}

  /** Segments split back uniquely, the quoted and the bare ones. */
  lemma {:induction false} ReadsSegments(segments: seq<string>)
    requires segments != [] && forall s | s in segments :: IsSegment(s)
    ensures ReadSegments(ShownSegments(segments)) == Some(segments)
    decreases |segments|
  {
    var first := segments[0];
    assert IsSegment(first);
    var rest := if |segments| == 1 then "" else ['.'] + ShownSegments(segments[1..]);
    if |segments| > 1 {
      ReadsSegments(segments[1..]);
      assert rest[1..] == ShownSegments(segments[1..]);
      assert [first] + segments[1..] == segments;
    } else {
      assert segments == [first];
    }
    if IsIdentifier(first) {
      ReadsBare(first, segments);
    } else {
      var t := ['"'] + (first + ['"']) + rest;
      assert t[1..] == first + (['"'] + rest);
      SplitsAtFirst(first, '"', rest);
    }
  }

  lemma ReadsBare(first: string, segments: seq<string>)
    requires segments != [] && segments[0] == first && IsIdentifier(first)
    requires |segments| > 1 ==> ReadSegments(ShownSegments(segments[1..])) == Some(segments[1..])
    ensures ReadSegments(ShownSegments(segments)) == Some(segments)
  {
    IdentifierIsBare(first);
    if |segments| == 1 {
      assert first + "" == first && segments == [first];
      NothingToSplit(first, '.');
    } else {
      var rest := ShownSegments(segments[1..]);
      SplitsAtFirst(first, '.', rest);
      assert (first + (['.'] + rest))[0] == first[0];
      assert [first] + segments[1..] == segments;
    }
  }

  /** Reading undoes rendering. */
  lemma ReadsRendered(i: Installable)
    requires ValidInstallable(i)
    ensures Read(Rendered(i)) == Some(i)
  {
    SegmentsAreBytes(i.segments);
    var flake, attrPath := ShownFlake(i.flake), ShownSegments(i.segments);
    NoHashInFlake(i.flake);
    SplitsAtFirst(flake, '#', Encoded(false, attrPath));
    ReadsFlake(i.flake);
    DecodesEncoded(false, attrPath);
    ReadsSegments(i.segments);
  }

  /** Different installables never have the same text. */
  lemma RenderingTellsInstallablesApart(a: Installable, b: Installable)
    requires ValidInstallable(a) && ValidInstallable(b)
    ensures Rendered(a) == Rendered(b) <==> a == b
  {
    ReadsRendered(a);
    ReadsRendered(b);
  }
}
