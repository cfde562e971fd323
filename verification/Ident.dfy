/** Nix identifiers and the file names mix writes (crates/nixgen/src/ident.rs). */
module Ident {

  const RESERVED_WORDS: seq<string> :=
    ["assert", "else", "if", "in", "inherit", "let", "or", "rec", "then", "with"]

  predicate IsLower(c: char) { 'a' <= c <= 'z' }

  predicate IsDigit(c: char) { '0' <= c <= '9' }

  predicate IsAlpha(c: char) { 'a' <= c <= 'z' || 'A' <= c <= 'Z' }

  predicate StartsIdentifier(c: char) { IsAlpha(c) || c == '_' }

  predicate ContinuesIdentifier(c: char) {
    IsAlpha(c) || IsDigit(c) || c == '_' || c == '\'' || c == '-'
  }

  /** The shape the reader takes for an identifier, keywords included. */
  predicate IdentifierShaped(s: string) {
    s != "" && StartsIdentifier(s[0]) && forall i :: 1 <= i < |s| ==> ContinuesIdentifier(s[i])
  }

  predicate IsIdentifier(s: string) {
    IdentifierShaped(s) && s !in RESERVED_WORDS
  }

  /** The character at `i` is a dot with a neighbour on both sides, the left one not a dot. */
  predicate InnerDot(s: string, i: nat)
    requires i < |s|
  {
    s[i] == '.' && i > 0 && i + 1 < |s| && s[i - 1] != '.'
  }

  predicate IsFileName(s: string) {
    s != "" &&
    forall i :: 0 <= i < |s| ==>
      IsLower(s[i]) || IsDigit(s[i]) || (s[i] == '-' && i > 0) || InnerDot(s, i)
  }

  /** Byte by byte comparison, as a constant function of the source must do it. */
  method BytesEqual(a: string, b: string) returns (equal: bool)
    ensures equal == (a == b)
  {
    if |a| != |b| {
      return false;
    }
    var i := 0;
    while i < |a|
      invariant 0 <= i <= |a|
      invariant a[..i] == b[..i]
    {
      if a[i] != b[i] {
        return false;
      }
      i := i + 1;
    }
    return true;
  }

  method IsReserved(bytes: string) returns (reserved: bool)
    ensures reserved == (bytes in RESERVED_WORDS)
  {
    var i := 0;
    while i < |RESERVED_WORDS|
      invariant 0 <= i <= |RESERVED_WORDS|
      invariant bytes !in RESERVED_WORDS[..i]
    {
      var equal := BytesEqual(RESERVED_WORDS[i], bytes);
      if equal {
        return true;
      }
      i := i + 1;
    }
    return false;
  }

  method IsIdentifierBytes(bytes: string) returns (valid: bool)
    ensures valid == IsIdentifier(bytes)
  {
    if |bytes| == 0 {
      return false;
    }
    if !(IsAlpha(bytes[0]) || bytes[0] == '_') {
      return false;
    }
    var i := 1;
    while i < |bytes|
      invariant 1 <= i <= |bytes|
      invariant forall j :: 1 <= j < i ==> ContinuesIdentifier(bytes[j])
    {
      var b := bytes[i];
      if !(IsAlpha(b) || IsDigit(b) || b == '_' || b == '\'' || b == '-') {
        return false;
      }
      i := i + 1;
    }
    var reserved := IsReserved(bytes);
    return !reserved;
  }

  method IsFileNameBytes(bytes: string) returns (valid: bool)
    ensures valid == IsFileName(bytes)
  {
    if |bytes| == 0 {
      return false;
    }
    var i := 0;
    while i < |bytes|
      invariant 0 <= i <= |bytes|
      invariant forall j :: 0 <= j < i ==>
        IsLower(bytes[j]) || IsDigit(bytes[j]) || (bytes[j] == '-' && j > 0) || InnerDot(bytes, j)
    {
      var b := bytes[i];
      var dot := b == '.' && i > 0 && i + 1 < |bytes| && bytes[i - 1] != '.';
      if !(IsLower(b) || IsDigit(b) || (b == '-' && i > 0) || dot) {
        return false;
      }
      i := i + 1;
    }
    return true;
  }
}
