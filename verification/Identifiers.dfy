/** The identifier tests of the statement builder and of the statement checker. */
module Identifiers {

  predicate IdentStart(c: char) {
    'a' <= c <= 'z' || 'A' <= c <= 'Z' || c == '_'
  }

  predicate IdentChar(c: char) {
    IdentStart(c) || '0' <= c <= '9'
  }

  /** In character codes: A to Z, a to z, the underscore, and then digits. */
  lemma IdentCharsExact(c: char)
    ensures IdentStart(c) <==> 65 <= c as int <= 90 || c as int == 95 || 97 <= c as int <= 122
    ensures IdentChar(c) <==> IdentStart(c) || 48 <= c as int <= 57
  {}

  /** The checker's identifier: the whole text is one. */
  predicate IsIdent(s: string) {
    |s| > 0 && IdentStart(s[0]) && forall i :: 0 <= i < |s| ==> IdentChar(s[i])
  }

  /** The builder's identifier test: its `$` also matches before one final
      newline. */
  predicate BuilderIdent(s: string) {
    IsIdent(s) || (|s| > 1 && s[|s| - 1] == '\n' && IsIdent(s[..|s| - 1]))
  }

  lemma BuilderIdentExact(s: string)
    ensures BuilderIdent(s) && '\n' !in s <==> IsIdent(s)
  {}

  predicate Distinct<T(==)>(s: seq<T>) {
    forall i, j :: 0 <= i < j < |s| ==> s[i] != s[j]
  }
}
