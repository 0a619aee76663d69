/** The identifier rules shared by commands, stores and loaders (command.go:718-733, cutover_store.go:22-29). */
module Identifiers {

  predicate NameChar(c: char) {
    'a' <= c <= 'z' || '0' <= c <= '9' || c == '-' || c == '_' || c == '.'
  }

  predicate IdentifierChar(c: char) { NameChar(c) || 'A' <= c <= 'Z' }

  predicate Punctuation(c: char) { c == '-' || c == '_' || c == '.' }

  /** `validIdentifier`, for commands: a leading '-' or '_' is accepted. */
  predicate ValidIdentifier(value: string) {
    && 0 < |value| <= 128
    && value[0] != '.'
    && forall i :: 0 <= i < |value| ==> IdentifierChar(value[i])
  }

  /** The stores' own rule: an identifier that starts with a letter or digit. */
  predicate StoredIdentifier(value: string) {
    && 0 < |value| <= 128
    && !Punctuation(value[0])
    && forall i :: 0 <= i < |value| ==> IdentifierChar(value[i])
  }

  predicate ValidContainerName(value: string) {
    && 0 < |value| <= 128
    && !Punctuation(value[0])
    && forall i :: 0 <= i < |value| ==> NameChar(value[i])
  }
}
