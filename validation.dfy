/** The pieces of zod's string schemas that the forms use: a minimum length
    with its message, the email pattern, and the per-field error list that
    react-hook-form shows (the first failing check of each field). */
module Validation {
  import opened Text

  /** One message attached to one form field. */
  datatype FieldError = FieldError(path: string, message: string)

  /** The error `check` adds for `path` when it fails, in list form. */
  function Check(ok: bool, path: string, message: string): (r: seq<FieldError>)
    ensures ok <==> r == []
    ensures !ok ==> r == [FieldError(path, message)]
  {
    if ok then [] else [FieldError(path, message)]
  }

  /** zod's `.min(n)`: at least `n` characters. */
  predicate MinLength(s: string, n: nat) {
    |s| >= n
  }

  predicate IsLetter(c: char) {
    'a' <= c <= 'z' || 'A' <= c <= 'Z'
  }

  predicate IsAlnum(c: char) {
    IsLetter(c) || '0' <= c <= '9'
  }

  /** Characters allowed before the last character of the local part. */
  predicate IsLocalChar(c: char) {
    IsAlnum(c) || c == '_' || c == '\'' || c == '+' || c == '-' || c == '.'
  }

  /** Characters allowed as the last character of the local part. */
  predicate IsLocalEnd(c: char) {
    IsAlnum(c) || c == '_' || c == '+' || c == '-'
  }

  /** A domain label before a dot: starts with a letter or digit, then
      letters, digits and hyphens. */
  predicate IsLabel(s: string) {
    |s| >= 1 && IsAlnum(s[0]) && forall i :: 0 <= i < |s| ==> IsAlnum(s[i]) || s[i] == '-'
  }

  /** The top-level domain: two or more letters. */
  predicate IsTopLevel(s: string) {
    |s| >= 2 && forall i :: 0 <= i < |s| ==> IsLetter(s[i])
  }

  predicate IsLocalPart(s: string) {
    |s| >= 1 && s[0] != '.' &&
    (forall i :: 0 <= i < |s| ==> IsLocalChar(s[i])) && IsLocalEnd(s[|s| - 1])
  }

  predicate IsDomain(s: string) {
    var labels := Split(s, '.');
    |labels| >= 2 && IsTopLevel(labels[|labels| - 1]) &&
    forall i :: 0 <= i < |labels| - 1 ==> IsLabel(labels[i])
  }

  predicate HasDoubleDot(s: string) {
    exists i :: 0 <= i < |s| - 1 && s[i] == '.' && s[i + 1] == '.'
  }

  /** zod's `.email()` pattern, case-insensitive:
      a local part of `[A-Z0-9_'+\-.]*` ending in `[A-Z0-9_+-]`, not starting
      with a dot, then `@`, then one or more labels each followed by a dot,
      then a top-level domain of two or more letters; no `..` anywhere.
      The local part holds no `@`, so it ends at the first one. */
  predicate ValidEmail(s: string) {
    var at := Split(s, '@');
    |at| == 2 && IsLocalPart(at[0]) && IsDomain(at[1]) && !HasDoubleDot(s)
  }

  /** An address assembled from a local part, one label and a top-level
      domain matches the pattern. */
  lemma EmailFromParts(local: string, host: string, top: string)
    requires IsLocalPart(local) && !Contains(local, '@')
    requires IsLabel(host) && !Contains(host, '@') && !Contains(host, '.')
    requires IsTopLevel(top) && !Contains(top, '@') && !Contains(top, '.')
    requires !HasDoubleDot(local + "@" + host + "." + top)
    ensures ValidEmail(local + "@" + host + "." + top)
  {
    var domain := host + "." + top;
    forall k | 0 <= k < |domain|
      ensures domain[k] != '@'
    {
      if k < |host| {
        assert domain[k] == host[k];
      } else if k > |host| {
        assert domain[k] == top[k - |host| - 1];
      }
    }
    assert local + "@" + host + "." + top == local + ['@'] + domain;
    SplitAfterHead(local, domain, '@');
    SplitWithoutSeparator(domain, '@');
    assert domain == host + ['.'] + top;
    SplitAfterHead(host, top, '.');
    SplitWithoutSeparator(top, '.');
  }
}
