/**
 * Scans over strings used to write out the fixed regular expressions of
 * lib/ollama.go: literal occurrences, first occurrence from a position, and
 * the maximal run of characters from a class. A Go rune is a `char` here.
 */
module TextScan {
  import opened Basics

  /** True when `p` occurs in `s` starting at index `i`. */
  predicate StartsAt(s: string, p: string, i: nat) {
    i + |p| <= |s| && s[i..i + |p|] == p
  }

  /** True when `p` occurs somewhere inside `s`. */
  predicate Contains(s: string, p: string) {
    exists i: nat | i <= |s| :: StartsAt(s, p, i)
  }

  /** The index of the first occurrence of `p` in `s` at or after `from`. */
  function FindFrom(s: string, p: string, from: nat): (r: Option<nat>)
    requires from <= |s|
    ensures r.Some? ==> from <= r.value && StartsAt(s, p, r.value)
    ensures r.Some? ==> forall k: nat :: from <= k < r.value ==> !StartsAt(s, p, k)
    ensures r.None? ==> forall k: nat :: from <= k ==> !StartsAt(s, p, k)
    decreases |s| - from
  {
    if from + |p| > |s| then None
    else if s[from..from + |p|] == p then Some(from)
    else FindFrom(s, p, from + 1)
  }

  /** The end of the longest run of characters satisfying `keep` that starts at `i`. */
  function SpanEnd(s: string, i: nat, keep: char -> bool): (e: nat)
    requires i <= |s|
    ensures i <= e <= |s|
    ensures forall k :: i <= k < e ==> keep(s[k])
    ensures e < |s| ==> !keep(s[e])
    decreases |s| - i
  {
    if i == |s| || !keep(s[i]) then i else SpanEnd(s, i + 1, keep)
  }

  /** FindFrom returns `j` exactly when `j` is the first occurrence at or after `from`. */
  lemma FindFromIs(s: string, p: string, from: nat, j: nat)
    requires from <= |s|
    ensures FindFrom(s, p, from) == Some(j) <==>
      from <= j && StartsAt(s, p, j) && forall k: nat :: from <= k < j ==> !StartsAt(s, p, k)
  {
  }

  /** The first occurrence at or after `from` is what FindFrom returns. */
  lemma FindFromFirst(s: string, p: string, from: nat, j: nat)
    requires from <= j && StartsAt(s, p, j)
    requires forall k: nat :: from <= k < j ==> !StartsAt(s, p, k)
    ensures FindFrom(s, p, from) == Some(j)
  {
    FindFromIs(s, p, from, j);
  }

  /** SpanEnd returns `e` exactly when the run of `keep` characters from `i` stops at `e`. */
  lemma SpanEndIs(s: string, i: nat, keep: char -> bool, e: nat)
    requires i <= e <= |s|
    requires forall k :: i <= k < e ==> keep(s[k])
    requires e < |s| ==> !keep(s[e])
    ensures SpanEnd(s, i, keep) == e
  {
  }

  /** Go's `\s` class in RE2: tab, newline, form feed, carriage return and space. */
  predicate IsSpace(c: char) {
    c == ' ' || c == '\t' || c == '\n' || c == '\r' || c as int == 12
  }

  /** `[^\s]`: any character outside Go's `\s` class. */
  predicate NotSpace(c: char) {
    !IsSpace(c)
  }

  /** `[a-zA-Z_]`: a character that may start an identifier. */
  predicate IsIdentStart(c: char) {
    ('a' <= c <= 'z') || ('A' <= c <= 'Z') || c == '_'
  }

  /** `[a-zA-Z0-9_]`: a character that may continue an identifier. */
  predicate IsIdentChar(c: char) {
    IsIdentStart(c) || ('0' <= c <= '9')
  }

  /** A whole string of the form `[a-zA-Z_][a-zA-Z0-9_]*`. */
  predicate IsIdentifier(name: string) {
    |name| > 0 && IsIdentStart(name[0]) && forall k :: 0 <= k < |name| ==> IsIdentChar(name[k])
  }

  /** No character of `s` is `c`. */
  predicate Lacks(s: string, c: char) {
    forall k :: 0 <= k < |s| ==> s[k] != c
  }

  lemma LacksConcat(a: string, b: string, c: char)
    requires Lacks(a, c) && Lacks(b, c)
    ensures Lacks(a + b, c)
  {
    forall k | |a| <= k < |a + b| ensures (a + b)[k] != c {
      assert (a + b)[k] == b[k - |a|];
    }
  }
}
