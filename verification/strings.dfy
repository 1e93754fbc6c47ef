/** Substring search and decimal rendering, as used for messages and token claims. */
module Strings {

  /** `strings.Contains(s, t)`: `t` occurs in `s` at some offset. */
  ghost predicate Contains(s: string, t: string) {
    exists i :: OccursAt(s, t, i)
  }

  /** `t` occurs in `s` starting at offset `i`. */
  ghost predicate OccursAt(s: string, t: string, i: int) {
    0 <= i <= |s| - |t| && s[i..i + |t|] == t
  }

  /** A string contains each of its prefixes. */
  lemma PrefixContained(s: string, t: string)
    requires t <= s
    ensures Contains(s, t)
  {
    assert OccursAt(s, t, 0);
  }

  /** A string that lacks a character of `t` cannot contain `t`. */
  lemma MissingCharNotContained(s: string, t: string, c: char)
    requires c in t
    requires c !in s
    ensures !Contains(s, t)
  {
  }

  /** Whatever contains `t` contains every prefix of `t`. */
  lemma ContainsPrefix(s: string, t: string, p: string)
    requires Contains(s, t)
    requires p <= t
    ensures Contains(s, p)
  {
    var i :| OccursAt(s, t, i);
    assert s[i..i + |p|] == t[..|p|];
    assert OccursAt(s, p, i);
  }

  predicate IsDigit(c: char) { '0' <= c <= '9' }

  predicate IsLower(c: char) { 'a' <= c <= 'z' }

  /** Every character of `s` has property `p`. */
  predicate All(s: string, p: char -> bool) {
    s == [] || (p(s[0]) && All(s[1..], p))
  }

  /** `All` distributes over concatenation. */
  lemma {:induction false} AllConcat(a: string, b: string, p: char -> bool)
    ensures All(a + b, p) <==> All(a, p) && All(b, p)
  {
    if a != [] {
      assert (a + b)[1..] == a[1..] + b;
      AllConcat(a[1..], b, p);
    } else {
      assert a + b == b;
    }
  }

  /** A character without property `p` occurs in no string all of whose characters have it. */
  lemma {:induction false} AllExcludes(s: string, p: char -> bool, c: char)
    requires All(s, p)
    requires !p(c)
    ensures c !in s
  {
    if s != [] {
      AllExcludes(s[1..], p, c);
      assert s == [s[0]] + s[1..];
    }
  }

  function Digit(d: nat): (c: char)
    requires d < 10
    ensures '0' <= c <= '9'
  {
    ('0' as int + d) as char
  }

  /** Decimal rendering of a natural number: the text of a rule's parameter, such as `8` in `min=8`. */
  function NatToString(n: nat): (s: string)
    ensures |s| > 0
    ensures All(s, IsDigit)
  {
    if n < 10 then [Digit(n)]
    else
      var s := NatToString(n / 10) + [Digit(n % 10)];
      AllConcat(NatToString(n / 10), [Digit(n % 10)], IsDigit);
      s
  }
}
