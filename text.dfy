/**
 * String helpers standing for the JavaScript string operations the source uses:
 * `toLowerCase` (ASCII letters only), `trim`, `includes`, `slice`, and the email
 * syntax check that zod's `.email()` performs.
 */
module Text {

  predicate IsUpperAscii(c: char) { 'A' <= c <= 'Z' }

  /** The white space `String.prototype.trim` removes, restricted to ASCII:
      space, and tab through carriage return (U+0009 to U+000D). */
  predicate IsWhitespace(c: char) { c == ' ' || '\t' <= c <= '\r' }

  function LowerChar(c: char): (r: char)
    ensures !IsUpperAscii(r)
    ensures IsWhitespace(r) <==> IsWhitespace(c)
  {
    if IsUpperAscii(c) then (c as int + 32) as char else c
  }

  function UpperChar(c: char): (r: char)
    ensures LowerChar(r) == LowerChar(c)
  {
    if 'a' <= c <= 'z' then (c as int - 32) as char else c
  }

  /** No ASCII upper-case letter occurs in `s`. */
  predicate NoUpper(s: string) {
    forall i :: 0 <= i < |s| ==> !IsUpperAscii(s[i])
  }

  /** `s.toLowerCase()` on ASCII letters. */
  function Lower(s: string): (r: string)
    ensures |r| == |s| && NoUpper(r)
    ensures forall i :: 0 <= i < |s| ==>
              if IsUpperAscii(s[i]) then r[i] as int == s[i] as int + 32 else r[i] == s[i]
  {
    seq(|s|, i requires 0 <= i < |s| => LowerChar(s[i]))
  }

  /** `s.toUpperCase()` on ASCII letters. */
  function Upper(s: string): (r: string)
    ensures |r| == |s| && Lower(r) == Lower(s)
  {
    seq(|s|, i requires 0 <= i < |s| => UpperChar(s[i]))
  }

  /** Lower-casing leaves a string without upper-case letters as it is. */
  lemma LowerOfNoUpper(s: string)
    requires NoUpper(s)
    ensures Lower(s) == s
  {
  }

  /** White space removed from the front of `s`. */
  function TrimStart(s: string): (r: string)
    ensures |r| <= |s| && r == s[|s| - |r|..]
    ensures |r| > 0 ==> !IsWhitespace(r[0])
    ensures forall i :: 0 <= i < |s| - |r| ==> IsWhitespace(s[i])
  {
    if |s| > 0 && IsWhitespace(s[0]) then TrimStart(s[1..]) else s
  }

  /** White space removed from the end of `s`. */
  function TrimEnd(s: string): (r: string)
    ensures |r| <= |s| && r == s[..|r|]
    ensures |r| > 0 ==> !IsWhitespace(r[|r| - 1])
    ensures forall i :: |r| <= i < |s| ==> IsWhitespace(s[i])
  {
    if |s| > 0 && IsWhitespace(s[|s| - 1]) then TrimEnd(s[..|s| - 1]) else s
  }

  /** `s.trim()`: the longest slice of `s` that neither starts nor ends with white space. */
  function Trim(s: string): (r: string)
    ensures |r| <= |s|
    ensures WhitespaceCutFrom(s, r)
    ensures |r| > 0 ==> !IsWhitespace(r[0]) && !IsWhitespace(r[|r| - 1])
    ensures NoUpper(s) ==> NoUpper(r)
  {
    var u := TrimStart(s);
    var r := TrimEnd(u);
    TrimIsSlice(s, u, r);
    r
  }

  /** Trimming both ends removes white space only: cutting white space off the front of
      `s` (giving `u`) and then off the back of `u` (giving `r`) leaves a slice of `s`. */
  lemma TrimIsSlice(s: string, u: string, r: string)
    requires |u| <= |s| && u == s[|s| - |u|..]
    requires forall i :: 0 <= i < |s| - |u| ==> IsWhitespace(s[i])
    requires |r| <= |u| && r == u[..|r|]
    requires forall i :: |r| <= i < |u| ==> IsWhitespace(u[i])
    requires |u| > 0 ==> !IsWhitespace(u[0])
    ensures WhitespaceCutFrom(s, r)
    ensures |r| > 0 ==> !IsWhitespace(r[0])
    ensures NoUpper(s) ==> NoUpper(r)
  {
    var a := |s| - |u|;
    forall k | 0 <= k < |r|
      ensures r[k] == s[a + k]
    {
      assert r[k] == u[k] == s[a + k];
    }
    forall i | a + |r| <= i < |s|
      ensures IsWhitespace(s[i])
    {
      assert s[i] == u[i - a];
    }
    assert r == s[a..a + |r|] && OnlyWhitespaceOutside(s, a, a + |r|);
  }

  /** `r` is a slice `s[a..b]` of `s` with nothing but white space cut away around it. */
  predicate WhitespaceCutFrom(s: string, r: string) {
    exists a, b :: 0 <= a <= b <= |s| && r == s[a..b] && OnlyWhitespaceOutside(s, a, b)
  }

  /** Every character of `s` before index `a` or from index `b` on is white space. */
  predicate OnlyWhitespaceOutside(s: string, a: int, b: int)
    requires 0 <= a <= b <= |s|
  {
    (forall i :: 0 <= i < a ==> IsWhitespace(s[i])) && (forall i :: b <= i < |s| ==> IsWhitespace(s[i]))
  }

  /** A string that neither starts nor ends with white space is its own trim. */
  lemma TrimOfTrimmed(s: string)
    requires |s| > 0 ==> !IsWhitespace(s[0]) && !IsWhitespace(s[|s| - 1])
    ensures Trim(s) == s
  {
  }

  /** Trimming twice is trimming once. */
  lemma {:induction false} TrimIdempotent(s: string)
    ensures Trim(Trim(s)) == Trim(s)
  {
    TrimOfTrimmed(Trim(s));
  }

  /** `s.includes(sub)`. */
  predicate Contains(s: string, sub: string)
    decreases |s|
  {
    sub <= s || (|s| > 0 && Contains(s[1..], sub))
  }

  lemma {:induction false} ContainsAt(s: string, sub: string, k: nat)
    requires k + |sub| <= |s| && s[k..k + |sub|] == sub
    ensures Contains(s, sub)
    decreases k
  {
    if k == 0 {
      assert sub <= s;
    } else {
      assert s[1..][k - 1..k - 1 + |sub|] == sub;
      ContainsAt(s[1..], sub, k - 1);
    }
  }

  /** The converse of `ContainsAt`: whenever `s.includes(sub)`, `sub` occurs at some
      index of `s`. */
  lemma {:induction false} ContainsFound(s: string, sub: string) returns (k: nat)
    requires Contains(s, sub)
    ensures k + |sub| <= |s| && s[k..k + |sub|] == sub
    decreases |s|
  {
    if sub <= s {
      k := 0;
    } else {
      var j := ContainsFound(s[1..], sub);
      assert s[1..][j..j + |sub|] == s[j + 1..j + 1 + |sub|];
      k := j + 1;
    }
  }

  /** `sub` occurs in `s` starting at index `k`. */
  predicate OccursAt(s: string, sub: string, k: nat) {
    k + |sub| <= |s| && s[k..k + |sub|] == sub
  }

  /** `s.includes(sub)` holds exactly when `sub` occurs at some index of `s`. */
  lemma ContainsExact(s: string, sub: string)
    ensures Contains(s, sub) <==> exists k: nat :: OccursAt(s, sub, k)
  {
    if Contains(s, sub) {
      var k := ContainsFound(s, sub);
      assert OccursAt(s, sub, k);
    }
    forall k: nat | OccursAt(s, sub, k)
      ensures Contains(s, sub)
    {
      ContainsAt(s, sub, k);
    }
  }

  /** `s.slice(0, n)`. */
  function Take(s: string, n: nat): (r: string)
    ensures |r| <= n && r <= s
    ensures |s| <= n ==> r == s
    ensures |r| == if |s| <= n then |s| else n
  {
    if |s| <= n then s else s[..n]
  }

  /** A syntactically plausible e-mail address: a local part and a domain joined by the
      only `@`; neither part empty nor holding white space, and the domain has a dot that
      is neither its first nor its last character.  This stands for the regular expression
      behind zod's `.email()`, which accepts upper-case letters. */
  predicate IsEmail(s: string) {
    exists i :: 0 < i < |s| && s[i] == '@' && EmailParts(s[..i], s[i + 1..])
  }

  predicate EmailParts(local: string, domain: string) {
    && |local| > 0
    && (forall k :: 0 <= k < |local| ==> local[k] != '@' && !IsWhitespace(local[k]))
    && (forall k :: 0 <= k < |domain| ==> domain[k] != '@' && !IsWhitespace(domain[k]))
    && (exists k :: 0 < k < |domain| - 1 && domain[k] == '.')
  }

  /** Decimal digits of a natural number, as JavaScript's template literals print it. */
  function NatToString(n: nat): (r: string)
    ensures |r| > 0
    ensures forall i :: 0 <= i < |r| ==> '0' <= r[i] <= '9'
    ensures DecimalValue(r) == n
    ensures n > 0 ==> r[0] != '0'
  {
    if n < 10 then [Digit(n)]
    else
      var prefix := NatToString(n / 10);
      var r := prefix + [Digit(n % 10)];
      assert r[..|r| - 1] == prefix;
      r
  }

  /** The number a run of decimal digits denotes, most significant digit first. */
  function DecimalValue(digits: string): int {
    if digits == [] then 0
    else DecimalValue(digits[..|digits| - 1]) * 10 + (digits[|digits| - 1] as int - '0' as int)
  }

  function Digit(d: nat): (c: char)
    requires d < 10
    ensures '0' <= c <= '9' && c as int - '0' as int == d
  {
    ('0' as int + d) as char
  }
}
