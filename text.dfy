/**
 * String helpers shared by the edge functions: ASCII lower-casing
 * (`toLowerCase`), substring search (`includes`), whole-word search (the
 * `\b...\b` regexes), `Array.join`, and decimal rendering of numbers in
 * template strings.
 */
module Text {

  /** A loop's processed prefix grows by one element: the step every prefix-fold invariant takes. */
  lemma PrefixStep<T>(s: seq<T>, i: nat)
    requires i < |s|
    ensures s[..i + 1][..i] == s[..i] && s[..i + 1][i] == s[i]
  {
  }

  /** True when `c` is an ASCII upper-case letter. */
  predicate IsUpper(c: char) {
    'A' <= c <= 'Z'
  }

  function LowerChar(c: char): (r: char)
    ensures !IsUpper(r)
    ensures IsUpper(c) ==> r as int == c as int + 32
    ensures !IsUpper(c) ==> r == c
  {
    if IsUpper(c) then (c as int + 32) as char else c
  }

  /** `toLowerCase`, restricted to the ASCII letters. */
  function Lower(s: string): (r: string)
    ensures |r| == |s|
  {
    if s == [] then [] else [LowerChar(s[0])] + Lower(s[1..])
  }

  /** Each character is lower-cased on its own. */
  lemma {:induction false} LowerAt(s: string)
    ensures forall i :: 0 <= i < |s| ==> Lower(s)[i] == LowerChar(s[i])
  {
    if s != [] {
      LowerAt(s[1..]);
      assert forall i :: 1 <= i < |s| ==> Lower(s)[i] == Lower(s[1..])[i - 1];
    }
  }

  /** Lower-casing is idempotent: a lower-cased text has no upper-case letter left. */
  lemma LowerIdempotent(s: string)
    ensures Lower(Lower(s)) == Lower(s)
    ensures forall i :: 0 <= i < |s| ==> !IsUpper(Lower(s)[i])
  {
    LowerAt(s);
    LowerAt(Lower(s));
  }

  /** Lower-casing commutes with slicing. */
  lemma LowerSlice(s: string, i: nat, j: nat)
    requires i <= j <= |s|
    ensures Lower(s[i..j]) == Lower(s)[i..j]
  {
    LowerAt(s);
    LowerAt(s[i..j]);
    forall k | 0 <= k < j - i
      ensures Lower(s[i..j])[k] == Lower(s)[i..j][k]
    {
      assert s[i..j][k] == s[i + k];
    }
  }

  /** `p` occurs in `s` starting at position `k`. */
  predicate OccursAt(s: string, p: string, k: nat) {
    k + |p| <= |s| && s[k..k + |p|] == p
  }

  /** Lower-casing distributes over concatenation. */
  lemma {:induction false} LowerConcat(a: string, b: string)
    ensures Lower(a + b) == Lower(a) + Lower(b)
  {
    if a == [] {
      assert a + b == b;
    } else {
      assert (a + b)[0] == a[0];
      assert (a + b)[1..] == a[1..] + b;
      LowerConcat(a[1..], b);
      calc {
        Lower(a + b);
        [LowerChar(a[0])] + Lower(a[1..] + b);
        [LowerChar(a[0])] + (Lower(a[1..]) + Lower(b));
        ([LowerChar(a[0])] + Lower(a[1..])) + Lower(b);
        Lower(a) + Lower(b);
      }
    }
  }

  /** Does `p` occur in `s` at position `i` or later? */
  function ContainsFrom(s: string, p: string, i: nat): bool
    decreases |s| - i
  {
    if i + |p| > |s| then false
    else OccursAt(s, p, i) || ContainsFrom(s, p, i + 1)
  }

  /** `s.includes(p)`. */
  function Contains(s: string, p: string): bool {
    ContainsFrom(s, p, 0)
  }

  lemma {:induction false} ContainsFromAt(s: string, p: string, i: nat, k: nat)
    requires i <= k && OccursAt(s, p, k)
    ensures ContainsFrom(s, p, i)
    decreases k - i
  {
    if i < k {
      ContainsFromAt(s, p, i + 1, k);
    }
  }

  /** An occurrence anywhere makes `includes` true. */
  lemma ContainsAt(s: string, p: string, k: nat)
    requires OccursAt(s, p, k)
    ensures Contains(s, p)
  {
    ContainsFromAt(s, p, 0, k);
  }

  /** The characters `\w` stands for in a JavaScript regex without the `u` flag. */
  predicate IsWordChar(c: char) {
    'a' <= c <= 'z' || 'A' <= c <= 'Z' || '0' <= c <= '9' || c == '_'
  }

  /** `p` occurs at `k` in `s` with a word boundary on both sides. */
  predicate WordAt(s: string, p: string, k: nat)
    requires k + |p| <= |s|
  {
    && s[k..k + |p|] == p
    && (k == 0 || !IsWordChar(s[k - 1]))
    && (k + |p| == |s| || !IsWordChar(s[k + |p|]))
  }

  function ContainsWordFrom(s: string, p: string, i: nat): bool
    decreases |s| - i
  {
    if i + |p| > |s| then false
    else WordAt(s, p, i) || ContainsWordFrom(s, p, i + 1)
  }

  /** `/\bp\b/.test(s)` for a phrase `p` that starts and ends with a word character. */
  function ContainsWord(s: string, p: string): bool {
    ContainsWordFrom(s, p, 0)
  }

  lemma {:induction false} ContainsWordFromAt(s: string, p: string, i: nat, k: nat)
    requires i <= k && k + |p| <= |s| && WordAt(s, p, k)
    ensures ContainsWordFrom(s, p, i)
    decreases k - i
  {
    if i < k {
      ContainsWordFromAt(s, p, i + 1, k);
    }
  }

  /** A whole-word occurrence anywhere makes `ContainsWord` true. */
  lemma ContainsWordAt(s: string, p: string, k: nat)
    requires k + |p| <= |s| && WordAt(s, p, k)
    ensures ContainsWord(s, p)
  {
    ContainsWordFromAt(s, p, 0, k);
  }

  lemma {:induction false} ContainsWordFromWitness(s: string, p: string, i: nat) returns (k: nat)
    requires ContainsWordFrom(s, p, i)
    ensures i <= k && k + |p| <= |s| && WordAt(s, p, k)
    decreases |s| - i
  {
    if WordAt(s, p, i) {
      k := i;
    } else {
      k := ContainsWordFromWitness(s, p, i + 1);
    }
  }

  /**
   * A whole-word occurrence inside `b` stays whole-word when `b` is framed
   * by text that ends and starts with non-word characters.
   */
  lemma WordAtFramed(a: string, b: string, c: string, p: string, k: nat)
    requires k + |p| <= |b| && WordAt(b, p, k)
    requires a == [] || !IsWordChar(a[|a| - 1])
    requires c == [] || !IsWordChar(c[0])
    ensures |a| + k + |p| <= |a + b + c| && WordAt(a + b + c, p, |a| + k)
  {
    var s := a + b + c;
    var o := |a| + k;
    assert s[o..o + |p|] == b[k..k + |p|];
    if o > 0 {
      if k > 0 { assert s[o - 1] == b[k - 1]; } else { assert s[o - 1] == a[|a| - 1]; }
    }
    if o + |p| < |s| {
      if k + |p| < |b| { assert s[o + |p|] == b[k + |p|]; } else { assert s[o + |p|] == c[0]; }
    }
  }

  /** `Array.prototype.join(sep)` over strings. */
  function Join(parts: seq<string>, sep: string): string {
    if parts == [] then ""
    else if |parts| == 1 then parts[0]
    else parts[0] + sep + Join(parts[1..], sep)
  }

  predicate EndsWith(s: string, suffix: string) {
    |suffix| <= |s| && s[|s| - |suffix|..] == suffix
  }

  /**
   * Every part appears verbatim inside the joined string, preceded by the
   * separator (or the start) and followed by the separator (or the end).
   */
  lemma {:induction false} JoinPlacesPart(parts: seq<string>, sep: string, j: nat)
    returns (pre: string, post: string)
    requires j < |parts|
    ensures Join(parts, sep) == pre + parts[j] + post
    ensures j == 0 ==> pre == []
    ensures j > 0 ==> EndsWith(pre, sep)
    ensures j + 1 == |parts| ==> post == []
    ensures j + 1 < |parts| ==> StartsWith(post, sep)
  {
    if |parts| == 1 {
      pre, post := [], [];
    } else if j == 0 {
      pre, post := [], sep + Join(parts[1..], sep);
      assert post[..|sep|] == sep;
    } else {
      var pre', post' := JoinPlacesPart(parts[1..], sep, j - 1);
      assert parts[1..][j - 1] == parts[j];
      pre, post := parts[0] + sep + pre', post';
      assert Join(parts, sep) == parts[0] + sep + (pre' + parts[j] + post');
      if j == 1 {
        assert pre[|pre| - |sep|..] == sep;
      } else {
        assert pre[|pre| - |sep|..] == pre'[|pre'| - |sep|..];
      }
    }
  }

  function DigitChar(d: nat): (c: char)
    requires d < 10
    ensures '0' <= c <= '9'
  {
    ('0' as int + d) as char
  }

  /** `String(n)` for a non-negative integer. */
  function NatToDecimal(n: nat): (s: string)
    ensures |s| >= 1
    ensures forall i :: 0 <= i < |s| ==> '0' <= s[i] <= '9'
    decreases n
  {
    if n < 10 then [DigitChar(n)] else NatToDecimal(n / 10) + [DigitChar(n % 10)]
  }

  /** Reads a string of decimal digits back as a number. */
  function DecimalToNat(s: string): nat
    requires forall i :: 0 <= i < |s| ==> '0' <= s[i] <= '9'
  {
    if s == [] then 0
    else 10 * DecimalToNat(s[..|s| - 1]) + (s[|s| - 1] as int - '0' as int)
  }

  /** Rendering a number in decimal and reading it back gives the number. */
  lemma {:induction false} DecimalRoundTrip(n: nat)
    ensures DecimalToNat(NatToDecimal(n)) == n
    decreases n
  {
    var s := NatToDecimal(n);
    if n >= 10 {
      DecimalRoundTrip(n / 10);
      assert s == NatToDecimal(n / 10) + [DigitChar(n % 10)];
      assert s[..|s| - 1] == NatToDecimal(n / 10);
      assert s[|s| - 1] as int - '0' as int == n % 10;
    } else {
      assert s == [DigitChar(n)];
    }
  }

  /** Distinct numbers render as distinct decimal strings. */
  lemma DecimalInjective(a: nat, b: nat)
    requires NatToDecimal(a) == NatToDecimal(b)
    ensures a == b
  {
    DecimalRoundTrip(a);
    DecimalRoundTrip(b);
  }

  /** The whitespace `String.prototype.trim` removes (its ASCII part and NBSP). */
  predicate IsSpace(c: char) {
    c == ' ' || c == '\t' || c == '\n' || c == '\r' || c == '\U{000B}' || c == '\U{000C}' || c == '\U{00A0}'
  }

  function TrimStart(s: string): (r: string)
    ensures |r| <= |s| && r == s[|s| - |r|..]
    ensures r != [] ==> !IsSpace(r[0])
  {
    if s != [] && IsSpace(s[0]) then TrimStart(s[1..]) else s
  }

  function TrimEnd(s: string): (r: string)
    ensures |r| <= |s| && r == s[..|r|]
    ensures r != [] ==> !IsSpace(r[|r| - 1])
  {
    if s != [] && IsSpace(s[|s| - 1]) then TrimEnd(s[..|s| - 1]) else s
  }

  /** `trim()`: no leading or trailing whitespace remains. */
  function Trim(s: string): (r: string)
    ensures r != [] ==> !IsSpace(r[0]) && !IsSpace(r[|r| - 1])
  {
    TrimEnd(TrimStart(s))
  }

  /** A string with no whitespace at either end is its own trim. */
  lemma TrimTrimmed(s: string)
    requires s != [] ==> !IsSpace(s[0]) && !IsSpace(s[|s| - 1])
    ensures Trim(s) == s
  {
  }

  /** `trim()` removes whitespace only: the result is the middle of `s`, with nothing but spaces around it. */
  lemma TrimIsMiddle(s: string) returns (a: nat)
    ensures a + |Trim(s)| <= |s| && Trim(s) == s[a..a + |Trim(s)|]
    ensures forall i :: 0 <= i < a ==> IsSpace(s[i])
    ensures forall i :: a + |Trim(s)| <= i < |s| ==> IsSpace(s[i])
  {
    a := TrimStartCount(s);
    TrimEndCount(TrimStart(s));
  }

  lemma {:induction false} TrimStartCount(s: string) returns (a: nat)
    ensures a == |s| - |TrimStart(s)|
    ensures forall i :: 0 <= i < a ==> IsSpace(s[i])
  {
    if s != [] && IsSpace(s[0]) {
      var a' := TrimStartCount(s[1..]);
      a := a' + 1;
      assert forall i :: 1 <= i < a ==> s[i] == s[1..][i - 1];
    } else {
      a := 0;
    }
  }

  lemma {:induction false} TrimEndCount(s: string)
    ensures forall i :: |TrimEnd(s)| <= i < |s| ==> IsSpace(s[i])
  {
    if s != [] && IsSpace(s[|s| - 1]) {
      TrimEndCount(s[..|s| - 1]);
    }
  }

  predicate StartsWith(s: string, prefix: string) {
    |prefix| <= |s| && s[..|prefix|] == prefix
  }

  /** Index of the first space in `s`, or `|s|` when there is none. */
  function FirstSpace(s: string): (k: nat)
    ensures k <= |s|
  {
    if s == [] then 0 else if s[0] == ' ' then 0 else 1 + FirstSpace(s[1..])
  }

  lemma {:induction false} FirstSpaceAfter(d: string, e: string)
    requires forall i :: 0 <= i < |d| ==> d[i] != ' '
    ensures FirstSpace(d + " " + e) == |d|
  {
    if d != [] {
      assert (d + " " + e)[1..] == d[1..] + " " + e;
      FirstSpaceAfter(d[1..], e);
    }
  }

  /** Two strings made of a space-free head, a space and a tail agree only when both parts agree. */
  lemma SpaceSplit(d1: string, e1: string, d2: string, e2: string)
    requires forall i :: 0 <= i < |d1| ==> d1[i] != ' '
    requires forall i :: 0 <= i < |d2| ==> d2[i] != ' '
    requires d1 + " " + e1 == d2 + " " + e2
    ensures d1 == d2 && e1 == e2
  {
    var s := d1 + " " + e1;
    FirstSpaceAfter(d1, e1);
    FirstSpaceAfter(d2, e2);
    assert d1 == s[..|d1|] == (d2 + " " + e2)[..|d2|] == d2;
    assert e1 == s[|d1| + 1..] == (d2 + " " + e2)[|d2| + 1..] == e2;
  }

  /** No string occurs twice in `s`. */
  predicate NoDup<T(==)>(s: seq<T>) {
    forall i, j :: 0 <= i < j < |s| ==> s[i] != s[j]
  }
}
