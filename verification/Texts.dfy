/** Numbers and strings as the SQL engine and the filters treat them: 64 bits, byte order, substrings, decimal texts. */
module Texts {
  function Abs(n: int): nat {
    if n < 0 then -n else n
  }

  predicate IsInt64(n: int) {
    -0x8000_0000_0000_0000 <= n <= 0x7fff_ffff_ffff_ffff
  }

  /** Byte-wise order of strings. */
  predicate TextLess(a: string, b: string) {
    if a == "" || b == "" then a == "" && b != ""
    else a[0] < b[0] || (a[0] == b[0] && TextLess(a[1..], b[1..]))
  }

  predicate Contains(s: string, p: string) {
    p <= s || (s != "" && Contains(s[1..], p))
  }

  /** a and b are the same up to k, where a ends or has the smaller byte. */
  predicate SmallerFrom(a: string, b: string, k: nat) {
    k <= |a| && k < |b| && a[..k] == b[..k] && (k == |a| || a[k] < b[k])
  }

  /** The order of strings is that of their first difference, a prefix coming first. */
  lemma {:induction false} TextLessExact(a: string, b: string)
    ensures TextLess(a, b) <==> exists k: nat :: SmallerFrom(a, b, k)
  {
    if a == "" || b == "" {
      if a == "" && b != "" { assert SmallerFrom(a, b, 0); }
    } else {
      TextLessExact(a[1..], b[1..]);
      if a[0] < b[0] {
        assert SmallerFrom(a, b, 0);
      } else if TextLess(a, b) {
        var k: nat :| SmallerFrom(a[1..], b[1..], k);
        SmallerShifts(a, b, k);
      } else if k: nat :| SmallerFrom(a, b, k) {
        assert k > 0 && a[0] == a[..k][0] == b[..k][0] == b[0];
        SmallerShifts(a, b, k - 1);
      }
    }
  }

  lemma SmallerShifts(a: string, b: string, k: nat)
    requires a != "" && b != "" && a[0] == b[0]
    ensures SmallerFrom(a, b, k + 1) <==> SmallerFrom(a[1..], b[1..], k)
  {
    if k < |a| && k < |b| {
      assert a[..k + 1] == [a[0]] + a[1..][..k] && b[..k + 1] == [b[0]] + b[1..][..k];
      if a[..k + 1] == b[..k + 1] { assert a[1..][..k] == a[..k + 1][1..] == b[..k + 1][1..] == b[1..][..k]; }
    }
  }

  predicate OccursAt(p: string, s: string, i: nat) {
    i + |p| <= |s| && s[i..i + |p|] == p
  }

  /** A string contains another when it has it at some place. */
  lemma {:induction false} ContainsExact(s: string, p: string)
    ensures Contains(s, p) <==> exists i: nat :: OccursAt(p, s, i)
  {
    OccursFirst(p, s);
    if p <= s {
      assert OccursAt(p, s, 0);
    } else if s != "" {
      ContainsExact(s[1..], p);
      if i: nat :| OccursAt(p, s[1..], i) { OccursLater(p, s, i); }
      if i: nat :| OccursAt(p, s, i) { OccursLater(p, s, i - 1); }
    }
  }

  lemma OccursFirst(p: string, s: string)
    ensures OccursAt(p, s, 0) <==> p <= s
  {
  }

  lemma OccursLater(p: string, s: string, i: nat)
    requires s != ""
    ensures OccursAt(p, s, i + 1) <==> OccursAt(p, s[1..], i)
  {
    if i + 1 + |p| <= |s| { assert s[1..][i..i + |p|] == s[i + 1..i + 1 + |p|]; }
  }

  function FormatInt(i: int): string {
    if i < 0 then "-" + DigitText(-i) else DigitText(i)
  }

  function DigitText(n: nat): string {
    (if n < 10 then "" else DigitText(n / 10)) + [(n % 10 + '0' as int) as char]
  }

  lemma {:induction false} TextLessTotal(a: string, b: string)
    ensures a == b || TextLess(a, b) || TextLess(b, a)
    ensures !(TextLess(a, b) && TextLess(b, a))
    ensures !TextLess(a, a)
  {
    if a != "" && b != "" {
      TextLessTotal(a[1..], b[1..]);
      if a[0] == b[0] && a[1..] == b[1..] { assert a == [a[0]] + a[1..] == b; }
    }
    if a != "" { TextLessTotal(a[1..], a[1..]); }
  }

  lemma {:induction false} TextLessTransitive(a: string, b: string, c: string)
    requires TextLess(a, b) && TextLess(b, c)
    ensures TextLess(a, c)
  {
    if a != "" && a[0] == b[0] == c[0] { TextLessTransitive(a[1..], b[1..], c[1..]); }
  }

  /** Different numbers have different decimal texts. */
  lemma {:induction false} DigitTextInjective(m: nat, n: nat)
    requires DigitText(m) == DigitText(n)
    ensures m == n
  {
    var a, b := DigitText(m), DigitText(n);
    assert a[|a| - 1] == b[|b| - 1];
    assert a[..|a| - 1] == b[..|b| - 1];
    assert a[..|a| - 1] == (if m < 10 then "" else DigitText(m / 10));
    assert b[..|b| - 1] == (if n < 10 then "" else DigitText(n / 10));
    if m >= 10 && n >= 10 { DigitTextInjective(m / 10, n / 10); }
  }

  lemma {:induction false} DigitTextDigits(n: nat)
    ensures DigitText(n) != "" && forall k :: 0 <= k < |DigitText(n)| ==> '0' <= DigitText(n)[k] <= '9'
  {
    if n >= 10 { DigitTextDigits(n / 10); }
  }

  lemma FormatIntInjective(m: int, n: int)
    requires FormatInt(m) == FormatInt(n)
    ensures m == n
  {
    DigitTextDigits(Abs(m));
    DigitTextDigits(Abs(n));
    assert FormatInt(m)[0] == FormatInt(n)[0];
    if m < 0 && n < 0 {
      assert FormatInt(m)[1..] == DigitText(-m) && FormatInt(n)[1..] == DigitText(-n);
      DigitTextInjective(-m, -n);
    } else if m >= 0 && n >= 0 {
      DigitTextInjective(m, n);
    }
  }
}
