/**
 * The character classes of Python's `string` module that the password
 * generators draw from. All of them are graphic characters of US-ASCII
 * (ANSI X3.4-1968, reproduced in RFC 20): together they are exactly the
 * 94 codes 0x21 ('!') to 0x7E ('~').
 */
module Ascii {

  /** string.ascii_lowercase */
  const AsciiLowercase: string := "abcdefghijklmnopqrstuvwxyz"
  /** string.ascii_uppercase */
  const AsciiUppercase: string := "ABCDEFGHIJKLMNOPQRSTUVWXYZ"
  /** string.ascii_letters */
  const AsciiLetters: string := AsciiLowercase + AsciiUppercase
  /** string.digits */
  const Digits: string := "0123456789"
  /** string.punctuation */
  const Punctuation: string := "!\"#$%&'()*+,-./:;<=>?@[\\]^_`{|}~"

  predicate IsLowercase(c: char) { 'a' <= c <= 'z' }
  predicate IsUppercase(c: char) { 'A' <= c <= 'Z' }
  predicate IsDigit(c: char) { '0' <= c <= '9' }
  /** The graphic ASCII characters that are neither letters nor digits. */
  predicate IsPunctuation(c: char) {
    ('!' <= c <= '/') || (':' <= c <= '@') || ('[' <= c <= '`') || ('{' <= c <= '~')
  }
  /** Graphic (printable, non-space) US-ASCII: codes 0x21 to 0x7E. */
  predicate IsGraphic(c: char) { '!' <= c <= '~' }

  /** The characters with codes lo to hi, in increasing order. */
  function CharRange(lo: char, hi: char): (r: string)
    requires hi as int < 0x80
    ensures |r| == if lo <= hi then hi as int - lo as int + 1 else 0
    ensures forall i :: 0 <= i < |r| ==> r[i] as int == lo as int + i
  {
    if lo <= hi then
      seq(hi as int - lo as int + 1, i requires 0 <= i <= hi as int - lo as int => (lo as int + i) as char)
    else
      []
  }

  lemma InCharRange(lo: char, hi: char, c: char)
    requires hi as int < 0x80
    ensures c in CharRange(lo, hi) <==> lo <= c <= hi
  {
    var r := CharRange(lo, hi);
    if lo <= c <= hi {
      assert r[c as int - lo as int] == c;
    }
  }

  predicate Increasing(s: string) {
    forall i, j :: 0 <= i < j < |s| ==> s[i] < s[j]
  }

  lemma IncreasingConcat(a: string, b: string)
    requires Increasing(a) && Increasing(b)
    requires forall i, j :: 0 <= i < |a| && 0 <= j < |b| ==> a[i] < b[j]
    ensures Increasing(a + b)
  {
  }

  /** The literal constants are the code-point ranges they look like. */
  lemma ClassesAreRanges()
    ensures AsciiLowercase == CharRange('a', 'z')
    ensures AsciiUppercase == CharRange('A', 'Z')
    ensures Digits == CharRange('0', '9')
    ensures Punctuation == CharRange('!', '/') + CharRange(':', '@') + CharRange('[', '`') + CharRange('{', '~')
  {
  }

  /** Each constant holds exactly the characters of its class. */
  lemma ClassMembership(c: char)
    ensures c in AsciiLowercase <==> IsLowercase(c)
    ensures c in AsciiUppercase <==> IsUppercase(c)
    ensures c in Digits <==> IsDigit(c)
    ensures c in Punctuation <==> IsPunctuation(c)
  {
    ClassesAreRanges();
    InCharRange('a', 'z', c);
    InCharRange('A', 'Z', c);
    InCharRange('0', '9', c);
    InCharRange('!', '/', c);
    InCharRange(':', '@', c);
    InCharRange('[', '`', c);
    InCharRange('{', '~', c);
  }

  /** Every graphic ASCII character is in exactly one of the four classes, and nothing else is in any. */
  lemma GraphicPartition(c: char)
    ensures IsGraphic(c) <==> IsLowercase(c) || IsUppercase(c) || IsDigit(c) || IsPunctuation(c)
    ensures IsPunctuation(c) ==> !IsLowercase(c) && !IsUppercase(c) && !IsDigit(c)
    ensures IsDigit(c) ==> !IsLowercase(c) && !IsUppercase(c)
    ensures IsUppercase(c) ==> !IsLowercase(c)
  {
  }

  /**
   * The order in which the generators assemble their alphabets:
   * lowercase letters, then uppercase letters, then digits, then punctuation.
   */
  function ClassRank(c: char): nat
  {
    if IsLowercase(c) then 0
    else if IsUppercase(c) then 1
    else if IsDigit(c) then 2
    else if IsPunctuation(c) then 3
    else 4
  }

  /** a comes before b: an earlier class, or the same class and a smaller code. */
  predicate Before(a: char, b: char)
  {
    ClassRank(a) < ClassRank(b) || (ClassRank(a) == ClassRank(b) && a < b)
  }

  /** s is sorted by class, then by code, with no character repeated. */
  predicate InClassOrder(s: string)
  {
    forall i, j :: 0 <= i < j < |s| ==> Before(s[i], s[j])
  }

  lemma InClassOrderDistinct(s: string)
    requires InClassOrder(s)
    ensures forall i, j :: 0 <= i < j < |s| ==> s[i] != s[j]
  {
  }

  /** Appending a sorted block of one class after characters of earlier classes keeps the order. */
  lemma {:induction false} OrderedAppend(a: string, b: string, k: nat)
    requires InClassOrder(a) && InClassOrder(b)
    requires forall i :: 0 <= i < |a| ==> ClassRank(a[i]) < k
    requires forall j :: 0 <= j < |b| ==> ClassRank(b[j]) == k
    ensures InClassOrder(a + b)
    ensures forall i :: 0 <= i < |a + b| ==> ClassRank((a + b)[i]) <= k
  {
    var s := a + b;
    forall i, j | 0 <= i < j < |s| ensures Before(s[i], s[j]) {
      if j < |a| {
        assert Before(a[i], a[j]);
      } else if i < |a| {
        assert ClassRank(s[i]) < k == ClassRank(s[j]);
      } else {
        assert Before(b[i - |a|], b[j - |a|]);
      }
    }
  }

  lemma {:induction false} UniformOrdered(s: string, k: nat)
    requires Increasing(s)
    requires forall i :: 0 <= i < |s| ==> ClassRank(s[i]) == k
    ensures InClassOrder(s)
  {
    forall i, j | 0 <= i < j < |s| ensures Before(s[i], s[j]) {
      assert s[i] < s[j];
      assert ClassRank(s[i]) == ClassRank(s[j]);
    }
  }

  lemma {:induction false} RangeOrdered(lo: char, hi: char, k: nat)
    requires hi as int < 0x80
    requires forall c :: lo <= c <= hi ==> ClassRank(c) == k
    ensures Increasing(CharRange(lo, hi))
    ensures forall i :: 0 <= i < |CharRange(lo, hi)| ==> ClassRank(CharRange(lo, hi)[i]) == k
  {
    var r := CharRange(lo, hi);
    forall i | 0 <= i < |r| ensures ClassRank(r[i]) == k {
      assert lo <= r[i] <= hi;
    }
  }

  lemma LowercaseOrdered()
    ensures InClassOrder(AsciiLowercase)
    ensures forall i :: 0 <= i < |AsciiLowercase| ==> ClassRank(AsciiLowercase[i]) == 0
  {
    ClassesAreRanges();
    RangeOrdered('a', 'z', 0);
    UniformOrdered(AsciiLowercase, 0);
  }

  lemma UppercaseOrdered()
    ensures InClassOrder(AsciiUppercase)
    ensures forall i :: 0 <= i < |AsciiUppercase| ==> ClassRank(AsciiUppercase[i]) == 1
  {
    ClassesAreRanges();
    RangeOrdered('A', 'Z', 1);
    UniformOrdered(AsciiUppercase, 1);
  }

  lemma DigitsOrdered()
    ensures InClassOrder(Digits)
    ensures forall i :: 0 <= i < |Digits| ==> ClassRank(Digits[i]) == 2
  {
    ClassesAreRanges();
    RangeOrdered('0', '9', 2);
    UniformOrdered(Digits, 2);
  }

  lemma PunctuationOrdered()
    ensures InClassOrder(Punctuation)
    ensures forall i :: 0 <= i < |Punctuation| ==> ClassRank(Punctuation[i]) == 3
  {
    ClassesAreRanges();
    var p1, p2, p3, p4 := CharRange('!', '/'), CharRange(':', '@'), CharRange('[', '`'), CharRange('{', '~');
    RangeOrdered('!', '/', 3);
    RangeOrdered(':', '@', 3);
    RangeOrdered('[', '`', 3);
    RangeOrdered('{', '~', 3);
    IncreasingConcat(p1, p2);
    IncreasingConcat(p1 + p2, p3);
    IncreasingConcat(p1 + p2 + p3, p4);
    UniformOrdered(Punctuation, 3);
  }
}
