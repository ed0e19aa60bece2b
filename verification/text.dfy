/**
 * The string operations the core relies on: upper-casing, ordinal
 * case-insensitive equality, the test for null-or-whitespace, and the UTF-16
 * length .NET strings report. Case folding is ASCII-only: letters outside a..z
 * are left unchanged.
 */
module Text {

  function UpperChar(c: char): (u: char)
    ensures 'a' <= c <= 'z' ==> 'A' <= u <= 'Z' && u as int == c as int - 32
    ensures !('a' <= c <= 'z') ==> u == c
  {
    if 'a' <= c <= 'z' then (c as int - 32) as char else c
  }

  /** Every character upper-cased, length kept. */
  function ToUpper(s: string): (r: string)
    ensures |r| == |s|
    ensures forall i :: 0 <= i < |s| ==> r[i] == UpperChar(s[i])
  {
    seq(|s|, i requires 0 <= i < |s| => UpperChar(s[i]))
  }

  /**
   * The number of UTF-16 code units a character takes: characters beyond the
   * Basic Multilingual Plane are stored as a surrogate pair.
   */
  function Utf16Units(c: char): (n: nat)
    ensures n == 1 || n == 2
    ensures n == 2 <==> c as int >= 0x1_0000
  {
    if c as int >= 0x1_0000 then 2 else 1
  }

  /** A .NET string's `Length`: the number of UTF-16 code units. */
  function Utf16Length(s: string): (n: nat)
    ensures |s| <= n <= 2 * |s|
  {
    if s == [] then 0 else Utf16Units(s[0]) + Utf16Length(s[1..])
  }

  /** The UTF-16 length equals the character count exactly when no character needs a surrogate pair. */
  lemma {:induction false} Utf16LengthIsCountIffBmp(s: string)
    ensures Utf16Length(s) == |s| <==> forall i :: 0 <= i < |s| ==> s[i] as int < 0x1_0000
  {
    if s != [] {
      Utf16LengthIsCountIffBmp(s[1..]);
      assert forall i :: 1 <= i < |s| ==> s[i] == s[1..][i - 1];
    }
  }

  /** The UTF-16 length of a concatenation is the sum of the lengths. */
  lemma {:induction false} Utf16LengthAppend(a: string, b: string)
    ensures Utf16Length(a + b) == Utf16Length(a) + Utf16Length(b)
  {
    if a == [] {
      assert a + b == b;
    } else {
      assert (a + b)[1..] == a[1..] + b;
      Utf16LengthAppend(a[1..], b);
    }
  }

  /** Upper-casing never changes the UTF-16 length. */
  lemma {:induction false} ToUpperKeepsUtf16Length(s: string)
    ensures Utf16Length(ToUpper(s)) == Utf16Length(s)
  {
    if s != [] {
      assert ToUpper(s)[1..] == ToUpper(s[1..]);
      ToUpperKeepsUtf16Length(s[1..]);
    }
  }

  /** An emoji is one character but two code units; a letter is one of each. */
  lemma Utf16LengthExamples()
    ensures Utf16Length("\U{1F600}") == 2
    ensures Utf16Length("A\U{1F600}") == 3
    ensures Utf16Length("US") == 2
  {
    assert "A\U{1F600}"[1..] == "\U{1F600}";
    assert "US"[1..] == "S";
  }

  /** Ordinal case-insensitive string equality. */
  predicate EqualsIgnoreCase(a: string, b: string) {
    ToUpper(a) == ToUpper(b)
  }

  /** The characters .NET counts as whitespace (Unicode Zs, Zl, Zp and the listed controls). */
  predicate IsWhiteSpace(c: char) {
    var n := c as int;
    || (0x09 <= n <= 0x0D) || n == 0x20 || n == 0x85 || n == 0xA0 || n == 0x1680
    || (0x2000 <= n <= 0x200A) || n == 0x2028 || n == 0x2029 || n == 0x202F
    || n == 0x205F || n == 0x3000
  }

  /** A non-null string that is empty or whitespace only. */
  predicate IsBlank(s: string) {
    forall i :: 0 <= i < |s| ==> IsWhiteSpace(s[i])
  }

  /** Case-insensitive equality is the character-by-character comparison of upper-cased letters. */
  lemma EqualsIgnoreCaseCharwise(a: string, b: string)
    ensures EqualsIgnoreCase(a, b) <==>
              |a| == |b| && forall i :: 0 <= i < |a| ==> UpperChar(a[i]) == UpperChar(b[i])
  {
    if |a| == |b| && forall i :: 0 <= i < |a| ==> UpperChar(a[i]) == UpperChar(b[i]) {
      assert forall i :: 0 <= i < |a| ==> ToUpper(a)[i] == ToUpper(b)[i];
    }
  }

  /** Upper-casing twice is upper-casing once. */
  lemma ToUpperIdempotent(s: string)
    ensures ToUpper(ToUpper(s)) == ToUpper(s)
  {
  }

  /** A string equals its upper-cased form ignoring case, so case never matters to the comparison. */
  lemma EqualsIgnoreCaseOfUpper(a: string, b: string)
    ensures EqualsIgnoreCase(a, b) <==> EqualsIgnoreCase(ToUpper(a), b)
  {
    ToUpperIdempotent(a);
  }

  /** Upper-casing neither creates nor removes whitespace. */
  lemma ToUpperKeepsBlank(s: string)
    ensures IsBlank(ToUpper(s)) <==> IsBlank(s)
  {
    assert forall i :: 0 <= i < |s| ==> (IsWhiteSpace(ToUpper(s)[i]) <==> IsWhiteSpace(s[i]));
  }
}
