/** Currency codes and the upper-casing both services apply before any lookup
    (`toUpperCase`, taken here on ASCII letters only). */
module Codes {

  /** A currency code as the services receive it: an arbitrary string. */
  type Code = string

  predicate IsLowerAscii(c: char) {
    'a' <= c <= 'z'
  }

  /** Upper-cases one ASCII letter; every other character is left alone. */
  function UpperChar(c: char): (u: char)
    ensures !IsLowerAscii(u)
  {
    if IsLowerAscii(c) then (c as int - 32) as char else c
  }

  /** No lower-case ASCII letter occurs in `s`. */
  predicate IsUpperCase(s: string) {
    forall i :: 0 <= i < |s| ==> !IsLowerAscii(s[i])
  }

  /** `String.toUpperCase`, restricted to ASCII. */
  function Upper(s: string): (r: string)
    ensures |r| == |s|
    ensures IsUpperCase(r)
  {
    if s == [] then [] else [UpperChar(s[0])] + Upper(s[1..])
  }

  /** The same letter up to ASCII case: an independent description of what
      upper-casing identifies. */
  predicate SameLetter(a: char, b: char) {
    || a == b
    || (IsLowerAscii(a) && b as int == a as int - 32)
    || (IsLowerAscii(b) && a as int == b as int - 32)
  }

  predicate EqualIgnoringCase(s: string, t: string) {
    |s| == |t| && forall i :: 0 <= i < |s| ==> SameLetter(s[i], t[i])
  }

  lemma UpperCharAgree(a: char, b: char)
    ensures UpperChar(a) == UpperChar(b) <==> SameLetter(a, b)
  {
  }

  lemma {:induction false} UpperAt(s: string, i: int)
    requires 0 <= i < |s|
    ensures Upper(s)[i] == UpperChar(s[i])
  {
    if i > 0 {
      UpperAt(s[1..], i - 1);
    }
  }

  /** Upper-casing leaves an upper-case code as it is. */
  lemma UpperKeepsUpperCase(s: string)
    requires IsUpperCase(s)
    ensures Upper(s) == s
  {
    forall i | 0 <= i < |s|
      ensures Upper(s)[i] == s[i]
    {
      UpperAt(s, i);
    }
  }

  /** Upper-casing twice is upper-casing once. */
  lemma UpperIdempotent(s: string)
    ensures Upper(Upper(s)) == Upper(s)
  {
    UpperKeepsUpperCase(Upper(s));
  }

  /** Two codes are sent to the same key exactly when they differ only in
      the case of ASCII letters: "usd", "Usd" and "USD" are one currency. */
  lemma UpperEqualIff(s: string, t: string)
    ensures Upper(s) == Upper(t) <==> EqualIgnoringCase(s, t)
  {
    if Upper(s) == Upper(t) {
      forall i | 0 <= i < |s|
        ensures SameLetter(s[i], t[i])
      {
        UpperAt(s, i);
        UpperAt(t, i);
        UpperCharAgree(s[i], t[i]);
      }
    }
    if EqualIgnoringCase(s, t) {
      forall i | 0 <= i < |s|
        ensures Upper(s)[i] == Upper(t)[i]
      {
        UpperAt(s, i);
        UpperAt(t, i);
        UpperCharAgree(s[i], t[i]);
      }
    }
  }
}
