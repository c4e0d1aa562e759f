/**
 The few JavaScript value semantics the application's decisions depend on:
 optional values (`null`/`undefined`), string truthiness and `||` fallbacks,
 `Math.round`, string `.length` in UTF-16 code units, and the ASCII part of
 `toLowerCase`.
 */
module Js {

  /** An optional value; `None` stands for JavaScript's `null` / `undefined`. */
  datatype Option<+T> = None | Some(value: T)

  /** The outcome of a server action that throws an `Error` with a message on failure. */
  datatype Result<+T> = Ok(value: T) | Err(error: string)

  /** `!!s` for an optional string: `null`, `undefined` and `""` are falsy. */
  predicate Truthy(s: Option<string>) {
    s.Some? && s.value != ""
  }

  /** `s || fallback` for an optional string. */
  function OrElse(s: Option<string>, fallback: string): (r: string)
    ensures Truthy(s) ==> r == s.value
    ensures !Truthy(s) ==> r == fallback
  {
    if Truthy(s) then s.value else fallback
  }

  /** `Math.round(x)`: the nearest integer, halves rounded towards +infinity. */
  function Round(x: real): (r: int)
    ensures r as real - 0.5 <= x < r as real + 0.5
  {
    (x + 0.5).Floor
  }

  /** Rounding an integral value gives that value back. */
  lemma RoundIntegral(n: int)
    ensures Round(n as real) == n
  {
  }

  /** The UTF-16 code units a character takes: two outside the Basic Multilingual Plane. */
  function CodeUnits(c: char): nat {
    if c as int > 0xFFFF then 2 else 1
  }

  /** `s.length`: JavaScript counts UTF-16 code units, not characters. */
  function Length(s: string): (n: nat)
    ensures |s| <= n <= 2 * |s|
  {
    if |s| == 0 then 0 else CodeUnits(s[0]) + Length(s[1..])
  }

  /** The lengths of two joined strings add up. */
  lemma {:induction false} LengthConcat(a: string, b: string)
    ensures Length(a + b) == Length(a) + Length(b)
  {
    if |a| == 0 {
      assert a + b == b;
    } else {
      assert (a + b)[0] == a[0] && (a + b)[1..] == a[1..] + b;
      LengthConcat(a[1..], b);
    }
  }

  /** A string of Basic Multilingual Plane characters has one code unit per character. */
  lemma {:induction false} LengthOfBmp(s: string)
    requires forall i :: 0 <= i < |s| ==> s[i] as int <= 0xFFFF
    ensures Length(s) == |s|
  {
    if |s| > 0 {
      LengthOfBmp(s[1..]);
    }
  }

  /** An emoji followed by one letter is two characters but three code units. */
  lemma AstralCountsTwice()
    ensures |"\U{1F600}a"| == 2 && Length("\U{1F600}a") == 3
  {
    assert "\U{1F600}a"[1..] == "a";
    assert "a"[1..] == "";
  }

  /** `String(b)` for a boolean. */
  function BoolToString(b: bool): string {
    if b then "true" else "false"
  }

  /** `String(b) === "true"` recovers the boolean. */
  lemma BoolStringRoundTrip(b: bool)
    ensures (BoolToString(b) == "true") == b
  {
  }

  /** `c.toLowerCase()` restricted to ASCII letters; other characters are kept. */
  function LowerChar(c: char): (r: char)
    ensures 'A' <= c <= 'Z' ==> r as int == c as int + 32
    ensures !('A' <= c <= 'Z') ==> r == c
  {
    if 'A' <= c <= 'Z' then (c as int + 32) as char else c
  }

  /** `s.toLowerCase()` restricted to ASCII letters. */
  function Lower(s: string): (r: string)
    ensures |r| == |s|
    ensures forall i :: 0 <= i < |s| ==> r[i] == LowerChar(s[i])
  {
    if |s| == 0 then "" else [LowerChar(s[0])] + Lower(s[1..])
  }

  /** Lower-casing works character by character, so it distributes over concatenation. */
  lemma LowerConcat(a: string, b: string)
    ensures Lower(a + b) == Lower(a) + Lower(b)
  {
    assert forall i :: 0 <= i < |a + b| ==> Lower(a + b)[i] == (Lower(a) + Lower(b))[i];
  }

  /** Lower-casing twice is lower-casing once. */
  lemma LowerIdempotent(s: string)
    ensures Lower(Lower(s)) == Lower(s)
  {
  }

  /** `s.startsWith(prefix)`. */
  predicate StartsWith(s: string, prefix: string) {
    prefix <= s
  }
}
