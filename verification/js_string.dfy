/**
 * ECMAScript string values: sequences of UTF-16 code units (section 6.1.4 of
 * ECMA-262), and the encoding that turns a string of characters into one.
 */
module JsStrings {

  /** A UTF-16 code unit. */
  type CodeUnit = x: int | 0 <= x < 0x1_0000

  /** An ECMAScript string value. */
  type JsString = seq<CodeUnit>

  /** A character of the Basic Multilingual Plane: UTF-16 stores it as one code unit. */
  predicate InBmp(c: char) {
    c as int < 0x1_0000
  }

  /** The UTF-16 encoding of one character: itself, or a surrogate pair above the Basic Multilingual Plane. */
  function EncodeChar(c: char): (u: JsString)
    ensures InBmp(c) <==> |u| == 1
    ensures InBmp(c) ==> u[0] == c as int
  {
    var v := c as int;
    if v < 0x1_0000 then [v]
    else [0xD800 + (v - 0x1_0000) / 0x400, 0xDC00 + (v - 0x1_0000) % 0x400]
  }

  predicate AllBmp(s: string) {
    forall i | 0 <= i < |s| :: InBmp(s[i])
  }

  /**
   * The ECMAScript string value of a string of characters: its UTF-16
   * encoding. A string of the Basic Multilingual Plane is read off directly,
   * one code unit per character.
   */
  function Utf16(s: string): JsString {
    if AllBmp(s) then seq(|s|, i requires 0 <= i < |s| => s[i] as int)
    else EncodeChar(s[0]) + Utf16(s[1..])
  }

  /** A string of the Basic Multilingual Plane is one code unit per character, each its code point. */
  lemma Utf16Bmp(s: string)
    requires AllBmp(s)
    ensures |Utf16(s)| == |s|
    ensures forall i | 0 <= i < |s| :: Utf16(s)[i] == s[i] as int
  {
  }

  /** Whichever way it is read off, the encoding goes character by character. */
  lemma Utf16Cons(s: string)
    requires s != []
    ensures Utf16(s) == EncodeChar(s[0]) + Utf16(s[1..])
  {
    if AllBmp(s) {
      var t := s[1..];
      assert AllBmp(t) by {
        assert forall i | 0 <= i < |t| :: t[i] == s[i + 1];
      }
      Utf16Bmp(s);
      Utf16Bmp(t);
      assert forall i | 1 <= i < |s| :: Utf16(s)[i] == Utf16(t)[i - 1];
    }
  }

  /** The encoding of a concatenation is the concatenation of the encodings. */
  lemma {:induction false} Utf16Append(s: string, t: string)
    ensures Utf16(s + t) == Utf16(s) + Utf16(t)
    decreases |s|
  {
    if s == [] {
      assert s + t == t;
    } else if AllBmp(s + t) {
      Utf16AppendBmp(s, t);
    } else {
      Utf16Append(s[1..], t);
      Utf16AppendStep(s, t);
    }
  }

  lemma Utf16AppendBmp(s: string, t: string)
    requires AllBmp(s + t)
    ensures Utf16(s + t) == Utf16(s) + Utf16(t)
  {
    var st := s + t;
    assert AllBmp(s) by {
      assert forall i | 0 <= i < |s| :: s[i] == st[i];
    }
    assert AllBmp(t) by {
      assert forall i | 0 <= i < |t| :: t[i] == st[|s| + i];
    }
    Utf16Bmp(s);
    Utf16Bmp(t);
    Utf16Bmp(st);
    assert forall i | 0 <= i < |st| :: Utf16(st)[i] == (Utf16(s) + Utf16(t))[i];
  }

  /** One character further: the encoding of `s + t` given that of its tail. */
  lemma Utf16AppendStep(s: string, t: string)
    requires s != []
    requires Utf16(s[1..] + t) == Utf16(s[1..]) + Utf16(t)
    ensures Utf16(s + t) == Utf16(s) + Utf16(t)
  {
    var st := s + t;
    assert st[0] == s[0];
    assert st[1..] == s[1..] + t;
    Utf16Cons(st);
    Utf16Cons(s);
  }

  /** `u` holds the code points of `w`, one code unit each. */
  predicate Spells(u: JsString, w: string) {
    |u| == |w| && forall k | 0 <= k < |w| :: u[k] == w[k] as int
  }

  /** A slice of the encoding of a string of the Basic Multilingual Plane is the code units of `w` exactly when the slice of the string is `w`. */
  lemma Utf16BmpSliceIs(s: string, i: nat, j: nat, u: JsString, w: string)
    requires AllBmp(s) && Spells(u, w)
    requires i <= j <= |s|
    ensures Utf16(s)[i..j] == u <==> s[i..j] == w
  {
    Utf16Bmp(s);
    if s[i..j] == w {
      assert forall k | 0 <= k < |w| :: Utf16(s)[i..j][k] == s[i + k] as int == w[k] as int;
    }
    if Utf16(s)[i..j] == u {
      assert forall k | 0 <= k < |w| :: s[i..j][k] == s[i + k] && Utf16(s)[i + k] == u[k];
    }
  }

  /** Printable ASCII: each character is one code unit. */
  predicate Printable(s: string) {
    forall i | 0 <= i < |s| :: ' ' <= s[i] <= '~'
  }
}
