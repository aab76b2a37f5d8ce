/**
 Cutting a description to a number of bytes without cutting through a character
 of its UTF-8 encoding, as sections 3 and 4 of RFC 3629 define it.
 */
module Utf8 {
  newtype Byte = x: int | 0 <= x < 0x100

  predicate IsTail(b: Byte) {
    0x80 <= b <= 0xBF
  }

  /** A byte that may start a character: every byte but a tail. */
  predicate RuneStart(b: Byte) {
    !IsTail(b)
  }

  /** The length of the character a byte starts, or 0 when no character starts with it. */
  function CharLen(b: Byte): nat {
    if b <= 0x7F then 1
    else if 0xC2 <= b <= 0xDF then 2
    else if 0xE0 <= b <= 0xEF then 3
    else if 0xF0 <= b <= 0xF4 then 4
    else 0
  }

  /** The second byte's range; it rules out overlong forms, surrogates and values past U+10FFFF. */
  predicate SecondOk(first: Byte, second: Byte) {
    && IsTail(second)
    && (first == 0xE0 ==> second >= 0xA0)
    && (first == 0xED ==> second <= 0x9F)
    && (first == 0xF0 ==> second >= 0x90)
    && (first == 0xF4 ==> second <= 0x8F)
  }

  predicate StartsWithChar(s: seq<Byte>) {
    && s != []
    && 0 < CharLen(s[0]) <= |s|
    && (CharLen(s[0]) > 1 ==> SecondOk(s[0], s[1]))
    && forall i :: 2 <= i < CharLen(s[0]) ==> IsTail(s[i])
  }

  predicate Valid(s: seq<Byte>) {
    s == [] || (StartsWithChar(s) && Valid(s[CharLen(s[0])..]))
  }

  // ---- What is valid -----------------------------------------------------------------

  /** The code points a text may hold: all but the surrogates. */
  predicate Scalar(c: nat) {
    c < 0xD800 || 0xE000 <= c <= 0x10FFFF
  }

  function Tail(n: nat): Byte {
    (0x80 + n % 0x40) as Byte
  }

  function Encode(c: nat): seq<Byte>
    requires Scalar(c)
  {
    if c < 0x80 then [c as Byte]
    else if c < 0x800 then [(0xC0 + c / 0x40) as Byte, Tail(c)]
    else if c < 0x1_0000 then [(0xE0 + c / 0x1000) as Byte, Tail(c / 0x40), Tail(c)]
    else [(0xF0 + c / 0x4_0000) as Byte, Tail(c / 0x1000), Tail(c / 0x40), Tail(c)]
  }

  function EncodeAll(cs: seq<nat>): seq<Byte>
    requires forall c :: c in cs ==> Scalar(c)
  {
    if cs == [] then [] else Encode(cs[0]) + EncodeAll(cs[1..])
  }

  lemma EncodedStarts(c: nat, rest: seq<Byte>)
    requires Scalar(c)
    ensures var s := Encode(c) + rest;
            StartsWithChar(s) && CharLen(s[0]) == |Encode(c)| && s[|Encode(c)|..] == rest
  {
  }

  /** A number read from its last six bits and the rest. */
  lemma Digits(rest: nat, last: Byte)
    requires IsTail(last)
    ensures var c := rest * 0x40 + (last as int - 0x80); c / 0x40 == rest && Tail(c) == last
  {
  }

  lemma Two(a: Byte, b: Byte) returns (c: nat)
    requires CharLen(a) == 2 && IsTail(b)
    ensures Scalar(c) && Encode(c) == [a, b]
  {
    c := (a as int - 0xC0) * 0x40 + (b as int - 0x80);
    Digits(a as int - 0xC0, b);
  }

  lemma Three(a: Byte, b: Byte, d: Byte) returns (c: nat)
    requires CharLen(a) == 3 && SecondOk(a, b) && IsTail(d)
    ensures Scalar(c) && Encode(c) == [a, b, d]
  {
    var high := (a as int - 0xE0) * 0x40 + (b as int - 0x80);
    c := high * 0x40 + (d as int - 0x80);
    Digits(high, d);
    Digits(a as int - 0xE0, b);
    assert c / 0x1000 == a as int - 0xE0;
  }

  lemma Four(a: Byte, b: Byte, d: Byte, e: Byte) returns (c: nat)
    requires CharLen(a) == 4 && SecondOk(a, b) && IsTail(d) && IsTail(e)
    ensures Scalar(c) && Encode(c) == [a, b, d, e]
  {
    var top := (a as int - 0xF0) * 0x40 + (b as int - 0x80);
    var high := top * 0x40 + (d as int - 0x80);
    c := high * 0x40 + (e as int - 0x80);
    Digits(high, e);
    Digits(top, d);
    Digits(a as int - 0xF0, b);
    assert c / 0x1000 == top && c / 0x4_0000 == a as int - 0xF0;
  }

  lemma StartDecodes(s: seq<Byte>) returns (c: nat)
    requires StartsWithChar(s)
    ensures Scalar(c) && Encode(c) == s[..CharLen(s[0])]
  {
    var l := CharLen(s[0]);
    if l == 1 {
      c := s[0] as int;
    } else if l == 2 {
      c := Two(s[0], s[1]);
      assert s[..2] == [s[0], s[1]];
    } else if l == 3 {
      c := Three(s[0], s[1], s[2]);
      assert s[..3] == [s[0], s[1], s[2]];
    } else {
      c := Four(s[0], s[1], s[2], s[3]);
      assert s[..4] == [s[0], s[1], s[2], s[3]];
    }
  }

  /** A text is valid exactly when it encodes some sequence of code points. */
  lemma ValidIsEncoded(s: seq<Byte>)
    ensures Valid(s) <==> exists cs: seq<nat> :: (forall c :: c in cs ==> Scalar(c)) && EncodeAll(cs) == s
  {
    if Valid(s) {
      var cs := Decoded(s);
    }
    if cs: seq<nat> :| (forall c :: c in cs ==> Scalar(c)) && EncodeAll(cs) == s {
      EncodingIsValid(cs);
    }
  }

  lemma {:induction false} Decoded(s: seq<Byte>) returns (cs: seq<nat>)
    requires Valid(s)
    ensures (forall c :: c in cs ==> Scalar(c)) && EncodeAll(cs) == s
  {
    if s == [] {
      cs := [];
    } else {
      var c := StartDecodes(s);
      var rest := Decoded(s[CharLen(s[0])..]);
      cs := [c] + rest;
      assert cs[1..] == rest;
    }
  }

  lemma {:induction false} EncodingIsValid(cs: seq<nat>)
    requires forall c :: c in cs ==> Scalar(c)
    ensures Valid(EncodeAll(cs))
  {
    if cs != [] {
      EncodingIsValid(cs[1..]);
      EncodedStarts(cs[0], EncodeAll(cs[1..]));
    }
  }

  // ---- The cut -----------------------------------------------------------------------

  /** Where the loop stops: at a start of a character, or at 0. */
  function Cut(s: seq<Byte>, n: nat): (k: nat)
    requires n < |s|
    ensures k <= n && (k == 0 || RuneStart(s[k])) && forall j :: k < j <= n ==> !RuneStart(s[j])
  {
    if n > 0 && !RuneStart(s[n]) then Cut(s, n - 1) else n
  }

  function Truncated(s: seq<Byte>, n: nat): seq<Byte> {
    if |s| <= n then s else s[..Cut(s, n)]
  }

  method Truncate(s: seq<Byte>, n: nat) returns (r: seq<Byte>)
    ensures r == Truncated(s, n)
  {
    if |s| <= n {
      return s;
    }
    var k := n;
    while k > 0 && !RuneStart(s[k])
      invariant 0 <= k <= n && Cut(s, n) == Cut(s, k)
    {
      k := k - 1;
    }
    r := s[..k];
  }

  /** In a valid text, a prefix is valid exactly when it ends where a character starts or the text ends. */
  lemma {:induction false} ValidPrefix(s: seq<Byte>, k: nat)
    requires Valid(s) && k <= |s|
    ensures Valid(s[..k]) <==> k == |s| || RuneStart(s[k])
    decreases |s|
  {
    if k == |s| {
      assert s[..k] == s;
    } else if k > 0 {
      var l := CharLen(s[0]);
      if l <= k {
        ValidPrefix(s[l..], k - l);
        assert s[..k][l..] == s[l..][..k - l];
        assert StartsWithChar(s[..k]);
      }
    }
  }

  /** Among any four bytes in a row of a valid text, or its first ones, a character starts. */
  lemma {:induction false} StartIsNear(s: seq<Byte>, k: nat)
    requires Valid(s) && k < |s|
    ensures exists j: nat :: k - 3 <= j <= k && RuneStart(s[j])
    decreases |s|
  {
    var l := CharLen(s[0]);
    if k < l {
      assert RuneStart(s[0]);
    } else {
      StartIsNear(s[l..], k - l);
      var j: nat :| k - l - 3 <= j <= k - l && RuneStart(s[l..][j]);
      assert RuneStart(s[l + j]);
    }
  }

  /**
   A cut of a valid text is its longest valid prefix within the limit, at most 3 bytes
   short of it, and cutting again changes nothing.
   */
  lemma CutIsLongestValidPrefix(s: seq<Byte>, n: nat)
    requires Valid(s)
    ensures var r := Truncated(s, n);
            && |r| <= n && r <= s && Valid(r)
            && (forall k :: |r| < k <= n && k <= |s| ==> !Valid(s[..k]))
            && (|s| > n ==> |r| >= n - 3)
            && Truncated(r, n) == r
  {
    if |s| > n {
      var k := Cut(s, n);
      StartIsNear(s, n);
      ValidPrefix(s, k);
      assert k == 0 ==> s[..k] == [];
      forall m | k < m <= n ensures !Valid(s[..m]) {
        ValidPrefix(s, m);
      }
    }
  }
}
