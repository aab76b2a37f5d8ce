/**
 Strings are normalised before they are written. What is used of normal form C
 of Unicode: it is stable, kept by every part of a string in normal form, leaves
 ASCII alone, and works separately on the two sides of a character that takes
 part in no composition.
 */
module HclNormal {
  import opened HclText

  /** Characters no composition involves: the colon, and those that are escaped or escape. */
  predicate Inert(c: char) {
    c in [':', '"', '\\', '$', '%']
  }

  predicate Ascii(s: string) {
    forall i :: 0 <= i < |s| ==> s[i] < 128 as char
  }

  ghost predicate Normalises(norm: Normal) {
    && (forall s :: norm(norm(s)) == norm(s))
    && (forall s, i, j :: 0 <= i <= j <= |s| && norm(s) == s ==> norm(s[i..j]) == s[i..j])
    && (forall s, c, t :: Inert(c) ==> norm(s + [c] + t) == norm(s) + [c] + norm(t))
    && (forall s :: Ascii(s) ==> norm(s) == s)
    && (forall s :: Colons(norm(s)) == Colons(s))
  }

  lemma Prefix(norm: Normal, s: string, n: nat)
    requires Normalises(norm) && norm(s) == s && n <= |s|
    ensures norm(s[..n]) == s[..n]
  {
    assert s[0..n] == s[..n];
  }

  /** Behind a common start, an inert character of a string is one of its normal form. */
  lemma InertStays(norm: Normal, pre: string, s: string, t: string)
    requires Normalises(norm) && norm(pre + s) == pre + t && s != [] && Inert(s[0])
    ensures t != [] && t[0] == s[0]
  {
    StartIsNormal(norm, pre, pre + s, t);
    var rest := norm(s[1..]);
    assert pre + s == pre + [s[0]] + s[1..];
    assert norm(pre + [s[0]] + s[1..]) == pre + [s[0]] + rest;
    assert pre + [s[0]] + rest == pre + ([s[0]] + rest);
    SameRest(pre, t, [s[0]] + rest);
  }

  lemma StartIsNormal(norm: Normal, pre: string, s: string, t: string)
    requires Normalises(norm) && norm(s) == pre + t
    ensures norm(pre) == pre
  {
    assert norm(pre + t) == pre + t;
    Prefix(norm, pre + t, |pre|);
    assert (pre + t)[..|pre|] == pre;
  }

  lemma SameRest(pre: string, s: string, t: string)
    requires pre + s == pre + t
    ensures s == t
  {
    assert s == (pre + s)[|pre|..] && t == (pre + t)[|pre|..];
  }

  /** Behind backslashes that the normal form has too many of as it is written, what matches is backslashes of both. */
  lemma {:induction false} StartsInSlashes(table: PrintTable, norm: Normal, pre: string, s: string, t: string, run: string)
    requires Normalises(norm) && norm(pre + s) == pre + t
    requires run != [] && Slashes(run) && s <= run + Escaped(table, t) + ['"']
    ensures s <= t
    decreases |s|
  {
    if s != [] {
      assert s[0] == (run + Escaped(table, t) + ['"'])[0] == '\\';
      InertStays(norm, pre, s, t);
      var next := run[1..] + ['\\', '\\'];
      assert Escaped(table, t) == ['\\', '\\'] + Escaped(table, t[1..]);
      assert run + Escaped(table, t) + ['"'] == ['\\'] + (next + Escaped(table, t[1..]) + ['"']);
      SameFirst(s, '\\', next + Escaped(table, t[1..]) + ['"']);
      NextChar(norm, pre, s, t);
      StartsInSlashes(table, norm, pre + [s[0]], s[1..], t[1..], next);
      SameFirst(s, '\\', t[1..]);
      assert t == ['\\'] + t[1..];
    }
  }

  lemma NextChar(norm: Normal, pre: string, s: string, t: string)
    requires norm(pre + s) == pre + t && s != [] && t != [] && s[0] == t[0]
    ensures norm(pre + [s[0]] + s[1..]) == pre + [s[0]] + t[1..]
  {
    assert pre + [s[0]] + s[1..] == pre + s && pre + [s[0]] + t[1..] == pre + t;
  }

  lemma BehindPlain(table: PrintTable, s: string, t: string)
    requires s != [] && t != [] && s[0] == t[0] && !EscapedAt(table, t, 0) && s <= Escaped(table, t) + ['"']
    ensures s[1..] <= Escaped(table, t[1..]) + ['"']
  {
    assert Escaped(table, t) + ['"'] == [t[0]] + (Escaped(table, t[1..]) + ['"']);
    SameFirst(s, t[0], Escaped(table, t[1..]) + ['"']);
  }

  lemma BehindSlash(table: PrintTable, s: string, t: string)
    requires s != [] && t != [] && s[0] == t[0] == '\\' && s <= Escaped(table, t) + ['"']
    ensures s[1..] <= ['\\'] + Escaped(table, t[1..]) + ['"']
  {
    var rest := ['\\'] + Escaped(table, t[1..]) + ['"'];
    SlashText(table, t);
    SameFirst(s, '\\', rest);
  }

  lemma StartBack(s: string, t: string)
    requires s != [] && t != [] && s[0] == t[0] && s[1..] <= t[1..]
    ensures s <= t
  {
    assert t == [t[0]] + t[1..];
    SameFirst(s, t[0], t[1..]);
  }

  /** A string that its normal form starts with as it is written starts the normal form itself. */
  lemma {:induction false} StartsAsWritten(table: PrintTable, norm: Normal, pre: string, s: string, t: string)
    requires Normalises(norm) && norm(pre + s) == pre + t
    requires s <= Escaped(table, t) + ['"']
    ensures s <= t
    decreases |s|
  {
    if s != [] {
      if t == [] {
        InertStays(norm, pre, s, t);
      } else {
        StartsBehindFirst(table, norm, pre, s, t);
        if !EscapedAt(table, t, 0) {
          NextChar(norm, pre, s, t);
          BehindPlain(table, s, t);
          StartsAsWritten(table, norm, pre + [s[0]], s[1..], t[1..]);
          StartBack(s, t);
        } else if t[0] == '\\' {
          NextChar(norm, pre, s, t);
          BehindSlash(table, s, t);
          StartsInSlashes(table, norm, pre + [s[0]], s[1..], t[1..], ['\\']);
          StartBack(s, t);
        } else if |s| > 1 {
          NextChar(norm, pre, s, t);
          InertStays(norm, pre + [s[0]], s[1..], t[1..]);
        }
      }
    }
  }

  lemma StartsBehindFirst(table: PrintTable, norm: Normal, pre: string, s: string, t: string)
    requires Normalises(norm) && norm(pre + s) == pre + t && s != [] && t != []
    requires s <= Escaped(table, t) + ['"']
    ensures s[0] == t[0]
    ensures EscapedAt(table, t, 0) && t[0] != '\\' ==> Opens(t, 0) && (|s| > 1 ==> s[1] == t[0])
  {
    var w := Written(table, t, 0);
    assert Escaped(table, t) + ['"'] == w + (Escaped(table, t[1..]) + ['"']);
    assert s[0] == w[0];
    if EscapedAt(table, t, 0) {
      InertStays(norm, pre, s, t);
    }
  }

  /** The normal form starts as the string does, up to its first colon. */
  lemma SameStart(table: PrintTable, norm: Normal, s: string, k: nat)
    requires Normalises(norm) && k < |s| && s[k] == ':' && Ascii(s[..k]) && Plain(table, s, k + 1)
    ensures var v := norm(s); k < |v| && v[..k + 1] == s[..k + 1] && Plain(table, v, k + 1)
  {
    var v := norm(s);
    assert s == s[..k] + [':'] + s[k + 1..];
    assert v == s[..k] + [':'] + norm(s[k + 1..]);
    assert s[..k + 1] == s[..k] + [':'] == v[..k + 1];
    forall i | 0 <= i < k + 1 ensures !EscapedAt(table, v, i) {
      assert v[i] == v[..k + 1][i] == s[i] && !EscapedAt(table, s, i);
      assert i < k ==> v[i + 1] == v[..k + 1][i + 1] == s[i + 1];
    }
  }

  lemma BehindTheQuote(table: PrintTable, v: string, s: string)
    requires IsAt(Quoted(table, v), s, 1)
    ensures s <= Escaped(table, v) + ['"']
  {
    var q := Quoted(table, v);
    assert q[1..] == Escaped(table, v) + ['"'] && q[1..][..|s|] == q[1..1 + |s|];
  }

  lemma WrittenStartMeansNormal(table: PrintTable, norm: Normal, s: string)
    requires Normalises(norm) && s <= Escaped(table, norm(s)) + ['"']
    ensures norm(s) == s
  {
    var v := norm(s);
    assert [] + s == s && [] + v == v;
    StartsAsWritten(table, norm, [], s, v);
    Prefix(norm, v, |s|);
    assert v[..|s|] == s;
  }

  lemma FoundBehindTheQuote(table: PrintTable, norm: Normal, s: string, k: nat, i: nat)
    requires Normalises(norm) && k < |s| && s[k] == ':' && ':' !in s[..k] && Ascii(s[..k]) && Plain(table, s, k + 1)
    requires IsAt(Quoted(table, norm(s)), s, i)
    ensures i == 1
  {
    var v := norm(s);
    SameStart(table, norm, s, k);
    assert v[k] == v[..k + 1][k] && v[..k] == v[..k + 1][..k] == s[..k + 1][..k] == s[..k];
    OnlyBehindTheQuote(table, s, v, k, i);
  }

  /**
   A string with a plain start up to its first colon is found in the quotation of
   its normal form exactly when it is that form, and nothing but a final run of
   backslashes is escaped.
   */
  lemma NormalQuotationContains(table: PrintTable, norm: Normal, s: string, k: nat)
    requires Normalises(norm) && k < |s| && s[k] == ':' && ':' !in s[..k] && Ascii(s[..k]) && Plain(table, s, k + 1)
    ensures Contains(Quoted(table, norm(s)), s) <==> norm(s) == s && Survives(table, s)
  {
    QuotationContains(table, s, k);
    var q := Quoted(table, norm(s));
    if Contains(q, s) {
      var i :| 0 <= i <= |q| && IsAt(q, s, i);
      FoundBehindTheQuote(table, norm, s, k, i);
      BehindTheQuote(table, norm(s), s);
      WrittenStartMeansNormal(table, norm, s);
    }
  }

  // ---- One composition --------------------------------------------------------------

  const E: char := 'e'
  const ACUTE: char := '\U{0301}'
  const E_ACUTE: char := '\U{00E9}'

  /** The normal form as far as the letter e with an acute accent goes. */
  function Composed(s: string): string {
    if |s| < 2 then s
    else if s[0] == E && s[1] == ACUTE then [E_ACUTE] + Composed(s[2..])
    else [s[0]] + Composed(s[1..])
  }

  ghost predicate NoPair(s: string) {
    forall i :: 0 <= i < |s| - 1 ==> !(s[i] == E && s[i + 1] == ACUTE)
  }

  lemma {:induction false} ComposedHasNoPair(s: string)
    ensures NoPair(Composed(s)) && (s != [] ==> Composed(s) != [])
    ensures s != [] && Composed(s)[0] == ACUTE ==> s[0] == ACUTE
    decreases |s|
  {
    if |s| >= 2 {
      if s[0] == E && s[1] == ACUTE {
        ComposedHasNoPair(s[2..]);
      } else {
        ComposedHasNoPair(s[1..]);
      }
    }
  }

  lemma {:induction false} NoPairIsComposed(s: string)
    ensures Composed(s) == s <==> NoPair(s)
    decreases |s|
  {
    ComposedHasNoPair(s);
    if |s| >= 2 && NoPair(s) {
      assert !(s[0] == E && s[0 + 1] == ACUTE);
      forall i | 0 <= i < |s| - 2 ensures !(s[1..][i] == E && s[1..][i + 1] == ACUTE) {
        assert !(s[i + 1] == E && s[i + 1 + 1] == ACUTE);
      }
      NoPairIsComposed(s[1..]);
    }
  }

  lemma {:induction false} ComposedAround(s: string, c: char, t: string)
    requires Inert(c)
    ensures Composed(s + [c] + t) == Composed(s) + [c] + Composed(t)
    decreases |s|
  {
    var all := s + [c] + t;
    if s == [] {
      assert all == [c] + t && all[1..] == t;
      assert |t| == 0 ==> Composed(all) == [c];
    } else if |s| >= 2 && s[0] == E && s[1] == ACUTE {
      assert all[2..] == s[2..] + [c] + t;
      ComposedAround(s[2..], c, t);
    } else {
      assert all[1..] == s[1..] + [c] + t;
      ComposedAround(s[1..], c, t);
    }
  }

  lemma {:induction false} ComposedColons(s: string)
    ensures Colons(Composed(s)) == Colons(s)
    decreases |s|
  {
    if |s| >= 2 {
      if s[0] == E && s[1] == ACUTE {
        ComposedColons(s[2..]);
        assert s[1..][1..] == s[2..];
        assert Composed(s)[1..] == Composed(s[2..]);
      } else {
        ComposedColons(s[1..]);
        assert Composed(s)[1..] == Composed(s[1..]);
      }
    }
  }

  /** The properties can be had together with a composition. */
  lemma ComposedNormalises()
    ensures Normalises(Composed)
    ensures Composed([E, ACUTE]) == [E_ACUTE]
  {
    forall s ensures Composed(Composed(s)) == Composed(s) && Colons(Composed(s)) == Colons(s) {
      ComposedHasNoPair(s);
      NoPairIsComposed(Composed(s));
      ComposedColons(s);
    }
    forall s, i, j | 0 <= i <= j <= |s| && Composed(s) == s ensures Composed(s[i..j]) == s[i..j] {
      NoPairIsComposed(s);
      NoPairIsComposed(s[i..j]);
    }
    forall s, c, t | Inert(c) ensures Composed(s + [c] + t) == Composed(s) + [c] + Composed(t) {
      ComposedAround(s, c, t);
    }
    forall s | Ascii(s) ensures Composed(s) == s {
      NoPairIsComposed(s);
    }
  }
}
