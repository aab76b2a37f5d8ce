/**
 The source text of attribute values: how a string is quoted and escaped, and
 when a quoted string still contains, as text, the string it was made from.
 Which characters past ASCII are printable is left to a table.
 */
module HclText {
  import opened Hcl

  type PrintTable = char -> bool

  /** What a string value is turned into before it is written: its normal form. */
  type Normal = string -> string

  predicate Printable(table: PrintTable, c: char) {
    if c < 128 as char then ' ' <= c <= '~' else table(c)
  }

  predicate Opens(s: string, i: nat)
    requires i < |s|
  {
    (s[i] == '$' || s[i] == '%') && i + 1 < |s| && s[i + 1] == '{'
  }

  /** The character at i is written in another way than as itself. */
  predicate EscapedAt(table: PrintTable, s: string, i: nat)
    requires i < |s|
  {
    s[i] == '"' || s[i] == '\\' || !Printable(table, s[i]) || Opens(s, i)
  }

  function HexDigit(d: nat): char
    requires d < 16
  {
    if d < 10 then '0' + d as char else 'a' + (d - 10) as char
  }

  function Hex(n: nat, width: nat): string {
    if width == 0 then [] else Hex(n / 16, width - 1) + [HexDigit(n % 16)]
  }

  /** How the character at i is written: template openers doubled, the others after a backslash. */
  function Written(table: PrintTable, s: string, i: nat): (r: string)
    requires i < |s|
    ensures r != []
    ensures !EscapedAt(table, s, i) ==> r == [s[i]]
    ensures EscapedAt(table, s, i) && Opens(s, i) ==> r == [s[i], s[i]]
    ensures EscapedAt(table, s, i) && !Opens(s, i) ==> r[0] == '\\'
    ensures s[i] == '\\' ==> r == ['\\', '\\']
  {
    var c := s[i];
    if c == '"' || c == '\\' then ['\\', c]
    else if Opens(s, i) then [c, c]
    else if c == '\n' then ['\\', 'n']
    else if c == '\r' then ['\\', 'r']
    else if c == '\t' then ['\\', 't']
    else if Printable(table, c) then [c]
    else if c as int < 0x10000 then ['\\', 'u'] + Hex(c as int, 4)
    else ['\\', 'U'] + Hex(c as int, 8)
  }

  function Escaped(table: PrintTable, s: string): string {
    if s == [] then [] else Written(table, s, 0) + Escaped(table, s[1..])
  }

  function Quoted(table: PrintTable, s: string): string {
    ['"'] + Escaped(table, s) + ['"']
  }

  function Listed(table: PrintTable, norm: Normal, ss: seq<string>): string {
    if ss == [] then []
    else if |ss| == 1 then Quoted(table, norm(ss[0]))
    else Quoted(table, norm(ss[0])) + [',', ' '] + Listed(table, norm, ss[1..])
  }

  function Text(table: PrintTable, norm: Normal, e: Expr): string {
    match e
    case AtlasEnv => "atlas.env"
    case Str(value) => Quoted(table, norm(value))
    case Strs(values) => ['['] + Listed(table, norm, values) + [']']
    case Ident(name) => name
    case Expr(text) => text
  }

  // ---- Reading a quotation back ------------------------------------------------------

  function ReadDigit(c: char): nat {
    if '0' <= c <= '9' then (c - '0') as nat else if 'a' <= c <= 'f' then (c - 'a') as nat + 10 else 0
  }

  function ReadHex(s: string): nat {
    if s == [] then 0
    else
      var n := |s| - 1;
      16 * ReadHex(s[..n]) + ReadDigit(s[n])
  }

  function ReadChar(n: nat): char {
    if n < 0xD800 || 0xE000 <= n < 0x11_0000 then n as char else '?'
  }

  /** What a parser makes of the text between the quotes: the escapes after a backslash, and doubled template openers. */
  function Read(t: string): string {
    if |t| < 2 then t
    else if t[0] == '\\' then
      if t[1] == 'n' then ['\n'] + Read(t[2..])
      else if t[1] == 'r' then ['\r'] + Read(t[2..])
      else if t[1] == 't' then ['\t'] + Read(t[2..])
      else if t[1] == 'u' && |t| >= 6 then [ReadChar(ReadHex(t[2..6]))] + Read(t[6..])
      else if t[1] == 'U' && |t| >= 10 then [ReadChar(ReadHex(t[2..10]))] + Read(t[10..])
      else [t[1]] + Read(t[2..])
    else if (t[0] == '$' || t[0] == '%') && t[1] == t[0] && |t| > 2 && t[2] == '{' then [t[0]] + Read(t[2..])
    else [t[0]] + Read(t[1..])
  }

  function Power16(k: nat): nat {
    if k == 0 then 1 else 16 * Power16(k - 1)
  }

  lemma {:induction false} HexReads(n: nat, width: nat)
    requires n < Power16(width)
    ensures |Hex(n, width)| == width && ReadHex(Hex(n, width)) == n
  {
    if width > 0 {
      HexReads(n / 16, width - 1);
      assert Hex(n, width)[..width - 1] == Hex(n / 16, width - 1);
      assert ReadDigit(HexDigit(n % 16)) == n % 16;
    }
  }

  lemma Powers()
    ensures Power16(4) == 0x1_0000 && Power16(8) == 0x1_0000_0000
  {
    assert Power16(2) == 256;
    assert Power16(6) == 0x100_0000;
  }

  lemma ReadsShort(c: char, rest: string)
    requires c as int < 0x1_0000
    ensures Read(['\\', 'u'] + Hex(c as int, 4) + rest) == [c] + Read(rest)
  {
    Powers();
    HexReads(c as int, 4);
    var t := ['\\', 'u'] + Hex(c as int, 4) + rest;
    assert t[2..6] == Hex(c as int, 4) && t[6..] == rest;
  }

  lemma ReadsLong(c: char, rest: string)
    ensures Read(['\\', 'U'] + Hex(c as int, 8) + rest) == [c] + Read(rest)
  {
    Powers();
    HexReads(c as int, 8);
    var t := ['\\', 'U'] + Hex(c as int, 8) + rest;
    assert t[2..10] == Hex(c as int, 8) && t[10..] == rest;
  }

  /** A written text never starts with a template opener. */
  lemma NeverOpens(table: PrintTable, s: string)
    ensures var t := Escaped(table, s); |t| >= 2 && (t[0] == '$' || t[0] == '%') ==> t[1] != '{'
  {
    if s != [] {
      var w := Written(table, s, 0);
      if |s| > 1 && !EscapedAt(table, s, 0) {
        var v := Written(table, s[1..], 0);
        assert Escaped(table, s) == [s[0]] + (v + Escaped(table, s[1..][1..]));
      }
    }
  }

  lemma ReadsPlain(c: char, rest: string)
    requires c != '\\'
    requires (c == '$' || c == '%') && |rest| >= 2 && rest[0] == c ==> rest[1] != '{'
    ensures Read([c] + rest) == [c] + Read(rest)
  {
    assert ([c] + rest)[1..] == rest;
  }

  lemma ReadsDoubled(c: char, rest: string)
    requires (c == '$' || c == '%') && rest != [] && rest[0] == '{'
    ensures Read([c, c] + rest) == [c] + Read(rest)
  {
    assert ([c, c] + rest)[2..] == rest;
  }

  lemma ReadsSlash(x: char, rest: string)
    requires x != 'u' && x != 'U'
    ensures Read(['\\', x] + rest) ==
            [if x == 'n' then '\n' else if x == 'r' then '\r' else if x == 't' then '\t' else x] + Read(rest)
  {
    assert (['\\', x] + rest)[2..] == rest;
  }

  lemma WrittenBrace(table: PrintTable, s: string)
    requires s != [] && s[0] == '{'
    ensures Escaped(table, s) != [] && Escaped(table, s)[0] == '{'
  {
    assert Written(table, s, 0) == ['{'];
  }

  lemma ReadsWritten(table: PrintTable, s: string, rest: string)
    requires s != [] && rest == Escaped(table, s[1..])
    ensures Read(Written(table, s, 0) + rest) == [s[0]] + Read(rest)
  {
    var c := s[0];
    if Opens(s, 0) {
      WrittenBrace(table, s[1..]);
      ReadsDoubled(c, rest);
    } else if !EscapedAt(table, s, 0) {
      NeverOpens(table, s[1..]);
      ReadsPlain(c, rest);
    } else if c == '"' || c == '\\' {
      ReadsSlash(c, rest);
    } else if c == '\n' {
      ReadsSlash('n', rest);
    } else if c == '\r' {
      ReadsSlash('r', rest);
    } else if c == '\t' {
      ReadsSlash('t', rest);
    } else if c as int < 0x1_0000 {
      ReadsShort(c, rest);
    } else {
      ReadsLong(c, rest);
    }
  }

  /** What is written reads back as what it was written from. */
  lemma {:induction false} ReadsBack(table: PrintTable, s: string)
    ensures Read(Escaped(table, s)) == s
  {
    if s != [] {
      ReadsBack(table, s[1..]);
      ReadsWritten(table, s, Escaped(table, s[1..]));
    }
  }

  predicate IsAt(s: string, part: string, i: nat) {
    i + |part| <= |s| && s[i..i + |part|] == part
  }

  predicate Contains(s: string, part: string) {
    exists i :: 0 <= i <= |s| && IsAt(s, part, i)
  }

  // ---- Where a string can be found in its own quotation ---------------------------

  ghost function Colons(s: string): nat {
    if s == [] then 0 else (if s[0] == ':' then 1 else 0) + Colons(s[1..])
  }

  lemma {:induction false} ColonsAppend(s: string, t: string)
    ensures Colons(s + t) == Colons(s) + Colons(t)
  {
    if s == [] {
      assert s + t == t;
    } else {
      assert (s + t)[1..] == s[1..] + t;
      ColonsAppend(s[1..], t);
    }
  }

  lemma {:induction false} NoColons(s: string)
    ensures Colons(s) == 0 <==> ':' !in s
  {
    if s != [] {
      NoColons(s[1..]);
      assert s == [s[0]] + s[1..];
    }
  }

  lemma {:induction false} HexHasNoColons(n: nat, width: nat)
    ensures ':' !in Hex(n, width)
  {
    if width > 0 {
      HexHasNoColons(n / 16, width - 1);
    }
  }

  lemma WrittenColons(table: PrintTable, s: string)
    requires s != []
    ensures Colons(Written(table, s, 0)) == if s[0] == ':' then 1 else 0
  {
    var w := Written(table, s, 0);
    HexHasNoColons(s[0] as int, 4);
    HexHasNoColons(s[0] as int, 8);
    if s[0] == ':' {
      assert w == [':'] && w[1..] == [];
    } else {
      assert ':' !in w;
      NoColons(w);
    }
  }

  /** Escaping neither adds nor drops a colon. */
  lemma {:induction false} EscapedColons(table: PrintTable, s: string)
    ensures Colons(Escaped(table, s)) == Colons(s)
  {
    if s != [] {
      WrittenColons(table, s);
      EscapedColons(table, s[1..]);
      ColonsAppend(Written(table, s, 0), Escaped(table, s[1..]));
    }
  }

  ghost predicate Plain(table: PrintTable, s: string, n: nat)
    requires n <= |s|
  {
    forall i :: 0 <= i < n ==> !EscapedAt(table, s, i)
  }

  lemma {:induction false} PlainStart(table: PrintTable, s: string, n: nat)
    requires n <= |s| && Plain(table, s, n)
    ensures n <= |Escaped(table, s)| && Escaped(table, s)[..n] == s[..n]
  {
    if n > 0 {
      assert Written(table, s, 0) == [s[0]];
      forall i | 0 <= i < n - 1 ensures !EscapedAt(table, s[1..], i) {
        assert !EscapedAt(table, s, i + 1);
      }
      PlainStart(table, s[1..], n - 1);
    }
  }

  lemma QuotationColons(table: PrintTable, v: string)
    ensures Colons(Quoted(table, v)) == Colons(v)
  {
    EscapedColons(table, v);
    ColonsAppend(['"'] + Escaped(table, v), ['"']);
    ColonsAppend(['"'], Escaped(table, v));
    NoColons(['"']);
  }

  lemma ColonsAround(before: string, s: string, after: string)
    requires Colons(before + s + after) == Colons(s)
    ensures ':' !in before
  {
    ColonsAppend(before + s, after);
    ColonsAppend(before, s);
    NoColons(before);
  }

  /** A string found in the quotation of one with as many colons has none before it. */
  lemma NoColonBefore(table: PrintTable, s: string, v: string, i: nat)
    requires IsAt(Quoted(table, v), s, i) && Colons(s) == Colons(v)
    ensures ':' !in Quoted(table, v)[..i]
  {
    var q := Quoted(table, v);
    assert q == q[..i] + s + q[i + |s|..];
    QuotationColons(table, v);
    ColonsAround(q[..i], s, q[i + |s|..]);
  }

  lemma ColonOfQuotation(table: PrintTable, s: string, k: nat)
    requires k < |s| && s[k] == ':' && ':' !in s[..k] && Plain(table, s, k + 1)
    ensures var q := Quoted(table, s);
            k + 1 < |q| && q[k + 1] == ':' && forall j :: 0 <= j < k + 1 ==> q[j] != ':'
  {
    var q := Quoted(table, s);
    PlainStart(table, s, k + 1);
    assert q[1..k + 2] == s[..k + 1];
    forall j | 1 <= j < k + 1 ensures q[j] != ':' {
      assert q[1..k + 2][j - 1] == s[..k][j - 1];
    }
    assert q[1..k + 2][k] == s[..k + 1][k];
  }

  /** One that starts alike, plain up to the first colon, can only be found right behind the quote. */
  lemma OnlyBehindTheQuote(table: PrintTable, s: string, v: string, k: nat, i: nat)
    requires k < |v| && v[k] == ':' && ':' !in v[..k] && Plain(table, v, k + 1)
    requires k < |s| && s[..k + 1] == v[..k + 1] && Colons(s) == Colons(v)
    requires IsAt(Quoted(table, v), s, i)
    ensures i == 1
  {
    var q := Quoted(table, v);
    NoColonBefore(table, s, v, i);
    ColonOfQuotation(table, v, k);
    assert s[k] == s[..k + 1][k] && v[..k] == v[..k + 1][..k] == s[..k];
    forall j | 0 <= j < i + k ensures q[j] != ':' {
      assert if j < i then q[..i][j] == q[j] else q[i..i + |s|][j - i] == s[..k][j - i];
    }
    assert q[i..i + |s|][k] == s[k];
    FirstColon(q, k + 1, i + k);
  }

  lemma FirstColon(q: string, a: nat, b: nat)
    requires a < |q| && q[a] == ':' && forall j :: 0 <= j < a ==> q[j] != ':'
    requires b < |q| && q[b] == ':' && forall j :: 0 <= j < b ==> q[j] != ':'
    ensures a == b
  {
  }

  // ---- The exact condition ----------------------------------------------------------

  predicate Slashes(s: string) {
    forall i :: 0 <= i < |s| ==> s[i] == '\\'
  }

  /** Nothing is escaped but a final run of backslashes. */
  ghost predicate Survives(table: PrintTable, s: string) {
    forall i :: 0 <= i < |s| && EscapedAt(table, s, i) ==> Slashes(s[i..])
  }

  lemma SameFirst(s: string, c: char, rest: string)
    requires s != [] && s[0] == c
    ensures s <= [c] + rest <==> s[1..] <= rest
  {
    assert s == [c] + s[1..];
  }

  /** Behind t > 0 backslashes too many, only backslashes still match. */
  lemma {:induction false} MatchesSlashes(table: PrintTable, s: string, run: string)
    requires run != [] && Slashes(run)
    ensures s <= run + Escaped(table, s) + ['"'] <==> Slashes(s)
    decreases |s|
  {
    if s != [] {
      var text := run + Escaped(table, s) + ['"'];
      if s[0] == '\\' {
        var next := run[1..] + ['\\', '\\'];
        assert text == ['\\'] + (next + Escaped(table, s[1..]) + ['"']);
        MatchesSlashes(table, s[1..], next);
        SameFirst(s, '\\', next + Escaped(table, s[1..]) + ['"']);
      } else {
        assert text[0] == '\\';
      }
    }
  }

  lemma SurvivesTail(table: PrintTable, s: string)
    requires s != [] && !EscapedAt(table, s, 0)
    ensures Survives(table, s) <==> Survives(table, s[1..])
  {
    forall i | 0 <= i < |s| - 1 ensures EscapedAt(table, s[1..], i) == EscapedAt(table, s, i + 1) && s[1..][i..] == s[i + 1..] {
    }
    if Survives(table, s[1..]) {
      forall i | 0 <= i < |s| && EscapedAt(table, s, i) ensures Slashes(s[i..]) {
        assert EscapedAt(table, s[1..], i - 1);
      }
    }
    if Survives(table, s) {
      forall i | 0 <= i < |s| - 1 && EscapedAt(table, s[1..], i) ensures Slashes(s[1..][i..]) {
        assert EscapedAt(table, s, i + 1);
      }
    }
  }

  lemma SlashesSurvive(table: PrintTable, s: string)
    requires s != [] && s[0] == '\\'
    ensures Survives(table, s) <==> Slashes(s[1..])
  {
    assert s[0..] == s && EscapedAt(table, s, 0);
    if Survives(table, s) {
      assert Slashes(s);
    } else {
      assert exists i :: 0 <= i < |s| && EscapedAt(table, s, i) && !Slashes(s[i..]);
    }
  }

  lemma Regroup(a: string, rest: string, end: string)
    ensures (a + a) + rest + end == a + (a + rest + end)
  {
  }

  lemma SlashText(table: PrintTable, s: string)
    requires s != [] && s[0] == '\\'
    ensures Escaped(table, s) + ['"'] == ['\\'] + (['\\'] + Escaped(table, s[1..]) + ['"'])
  {
    var rest := Escaped(table, s[1..]);
    assert Written(table, s, 0) == ['\\'] + ['\\'];
    Regroup(['\\'], rest, ['"']);
  }

  lemma MatchesFromSlash(table: PrintTable, s: string)
    requires s != [] && s[0] == '\\'
    ensures s <= Escaped(table, s) + ['"'] <==> Survives(table, s)
  {
    var rest := ['\\'] + Escaped(table, s[1..]) + ['"'];
    SlashText(table, s);
    MatchesSlashes(table, s[1..], ['\\']);
    SameFirst(s, '\\', rest);
    SlashesSurvive(table, s);
  }

  lemma {:induction false} MatchesFromTheStart(table: PrintTable, s: string)
    ensures s <= Escaped(table, s) + ['"'] <==> Survives(table, s)
    decreases |s|
  {
    if s != [] {
      var text, w := Escaped(table, s) + ['"'], Written(table, s, 0);
      assert text == w + (Escaped(table, s[1..]) + ['"']);
      if !EscapedAt(table, s, 0) {
        MatchesFromTheStart(table, s[1..]);
        SameFirst(s, s[0], Escaped(table, s[1..]) + ['"']);
        SurvivesTail(table, s);
      } else if s[0] == '\\' {
        MatchesFromSlash(table, s);
      } else {
        assert !Slashes(s[0..]);
        if Opens(s, 0) {
          assert text[1] == s[0] && s[1] == '{';
        }
      }
    }
  }

  /**
   A string with a plain start up to its first colon is found in its quotation exactly
   when nothing but a final run of backslashes is escaped.
   */
  lemma QuotationContains(table: PrintTable, s: string, k: nat)
    requires k < |s| && s[k] == ':' && ':' !in s[..k] && Plain(table, s, k + 1)
    ensures Contains(Quoted(table, s), s) <==> Survives(table, s)
  {
    var q := Quoted(table, s);
    assert q[1..] == Escaped(table, s) + ['"'];
    MatchesFromTheStart(table, s);
    if Contains(q, s) {
      var i :| 0 <= i <= |q| && IsAt(q, s, i);
      OnlyBehindTheQuote(table, s, s, k, i);
      assert q[1..][..|s|] == s;
    }
    if Survives(table, s) {
      assert q[1..1 + |s|] == q[1..][..|s|] == s;
      assert IsAt(q, s, 1);
    }
  }
}
