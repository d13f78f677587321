/**
 * Character-level text handling shared by every component: the C library's
 * notion of white space, `%s` tokens, the literal part of a `fscanf` format,
 * decimal and hexadecimal numbers as `strtol`/`strtoul`/`%lu`/`%lx` read and
 * print them, `fgets` line splitting and `strtok`.
 */
module Text {

  datatype Option<T> = None | Some(value: T)

  /** `isspace` in the C locale: space, \t, \n, \v, \f, \r. */
  predicate IsSpace(c: char) { c == ' ' || '\t' <= c <= '\r' }

  predicate NoSpace(s: string) { forall i | 0 <= i < |s| :: !IsSpace(s[i]) }

  /** What one `%s` conversion can produce: a non-empty run without white space. */
  predicate IsToken(s: string) { |s| > 0 && NoSpace(s) }

  predicate AllTokens(ts: seq<string>) { forall k | 0 <= k < |ts| :: IsToken(ts[k]) }

  /** Drops leading white space (what `%s` and a white-space directive do first). */
  function SkipSpace(s: string): (r: string)
    ensures |r| <= |s| && r == s[|s| - |r|..]
    ensures r != [] ==> !IsSpace(r[0])
  {
    if s != [] && IsSpace(s[0]) then SkipSpace(s[1..]) else s
  }

  /** The longest prefix without white space. */
  function Word(s: string): (r: string)
    ensures |r| <= |s| && r == s[..|r|] && NoSpace(r)
    ensures |r| < |s| ==> IsSpace(s[|r|])
  {
    if s != [] && !IsSpace(s[0]) then [s[0]] + Word(s[1..]) else []
  }

  /** The sequence of white-space separated tokens that repeated `%s` conversions read. */
  function Tokens(s: string): (ts: seq<string>)
    ensures AllTokens(ts)
    decreases |s|
  {
    var t := SkipSpace(s);
    if t == [] then [] else
    var w := Word(t);
    [w] + Tokens(t[|w|..])
  }

  /** The run of non-space characters at the start of `s`. */
  function Run(s: string): (r: string)
    ensures NoSpace(r)
    ensures s != [] && !IsSpace(s[0]) ==> r != []
  {
    if s != [] && !IsSpace(s[0]) then [s[0]] + Run(s[1..]) else []
  }

  /** What a single `%s` conversion reads: the first token, if there is one. */
  function First(s: string): (r: Option<string>)
    ensures r.Some? ==> IsToken(r.value)
  {
    if s == [] then None else if IsSpace(s[0]) then First(s[1..]) else Some(Run(s))
  }

  lemma {:induction false} RunIsWord(s: string)
    ensures Run(s) == Word(s)
  {
    if s != [] && !IsSpace(s[0]) {
      RunIsWord(s[1..]);
    }
  }

  /** One `%s` reads the first of the tokens repeated `%s` conversions read. */
  lemma {:induction false} FirstOfTokens(s: string)
    ensures First(s) == if Tokens(s) == [] then None else Some(Tokens(s)[0])
  {
    if s != [] {
      if IsSpace(s[0]) {
        assert [s[0]] + s[1..] == s;
        TokensOfSpace(s[0], s[1..]);
        FirstOfTokens(s[1..]);
      } else {
        RunIsWord(s);
        assert SkipSpace(s) == s;
      }
    }
  }

  /** A file holding a single token reads as that token. */
  lemma {:induction false} FirstOfToken(v: string)
    requires IsToken(v)
    ensures First(v) == Some(v)
  {
    RunOfToken(v);
  }

  lemma {:induction false} RunOfToken(v: string)
    requires NoSpace(v)
    ensures Run(v) == v
  {
    if v != [] {
      RunOfToken(v[1..]);
    }
  }

  lemma {:induction false} WordOfToken(w: string, rest: string)
    requires NoSpace(w)
    requires rest == [] || IsSpace(rest[0])
    ensures Word(w + rest) == w
    decreases |w|
  {
    if w == [] {
      assert w + rest == rest;
    } else {
      assert (w + rest)[1..] == w[1..] + rest;
      WordOfToken(w[1..], rest);
    }
  }

  /** A token followed by white space (or the end) is read back as that token. */
  lemma TokensOfToken(w: string, rest: string)
    requires IsToken(w)
    requires rest == [] || IsSpace(rest[0])
    ensures Tokens(w + rest) == [w] + Tokens(rest)
  {
    var s := w + rest;
    assert s[0] == w[0];
    assert SkipSpace(s) == s;
    WordOfToken(w, rest);
    assert s[|w|..] == rest;
  }

  lemma TokensOfSpace(c: char, rest: string)
    requires IsSpace(c)
    ensures Tokens([c] + rest) == Tokens(rest)
  {
    assert ([c] + rest)[1..] == rest;
    assert SkipSpace([c] + rest) == SkipSpace(rest);
  }

  lemma TokensOfSkipSpace(s: string)
    ensures Tokens(SkipSpace(s)) == Tokens(s)
  {
    var r := SkipSpace(s);
    assert SkipSpace(r) == r;
  }

  /** One line of a snapshot file: the fields separated by single spaces, then a newline. */
  function Record(fs: seq<string>): (r: string)
    ensures fs == [] <==> r == []
    decreases |fs|
  {
    if |fs| == 0 then ""
    else if |fs| == 1 then fs[0] + "\n"
    else fs[0] + " " + Record(fs[1..])
  }

  function Records(ls: seq<seq<string>>): string
    decreases |ls|
  {
    if ls == [] then "" else Record(ls[0]) + Records(ls[1..])
  }

  function Flatten(ls: seq<seq<string>>): seq<string>
    decreases |ls|
  {
    if ls == [] then [] else ls[0] + Flatten(ls[1..])
  }

  predicate WellFormedRecords(ls: seq<seq<string>>)
  {
    forall k | 0 <= k < |ls| :: |ls[k]| > 0 && AllTokens(ls[k])
  }

  /** A token, a separator and more text tokenise as the token then the rest. */
  lemma TokensOfField(w: string, sep: char, tail: string)
    requires IsToken(w) && IsSpace(sep)
    ensures Tokens(w + ([sep] + tail)) == [w] + Tokens(tail)
  {
    TokensOfToken(w, [sep] + tail);
    TokensOfSpace(sep, tail);
  }

  lemma TailTokens(fs: seq<string>)
    requires |fs| > 0 && AllTokens(fs)
    ensures AllTokens(fs[1..])
  {
    forall k | 0 <= k < |fs[1..]| ensures IsToken(fs[1..][k]) {
      assert fs[1..][k] == fs[k + 1];
    }
  }

  lemma RecordUnfold(fs: seq<string>, rest: string)
    requires |fs| > 1 && AllTokens(fs)
    ensures Tokens(Record(fs) + rest) == [fs[0]] + Tokens(Record(fs[1..]) + rest)
  {
    var tail := Record(fs[1..]) + rest;
    assert Record(fs) + rest == fs[0] + ([' '] + tail);
    TokensOfField(fs[0], ' ', tail);
  }

  lemma RecordLast(fs: seq<string>, rest: string)
    requires |fs| == 1 && AllTokens(fs)
    ensures Tokens(Record(fs) + rest) == fs + Tokens(rest)
  {
    assert Record(fs) + rest == fs[0] + (['\n'] + rest);
    TokensOfField(fs[0], '\n', rest);
    assert fs == [fs[0]];
  }

  /** Reading one record back token by token yields exactly its fields. */
  lemma {:induction false} TokensOfRecord(fs: seq<string>, rest: string)
    requires |fs| > 0 && AllTokens(fs)
    ensures Tokens(Record(fs) + rest) == fs + Tokens(rest)
    decreases |fs|
  {
    if |fs| == 1 {
      RecordLast(fs, rest);
    } else {
      RecordUnfold(fs, rest);
      TailTokens(fs);
      TokensOfRecord(fs[1..], rest);
      ConsSplit(fs, Tokens(rest));
    }
  }

  lemma ConcatAssoc<T>(a: seq<T>, b: seq<T>, c: seq<T>)
    ensures a + b + c == a + (b + c)
  {
  }

  lemma ConsSplit<T>(xs: seq<T>, ys: seq<T>)
    requires |xs| > 0
    ensures [xs[0]] + (xs[1..] + ys) == xs + ys
  {
    assert xs == [xs[0]] + xs[1..];
  }

  /** The central round-trip fact of every snapshot file: the text of well-formed
      records tokenises to the concatenation of their fields. */
  lemma {:induction false} TokensOfRecords(ls: seq<seq<string>>)
    requires WellFormedRecords(ls)
    ensures Tokens(Records(ls)) == Flatten(ls)
    decreases |ls|
  {
    if ls != [] {
      assert WellFormedRecords(ls[1..]) by {
        forall k | 0 <= k < |ls[1..]| ensures |ls[1..][k]| > 0 && AllTokens(ls[1..][k]) {
          assert ls[1..][k] == ls[k + 1];
        }
      }
      TokensOfRecord(ls[0], Records(ls[1..]));
      TokensOfRecords(ls[1..]);
    }
  }

  lemma {:induction false} RecordsAppend(a: seq<seq<string>>, b: seq<seq<string>>)
    ensures Records(a + b) == Records(a) + Records(b)
    decreases |a|
  {
    if a == [] {
      assert a + b == b;
    } else {
      assert (a + b)[1..] == a[1..] + b;
      RecordsAppend(a[1..], b);
      assert Records(a + b) == Record(a[0]) + Records(a[1..] + b);
    }
  }

  lemma {:induction false} FlattenAppend(a: seq<seq<string>>, b: seq<seq<string>>)
    ensures Flatten(a + b) == Flatten(a) + Flatten(b)
    decreases |a|
  {
    if a == [] {
      assert a + b == b;
    } else {
      assert (a + b)[1..] == a[1..] + b;
      FlattenAppend(a[1..], b);
      assert Flatten(a + b) == a[0] + Flatten(a[1..] + b);
    }
  }

  // ---------------------------------------------------------------------
  // The literal part of a fscanf format.

  /** Executes a `fscanf` format that holds no conversion against the input `s`.
      A white-space character of the format skips any amount of white space; an
      ordinary character must match the next input character. Returns whether
      the call reports EOF (the input ran out while an ordinary character was
      expected) and the input left unread (after a mismatch, the mismatching
      character is left unread). */
  function ScanLiteral(f: string, s: string): (r: (bool, string))
    ensures |r.1| <= |s|
    ensures r.0 ==> r.1 == []
    decreases |f|
  {
    if f == [] then (false, s)
    else if IsSpace(f[0]) then ScanLiteral(f[1..], SkipSpace(s))
    else if s == [] then (true, [])
    else if s[0] == f[0] then ScanLiteral(f[1..], s[1..])
    else (false, s)
  }

  /** A format whose white space always stands alone, ending in white space,
      such as the snapshot headers. */
  predicate SelfMatching(f: string)
  {
    && |f| > 0
    && IsSpace(f[|f| - 1])
    && forall i | 0 <= i < |f| - 1 :: IsSpace(f[i]) ==> !IsSpace(f[i + 1])
  }

  lemma SkipSpaceOfWord(c: char, x: string)
    requires IsSpace(c)
    requires x != [] && !IsSpace(x[0])
    ensures SkipSpace([c] + x) == x
  {
    assert ([c] + x)[1..] == x;
  }

  /** A file that starts with the header a dump wrote is never reported empty,
      and scanning resumes right after the header. */
  lemma {:induction false} ScanOwnHeader(f: string, r: string)
    requires SelfMatching(f)
    ensures ScanLiteral(f, f + r) == (false, SkipSpace(r))
    decreases |f|
  {
    var s := f + r;
    assert s[0] == f[0];
    if |f| == 1 {
      assert s[1..] == r;
      assert f[1..] == [];
    } else {
      var f' := f[1..];
      assert SelfMatching(f') by {
        forall i | 0 <= i < |f'| - 1 ensures IsSpace(f'[i]) ==> !IsSpace(f'[i + 1]) {
          assert f'[i] == f[i + 1] && f'[i + 1] == f[i + 2];
        }
      }
      assert s[1..] == f' + r;
      if IsSpace(f[0]) {
        assert !IsSpace(f'[0]);
        SkipSpaceOfWord(f[0], f' + r);
      }
      ScanOwnHeader(f', r);
    }
  }

  // ---------------------------------------------------------------------
  // Decimal numbers.

  predicate IsDigit(c: char) { '0' <= c <= '9' }

  predicate AllDigits(s: string) { forall i | 0 <= i < |s| :: IsDigit(s[i]) }

  function DigitChar(d: nat): (c: char)
    requires d < 10
    ensures IsDigit(c)
  {
    (d + 48) as char
  }

  function DigitVal(c: char): (d: nat)
    requires IsDigit(c)
    ensures d < 10
  {
    c as int - 48
  }

  /** `%lu` / `%ld` of a non-negative number: most significant digit first. */
  function Dec(n: nat): (s: string)
    ensures |s| > 0 && AllDigits(s)
    decreases n
  {
    if n < 10 then [DigitChar(n)] else Dec(n / 10) + [DigitChar(n % 10)]
  }

  /** The value of a string of decimal digits. */
  function DecValue(s: string): nat
    requires AllDigits(s)
    decreases |s|
  {
    if s == [] then 0 else DecValue(s[..|s| - 1]) * 10 + DigitVal(s[|s| - 1])
  }

  /** Printing a number in decimal and reading it back is the identity. */
  lemma {:induction false} DecValueOfDec(n: nat)
    ensures DecValue(Dec(n)) == n
    decreases n
  {
    var s := Dec(n);
    if n >= 10 {
      assert s[..|s| - 1] == Dec(n / 10);
      DecValueOfDec(n / 10);
    }
  }

  lemma DecInjective(i: nat, j: nat)
    requires Dec(i) == Dec(j)
    ensures i == j
  {
    DecValueOfDec(i);
    DecValueOfDec(j);
  }

  lemma DecNoSpace(n: nat)
    ensures IsToken(Dec(n))
  {
    var s := Dec(n);
    forall i | 0 <= i < |s| ensures !IsSpace(s[i]) {
      assert IsDigit(s[i]);
    }
  }

  /** The longest prefix of decimal digits. */
  function DigitPrefix(s: string): (r: string)
    ensures |r| <= |s| && r == s[..|r|] && AllDigits(r)
    ensures |r| < |s| ==> !IsDigit(s[|r|])
  {
    if s != [] && IsDigit(s[0]) then [s[0]] + DigitPrefix(s[1..]) else []
  }

  /** `strtol(s, &end, 10)`: leading white space, an optional sign, then the
      longest run of digits (0 when there is none). Overflow saturation is not
      modelled. */
  function StrToL(s: string): (r: int)
    ensures SkipSpace(s) == [] ==> r == 0
    ensures r < 0 ==> SkipSpace(s) != [] && SkipSpace(s)[0] == '-'
    ensures IsDecToken(SkipSpace(s)) ==> r == DecValue(SkipSpace(s))
  {
    var t := SkipSpace(s);
    if t != [] && t[0] == '-' then 0 - DecValue(DigitPrefix(t[1..])) as int
    else if t != [] && t[0] == '+' then DecValue(DigitPrefix(t[1..]))
    else
      assert AllDigits(t) ==> DigitPrefix(t) == t by {
        if AllDigits(t) { DigitPrefixOfDigits(t); }
      }
      DecValue(DigitPrefix(t))
  }

  lemma {:induction false} DigitPrefixOfNumber(d: string, x: string)
    requires AllDigits(d)
    requires x == [] || !IsDigit(x[0])
    ensures DigitPrefix(d + x) == d
    decreases |d|
  {
    if d == [] {
      assert d + x == x;
    } else {
      assert (d + x)[0] == d[0];
      assert (d + x)[1..] == d[1..] + x;
      DigitPrefixOfNumber(d[1..], x);
    }
  }

  lemma DigitPrefixOfDigits(s: string)
    requires AllDigits(s)
    ensures DigitPrefix(s) == s
  {
    DigitPrefixOfNumber(s, []);
    assert s + [] == s;
  }

  /** A decimal number followed by a non-digit splits back into the number and
      the rest: the key to the injectivity of the per-CPU path templates. */
  lemma DecSplit(i: nat, x: string, j: nat, y: string)
    requires Dec(i) + x == Dec(j) + y
    requires x == [] || !IsDigit(x[0])
    requires y == [] || !IsDigit(y[0])
    ensures i == j && x == y
  {
    var a, b := Dec(i), Dec(j);
    DigitPrefixOfNumber(a, x);
    DigitPrefixOfNumber(b, y);
    DecInjective(i, j);
    assert x == (a + x)[|a|..] == (b + y)[|b|..] == y;
  }

  /** `strtol` reads back what `%ld` printed. */
  lemma StrToLOfDec(n: nat)
    ensures StrToL(Dec(n)) == n
  {
    var s := Dec(n);
    assert IsDigit(s[0]);
    assert SkipSpace(s) == s;
    DigitPrefixOfDigits(s);
    DecValueOfDec(n);
  }

  // ---------------------------------------------------------------------
  // Hexadecimal numbers.

  predicate IsHexDigit(c: char) { IsDigit(c) || 'a' <= c <= 'f' || 'A' <= c <= 'F' }

  predicate AllHex(s: string) { forall i | 0 <= i < |s| :: IsHexDigit(s[i]) }

  function HexVal(c: char): (d: nat)
    requires IsHexDigit(c)
    ensures d < 16
  {
    if IsDigit(c) then DigitVal(c)
    else if 'a' <= c <= 'f' then c as int - 'a' as int + 10
    else c as int - 'A' as int + 10
  }

  function HexValue(s: string): nat
    requires AllHex(s)
    decreases |s|
  {
    if s == [] then 0 else HexValue(s[..|s| - 1]) * 16 + HexVal(s[|s| - 1])
  }

  function HexPrefix(s: string): (r: string)
    ensures |r| <= |s| && r == s[..|r|] && AllHex(r)
    ensures |r| < |s| ==> !IsHexDigit(s[|r|])
  {
    if s != [] && IsHexDigit(s[0]) then [s[0]] + HexPrefix(s[1..]) else []
  }

  predicate HasHexPrefix(t: string) { |t| >= 2 && t[0] == '0' && (t[1] == 'x' || t[1] == 'X') }

  const MAX_U64: nat := 0xFFFF_FFFF_FFFF_FFFF

  type u64 = x: int | 0 <= x <= MAX_U64

  /** `strtoul(s, NULL, 16)` and `%lx`: leading white space, an optional `0x`,
      then the longest run of hexadecimal digits; a value that does not fit
      saturates at ULONG_MAX as `strtoul` does. A sign is not modelled. */
  function StrToUL16(s: string): (v: u64)
    ensures SkipSpace(s) == [] ==> v == 0
    ensures var t := SkipSpace(s);
      IsHexToken(t) ==>
        var d := if HasHexPrefix(t) then t[2..] else t;
        v == if HexValue(d) <= MAX_U64 then HexValue(d) else MAX_U64
  {
    var t := SkipSpace(s);
    var u := if HasHexPrefix(t) then t[2..] else t;
    assert AllHex(u) ==> HexPrefix(u) == u by {
      if AllHex(u) { HexPrefixOfHex(u); }
    }
    var n := HexValue(HexPrefix(u));
    if n <= MAX_U64 then n else MAX_U64
  }

  lemma {:induction false} HexPrefixOfHex(s: string)
    requires AllHex(s)
    ensures HexPrefix(s) == s
    decreases |s|
  {
    if s != [] {
      HexPrefixOfHex(s[1..]);
    }
  }

  /** A token `%lx` reads completely: an optional `0x`, then hexadecimal digits. */
  predicate IsHexToken(s: string)
  {
    if HasHexPrefix(s) then |s| > 2 && AllHex(s[2..]) else |s| > 0 && AllHex(s)
  }

  /** A token `%lu` or `%ld` reads completely: decimal digits only. */
  predicate IsDecToken(s: string) { |s| > 0 && AllDigits(s) }

  lemma HexTokenIsToken(s: string)
    requires IsHexToken(s)
    ensures IsToken(s)
  {
    forall i | 0 <= i < |s| ensures !IsSpace(s[i]) {
      if HasHexPrefix(s) && i >= 2 {
        assert s[i] == s[2..][i - 2];
      }
    }
  }

  // ---------------------------------------------------------------------
  // Case-insensitive comparison (`strcasecmp` in the C locale).

  function Lower(c: char): char
  {
    if 'A' <= c <= 'Z' then (c as int + 32) as char else c
  }

  function LowerAll(s: string): (r: string)
    ensures |r| == |s|
    ensures forall i | 0 <= i < |s| :: r[i] == Lower(s[i])
  {
    if s == [] then [] else [Lower(s[0])] + LowerAll(s[1..])
  }

  /** `strcasecmp(a, b) == 0`, written as the per-character comparison it performs. */
  predicate EqualsIgnoreCase(a: string, b: string): (r: bool)
    ensures r <==> LowerAll(a) == LowerAll(b)
  {
    assert |a| == |b| && (forall i | 0 <= i < |a| :: Lower(a[i]) == Lower(b[i])) ==> LowerAll(a) == LowerAll(b);
    |a| == |b| && forall i | 0 <= i < |a| :: Lower(a[i]) == Lower(b[i])
  }

  /** `s` starts with `p`: `strncmp(s, p, strlen(p)) == 0`. */
  predicate StartsWith(s: string, p: string) { |p| <= |s| && s[..|p|] == p }

  // ---------------------------------------------------------------------
  // fgets and strtok.

  /** Length of the first line of `s`, its newline included (what one `fgets` returns). */
  function LineLen(s: string): (k: nat)
    ensures 0 < k <= |s| || (s == [] && k == 0)
    ensures forall i | 0 <= i < k - 1 :: s[i] != '\n'
    ensures k < |s| ==> s[k - 1] == '\n'
  {
    if s == [] then 0
    else if s[0] == '\n' then 1
    else 1 + LineLen(s[1..])
  }

  /** The lines that successive `fgets` calls return. */
  function SplitLines(s: string): (ls: seq<string>)
    ensures forall k | 0 <= k < |ls| :: ls[k] != []
    decreases |s|
  {
    if s == [] then [] else
    var k := LineLen(s);
    [s[..k]] + SplitLines(s[k..])
  }

  function SkipChar(s: string, d: char): (r: string)
    ensures |r| <= |s|
    ensures r != [] ==> r[0] != d
  {
    if s != [] && s[0] == d then SkipChar(s[1..], d) else s
  }

  function UpTo(s: string, d: char): (r: string)
    ensures |r| <= |s| && r == s[..|r|]
    ensures forall i | 0 <= i < |r| :: r[i] != d
    ensures |r| < |s| ==> s[|r|] == d
  {
    if s != [] && s[0] != d then [s[0]] + UpTo(s[1..], d) else []
  }

  /** One `strtok` call with the single delimiter `d`: skips leading delimiters,
      returns the token (None for NULL) and where the next call resumes. */
  function StrTok(s: string, d: char): (r: Option<(string, string)>)
    ensures r.Some? ==> |r.value.0| > 0 && forall i | 0 <= i < |r.value.0| :: r.value.0[i] != d
  {
    var t := SkipChar(s, d);
    if t == [] then None else
    var w := UpTo(t, d);
    Some((w, if |w| < |t| then t[|w| + 1..] else []))
  }

  lemma {:induction false} UpToOf(a: string, d: char, x: string)
    requires forall i | 0 <= i < |a| :: a[i] != d
    requires x == [] || x[0] == d
    ensures UpTo(a + x, d) == a
    decreases |a|
  {
    if a != [] {
      assert (a + x)[0] == a[0] && (a + x)[1..] == a[1..] + x;
      UpToOf(a[1..], d, x);
      assert a == [a[0]] + a[1..];
    } else {
      assert a + x == x;
    }
  }

  /** A token followed by the delimiter: `strtok` returns the token and resumes after the delimiter. */
  lemma StrTokOf(a: string, d: char, x: string)
    requires a != [] && forall i | 0 <= i < |a| :: a[i] != d
    ensures StrTok(a + [d] + x, d) == Some((a, x))
  {
    var s := a + [d] + x;
    assert s == a + ([d] + x);
    UpToOf(a, d, [d] + x);
    assert s[|a| + 1..] == x;
  }

  /** A token that runs to the end of the string: `strtok` returns all of it. */
  lemma StrTokWhole(a: string, d: char)
    requires a != [] && forall i | 0 <= i < |a| :: a[i] != d
    ensures StrTok(a, d) == Some((a, []))
  {
    UpToOf(a, d, []);
    assert a + [] == a;
  }
}
