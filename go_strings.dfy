/** The parts of Go's `strings`, `unicode` and `fmt` packages that the report parser relies on. */
module GoStrings {
  import opened Seqs

  /** unicode.IsSpace: the Latin-1 white space runes plus the other runes of Unicode's White_Space property. */
  predicate IsSpace(c: char) {
    c == ' ' || c == '\t' || c == '\n' || c == '\U{000B}' || c == '\U{000C}' || c == '\r'
    || c == '\U{0085}' || c == '\U{00A0}' || c == '\U{1680}'
    || ('\U{2000}' <= c <= '\U{200A}')
    || c == '\U{2028}' || c == '\U{2029}' || c == '\U{202F}' || c == '\U{205F}' || c == '\U{3000}'
  }

  predicate AllSpace(s: string) {
    forall k :: 0 <= k < |s| ==> IsSpace(s[k])
  }

  /** A string with no white space at either end. */
  predicate IsTrimmed(s: string) {
    s == [] || (!IsSpace(s[0]) && !IsSpace(s[|s| - 1]))
  }

  /** Removes the longest all-space prefix. */
  function TrimLeft(s: string): (r: string)
    ensures |r| <= |s|
  {
    if |s| > 0 && IsSpace(s[0]) then TrimLeft(s[1..]) else s
  }

  /** Removes the longest all-space suffix. */
  function TrimRight(s: string): (r: string)
    ensures |r| <= |s|
  {
    if |s| > 0 && IsSpace(s[|s| - 1]) then TrimRight(s[..|s| - 1]) else s
  }

  /** TrimLeft leaves a suffix of `s`, cuts off white space only, and stops
      at the first rune that is not white space. */
  lemma {:induction false} TrimLeftCuts(s: string)
    ensures var r := TrimLeft(s);
      r == s[|s| - |r|..] && AllSpace(s[..|s| - |r|]) && (r != [] ==> !IsSpace(r[0]))
  {
    if |s| > 0 && IsSpace(s[0]) {
      TrimLeftCuts(s[1..]);
      var r := TrimLeft(s);
      assert s[1..][|s| - 1 - |r|..] == s[|s| - |r|..];
      forall k | 0 <= k < |s| - |r| ensures IsSpace(s[k]) {
        if k > 0 { assert s[k] == s[1..][..|s| - 1 - |r|][k - 1]; }
      }
    }
  }

  /** TrimRight leaves a prefix of `s`, cuts off white space only, and stops
      at the last rune that is not white space. */
  lemma {:induction false} TrimRightCuts(s: string)
    ensures var r := TrimRight(s);
      r == s[..|r|] && AllSpace(s[|r|..]) && (r != [] ==> !IsSpace(r[|r| - 1]))
  {
    if |s| > 0 && IsSpace(s[|s| - 1]) {
      var u := s[..|s| - 1];
      TrimRightCuts(u);
      var r := TrimRight(s);
      assert u[..|r|] == s[..|r|];
      forall k | |r| <= k < |s| ensures IsSpace(s[k]) {
        if k < |s| - 1 { assert s[k] == u[|r|..][k - |r|]; }
      }
    }
  }

  /** strings.TrimSpace: `s` with white space removed from both ends; what
      remains neither starts nor ends with white space. */
  function TrimSpace(s: string): (r: string)
    ensures |r| <= |s|
    ensures IsTrimmed(r)
  {
    var l := TrimLeft(s);
    TrimLeftCuts(s);
    TrimRightCuts(l);
    assert TrimRight(l) != [] ==> TrimRight(l)[0] == l[0];
    TrimRight(l)
  }

  /** TrimSpace returns a slice of `s`, and everything it cuts off on either
      side is white space. */
  lemma TrimSpaceCuts(s: string)
    ensures var r := TrimSpace(s);
      exists i :: 0 <= i <= |s| - |r| && r == s[i..i + |r|] && AllSpace(s[..i]) && AllSpace(s[i + |r|..])
  {
    var l := TrimLeft(s);
    var r := TrimRight(l);
    TrimLeftCuts(s);
    TrimRightCuts(l);
    var i := |s| - |l|;
    assert r == s[i..i + |r|];
    assert s[i + |r|..] == l[|r|..];
  }

  /** TrimSpace gives the empty string exactly for strings of white space only. */
  lemma TrimSpaceBlank(s: string)
    ensures TrimSpace(s) == [] <==> AllSpace(s)
  {
    var l := TrimLeft(s);
    if AllSpace(s) {
      TrimLeftAllSpace(s);
    }
    if TrimSpace(s) == [] {
      TrimLeftCuts(s);
      TrimRightCuts(l);
      assert l[0..] == l;
      AllSpaceAround(s, |s| - |l|);
    }
  }

  lemma {:induction false} TrimLeftAllSpace(s: string)
    requires AllSpace(s)
    ensures TrimLeft(s) == []
  {
    if s != [] {
      TrimLeftAllSpace(s[1..]);
    }
  }

  /** Two all-space pieces make an all-space whole. */
  lemma AllSpaceAround(s: string, i: nat)
    requires i <= |s| && AllSpace(s[..i]) && AllSpace(s[i..])
    ensures AllSpace(s)
  {
    forall k | 0 <= k < |s| ensures IsSpace(s[k]) {
      if k >= i { assert s[k] == s[i..][k - i]; } else { assert s[k] == s[..i][k]; }
    }
  }

  /** A string with no white space at either end is left as it is. */
  lemma TrimSpaceTrimmed(s: string)
    requires IsTrimmed(s)
    ensures TrimSpace(s) == s
  {
    var l := TrimLeft(s);
    assert l == s;
    assert TrimRight(l) == l;
  }

  /** White space before a string that starts with something else is all TrimLeft removes. */
  lemma {:induction false} TrimLeftSkips(l: string, t: string)
    requires AllSpace(l) && t != [] && !IsSpace(t[0])
    ensures TrimLeft(l + t) == t
  {
    if l == [] {
      assert l + t == t;
    } else {
      assert (l + t)[0] == l[0];
      assert (l + t)[1..] == l[1..] + t;
      TrimLeftSkips(l[1..], t);
    }
  }

  /** White space after a string that ends with something else is all TrimRight removes. */
  lemma {:induction false} TrimRightSkips(t: string, r: string)
    requires AllSpace(r) && t != [] && !IsSpace(t[|t| - 1])
    ensures TrimRight(t + r) == t
  {
    if r == [] {
      assert t + r == t;
    } else {
      assert (t + r)[|t + r| - 1] == r[|r| - 1];
      assert (t + r)[..|t + r| - 1] == t + r[..|r| - 1];
      TrimRightSkips(t, r[..|r| - 1]);
    }
  }

  /** TrimSpace takes off exactly the white space padding a non-empty trimmed string. */
  lemma TrimSpaceAround(l: string, t: string, r: string)
    requires AllSpace(l) && AllSpace(r) && t != [] && IsTrimmed(t)
    ensures TrimSpace(l + t + r) == t
  {
    assert l + t + r == l + (t + r);
    assert (t + r)[0] == t[0];
    TrimLeftSkips(l, t + r);
    TrimRightSkips(t, r);
  }

  /** strings.Join with a one-character separator. */
  function Join(parts: seq<string>, sep: char): string
    requires |parts| >= 1
  {
    if |parts| == 1 then parts[0] else parts[0] + [sep] + Join(parts[1..], sep)
  }

  /** strings.Split with a one-character separator: the maximal pieces
      between separators, so `n` separators give `n + 1` pieces and the
      empty string gives one empty piece. Joining them back yields `s`. */
  function Split(s: string, sep: char): (parts: seq<string>)
    ensures |parts| >= 1
    ensures forall k :: 0 <= k < |parts| ==> sep !in parts[k]
    ensures Join(parts, sep) == s
  {
    if |s| == 0 then [""]
    else
      var rest := Split(s[1..], sep);
      if s[0] == sep then
        assert Join([""] + rest, sep) == [sep] + Join(rest, sep) by {
          assert ([""] + rest)[1..] == rest;
        }
        [""] + rest
      else
        var parts := [[s[0]] + rest[0]] + rest[1..];
        assert |rest| == 1 ==> Join(parts, sep) == s;
        assert |rest| > 1 ==> Join(parts, sep) == s by {
          if |rest| > 1 {
            assert parts[1..] == rest[1..];
            assert Join(rest, sep) == rest[0] + [sep] + Join(rest[1..], sep);
          }
        }
        parts
  }

  /** Split is the inverse of Join on pieces free of the separator. */
  lemma {:induction false} SplitJoin(parts: seq<string>, sep: char)
    requires |parts| >= 1
    requires forall k :: 0 <= k < |parts| ==> sep !in parts[k]
    ensures Split(Join(parts, sep), sep) == parts
  {
    if |parts| == 1 {
      SplitNoSeparator(parts[0], sep);
    } else {
      SplitJoin(parts[1..], sep);
      SplitPrefix(parts[0], Join(parts[1..], sep), sep);
      assert [parts[0]] + parts[1..] == parts;
    }
  }

  /** A piece with no separator splits to itself. */
  lemma {:induction false} SplitNoSeparator(s: string, sep: char)
    requires sep !in s
    ensures Split(s, sep) == [s]
  {
    if |s| > 0 {
      SplitNoSeparator(s[1..], sep);
      assert [s[0]] + s[1..] == s;
    }
  }

  /** Splitting `a + sep + b`, with no separator in `a`, puts `a` in front of the pieces of `b`. */
  lemma {:induction false} SplitPrefix(a: string, b: string, sep: char)
    requires sep !in a
    ensures Split(a + [sep] + b, sep) == [a] + Split(b, sep)
  {
    if |a| == 0 {
      assert a + [sep] + b == [sep] + b;
      assert ([sep] + b)[1..] == b;
    } else {
      SplitPrefix(a[1..], b, sep);
      assert (a + [sep] + b)[1..] == a[1..] + [sep] + b;
      assert [a[0]] + a[1..] == a;
    }
  }

  /** The decimal digit for 0 <= n <= 9. */
  function DigitChar(n: nat): (c: char)
    requires n < 10
    ensures '0' <= c <= '9' && DigitValue(c) == n
  {
    (('0' as int) + n) as char
  }

  function DigitValue(c: char): (n: nat)
    requires IsDigit(c)
    ensures n < 10
  {
    (c as int) - ('0' as int)
  }

  predicate IsDigit(c: char) {
    '0' <= c <= '9'
  }

  predicate AllDigits(s: string) {
    forall k :: 0 <= k < |s| ==> IsDigit(s[k])
  }

  function Pow10(w: nat): nat {
    if w == 0 then 1 else 10 * Pow10(w - 1)
  }

  /** The last `w` decimal digits of `n`, zero-padded on the left (fmt's `%0*d` for n < 10^w). */
  function PadDigits(n: nat, w: nat): (s: string)
    ensures |s| == w && AllDigits(s)
  {
    if w == 0 then [] else PadDigits(n / 10, w - 1) + [DigitChar(n % 10)]
  }

  /** Reading a zero-padded spelling gives the number back. */
  lemma {:induction false} PadDigitsValue(n: nat, w: nat)
    requires n < Pow10(w)
    ensures DecimalValue(PadDigits(n, w)) == n
  {
    if w > 0 {
      var s := PadDigits(n, w);
      assert n / 10 < Pow10(w - 1);
      PadDigitsValue(n / 10, w - 1);
      assert s[..|s| - 1] == PadDigits(n / 10, w - 1);
    }
  }

  /** Spelling what a digit string reads as, at its own width, gives the string back. */
  lemma {:induction false} DecimalValuePad(t: string)
    requires AllDigits(t)
    ensures DecimalValue(t) < Pow10(|t|)
    ensures PadDigits(DecimalValue(t), |t|) == t
  {
    if t != [] {
      var u := t[..|t| - 1];
      DecimalValuePad(u);
      var v := DecimalValue(t);
      assert v / 10 == DecimalValue(u) && v % 10 == DigitValue(t[|t| - 1]);
      assert t == u + [t[|t| - 1]];
    }
  }

  /** fmt's `%d` for a natural number: its shortest decimal spelling. */
  function Decimal(n: nat): (s: string)
    ensures |s| >= 1 && AllDigits(s)
    ensures |s| > 1 ==> s[0] != '0'
    ensures DecimalValue(s) == n
  {
    if n < 10 then [DigitChar(n)]
    else
      var s := Decimal(n / 10) + [DigitChar(n % 10)];
      assert s[..|s| - 1] == Decimal(n / 10);
      s
  }

  /** The number of decimal digits `s` starts with. */
  function LeadingDigits(s: string): (n: nat)
    ensures n <= |s| && AllDigits(s[..n])
    ensures n < |s| ==> !IsDigit(s[n])
  {
    if s == [] || !IsDigit(s[0]) then 0
    else
      var n := 1 + LeadingDigits(s[1..]);
      assert s[..n] == [s[0]] + s[1..][..n - 1];
      n
  }

  /** The number spelled by the digits `s` starts with, 0 when there are none:
      how a count printed with `%d` is read back out of a message. */
  function ReadNumber(s: string): nat {
    DecimalValue(s[..LeadingDigits(s)])
  }

  /** What follows the digits `s` starts with. */
  function AfterNumber(s: string): string {
    s[LeadingDigits(s)..]
  }

  /** The digits of `d` are all LeadingDigits counts when what follows them
      does not start with a digit. */
  lemma {:induction false} LeadingDigitsOf(d: string, rest: string)
    requires AllDigits(d)
    requires rest == [] || !IsDigit(rest[0])
    ensures LeadingDigits(d + rest) == |d|
  {
    if d != [] {
      assert (d + rest)[1..] == d[1..] + rest;
      LeadingDigitsOf(d[1..], rest);
    }
  }

  /** ReadNumber reads back what Decimal spells, whatever follows the
      digits, as long as it does not start with a digit. */
  lemma ReadNumberDecimal(n: nat, rest: string)
    requires rest == [] || !IsDigit(rest[0])
    ensures LeadingDigits(Decimal(n) + rest) == |Decimal(n)|
    ensures ReadNumber(Decimal(n) + rest) == n
    ensures AfterNumber(Decimal(n) + rest) == rest
  {
    var d := Decimal(n);
    var s := d + rest;
    LeadingDigitsOf(d, rest);
    assert s[..|d|] == d;
  }

  /** A sentence with two counts, as fmt.Errorf("<p>%d<mid>%d<end>", a, b)
      prints it. */
  function Counted(p: string, a: nat, mid: string, b: nat, ending: string): string {
    p + (Decimal(a) + (mid + (Decimal(b) + ending)))
  }

  /** Reading such a sentence back: the text starts with `p`, the first count
      reads back after it, the words `mid` follow its digits, and the second
      count reads back after them. */
  lemma CountedReads(p: string, a: nat, mid: string, b: nat, ending: string)
    requires mid != [] && !IsDigit(mid[0])
    requires ending == [] || !IsDigit(ending[0])
    ensures var m := Counted(p, a, mid, b, ending);
      |p| <= |m| && m[..|p|] == p && ReadNumber(m[|p|..]) == a &&
      AfterNumber(m[|p|..]) == mid + (Decimal(b) + ending)
    ensures var words := AfterNumber(Counted(p, a, mid, b, ending)[|p|..]);
      |mid| <= |words| && words[..|mid|] == mid && ReadNumber(words[|mid|..]) == b
  {
    var tail := mid + (Decimal(b) + ending);
    var m := p + (Decimal(a) + tail);
    assert m[|p|..] == Decimal(a) + tail;
    ReadNumberDecimal(a, tail);
    assert tail[|mid|..] == Decimal(b) + ending;
    ReadNumberDecimal(b, ending);
  }

  /** The number a string of decimal digits spells. */
  function DecimalValue(s: string): nat
    requires AllDigits(s)
  {
    if s == [] then 0 else DecimalValue(s[..|s| - 1]) * 10 + DigitValue(s[|s| - 1])
  }
}
