/** The JavaScript string operations the source relies on, on `seq<char>`:
    `trim`, `toLowerCase`, `includes`, `split` on one character, `join`,
    `parseInt` (decimal only) and the decimal rendering of an integer in a template literal. */
module Strings {
  import opened Common

  /** The code points that ECMAScript counts as WhiteSpace or LineTerminator; these are
      what `trim` removes and what `parseInt` skips before the number. */
  predicate IsWhitespace(c: char) {
    || c == ' ' || c == '\t' || c == '\n' || c == '\r' || c == '\U{000B}' || c == '\U{000C}'
    || c == '\U{00A0}' || c == '\U{1680}' || ('\U{2000}' <= c <= '\U{200A}')
    || c == '\U{2028}' || c == '\U{2029}' || c == '\U{202F}' || c == '\U{205F}'
    || c == '\U{3000}' || c == '\U{FEFF}'
  }

  predicate AllWhitespace(s: string) {
    forall i :: 0 <= i < |s| ==> IsWhitespace(s[i])
  }

  /** `s.trimStart()`: the suffix of `s` left after dropping its leading white space. */
  function TrimStart(s: string): (r: string)
    ensures |r| <= |s| && r == s[|s| - |r|..]
    ensures AllWhitespace(s[..|s| - |r|])
    ensures r != [] ==> !IsWhitespace(r[0])
  {
    if s != [] && IsWhitespace(s[0]) then
      var r := TrimStart(s[1..]);
      var n := |s| - |r|;
      assert s[1..][n - 1..] == s[n..];
      WhitespaceThenAll(s, n);
      r
    else s
  }

  lemma WhitespaceThenAll(s: string, n: int)
    requires 0 < n <= |s| && IsWhitespace(s[0]) && AllWhitespace(s[1..][..n - 1])
    ensures AllWhitespace(s[..n])
  {
    forall i | 0 <= i < n ensures IsWhitespace(s[..n][i]) {
      if i > 0 { assert s[..n][i] == s[1..][..n - 1][i - 1]; }
    }
  }

  /** `s.trimEnd()`: the prefix of `s` left after dropping its trailing white space. */
  function TrimEnd(s: string): (r: string)
    ensures |r| <= |s| && r == s[..|r|]
    ensures AllWhitespace(s[|r|..])
    ensures r != [] ==> !IsWhitespace(r[|r| - 1])
  {
    if s != [] && IsWhitespace(s[|s| - 1]) then TrimEnd(s[..|s| - 1]) else s
  }

  /** `s.trim()`: neither starts nor ends with white space (what else it is, `TrimSlice`
      says). */
  function Trim(s: string): (r: string)
    ensures r != [] ==> !IsWhitespace(r[0]) && !IsWhitespace(r[|r| - 1])
  {
    var t := TrimStart(s);
    var r := TrimEnd(t);
    assert r != [] ==> r[0] == t[0];
    r
  }

  /** The trim of `s` is a contiguous piece of `s` surrounded only by white space in `s`,
      and it is empty exactly when `s` is all white space. */
  lemma TrimSlice(s: string)
    ensures exists a, b :: 0 <= a <= b <= |s| && Trim(s) == s[a..b]
                          && AllWhitespace(s[..a]) && AllWhitespace(s[b..])
    ensures Trim(s) == [] <==> AllWhitespace(s)
  {
    var t := TrimStart(s);
    var r := TrimEnd(t);
    var a := |s| - |t|;
    assert t == s[a..];
    assert r == s[a..a + |r|];
    assert AllWhitespace(s[a + |r|..]) by {
      assert s[a + |r|..] == t[|r|..];
    }
    if r == [] {
      assert t == [];
      forall i | 0 <= i < |s| ensures IsWhitespace(s[i]) {
        assert s[..a][i] == s[i];
      }
    }
  }

  /** `c.toLowerCase()` for the letters of Basic Latin and Latin-1 Supplement. */
  function LowerChar(c: char): (l: char)
    ensures 'A' <= c <= 'Z' ==> l as int == c as int + 32
    ensures !('A' <= c <= 'Z') && !('\U{00C0}' <= c <= '\U{00DE}') ==> l == c
  {
    if 'A' <= c <= 'Z' || ('\U{00C0}' <= c <= '\U{00DE}' && c != '\U{00D7}')
    then (c as int + 32) as char
    else c
  }

  /** `s.toLowerCase()`, character by character. */
  function ToLower(s: string): (r: string)
    ensures |r| == |s|
    ensures forall i :: 0 <= i < |s| ==> r[i] == LowerChar(s[i])
  {
    if s == [] then [] else [LowerChar(s[0])] + ToLower(s[1..])
  }

  /** `hay.includes(needle)`, by scanning the start positions of `hay` from the left. */
  function Contains(hay: string, needle: string): bool
    decreases |hay|
  {
    if |needle| > |hay| then false
    else hay[..|needle|] == needle || Contains(hay[1..], needle)
  }

  predicate OccursAt(hay: string, needle: string, i: int) {
    0 <= i && i + |needle| <= |hay| && hay[i..i + |needle|] == needle
  }

  /** `needle` occurs at some position of `hay`. */
  ghost predicate IsSubstring(needle: string, hay: string) {
    exists i :: OccursAt(hay, needle, i)
  }

  /** The scan finds `needle` exactly when it occurs at some position of `hay`. */
  lemma {:induction false} ContainsIff(hay: string, needle: string)
    ensures Contains(hay, needle) <==> IsSubstring(needle, hay)
    decreases |hay|
  {
    if |needle| > |hay| {
    } else if hay[..|needle|] == needle {
      assert OccursAt(hay, needle, 0);
    } else {
      ContainsIff(hay[1..], needle);
      if Contains(hay[1..], needle) {
        assert IsSubstring(needle, hay[1..]);
        var i :| OccursAt(hay[1..], needle, i);
        assert 0 <= i && i + |needle| <= |hay| - 1;
        TailSlice(hay, i, |needle|);
        assert OccursAt(hay, needle, i + 1);
      } else {
        forall i | 0 <= i ensures !OccursAt(hay, needle, i) {
          if 0 < i && i + |needle| <= |hay| {
            TailSlice(hay, i - 1, |needle|);
            assert !OccursAt(hay[1..], needle, i - 1);
          }
        }
      }
    }
  }

  /** Trimming adds no character: one absent from `s` is absent from `Trim(s)`. */
  lemma TrimKeepsOut(s: string, c: char)
    requires c !in s
    ensures c !in Trim(s)
  {
    TrimSlice(s);
    var a, b :| 0 <= a <= b <= |s| && Trim(s) == s[a..b];
    SliceKeepsOut(s, a, b, c);
  }

  lemma SliceKeepsOut(s: string, a: int, b: int, c: char)
    requires 0 <= a <= b <= |s| && c !in s
    ensures c !in s[a..b]
  {
    assert forall k :: 0 <= k < b - a ==> s[a..b][k] == s[a + k];
  }

  /** Joining one more part adds the separator and the part, unless there was nothing to
      separate it from. */
  lemma {:induction false} JoinSnoc(parts: seq<string>, x: string, sep: string)
    ensures Join(parts + [x], sep) == if parts == [] then x else Join(parts, sep) + sep + x
  {
    if parts == [] {
      assert parts + [x] == [x];
    } else if |parts| == 1 {
      assert (parts + [x])[1..] == [x];
    } else {
      assert (parts + [x])[1..] == parts[1..] + [x];
      JoinSnoc(parts[1..], x, sep);
    }
  }

  /** Every part of a join occurs in it. */
  lemma {:induction false} JoinHasPart(parts: seq<string>, sep: string, k: int)
    requires 0 <= k < |parts|
    ensures IsSubstring(parts[k], Join(parts, sep))
  {
    var whole := Join(parts, sep);
    if k == 0 {
      assert whole[..|parts[0]|] == parts[0];
      assert OccursAt(whole, parts[0], 0);
    } else {
      var head := parts[0] + sep;
      var rest := Join(parts[1..], sep);
      assert whole == head + rest;
      JoinHasPart(parts[1..], sep, k - 1);
      var i :| OccursAt(rest, parts[k], i);
      var n := |parts[k]|;
      assert whole[|head| + i..|head| + i + n] == rest[i..i + n];
      assert OccursAt(whole, parts[k], |head| + i);
    }
  }

  lemma TailSlice(s: string, i: nat, n: nat)
    requires i + n < |s|
    ensures s[1..][i..i + n] == s[i + 1..i + 1 + n]
  {
    var a, b := s[1..][i..i + n], s[i + 1..i + 1 + n];
    forall k | 0 <= k < n ensures a[k] == b[k] {
      assert a[k] == s[i + 1 + k];
    }
    assert a == b;
  }

  function CountChar(s: string, c: char): nat {
    if s == [] then 0 else (if s[0] == c then 1 else 0) + CountChar(s[1..], c)
  }

  /** `s.split(sep)` for a one-character separator: one more piece than there are
      separators in `s`, none of them containing the separator. */
  function Split(s: string, sep: char): (r: seq<string>)
    ensures |r| == CountChar(s, sep) + 1
    ensures forall i :: 0 <= i < |r| ==> sep !in r[i]
  {
    if s == [] then [""]
    else
      var rest := Split(s[1..], sep);
      if s[0] == sep then [""] + rest
      else [[s[0]] + rest[0]] + rest[1..]
  }

  /** `parts.join(sep)`. */
  function Join(parts: seq<string>, sep: string): string {
    if parts == [] then ""
    else if |parts| == 1 then parts[0]
    else parts[0] + sep + Join(parts[1..], sep)
  }

  /** Joining the pieces of a split with the separator gives back the original string. */
  lemma {:induction false} JoinSplit(s: string, sep: char)
    ensures Join(Split(s, sep), [sep]) == s
  {
    if s != [] {
      var rest := Split(s[1..], sep);
      JoinSplit(s[1..], sep);
      if s[0] == sep {
        assert Split(s, sep) == [""] + rest;
        assert ([""] + rest)[1..] == rest;
      } else {
        var r := [[s[0]] + rest[0]] + rest[1..];
        assert Split(s, sep) == r;
        if |rest| == 1 {
          assert Join(rest, [sep]) == rest[0];
        } else {
          assert r[1..] == rest[1..];
          assert Join(rest, [sep]) == rest[0] + [sep] + Join(rest[1..], [sep]);
        }
      }
    }
  }

  /** The first piece of a split is everything before the first separator. */
  lemma {:induction false} SplitAt(a: string, sep: char, b: string)
    requires sep !in a
    ensures Split(a + [sep] + b, sep) == [a] + Split(b, sep)
  {
    if a == [] {
      assert a + [sep] + b == [sep] + b;
      assert ([sep] + b)[1..] == b;
    } else {
      var s := a + [sep] + b;
      assert s[0] == a[0] && s[1..] == a[1..] + [sep] + b;
      SplitAt(a[1..], sep, b);
      assert [a[0]] + a[1..] == a;
    }
  }

  /** Splitting the join of separator-free pieces gives back the pieces. */
  lemma {:induction false} SplitJoin(parts: seq<string>, sep: char)
    requires parts != []
    requires forall i :: 0 <= i < |parts| ==> sep !in parts[i]
    ensures Split(Join(parts, [sep]), sep) == parts
  {
    if |parts| == 1 {
      SplitWithout(parts[0], sep);
    } else {
      var rest := parts[1..];
      SplitJoin(rest, sep);
      SplitAt(parts[0], sep, Join(rest, [sep]));
      assert [parts[0]] + rest == parts;
    }
  }

  /** A string without the separator splits into itself alone. */
  lemma {:induction false} SplitWithout(s: string, sep: char)
    requires sep !in s
    ensures Split(s, sep) == [s]
  {
    if s != [] {
      SplitWithout(s[1..], sep);
      assert [s[0]] + s[1..] == s;
    }
  }

  predicate IsDigit(c: char) { '0' <= c <= '9' }

  predicate AllDigits(s: string) { forall i :: 0 <= i < |s| ==> IsDigit(s[i]) }

  function DigitValue(c: char): nat
    requires IsDigit(c)
  {
    c as int - '0' as int
  }

  function DigitChar(d: nat): (c: char)
    requires d < 10
    ensures IsDigit(c) && DigitValue(c) == d
  {
    ('0' as int + d) as char
  }

  /** The longest prefix of `s` made of decimal digits. */
  function DigitPrefix(s: string): (r: string)
    ensures r <= s && AllDigits(r)
    ensures |r| < |s| ==> !IsDigit(s[|r|])
  {
    if s != [] && IsDigit(s[0]) then [s[0]] + DigitPrefix(s[1..]) else []
  }

  /** The value of a string of decimal digits, most significant first. */
  function DigitsValue(ds: string): nat
    requires AllDigits(ds)
  {
    if ds == [] then 0 else DigitsValue(ds[..|ds| - 1]) * 10 + DigitValue(ds[|ds| - 1])
  }

  /** What is left of `t` without a leading `+` or `-`. */
  function Unsigned(t: string): string {
    if t != [] && (t[0] == '+' || t[0] == '-') then t[1..] else t
  }

  /** `parseInt(s)` with no radix, for decimal input: leading white space is skipped, an
      optional `+` or `-` is read, then the longest run of digits; no digit at all gives
      `NaN`, here `None`. */
  function ParseInt(s: string): (r: Option<int>)
    ensures r.Some? <==> (var body := Unsigned(TrimStart(s)); body != [] && IsDigit(body[0]))
  {
    ParseSigned(TrimStart(s))
  }

  /** The sign and digits step of `parseInt`, on text with no leading white space. */
  function ParseSigned(t: string): Option<int> {
    var digits := DigitPrefix(Unsigned(t));
    if digits == [] then None
    else
      var v: int := DigitsValue(digits);
      Some(if t != [] && t[0] == '-' then -v else v)
  }

  /** The decimal digits of `n`, most significant first, without leading zeros. */
  function NatToString(n: nat): (r: string)
    ensures r != [] && AllDigits(r)
    ensures r[0] == '0' ==> n == 0
  {
    if n < 10 then [DigitChar(n)] else NatToString(n / 10) + [DigitChar(n % 10)]
  }

  /** `${n}` for an integer `n`: a minus sign for negative numbers, then the digits. */
  function IntToString(n: int): (r: string)
    ensures r != [] && !IsWhitespace(r[0]) && IsDigit(r[|r| - 1])
    ensures forall i :: 0 <= i < |r| ==> IsDigit(r[i]) || (i == 0 && r[i] == '-')
  {
    if n < 0 then "-" + NatToString(-n) else NatToString(n)
  }

  lemma {:induction false} DigitsValueOfNat(n: nat)
    ensures DigitsValue(NatToString(n)) == n
  {
    if n >= 10 {
      var ds := NatToString(n);
      DigitsValueOfNat(n / 10);
      assert ds[..|ds| - 1] == NatToString(n / 10);
    }
  }

  lemma {:induction false} DigitPrefixOfDigits(ds: string, rest: string)
    requires AllDigits(ds)
    requires rest == [] || !IsDigit(rest[0])
    ensures DigitPrefix(ds + rest) == ds
  {
    if ds != [] {
      assert (ds + rest)[1..] == ds[1..] + rest;
      DigitPrefixOfDigits(ds[1..], rest);
      assert [ds[0]] + ds[1..] == ds;
    } else {
      assert ds + rest == rest;
    }
  }

  lemma ParseNatLeading(m: nat, rest: string)
    requires rest == [] || !IsDigit(rest[0])
    ensures DigitPrefix(NatToString(m) + rest) == NatToString(m)
    ensures DigitsValue(DigitPrefix(NatToString(m) + rest)) == m
  {
    DigitPrefixOfDigits(NatToString(m), rest);
    DigitsValueOfNat(m);
  }

  /** `parseInt` reads back the leading integer of `${n}` followed by any text that does not
      start with a digit: in particular `parseInt(`${n}`) == n`. */
  lemma ParseIntLeading(n: int, rest: string)
    requires rest == [] || !IsDigit(rest[0])
    ensures ParseInt(IntToString(n) + rest) == Some(n)
  {
    var s := IntToString(n) + rest;
    if n < 0 {
      assert s == "-" + (NatToString(-n) + rest);
      TrimStartUnchanged(s);
      ParseSignedNegative(-n, rest);
    } else {
      assert s == NatToString(n) + rest;
      assert s[0] == NatToString(n)[0];
      TrimStartUnchanged(s);
      ParseSignedNatural(n, rest);
    }
  }

  /** Text that neither starts nor ends with white space is its own trim. */
  lemma TrimUnchanged(s: string)
    requires s != [] ==> !IsWhitespace(s[0]) && !IsWhitespace(s[|s| - 1])
    ensures Trim(s) == s
  {
  }

  /** A leading blank goes away under `trim`. */
  lemma TrimLeadingBlank(s: string)
    ensures Trim(" " + s) == Trim(s)
  {
    assert (" " + s)[1..] == s;
  }

  lemma TrimStartUnchanged(s: string)
    requires s != [] && !IsWhitespace(s[0])
    ensures TrimStart(s) == s
  {
  }

  lemma ParseSignedNatural(m: nat, rest: string)
    requires rest == [] || !IsDigit(rest[0])
    ensures ParseSigned(NatToString(m) + rest) == Some(m)
  {
    var s := NatToString(m) + rest;
    assert s[0] == NatToString(m)[0];
    assert Unsigned(s) == s;
    ParseNatLeading(m, rest);
  }

  lemma ParseSignedNegative(m: nat, rest: string)
    requires m > 0
    requires rest == [] || !IsDigit(rest[0])
    ensures ParseSigned("-" + (NatToString(m) + rest)) == Some(-(m as int))
  {
    var s := "-" + (NatToString(m) + rest);
    assert Unsigned(s) == NatToString(m) + rest;
    ParseNatLeading(m, rest);
  }

  lemma ParseIntRoundTrip(n: int)
    ensures ParseInt(IntToString(n)) == Some(n)
  {
    ParseIntLeading(n, []);
    assert IntToString(n) + [] == IntToString(n);
  }
}
