/** The JavaScript built-ins on strings and numbers that the components call:
    `String.prototype.includes`, `String.prototype.split` with a one-character
    separator, `parseInt(s, 16)` and the conversion of a number to text in a
    template literal. Strings are sequences of characters. */
module JsText {
  import opened Dom

  // ---------------------------------------------------------------------
  // includes

  /** `s.includes(sub)`, scanning from the left. */
  predicate Includes(s: string, sub: string)
    decreases |s|
  {
    if |s| < |sub| then false
    else if s[..|sub|] == sub then true
    else Includes(s[1..], sub)
  }

  /** `sub` occurs in `s` starting at index `i`. */
  predicate OccursAt(s: string, sub: string, i: int)
  {
    0 <= i <= |s| - |sub| && s[i..i + |sub|] == sub
  }

  /** `Includes` holds exactly when `sub` occurs somewhere in `s`. */
  lemma {:induction false} IncludesIff(s: string, sub: string)
    ensures Includes(s, sub) <==> exists i :: OccursAt(s, sub, i)
    decreases |s|
  {
    if |s| < |sub| {
    } else if s[..|sub|] == sub {
      assert OccursAt(s, sub, 0);
    } else {
      IncludesIff(s[1..], sub);
      if Includes(s[1..], sub) {
        var i :| OccursAt(s[1..], sub, i);
        OccursShift(s, sub, i + 1);
      } else {
        forall i | OccursAt(s, sub, i)
          ensures false
        {
          if i > 0 {
            OccursShift(s, sub, i);
          }
        }
      }
    }
  }

  /** An occurrence at `i > 0` is an occurrence at `i - 1` in the tail. */
  lemma OccursShift(s: string, sub: string, i: int)
    requires s != [] && i >= 1
    ensures OccursAt(s, sub, i) <==> OccursAt(s[1..], sub, i - 1)
  {
  }

  /** A string always includes what was appended to it. */
  lemma IncludesAppended(s: string, suffix: string)
    ensures Includes(s + suffix, suffix)
  {
    IncludesIff(s + suffix, suffix);
    assert (s + suffix)[|s|..|s| + |suffix|] == suffix;
    assert OccursAt(s + suffix, suffix, |s|);
  }

  // ---------------------------------------------------------------------
  // split and join

  /** `s.split(sep)`: the pieces between occurrences of `sep`, at least one. */
  function Split(s: string, sep: char): (r: seq<string>)
    ensures |r| >= 1
    ensures forall i :: 0 <= i < |r| ==> sep !in r[i]
    decreases |s|
  {
    if s == [] then [""]
    else
      var rest := Split(s[1..], sep);
      if s[0] == sep then [""] + rest
      else [[s[0]] + rest[0]] + rest[1..]
  }

  /** `parts.join(sep)`. */
  function Join(parts: seq<string>, sep: char): string
    decreases |parts|
  {
    if parts == [] then ""
    else if |parts| == 1 then parts[0]
    else parts[0] + [sep] + Join(parts[1..], sep)
  }

  /** Joining the pieces of a split gives back the string. */
  lemma {:induction false} JoinSplit(s: string, sep: char)
    ensures Join(Split(s, sep), sep) == s
    decreases |s|
  {
    if s != [] {
      JoinSplit(s[1..], sep);
      var rest := Split(s[1..], sep);
      if s[0] == sep {
        assert s == [sep] + s[1..];
      } else if |rest| == 1 {
        assert s == [s[0]] + s[1..];
      } else {
        assert Join(rest, sep) == rest[0] + [sep] + Join(rest[1..], sep);
        assert ([[s[0]] + rest[0]] + rest[1..])[1..] == rest[1..];
        assert s == [s[0]] + s[1..];
      }
    }
  }

  /** A string without the separator splits into itself alone. */
  lemma {:induction false} SplitWithoutSeparator(s: string, sep: char)
    requires sep !in s
    ensures Split(s, sep) == [s]
    decreases |s|
  {
    if s != [] {
      SplitWithoutSeparator(s[1..], sep);
      assert s == [s[0]] + s[1..];
    }
  }

  /** The first piece ends at the first separator; the rest is the split of
      what follows it. */
  lemma {:induction false} SplitAtSeparator(a: string, sep: char, b: string)
    requires sep !in a
    ensures Split(a + [sep] + b, sep) == [a] + Split(b, sep)
    decreases |a|
  {
    if a == [] {
      assert a + [sep] + b == [sep] + b;
      assert ([sep] + b)[1..] == b;
    } else {
      SplitAtSeparator(a[1..], sep, b);
      assert (a + [sep] + b)[1..] == a[1..] + [sep] + b;
      assert a == [a[0]] + a[1..];
    }
  }

  /** Splitting a join of separator-free pieces gives back the pieces. */
  lemma {:induction false} SplitJoin(parts: seq<string>, sep: char)
    requires |parts| >= 1
    requires forall i :: 0 <= i < |parts| ==> sep !in parts[i]
    ensures Split(Join(parts, sep), sep) == parts
    decreases |parts|
  {
    if |parts| == 1 {
      SplitWithoutSeparator(parts[0], sep);
    } else {
      SplitJoin(parts[1..], sep);
      SplitAtSeparator(parts[0], sep, Join(parts[1..], sep));
      assert parts == [parts[0]] + parts[1..];
    }
  }

  // ---------------------------------------------------------------------
  // parseInt(s, 16)

  /** The characters `parseInt` skips at the start: ECMAScript's WhiteSpace
      and LineTerminator code points. */
  predicate IsJsWhitespace(c: char)
  {
    c == '\t' || c == '\n' || c == '\U{000B}' || c == '\U{000C}' || c == '\r' || c == ' '
    || c == '\U{00A0}' || c == '\U{1680}' || ('\U{2000}' <= c <= '\U{200A}')
    || c == '\U{2028}' || c == '\U{2029}' || c == '\U{202F}' || c == '\U{205F}'
    || c == '\U{3000}' || c == '\U{FEFF}'
  }

  predicate IsHexDigit(c: char)
  {
    ('0' <= c <= '9') || ('a' <= c <= 'f') || ('A' <= c <= 'F')
  }

  function HexDigitValue(c: char): (v: nat)
    requires IsHexDigit(c)
    ensures v < 16
    ensures ('0' <= c <= '9') <==> v < 10
  {
    if '0' <= c <= '9' then c as int - '0' as int
    else if 'a' <= c <= 'f' then c as int - 'a' as int + 10
    else c as int - 'A' as int + 10
  }

  /** `s` without its leading whitespace. */
  function TrimStart(s: string): (r: string)
    ensures |r| <= |s| && r == s[|s| - |r|..]
    ensures r == [] || !IsJsWhitespace(r[0])
    ensures forall i :: 0 <= i < |s| - |r| ==> IsJsWhitespace(s[i])
    decreases |s|
  {
    if s != [] && IsJsWhitespace(s[0]) then TrimStart(s[1..]) else s
  }

  /** The length of the longest prefix of `s` made of hex digits. */
  function HexPrefixLength(s: string): (n: nat)
    ensures n <= |s|
    ensures forall i :: 0 <= i < n ==> IsHexDigit(s[i])
    ensures n < |s| ==> !IsHexDigit(s[n])
    decreases |s|
  {
    if s != [] && IsHexDigit(s[0]) then 1 + HexPrefixLength(s[1..]) else 0
  }

  function Pow16(k: nat): (p: nat)
    ensures p >= 1
  {
    if k == 0 then 1 else 16 * Pow16(k - 1)
  }

  /** The value of a string of hex digits, most significant first. */
  function HexValue(digits: string): (v: nat)
    requires forall i :: 0 <= i < |digits| ==> IsHexDigit(digits[i])
    ensures v < Pow16(|digits|)
    decreases |digits|
  {
    if digits == [] then 0
    else 16 * HexValue(digits[..|digits| - 1]) + HexDigitValue(digits[|digits| - 1])
  }

  /** `s` without an optional leading `0x` or `0X`. */
  function StripHexPrefix(s: string): (r: string)
    ensures |s| >= 2 && s[0] == '0' && (s[1] == 'x' || s[1] == 'X') ==> r == s[2..]
    ensures !(|s| >= 2 && s[0] == '0' && (s[1] == 'x' || s[1] == 'X')) ==> r == s
  {
    if |s| >= 2 && s[0] == '0' && (s[1] == 'x' || s[1] == 'X') then s[2..] else s
  }

  /** The value of the longest run of hex digits that starts `s`; none when
      `s` does not start with a hex digit. */
  function LeadingHex(s: string): (r: Option<nat>)
    ensures r.None? <==> s == [] || !IsHexDigit(s[0])
  {
    var n := HexPrefixLength(s);
    if n == 0 then None else Some(HexValue(s[..n]))
  }

  /** `parseInt(s, 16)`: skip leading whitespace, take an optional sign, drop
      an optional `0x`/`0X`, then read the longest run of hex digits; NaN if
      that run is empty. A negative zero prints as "0", so it is `Num(0)`. */
  function ParseIntHex(s: string): (r: JsNumber)
    ensures TrimStart(s) == [] ==> r == NaN
    ensures var t := TrimStart(s);
      t != [] && !IsHexDigit(t[0]) && t[0] != '+' && t[0] != '-' ==> r == NaN
    ensures r.Num? && r.n < 0 ==> TrimStart(s)[0] == '-'
  {
    var t := TrimStart(s);
    var negative := t != [] && t[0] == '-';
    var unsigned := if t != [] && (t[0] == '-' || t[0] == '+') then t[1..] else t;
    match LeadingHex(StripHexPrefix(unsigned))
    case None => NaN
    case Some(v) => if negative then Num(-(v as int)) else Num(v)
  }

  /** The byte two hex digits spell, the first most significant. */
  function HexByte(hi: char, lo: char): (v: nat)
    requires IsHexDigit(hi) && IsHexDigit(lo)
    ensures v <= 255
  {
    16 * HexDigitValue(hi) + HexDigitValue(lo)
  }

  /** `parseInt` reads two hex digits as the byte they spell. */
  lemma HexPairValue(s: string)
    requires |s| == 2 && IsHexDigit(s[0]) && IsHexDigit(s[1])
    ensures ParseIntHex(s) == Num(HexByte(s[0], s[1]))
  {
    assert !IsJsWhitespace(s[0]);
    assert TrimStart(s) == s;
    assert !(s[1] == 'x' || s[1] == 'X');
    assert HexPrefixLength(s[1..]) == 1 by {
      assert s[1..][1..] == [];
    }
    assert HexPrefixLength(s) == 2;
    assert s[..2] == s;
    assert s[..1] == [s[0]];
    assert HexValue([s[0]]) == HexDigitValue(s[0]) by {
      assert [s[0]][..0] == [];
    }
  }

  /** A pair whose first character is a hex digit and whose second is not
      reads as the first digit alone, except that "0x" and "0X" are the hex
      prefix and read as NaN. */
  lemma HexPairPrefix(s: string)
    requires |s| == 2 && IsHexDigit(s[0]) && !IsHexDigit(s[1])
    ensures ParseIntHex(s) == if s[0] == '0' && (s[1] == 'x' || s[1] == 'X') then NaN
                              else Num(HexDigitValue(s[0]))
  {
    assert !IsJsWhitespace(s[0]);
    assert TrimStart(s) == s;
    if !(s[0] == '0' && (s[1] == 'x' || s[1] == 'X')) {
      assert HexPrefixLength(s[1..]) == 0;
      assert HexPrefixLength(s) == 1;
      assert s[..1] == [s[0]];
      assert [s[0]][..0] == [];
    }
  }

  /** A string that starts with neither whitespace, a sign nor a hex digit
      reads as NaN. */
  lemma NoHexLeadIsNaN(s: string)
    requires s != [] && !IsJsWhitespace(s[0]) && s[0] != '+' && s[0] != '-' && !IsHexDigit(s[0])
    ensures ParseIntHex(s) == NaN
  {
  }

  /** How `parseInt(p, 16)` reads a two-character string, case by case: two
      hex digits spell a byte; a hex digit followed by anything else is that
      digit, except that "0x"/"0X" is a bare prefix; whitespace or a plus sign
      before a hex digit is skipped, a minus sign negates it; anything else
      is NaN. */
  function PairValue(p: string): (r: JsNumber)
    requires |p| == 2
  {
    var a, b := p[0], p[1];
    if IsHexDigit(a) && IsHexDigit(b) then Num(HexByte(a, b))
    else if IsHexDigit(a) then
      if a == '0' && (b == 'x' || b == 'X') then NaN else Num(HexDigitValue(a))
    else if (IsJsWhitespace(a) || a == '+') && IsHexDigit(b) then Num(HexDigitValue(b))
    else if a == '-' && IsHexDigit(b) then Num(-(HexDigitValue(b) as int))
    else NaN
  }

  /** A single character read without sign or whitespace. */
  lemma OneDigit(d: char)
    ensures LeadingHex(StripHexPrefix([d])) == if IsHexDigit(d) then Some(HexDigitValue(d)) else None
  {
    if IsHexDigit(d) {
      assert HexPrefixLength([d][1..]) == 0;
      assert [d][..1] == [d] && [d][..0] == [];
    }
  }

  /** `parseInt(p, 16)` agrees with `PairValue` on every two-character string. */
  lemma ParseIntHexPair(p: string)
    requires |p| == 2
    ensures ParseIntHex(p) == PairValue(p)
  {
    var a, b := p[0], p[1];
    if IsHexDigit(a) && IsHexDigit(b) {
      HexPairValue(p);
    } else if IsHexDigit(a) {
      HexPairPrefix(p);
    } else if IsJsWhitespace(a) {
      WhitespacePair(p);
    } else if a == '+' || a == '-' {
      SignPair(p);
    } else {
      NoHexLeadIsNaN(p);
    }
  }

  /** Leading whitespace is skipped; what is left is one character. */
  lemma WhitespacePair(p: string)
    requires |p| == 2 && IsJsWhitespace(p[0])
    ensures ParseIntHex(p) == if IsHexDigit(p[1]) then Num(HexDigitValue(p[1])) else NaN
  {
    var b := p[1];
    assert TrimStart(p) == TrimStart([b]) by {
      assert p[1..] == [b];
    }
    SameTrim(p, [b]);
    OneChar(b);
  }

  /** `parseInt` sees only what is left after the leading whitespace. */
  lemma SameTrim(s: string, s': string)
    requires TrimStart(s) == TrimStart(s')
    ensures ParseIntHex(s) == ParseIntHex(s')
  {
  }

  /** A single character reads as its digit value, or NaN. */
  lemma OneChar(b: char)
    ensures ParseIntHex([b]) == if IsHexDigit(b) then Num(HexDigitValue(b)) else NaN
  {
    if IsJsWhitespace(b) {
      assert TrimStart([b]) == [];
    } else {
      assert TrimStart([b]) == [b];
      if b != '+' && b != '-' {
        OneDigit(b);
      } else {
        assert [b][1..] == [];
      }
    }
  }

  /** A sign followed by one character. */
  lemma SignPair(p: string)
    requires |p| == 2 && (p[0] == '+' || p[0] == '-')
    ensures ParseIntHex(p) ==
      if !IsHexDigit(p[1]) then NaN
      else if p[0] == '-' then Num(-(HexDigitValue(p[1]) as int))
      else Num(HexDigitValue(p[1]))
  {
    assert !IsJsWhitespace(p[0]);
    assert TrimStart(p) == p;
    assert p[1..] == [p[1]];
    OneDigit(p[1]);
  }

  /** A string includes whatever sits inside it. */
  lemma IncludesInfix(x: string, sub: string, y: string)
    ensures Includes(x + sub + y, sub)
  {
    IncludesIff(x + sub + y, sub);
    assert (x + sub + y)[|x|..|x| + |sub|] == sub;
    assert OccursAt(x + sub + y, sub, |x|);
  }

  // ---------------------------------------------------------------------
  // numbers as text

  /** The decimal value of a string of decimal digits. */
  function DecimalValue(digits: string): nat
    requires forall i :: 0 <= i < |digits| ==> '0' <= digits[i] <= '9'
    decreases |digits|
  {
    if digits == [] then 0
    else 10 * DecimalValue(digits[..|digits| - 1]) + (digits[|digits| - 1] as int - '0' as int)
  }

  /** The shortest decimal text of `n`. */
  function NatToString(n: nat): (r: string)
    ensures |r| >= 1 && forall i :: 0 <= i < |r| ==> '0' <= r[i] <= '9'
    ensures DecimalValue(r) == n
    ensures |r| >= 2 ==> r[0] != '0'
    decreases n
  {
    var last := ['0' + ((n % 10) as char)];
    if n < 10 then last
    else
      var head := NatToString(n / 10);
      assert |head| == 1 ==> DecimalValue(head) == head[0] as int - '0' as int;
      var r := head + last;
      assert r[..|r| - 1] == head;
      r
  }

  /** A number as a template literal prints it: "NaN", or an optional minus
      sign followed by the decimal digits of the magnitude. */
  function NumberToString(x: JsNumber): (r: string)
    ensures x.NaN? ==> r == "NaN"
    ensures x.Num? ==> |r| >= 1 && (r[0] == '-' <==> x.n < 0)
    ensures x.Num? && x.n >= 0 ==>
      (forall i :: 0 <= i < |r| ==> '0' <= r[i] <= '9') && DecimalValue(r) == x.n
    ensures x.Num? && x.n < 0 ==> var digits := r[1..];
      && (forall i :: 0 <= i < |digits| ==> '0' <= digits[i] <= '9')
      && DecimalValue(digits) == -x.n
    ensures x.Num? ==> var digits := if x.n < 0 then r[1..] else r;
      |digits| >= 1 && (|digits| >= 2 ==> digits[0] != '0')
  {
    match x
    case NaN => "NaN"
    case Num(n) => if n < 0 then "-" + NatToString(-n) else NatToString(n)
  }
}
