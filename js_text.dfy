/** The JavaScript string and array built-ins that the report code relies on, over `seq<char>`:
    `String.prototype.split` with a one-character separator, `Array.prototype.join`,
    `filter(Boolean)` on strings, `trim`, `startsWith`, `padStart`, and `String(n)` for integers. */
module JsText {
  import opened Nullish

  /** Number of occurrences of `c` in `s`. */
  function Count(s: string, c: char): nat
  {
    if s == [] then 0 else (if s[0] == c then 1 else 0) + Count(s[1..], c)
  }

  /** `s.split(sep)` for a one-character separator: the maximal separator-free pieces, in order.
      Like JavaScript, the empty string splits into one empty piece. */
  function Split(s: string, sep: char): (parts: seq<string>)
    ensures |parts| == Count(s, sep) + 1
    ensures forall i :: 0 <= i < |parts| ==> sep !in parts[i]
    decreases |s|
  {
    if s == [] then [""]
    else
      var rest := Split(s[1..], sep);
      if s[0] == sep then [""] + rest
      else [[s[0]] + rest[0]] + rest[1..]
  }

  /** Every piece of `parts` is whitespace only. */
  predicate AllPiecesWhitespace(parts: seq<string>)
  {
    forall i :: 0 <= i < |parts| ==> AllWhitespace(parts[i])
  }

  /** Every character of `s` is `sep` or whitespace. */
  predicate SeparatorsAndWhitespace(s: string, sep: char)
  {
    forall k :: 0 <= k < |s| ==> s[k] == sep || IsWhitespace(s[k])
  }

  /** The pieces of `s.split(sep)` are all whitespace exactly when every character of `s` is the
      separator or whitespace. */
  lemma {:induction false} SplitAllWhitespace(s: string, sep: char)
    ensures AllPiecesWhitespace(Split(s, sep)) <==> SeparatorsAndWhitespace(s, sep)
    decreases |s|
  {
    if s != [] {
      var rest := Split(s[1..], sep);
      SplitAllWhitespace(s[1..], sep);
      SeparatorsCons(s, sep);
      if s[0] == sep {
        PiecesCons("", rest);
      } else {
        assert rest == [rest[0]] + rest[1..];
        PiecesCons([s[0]] + rest[0], rest[1..]);
        PiecesCons(rest[0], rest[1..]);
        WhitespaceCons(s[0], rest[0]);
      }
    }
  }

  lemma SeparatorsCons(s: string, sep: char)
    requires s != []
    ensures SeparatorsAndWhitespace(s, sep)
            <==> (s[0] == sep || IsWhitespace(s[0])) && SeparatorsAndWhitespace(s[1..], sep)
  {
    assert forall k :: 1 <= k < |s| ==> s[k] == s[1..][k - 1];
  }

  lemma PiecesCons(p: string, ps: seq<string>)
    ensures AllPiecesWhitespace([p] + ps) <==> AllWhitespace(p) && AllPiecesWhitespace(ps)
  {
    var qs := [p] + ps;
    assert qs[0] == p;
    assert forall i :: 1 <= i < |qs| ==> qs[i] == ps[i - 1];
    assert forall i :: 0 <= i < |ps| ==> ps[i] == qs[i + 1];
  }

  lemma WhitespaceCons(c: char, s: string)
    ensures AllWhitespace([c] + s) <==> IsWhitespace(c) && AllWhitespace(s)
  {
    var t := [c] + s;
    assert t[0] == c;
    assert forall k :: 1 <= k < |t| ==> t[k] == s[k - 1];
    assert forall k :: 0 <= k < |s| ==> s[k] == t[k + 1];
  }

  /** `parts.join(delimiter)`: empty for no parts; otherwise it begins with the first part and
      ends with the last. */
  function Join(parts: seq<string>, delimiter: string): (r: string)
    ensures parts == [] ==> r == ""
    ensures parts != [] ==> |parts[0]| <= |r| && r[..|parts[0]|] == parts[0]
    ensures parts != [] ==> var last := parts[|parts| - 1]; |last| <= |r| && r[|r| - |last|..] == last
  {
    if |parts| == 0 then ""
    else if |parts| == 1 then parts[0]
    else
      var rest := Join(parts[1..], delimiter);
      var r := parts[0] + delimiter + rest;
      assert r[..|parts[0]|] == parts[0];
      assert r[|r| - |rest|..] == rest;
      r
  }

  /** `xs.filter(Boolean)` on an array of strings: the empty string is the only falsy string. */
  function NonEmpty(xs: seq<string>): (r: seq<string>)
    ensures |r| <= |xs|
    ensures forall i :: 0 <= i < |r| ==> r[i] != "" && r[i] in xs
    ensures forall x :: x in xs && x != "" ==> x in r
  {
    if xs == [] then []
    else if xs[0] == "" then NonEmpty(xs[1..])
    else [xs[0]] + NonEmpty(xs[1..])
  }

  /** A character absent from every entry is absent from every entry `filter(Boolean)` keeps. */
  lemma NonEmptyKeepsOut(xs: seq<string>, c: char)
    requires forall i :: 0 <= i < |xs| ==> c !in xs[i]
    ensures forall i :: 0 <= i < |NonEmpty(xs)| ==> c !in NonEmpty(xs)[i]
  {
    var r := NonEmpty(xs);
    forall i | 0 <= i < |r| ensures c !in r[i] {
      assert r[i] in xs;
    }
  }

  /** `s.startsWith(prefix)`: `prefix` matches `s` character by character from the start. */
  predicate StartsWith(s: string, prefix: string)
    ensures StartsWith(s, prefix) <==>
              |prefix| <= |s| && forall i :: 0 <= i < |prefix| ==> s[i] == prefix[i]
  {
    |prefix| <= |s| && s[..|prefix|] == prefix
  }

  /** The characters `String.prototype.trim` removes: ECMAScript WhiteSpace (TAB, VT, FF, ZWNBSP
      and the Unicode space separators) and LineTerminator (LF, CR, LS, PS). */
  predicate IsWhitespace(c: char)
  {
    c == '\t' || c == '\n' || c == '\U{B}' || c == '\U{C}' || c == '\r' || c == ' '
    || c == '\U{A0}' || c == '\U{1680}' || ('\U{2000}' <= c <= '\U{200A}')
    || c == '\U{2028}' || c == '\U{2029}' || c == '\U{202F}' || c == '\U{205F}'
    || c == '\U{3000}' || c == '\U{FEFF}'
  }

  predicate AllWhitespace(s: string)
  {
    forall i :: 0 <= i < |s| ==> IsWhitespace(s[i])
  }

  /** A string with no whitespace at either end. */
  predicate IsTrimmed(s: string)
  {
    s != [] ==> !IsWhitespace(s[0]) && !IsWhitespace(s[|s| - 1])
  }

  /** How many whitespace characters `s` starts with. */
  function LeadingWhitespace(s: string): (n: nat)
    ensures n <= |s|
    ensures forall k :: 0 <= k < n ==> IsWhitespace(s[k])
    ensures n < |s| ==> !IsWhitespace(s[n])
    decreases |s|
  {
    if s != [] && IsWhitespace(s[0]) then
      var n := LeadingWhitespace(s[1..]);
      assert forall k :: 1 <= k < |s| ==> s[k] == s[1..][k - 1];
      1 + n
    else
      0
  }

  /** Where the whitespace at the end of `s` begins. */
  function TrailingWhitespaceStart(s: string): (n: nat)
    ensures n <= |s|
    ensures forall k :: n <= k < |s| ==> IsWhitespace(s[k])
    ensures n > 0 ==> !IsWhitespace(s[n - 1])
    decreases |s|
  {
    if s != [] && IsWhitespace(s[|s| - 1]) then TrailingWhitespaceStart(s[..|s| - 1]) else |s|
  }

  /** `s.trim()`: `s` with the whitespace at both ends removed. What is left is the contiguous
      piece of `s` after its leading whitespace, followed in `s` by nothing but whitespace, and
      has no whitespace at either of its own ends. */
  function Trim(s: string): (r: string)
    ensures IsTrimmed(r)
    ensures var i := LeadingWhitespace(s);
      && i + |r| <= |s| && r == s[i..i + |r|]
      && forall k :: i + |r| <= k < |s| ==> IsWhitespace(s[k])
  {
    var i := LeadingWhitespace(s);
    var t := s[i..];
    var n := TrailingWhitespaceStart(t);
    forall k | i + n <= k < |s| ensures IsWhitespace(s[k]) {
      assert s[k] == t[k - i];
    }
    assert t[..n] == s[i..i + n];
    assert t[..n] != [] ==> t[0] == s[i];
    t[..n]
  }

  /** The character for a decimal digit. */
  function DigitChar(d: nat): (c: char)
    requires d < 10
  {
    (48 + d) as char
  }

  predicate IsDigit(c: char)
  {
    '0' <= c <= '9'
  }

  predicate AllDigits(s: string)
  {
    forall i :: 0 <= i < |s| ==> IsDigit(s[i])
  }

  /** `String(n)` for a non-negative integer: its decimal digits, without leading zeros. */
  function NatToString(n: nat): (r: string)
    ensures r != [] && AllDigits(r)
    ensures r[0] == '0' ==> n == 0
    ensures |r| == NumDigits(n)
  {
    if n < 10 then [DigitChar(n)] else NatToString(n / 10) + [DigitChar(n % 10)]
  }

  /** How many decimal digits `n` has. */
  function NumDigits(n: nat): (k: nat)
    ensures k >= 1
  {
    if n < 10 then 1 else 1 + NumDigits(n / 10)
  }

  /** `String(i)` for any integer: a minus sign before the digits of a negative one. */
  function IntToString(i: int): (r: string)
    ensures r != []
    ensures r[0] == '-' <==> i < 0
    ensures AllDigits(if i < 0 then r[1..] else r)
  {
    if i < 0 then "-" + NatToString(-i) else NatToString(i)
  }

  /** The value of a string of decimal digits (leading zeros allowed). */
  function DigitsValue(s: string): nat
    requires AllDigits(s)
  {
    if s == [] then 0 else DigitsValue(s[..|s| - 1]) * 10 + (s[|s| - 1] as int - 48)
  }

  /** A decimal literal with an optional leading minus sign, or `None` when `s` is not one. */
  function ParseInt(s: string): (r: Option<int>)
  {
    if |s| >= 2 && s[0] == '-' && AllDigits(s[1..]) then Some(0 - DigitsValue(s[1..]) as int)
    else if s != [] && AllDigits(s) then Some(DigitsValue(s))
    else None
  }

  /** `s.padStart(length, fill)` for a one-character fill. */
  function PadStart(s: string, length: nat, fill: char): (r: string)
    ensures |r| == if |s| < length then length else |s|
    ensures r[|r| - |s|..] == s
    ensures forall i :: 0 <= i < |r| - |s| ==> r[i] == fill
  {
    if |s| < length then Repeat(fill, length - |s|) + s else s
  }

  function Repeat(c: char, n: nat): (r: string)
    ensures |r| == n && forall i :: 0 <= i < n ==> r[i] == c
  {
    if n == 0 then [] else [c] + Repeat(c, n - 1)
  }


  // ---- split and join ------------------------------------------------------------------

  /** A separator-free string splits into itself. */
  lemma {:induction false} SplitWithoutSeparator(s: string, sep: char)
    requires sep !in s
    ensures Split(s, sep) == [s]
    decreases |s|
  {
    if s != [] {
      SplitWithoutSeparator(s[1..], sep);
      assert [s[0]] + s[1..] == s;
    }
  }

  /** A separator-free prefix sticks to the first piece. */
  lemma {:induction false} SplitAfterPrefix(x: string, y: string, sep: char)
    requires sep !in x
    ensures Split(x + y, sep) == [x + Split(y, sep)[0]] + Split(y, sep)[1..]
    decreases |x|
  {
    if x != [] {
      assert (x + y)[1..] == x[1..] + y;
      SplitAfterPrefix(x[1..], y, sep);
      assert [x[0]] + (x[1..] + Split(y, sep)[0]) == x + Split(y, sep)[0];
    } else {
      var parts := Split(y, sep);
      assert x + y == y && x + parts[0] == parts[0];
      assert parts == [parts[0]] + parts[1..];
    }
  }

  /** Splitting at the first separator. */
  lemma SplitAtSeparator(x: string, y: string, sep: char)
    requires sep !in x
    ensures Split(x + [sep] + y, sep) == [x] + Split(y, sep)
  {
    assert x + [sep] + y == x + ([sep] + y);
    assert ([sep] + y)[1..] == y;
    assert Split([sep] + y, sep) == [""] + Split(y, sep);
    SplitAfterPrefix(x, [sep] + y, sep);
    assert x + "" == x;
  }

  /** Putting one element in front of a concatenation. */
  lemma ConsAppend<T>(head: T, a: seq<T>, b: seq<T>)
    ensures [head] + (a + b) == ([head] + a) + b
  {
  }

  /** A separator between two strings splits them apart: the pieces of the whole are the pieces
      of the left part followed by the pieces of the right part. */
  lemma {:induction false} SplitAroundSeparator(x: string, y: string, sep: char)
    ensures Split(x + [sep] + y, sep) == Split(x, sep) + Split(y, sep)
    decreases |x|
  {
    var s := x + [sep] + y;
    if x == [] {
      assert s == [sep] + y && s[1..] == y;
    } else {
      assert s[0] == x[0] && s[1..] == x[1..] + [sep] + y;
      SplitAroundSeparator(x[1..], y, sep);
      var left, right := Split(x[1..], sep), Split(y, sep);
      assert Split(s[1..], sep) == left + right;
      if x[0] == sep {
        assert Split(s, sep) == [""] + (left + right);
        assert Split(x, sep) == [""] + left;
        ConsAppend("", left, right);
      } else {
        assert (left + right)[0] == left[0] && (left + right)[1..] == left[1..] + right;
        assert Split(s, sep) == [[x[0]] + left[0]] + (left[1..] + right);
        assert Split(x, sep) == [[x[0]] + left[0]] + left[1..];
        ConsAppend([x[0]] + left[0], left[1..], right);
      }
    }
  }

  /** `pad + p` for every piece `p`. */
  function Prefixed(pad: string, ps: seq<string>): (r: seq<string>)
    ensures |r| == |ps| && forall i :: 0 <= i < |ps| ==> r[i] == pad + ps[i]
  {
    if ps == [] then [] else [pad + ps[0]] + Prefixed(pad, ps[1..])
  }

  /** Splitting a join whose delimiter is the separator followed by `pad` gives the pieces
      back, each after the first carrying `pad` in front: the inverse of `join` as far as a
      one-character `split` can go. */
  lemma {:induction false} SplitJoin(parts: seq<string>, sep: char, pad: string)
    requires |parts| >= 1
    requires forall i :: 0 <= i < |parts| ==> sep !in parts[i]
    requires sep !in pad
    ensures Split(Join(parts, [sep] + pad), sep) == [parts[0]] + Prefixed(pad, parts[1..])
    decreases |parts|
  {
    if |parts| == 1 {
      SplitWithoutSeparator(parts[0], sep);
    } else {
      var rest := parts[1..];
      var tail := Join(rest, [sep] + pad);
      assert Join(parts, [sep] + pad) == parts[0] + [sep] + (pad + tail);
      SplitAtSeparator(parts[0], pad + tail, sep);
      SplitJoin(rest, sep, pad);
      SplitAfterPrefix(pad, tail, sep);
      assert Split(pad + tail, sep) == Prefixed(pad, rest);
    }
  }

  /** `split(",")` of a `join(", ")`: the pieces, each after the first behind a space. */
  lemma SplitJoinCommaSpace(parts: seq<string>)
    requires |parts| >= 1
    requires forall i :: 0 <= i < |parts| ==> ',' !in parts[i]
    ensures Split(Join(parts, ", "), ',') == [parts[0]] + Prefixed(" ", parts[1..])
  {
    var delimiter := [','] + " ";
    assert delimiter == ", ";
    assert Split(Join(parts, delimiter), ',') == [parts[0]] + Prefixed(" ", parts[1..]) by {
      SplitJoin(parts, ',', " ");
    }
  }

  /** With a one-character delimiter, `split` undoes `join` exactly. */
  lemma SplitJoinInverse(parts: seq<string>, sep: char)
    requires |parts| >= 1
    requires forall i :: 0 <= i < |parts| ==> sep !in parts[i]
    ensures Split(Join(parts, [sep]), sep) == parts
  {
    var delimiter := [sep] + "";
    assert delimiter == [sep];
    calc {
      Split(Join(parts, [sep]), sep);
      Split(Join(parts, delimiter), sep);
      { SplitJoin(parts, sep, ""); }
      [parts[0]] + Prefixed("", parts[1..]);
      { PrefixedEmpty(parts[1..]); }
      [parts[0]] + parts[1..];
    }
    assert [parts[0]] + parts[1..] == parts;
  }

  /** An empty pad changes nothing. */
  lemma PrefixedEmpty(ps: seq<string>)
    ensures Prefixed("", ps) == ps
  {
    var p := Prefixed("", ps);
    assert forall i :: 0 <= i < |p| ==> p[i] == "" + ps[i] == ps[i];
  }

  /** `filter(Boolean)` keeps an array without empty strings as it is. */
  lemma {:induction false} NonEmptyKeepsAll(xs: seq<string>)
    requires forall i :: 0 <= i < |xs| ==> xs[i] != ""
    ensures NonEmpty(xs) == xs
  {
    if xs != [] {
      NonEmptyKeepsAll(xs[1..]);
    }
  }

  /** `filter(Boolean)` leaves nothing exactly when every entry is empty. */
  lemma {:induction false} NonEmptyEmptyIff(xs: seq<string>)
    ensures NonEmpty(xs) == [] <==> forall i :: 0 <= i < |xs| ==> xs[i] == ""
  {
    if xs != [] {
      NonEmptyEmptyIff(xs[1..]);
      if xs[0] == "" {
        assert forall i :: 1 <= i < |xs| ==> xs[i] == xs[1..][i - 1];
      }
    }
  }

  /** `filter(Boolean)` on one entry keeps it exactly when it is non-empty. */
  lemma NonEmptySingle(x: string)
    ensures NonEmpty([x]) == if x == "" then [] else [x]
  {
    assert [x][1..] == [];
  }

  /** `filter(Boolean)` works entry by entry: on a concatenation it filters each half and keeps
      their order. */
  lemma {:induction false} NonEmptyAppend(a: seq<string>, b: seq<string>)
    ensures NonEmpty(a + b) == NonEmpty(a) + NonEmpty(b)
    decreases |a|
  {
    if a == [] {
      assert a + b == b;
    } else {
      var kept := if a[0] == "" then [] else [a[0]];
      assert (a + b)[0] == a[0] && (a + b)[1..] == a[1..] + b;
      calc {
        NonEmpty(a + b);
        kept + NonEmpty(a[1..] + b);
        { NonEmptyAppend(a[1..], b); }
        kept + (NonEmpty(a[1..]) + NonEmpty(b));
        (kept + NonEmpty(a[1..])) + NonEmpty(b);
        NonEmpty(a) + NonEmpty(b);
      }
    }
  }

  // ---- trim ------------------------------------------------------------------------------

  /** `trim` leaves a string without whitespace at its ends unchanged. */
  lemma TrimTrimmed(s: string)
    requires IsTrimmed(s)
    ensures Trim(s) == s
  {
    assert LeadingWhitespace(s) == 0;
    assert s[0..] == s;
  }

  /** `trim` only removes characters: whatever it leaves occurs in its input. */
  lemma TrimKeeps(s: string, c: char)
    requires c in Trim(s)
    ensures c in s
  {
    var r := Trim(s);
    var i := LeadingWhitespace(s);
    assert forall k :: 0 <= k < |r| ==> r[k] == s[i + k];
  }

  /** `trim` leaves the empty string exactly of an all-whitespace string. */
  lemma TrimEmptyIff(s: string)
    ensures Trim(s) == "" <==> AllWhitespace(s)
  {
    var r := Trim(s);
    if r != "" {
      assert r[0] == s[LeadingWhitespace(s)];
    }
  }

  /** Whitespace put in front of a string that does not start with whitespace is exactly its
      leading whitespace. */
  lemma {:induction false} LeadingPad(pad: string, s: string)
    requires AllWhitespace(pad)
    requires s != [] && !IsWhitespace(s[0])
    ensures LeadingWhitespace(pad + s) == |pad|
    decreases |pad|
  {
    if pad == [] {
      assert pad + s == s;
    } else {
      assert (pad + s)[1..] == pad[1..] + s;
      LeadingPad(pad[1..], s);
    }
  }

  /** `trim` removes whitespace put in front of a string that has none at its ends. */
  lemma TrimAfterWhitespace(pad: string, s: string)
    requires AllWhitespace(pad)
    requires IsTrimmed(s) && s != []
    ensures Trim(pad + s) == s
  {
    LeadingPad(pad, s);
    assert (pad + s)[|pad|..] == s;
    TrimTrimmed(s);
  }

  // ---- numbers ----------------------------------------------------------------------------

  /** Reading back the digits `String(n)` writes gives `n`. */
  lemma {:induction false} NatToStringValue(n: nat)
    ensures DigitsValue(NatToString(n)) == n
  {
    if n >= 10 {
      NatToStringValue(n / 10);
      var s := NatToString(n);
      assert s[..|s| - 1] == NatToString(n / 10);
    }
  }

  /** Leading zeros do not change the value of a digit string. */
  lemma {:induction false} LeadingZeroValue(s: string)
    requires AllDigits(s)
    ensures AllDigits("0" + s) && DigitsValue("0" + s) == DigitsValue(s)
    decreases |s|
  {
    if s != [] {
      var z := "0" + s;
      assert z[..|z| - 1] == "0" + s[..|s| - 1];
      LeadingZeroValue(s[..|s| - 1]);
    }
  }

  /** A non-empty digit string parses to its value. */
  lemma ParseDigits(s: string)
    requires s != [] && AllDigits(s)
    ensures ParseInt(s) == Some(DigitsValue(s))
  {
    assert IsDigit(s[0]);
  }

  /** `String(i)` parses back to `i`. */
  lemma IntToStringParses(i: int)
    ensures ParseInt(IntToString(i)) == Some(i)
  {
    if i < 0 {
      var digits := NatToString(-i);
      NatToStringValue(-i);
      var s := "-" + digits;
      assert s[0] == '-' && s[1..] == digits;
      assert ParseInt(s) == Some(0 - DigitsValue(digits));
    } else {
      NatToStringValue(i);
      ParseDigits(NatToString(i));
    }
  }
}
