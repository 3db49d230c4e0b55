/**
 * The JavaScript string operations the application relies on, over Dafny
 * strings (sequences of Unicode scalar values): code-point order,
 * `toLowerCase` on ASCII letters, `trim`, `parseInt` without a radix,
 * `Number.prototype.toString(radix)` for naturals, `String.prototype.slice`
 * and the UTF-16 `length` of a string.
 */
module Text {
  import opened Wrappers

  // ---------------------------------------------------------------------------
  // Order
  // ---------------------------------------------------------------------------

  /** `a` sorts at or before `b` in code-point lexicographic order. */
  predicate LexLe(a: string, b: string)
  {
    a == [] || (b != [] && (a[0] < b[0] || (a[0] == b[0] && LexLe(a[1..], b[1..]))))
  }

  lemma {:induction false} LexLeReflexive(a: string)
    ensures LexLe(a, a)
  {
    if a != [] {
      LexLeReflexive(a[1..]);
    }
  }

  lemma {:induction false} LexLeTotal(a: string, b: string)
    ensures LexLe(a, b) || LexLe(b, a)
  {
    if a != [] && b != [] && a[0] == b[0] {
      LexLeTotal(a[1..], b[1..]);
    }
  }

  lemma {:induction false} LexLeTransitive(a: string, b: string, c: string)
    requires LexLe(a, b) && LexLe(b, c)
    ensures LexLe(a, c)
  {
    if a != [] && b != [] && c != [] && a[0] == b[0] && b[0] == c[0] {
      LexLeTransitive(a[1..], b[1..], c[1..]);
    }
  }

  lemma {:induction false} LexLeAntisymmetric(a: string, b: string)
    requires LexLe(a, b) && LexLe(b, a)
    ensures a == b
  {
    if a != [] && b != [] {
      LexLeAntisymmetric(a[1..], b[1..]);
    }
  }

  /**
   * Comparing two strings whose first parts have the same length: the first
   * parts decide unless they are equal, in which case the rest decides.
   */
  lemma {:induction false} LexLeAppend(x: string, y: string, r: string, s: string)
    requires |x| == |y|
    ensures LexLe(x + r, y + s) == if x == y then LexLe(r, s) else LexLe(x, y)
  {
    if x == [] {
      assert x + r == r && y + s == s;
    } else {
      assert (x + r)[0] == x[0] && (y + s)[0] == y[0];
      assert (x + r)[1..] == x[1..] + r;
      assert (y + s)[1..] == y[1..] + s;
      LexLeAppend(x[1..], y[1..], r, s);
      if x[0] == y[0] && x[1..] == y[1..] {
        assert x == y;
      }
    }
  }

  // ---------------------------------------------------------------------------
  // Case mapping
  // ---------------------------------------------------------------------------

  function LowerChar(c: char): char
  {
    if 'A' <= c <= 'Z' then (c as int + 32) as char else c
  }

  /**
   * `String.prototype.toLowerCase` on ASCII letters; every other character
   * is kept.
   */
  function ToLower(s: string): (r: string)
    ensures |r| == |s|
    ensures forall i :: 0 <= i < |s| ==> r[i] == LowerChar(s[i])
    ensures forall i :: 0 <= i < |r| ==> !('A' <= r[i] <= 'Z')
  {
    seq(|s|, i requires 0 <= i < |s| => LowerChar(s[i]))
  }

  // ---------------------------------------------------------------------------
  // Whitespace and trim
  // ---------------------------------------------------------------------------

  /** The WhiteSpace and LineTerminator code points of ECMAScript. */
  predicate IsJsSpace(c: char)
  {
    || c == '\t' || c == '\n' || c == '\U{B}' || c == '\U{C}' || c == '\r' || c == ' '
    || c == '\U{A0}' || c == '\U{1680}' || ('\U{2000}' <= c <= '\U{200A}')
    || c == '\U{2028}' || c == '\U{2029}' || c == '\U{202F}' || c == '\U{205F}'
    || c == '\U{3000}' || c == '\U{FEFF}'
  }

  function TrimStart(s: string): (r: string)
    ensures |r| <= |s| && r == s[|s| - |r|..]
    ensures r == [] || !IsJsSpace(r[0])
    ensures forall i :: 0 <= i < |s| - |r| ==> IsJsSpace(s[i])
  {
    if s != [] && IsJsSpace(s[0]) then TrimStart(s[1..]) else s
  }

  function TrimEnd(s: string): (r: string)
    ensures |r| <= |s| && r == s[..|r|]
    ensures r == [] || !IsJsSpace(r[|r| - 1])
    ensures forall i :: |r| <= i < |s| ==> IsJsSpace(s[i])
  {
    if s != [] && IsJsSpace(s[|s| - 1]) then TrimEnd(s[..|s| - 1]) else s
  }

  /** `String.prototype.trim`. */
  function Trim(s: string): string
  {
    TrimEnd(TrimStart(s))
  }

  /** `trim` gives "" exactly for strings made only of whitespace. */
  lemma TrimEmpty(s: string)
    ensures Trim(s) == [] <==> forall k :: 0 <= k < |s| ==> IsJsSpace(s[k])
  {
    var t := TrimStart(s);
    if Trim(s) == [] {
      assert t == [];
    } else {
      var c := Trim(s)[0];
      assert c == t[0];
      assert s[|s| - |t|] == c && !IsJsSpace(c);
    }
  }

  // ---------------------------------------------------------------------------
  // Digits: Number.prototype.toString(radix) and parseInt
  // ---------------------------------------------------------------------------

  /** The value of `c` as a digit (`0-9`, then `a-z` either case); 36 for any other character. */
  function DigitValue(c: char): nat
  {
    if '0' <= c <= '9' then c as int - '0' as int
    else if 'a' <= c <= 'z' then c as int - 'a' as int + 10
    else if 'A' <= c <= 'Z' then c as int - 'A' as int + 10
    else 36
  }

  /** The value of `c` as a digit of base `radix`, if it is one. */
  function DigitOf(c: char, radix: nat): Option<nat>
  {
    if DigitValue(c) < radix then Some(DigitValue(c)) else None
  }

  function DigitChar(d: nat): (c: char)
    requires d < 36
    ensures DigitValue(c) == d
  {
    if d < 10 then ('0' as int + d) as char else ('a' as int + d - 10) as char
  }

  lemma DivisionShrinks(n: nat, radix: nat)
    requires 2 <= radix <= n
    ensures 1 <= n / radix < n && 0 <= n % radix < radix
    ensures n == (n / radix) * radix + n % radix
  {
    var q, m := n / radix, n % radix;
    assert n == q * radix + m;
    assert q * radix > 0;
    assert q < n by {
      assert q * radix >= q * 2;
    }
  }

  /** `n.toString(radix)`: lower-case digits, no leading zeros, "0" for zero. */
  function NatToString(n: nat, radix: nat): (r: string)
    requires 2 <= radix <= 36
    ensures |r| >= 1
    ensures forall i :: 0 <= i < |r| ==> DigitOf(r[i], radix).Some?
    ensures r[0] == '0' ==> n == 0
    decreases n
  {
    if n < radix then [DigitChar(n)]
    else
      DivisionShrinks(n, radix);
      NatToString(n / radix, radix) + [DigitChar(n % radix)]
  }

  /** The values of the longest prefix of `s` made of base-`radix` digits. */
  function DigitPrefix(s: string, radix: nat): (ds: seq<nat>)
    ensures |ds| <= |s|
    ensures forall i :: 0 <= i < |ds| ==> ds[i] < radix
  {
    if s == [] || DigitOf(s[0], radix).None? then []
    else [DigitOf(s[0], radix).value] + DigitPrefix(s[1..], radix)
  }

  /** The number the digits `ds` denote in base `radix`, most significant first. */
  function DigitsValue(ds: seq<nat>, radix: nat): nat
  {
    if ds == [] then 0 else DigitsValue(ds[..|ds| - 1], radix) * radix + ds[|ds| - 1]
  }

  /**
   * The global `parseInt(s)` with no radix argument: leading whitespace is
   * skipped, one sign is read, a `0x`/`0X` prefix switches to base 16, and
   * the longest run of digits is read; no digit at all gives NaN (`None`).
   */
  function ParseInt(s: string): Option<int>
  {
    var t := TrimStart(s);
    var negative := t != [] && t[0] == '-';
    var u := if t != [] && (t[0] == '-' || t[0] == '+') then t[1..] else t;
    var hex := |u| >= 2 && u[0] == '0' && (u[1] == 'x' || u[1] == 'X');
    var radix := if hex then 16 else 10;
    var ds := DigitPrefix(if hex then u[2..] else u, radix);
    var magnitude: int := DigitsValue(ds, radix);
    if ds == [] then None else Some(if negative then -magnitude else magnitude)
  }

  lemma {:induction false} DigitPrefixOfDigits(s: string, radix: nat)
    requires forall i :: 0 <= i < |s| ==> DigitOf(s[i], radix).Some?
    ensures |DigitPrefix(s, radix)| == |s|
    ensures forall i :: 0 <= i < |s| ==> DigitPrefix(s, radix)[i] == DigitOf(s[i], radix).value
  {
    if s != [] {
      DigitPrefixOfDigits(s[1..], radix);
    }
  }

  lemma {:induction false} DigitsValueOfRendering(n: nat, radix: nat)
    requires 2 <= radix <= 36
    ensures DigitsValue(DigitPrefix(NatToString(n, radix), radix), radix) == n
    decreases n
  {
    var r := NatToString(n, radix);
    DigitPrefixOfDigits(r, radix);
    var ds := DigitPrefix(r, radix);
    if n >= radix {
      DivisionShrinks(n, radix);
      var q, m := n / radix, n % radix;
      var front := NatToString(q, radix);
      DigitsValueOfRendering(q, radix);
      DigitPrefixOfDigits(front, radix);
      var fds := DigitPrefix(front, radix);
      assert r == front + [DigitChar(m)];
      assert ds == fds + [m] by {
        forall i | 0 <= i < |fds|
          ensures ds[i] == fds[i]
        {
          assert r[i] == front[i];
        }
        assert r[|r| - 1] == DigitChar(m);
      }
      assert (fds + [m])[..|fds|] == fds;
      assert DigitsValue(ds, radix) == DigitsValue(fds, radix) * radix + m;
    } else {
      assert ds == [n];
      assert ds[..0] == [];
    }
  }

  /** `parseInt` reads back the decimal rendering of every natural number. */
  lemma ParseIntOfDecimal(n: nat)
    ensures ParseInt(NatToString(n, 10)) == Some(n)
  {
    var r := NatToString(n, 10);
    assert !IsJsSpace(r[0]) && r[0] != '-' && r[0] != '+' by {
      assert DigitOf(r[0], 10).Some?;
    }
    assert TrimStart(r) == r;
    assert r[0] == '0' ==> |r| == 1;
    DigitsValueOfRendering(n, 10);
  }

  // ---------------------------------------------------------------------------
  // Slicing and length
  // ---------------------------------------------------------------------------

  /**
   * `s.slice(start, end)`: a negative index counts from the end, both are
   * clamped to the string, and an empty range gives "".
   */
  function Slice(s: string, start: int, end: int): (r: string)
    ensures |r| <= |s|
  {
    var n := |s|;
    var from := if start < 0 then (if n + start < 0 then 0 else n + start) else (if start < n then start else n);
    var to := if end < 0 then (if n + end < 0 then 0 else n + end) else (if end < n then end else n);
    if from < to then s[from..to] else []
  }

  /** `s.length`: the number of UTF-16 code units, two for a supplementary character. */
  function Utf16Length(s: string): (n: nat)
    ensures |s| <= n <= 2 * |s|
  {
    if s == [] then 0 else (if s[0] as int > 0xFFFF then 2 else 1) + Utf16Length(s[1..])
  }
}
