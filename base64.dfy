/**
 * Base64 as the envelope codec uses it: `btoa(String.fromCharCode(...bytes))`
 * encodes bytes with the alphabet and padding of section 4 of RFC 4648, and
 * `atob` followed by `charCodeAt` decodes with the "forgiving-base64 decode"
 * of the WHATWG Infra standard (ASCII whitespace is skipped, the padding is
 * optional, any other character outside the alphabet is rejected).
 */
module Base64 {
  import opened Wrappers

  type byte = x: int | 0 <= x < 256
  type sextet = x: int | 0 <= x < 64

  const Pad: char := '='

  /** The symbol of a 6-bit value (Table 1 of RFC 4648). */
  function Symbol(v: sextet): char
  {
    if v < 26 then ('A' as int + v) as char
    else if v < 52 then ('a' as int + v - 26) as char
    else if v < 62 then ('0' as int + v - 52) as char
    else if v == 62 then '+'
    else '/'
  }

  /** The 6-bit value of a symbol of the alphabet; `None` for any other character. */
  function SymbolValue(c: char): (r: Option<sextet>)
    ensures r.Some? ==> Symbol(r.value) == c
  {
    if 'A' <= c <= 'Z' then Some(c as int - 'A' as int)
    else if 'a' <= c <= 'z' then Some(c as int - 'a' as int + 26)
    else if '0' <= c <= '9' then Some(c as int - '0' as int + 52)
    else if c == '+' then Some(62)
    else if c == '/' then Some(63)
    else None
  }

  /**
   * The 6-bit groups of `b`, most significant first: four per 3-byte block,
   * then two for a final single byte or three for a final pair, the missing
   * low bits being zero.
   */
  function Sextets(b: seq<byte>): (r: seq<sextet>)
    ensures |r| % 4 == (if |b| % 3 == 0 then 0 else |b| % 3 + 1)
    ensures |r| == 0 <==> |b| == 0
  {
    if |b| == 0 then []
    else if |b| == 1 then [b[0] / 4, (b[0] % 4) * 16]
    else if |b| == 2 then [b[0] / 4, (b[0] % 4) * 16 + b[1] / 16, (b[1] % 16) * 4]
    else [b[0] / 4, (b[0] % 4) * 16 + b[1] / 16, (b[1] % 16) * 4 + b[2] / 64, b[2] % 64] + Sextets(b[3..])
  }

  function Symbols(v: seq<sextet>): (s: string)
    ensures |s| == |v|
  {
    seq(|v|, i requires 0 <= i < |v| => Symbol(v[i]))
  }

  /** The `=` characters that complete the last 4-character quantum. */
  function Padding(n: nat): string
  {
    if n % 3 == 1 then [Pad, Pad] else if n % 3 == 2 then [Pad] else []
  }

  /** `btoa(String.fromCharCode(...bytes))`. */
  function Encode(b: seq<byte>): (s: string)
    ensures |s| % 4 == 0
    ensures forall i :: 0 <= i < |s| ==> SymbolValue(s[i]).Some? || s[i] == Pad
  {
    var sy := Symbols(Sextets(b));
    assert forall i :: 0 <= i < |sy| ==> SymbolValue(sy[i]).Some? by {
      forall i | 0 <= i < |sy|
        ensures SymbolValue(sy[i]).Some?
      {
        SymbolInAlphabet(Sextets(b)[i]);
      }
    }
    assert |sy| % 4 + |Padding(|b|)| in {0, 4};
    sy + Padding(|b|)
  }

  lemma SymbolInAlphabet(v: sextet)
    ensures SymbolValue(Symbol(v)) == Some(v)
  {
  }

  // ---------------------------------------------------------------------------
  // Decoding (atob)
  // ---------------------------------------------------------------------------

  /** TAB, LF, FF, CR and SPACE: the ASCII whitespace of the Infra standard. */
  predicate IsAsciiWhitespace(c: char)
  {
    c == '\t' || c == '\n' || c == '\U{C}' || c == '\r' || c == ' '
  }

  function RemoveAsciiWhitespace(s: string): (r: string)
    ensures forall i :: 0 <= i < |r| ==> !IsAsciiWhitespace(r[i])
  {
    if s == [] then []
    else if IsAsciiWhitespace(s[0]) then RemoveAsciiWhitespace(s[1..])
    else [s[0]] + RemoveAsciiWhitespace(s[1..])
  }

  /** When the length is a multiple of four, one or two final `=` are dropped. */
  function StripPadding(s: string): string
  {
    if |s| % 4 == 0 && |s| >= 2 && s[|s| - 2] == Pad && s[|s| - 1] == Pad then s[..|s| - 2]
    else if |s| % 4 == 0 && |s| >= 1 && s[|s| - 1] == Pad then s[..|s| - 1]
    else s
  }

  /** The values of the symbols of `s`, or `None` if some character is not in the alphabet. */
  function SymbolValues(s: string): (r: Option<seq<sextet>>)
    ensures r.Some? ==> |r.value| == |s|
  {
    if s == [] then Some([])
    else match (SymbolValue(s[0]), SymbolValues(s[1..]))
      case (Some(v), Some(vs)) => Some([v] + vs)
      case _ => None
  }

  /** Regroups 6-bit values into bytes; the bits left over at the end are dropped. */
  function Unpack(v: seq<sextet>): (b: seq<byte>)
    requires |v| % 4 != 1
  {
    if |v| == 0 then []
    else
      var hi: int, mid: int := v[0] as int * 4 + v[1] / 16, (v[1] % 16) as int * 16;
      if |v| == 2 then [hi]
      else if |v| == 3 then [hi, mid + v[2] / 4]
      else [hi, mid + v[2] / 4, (v[2] % 4) as int * 64 + v[3]] + Unpack(v[4..])
  }

  /** `Uint8Array.from(atob(s), c => c.charCodeAt(0))`; `None` where `atob` throws. */
  function Decode(s: string): Option<seq<byte>>
  {
    var t := StripPadding(RemoveAsciiWhitespace(s));
    if |t| % 4 == 1 then None
    else match SymbolValues(t)
      case None => None
      case Some(v) => Some(Unpack(v))
  }

  // ---------------------------------------------------------------------------
  // Round trip
  // ---------------------------------------------------------------------------

  lemma {:induction false} UnpackSextets(b: seq<byte>)
    ensures Unpack(Sextets(b)) == b
  {
    var v := Sextets(b);
    if |b| >= 3 {
      UnpackSextets(b[3..]);
      assert v[4..] == Sextets(b[3..]);
      Regroup(b[0], b[1], b[2]);
      assert Unpack(v) == [b[0], b[1], b[2]] + Unpack(v[4..]);
      assert b == [b[0], b[1], b[2]] + b[3..];
    } else if |b| == 2 {
      Regroup(b[0], b[1], 0);
    } else if |b| == 1 {
      Regroup(b[0], 0, 0);
    }
  }

  /** Splitting three bytes into four 6-bit groups and joining them again gives the bytes back. */
  lemma Regroup(x: byte, y: byte, z: byte)
    ensures (x / 4) * 4 + ((x % 4) * 16 + y / 16) / 16 == x
    ensures (((x % 4) * 16 + y / 16) % 16) * 16 + ((y % 16) * 4 + z / 64) / 4 == y
    ensures (((y % 16) * 4 + z / 64) % 4) * 64 + z % 64 == z
  {
  }

  lemma {:induction false} SymbolValuesOfSymbols(v: seq<sextet>)
    ensures SymbolValues(Symbols(v)) == Some(v)
  {
    if v != [] {
      SymbolValuesOfSymbols(v[1..]);
      assert Symbols(v)[1..] == Symbols(v[1..]);
      assert v == [v[0]] + v[1..];
    }
  }

  lemma {:induction false} NoWhitespaceToRemove(s: string)
    requires forall i :: 0 <= i < |s| ==> !IsAsciiWhitespace(s[i])
    ensures RemoveAsciiWhitespace(s) == s
  {
    if s != [] {
      NoWhitespaceToRemove(s[1..]);
    }
  }

  lemma StripPaddingOfEncoding(b: seq<byte>)
    ensures StripPadding(Encode(b)) == Symbols(Sextets(b))
  {
    var sy := Symbols(Sextets(b));
    var e := Encode(b);
    assert e == sy + Padding(|b|);
    if |b| % 3 == 0 {
      assert e == sy;
      if |e| >= 1 {
        assert SymbolValue(e[|e| - 1]).Some?;
      }
    } else if |b| % 3 == 2 {
      assert e[|e| - 2] == sy[|sy| - 1];
      assert e[..|e| - 1] == sy;
    } else {
      assert e[..|e| - 2] == sy;
    }
  }

  /** `unb64(b64(bytes)) == bytes` for every byte sequence. */
  lemma DecodeEncode(b: seq<byte>)
    ensures Decode(Encode(b)) == Some(b)
  {
    var e := Encode(b);
    forall i | 0 <= i < |e|
      ensures !IsAsciiWhitespace(e[i])
    {
      assert SymbolValue(e[i]).Some? || e[i] == Pad;
    }
    NoWhitespaceToRemove(e);
    StripPaddingOfEncoding(b);
    SymbolValuesOfSymbols(Sextets(b));
    UnpackSextets(b);
  }

  /** Different byte sequences have different encodings. */
  lemma EncodeInjective(a: seq<byte>, b: seq<byte>)
    requires Encode(a) == Encode(b)
    ensures a == b
  {
    DecodeEncode(a);
    DecodeEncode(b);
  }
}
