/**
 * The percent-escaping that `URI::Parser#escape(part, /[^a-z0-9\-\.\_\~]/i)`
 * performs on each part of a cache key, with its inverse, and the joining of
 * the escaped parts with `/`.
 *
 * A character outside the unreserved class is replaced by `%XX` for each
 * byte of its UTF-8 encoding, `XX` being two upper-case hexadecimal digits.
 */
module UriEscape {
  import opened Optional

  newtype byte = x: int | 0 <= x < 256

  /** The characters `[a-z0-9\-\.\_\~]` matched case-insensitively. */
  predicate Unreserved(c: char) {
    ('a' <= c <= 'z') || ('A' <= c <= 'Z') || ('0' <= c <= '9') ||
    c == '-' || c == '.' || c == '_' || c == '~'
  }

  /** The UTF-8 encoding of one Unicode scalar value. */
  function Utf8(c: char): (bs: seq<byte>)
    ensures 1 <= |bs| <= 4
    ensures |bs| == 1 <==> (c as int) < 0x80
    ensures |bs| == 1 ==> bs[0] as int == c as int
  {
    var n := c as int;
    if n < 0x80 then [n as byte]
    else if n < 0x800 then [(0xC0 + n / 0x40) as byte, (0x80 + n % 0x40) as byte]
    else if n < 0x1_0000 then
      [(0xE0 + n / 0x1000) as byte, (0x80 + n / 0x40 % 0x40) as byte, (0x80 + n % 0x40) as byte]
    else
      [(0xF0 + n / 0x4_0000) as byte, (0x80 + n / 0x1000 % 0x40) as byte,
       (0x80 + n / 0x40 % 0x40) as byte, (0x80 + n % 0x40) as byte]
  }

  /** The UTF-8 encoding of a string (`each_byte`). */
  function Utf8Encode(s: string): seq<byte> {
    if s == [] then [] else Utf8(s[0]) + Utf8Encode(s[1..])
  }

  /** `sprintf('%02X', ...)`'s digit for a nibble. */
  function HexDigit(d: nat): (c: char)
    requires d < 16
  {
    "0123456789ABCDEF"[d]
  }

  predicate IsUpperHex(c: char) {
    ('0' <= c <= '9') || ('A' <= c <= 'F')
  }

  /** The value of a hexadecimal digit of either case. */
  function HexValue(c: char): Option<nat> {
    if '0' <= c <= '9' then Some(c as nat - '0' as nat)
    else if 'A' <= c <= 'F' then Some(c as nat - 'A' as nat + 10)
    else if 'a' <= c <= 'f' then Some(c as nat - 'a' as nat + 10)
    else None
  }

  /** `%XX` for one byte. */
  function EscapeByte(b: byte): string {
    ['%', HexDigit(b as nat / 16), HexDigit(b as nat % 16)]
  }

  function EscapeBytes(bs: seq<byte>): string {
    if bs == [] then [] else EscapeByte(bs[0]) + EscapeBytes(bs[1..])
  }

  function EscapeChar(c: char): string {
    if Unreserved(c) then [c] else EscapeBytes(Utf8(c))
  }

  /**
   * A well-formed escaped part: unreserved characters and `%XX` triples with
   * upper-case digits, nothing else (in particular no `/`).
   */
  ghost predicate WellEscaped(t: string)
    decreases |t|
  {
    t == [] ||
    (Unreserved(t[0]) && WellEscaped(t[1..])) ||
    (|t| >= 3 && t[0] == '%' && IsUpperHex(t[1]) && IsUpperHex(t[2]) && WellEscaped(t[3..]))
  }

  /** The pieces concatenated in order. */
  function Concat(pieces: seq<string>): string {
    if pieces == [] then [] else pieces[0] + Concat(pieces[1..])
  }

  /**
   * `URI::Parser#escape` with the unsafe class `/[^a-z0-9\-\.\_\~]/i`:
   * every character is escaped on its own and the results are concatenated.
   */
  function Escape(s: string): (r: string)
  {
    Concat(seq(|s|, i requires 0 <= i < |s| => EscapeChar(s[i])))
  }

  /** Escaping the first character, then the rest. */
  lemma EscapeCons(s: string)
    ensures Escape(s) == if s == [] then [] else EscapeChar(s[0]) + Escape(s[1..])
  {
    if s != [] {
      var pieces := seq(|s|, i requires 0 <= i < |s| => EscapeChar(s[i]));
      assert pieces[1..] == seq(|s| - 1, i requires 0 <= i < |s| - 1 => EscapeChar(s[1..][i]));
    }
  }

  /**
   * The inverse reading of an escaped part: the bytes it stands for, or None
   * when it holds a character escaping never produces.
   */
  function Unescape(t: string): (r: Option<seq<byte>>)
    decreases |t|
  {
    if t == [] then Some([])
    else if t[0] == '%' then
      if |t| >= 3 && HexValue(t[1]).Some? && HexValue(t[2]).Some? then
        Prefix([(HexValue(t[1]).value * 16 + HexValue(t[2]).value) as byte], Unescape(t[3..]))
      else None
    else if Unreserved(t[0]) then Prefix([t[0] as int as byte], Unescape(t[1..]))
    else None
  }

  function Prefix(bs: seq<byte>, r: Option<seq<byte>>): Option<seq<byte>> {
    if r.Some? then Some(bs + r.value) else None
  }

  lemma HexRoundTrip(d: nat)
    requires d < 16
    ensures IsUpperHex(HexDigit(d)) && HexValue(HexDigit(d)) == Some(d)
  {
  }

  lemma EscapeByteDecodes(b: byte, t: string)
    ensures Unescape(EscapeByte(b) + t) == Prefix([b], Unescape(t))
  {
    var e := EscapeByte(b) + t;
    HexRoundTrip(b as nat / 16);
    HexRoundTrip(b as nat % 16);
    assert e[0] == '%' && e[3..] == t;
  }

  lemma {:induction false} EscapeBytesDecode(bs: seq<byte>, t: string)
    ensures Unescape(EscapeBytes(bs) + t) == Prefix(bs, Unescape(t))
  {
    if bs != [] {
      calc {
        Unescape(EscapeBytes(bs) + t);
        { assert EscapeBytes(bs) + t == EscapeByte(bs[0]) + (EscapeBytes(bs[1..]) + t); }
        Unescape(EscapeByte(bs[0]) + (EscapeBytes(bs[1..]) + t));
        { EscapeByteDecodes(bs[0], EscapeBytes(bs[1..]) + t); }
        Prefix([bs[0]], Unescape(EscapeBytes(bs[1..]) + t));
        { EscapeBytesDecode(bs[1..], t); }
        Prefix([bs[0]], Prefix(bs[1..], Unescape(t)));
        { assert [bs[0]] + bs[1..] == bs;
          if Unescape(t).Some? {
            assert [bs[0]] + (bs[1..] + Unescape(t).value) == bs + Unescape(t).value;
          }
        }
        Prefix(bs, Unescape(t));
      }
    } else {
      assert EscapeBytes(bs) + t == t;
      assert Unescape(t).Some? ==> bs + Unescape(t).value == Unescape(t).value;
    }
  }

  lemma EscapeCharDecodes(c: char, t: string)
    ensures Unescape(EscapeChar(c) + t) == Prefix(Utf8(c), Unescape(t))
  {
    if Unreserved(c) {
      assert ([c] + t)[1..] == t;
    } else {
      EscapeBytesDecode(Utf8(c), t);
    }
  }

  /** Escaping loses nothing: reading an escaped part back gives the UTF-8 bytes of the original. */
  lemma {:induction false} UnescapeEscape(s: string)
    ensures Unescape(Escape(s)) == Some(Utf8Encode(s))
  {
    EscapeCons(s);
    if s != [] {
      EscapeCharDecodes(s[0], Escape(s[1..]));
      UnescapeEscape(s[1..]);
    }
  }

  lemma {:induction false} WellEscapedAppend(a: string, b: string)
    requires WellEscaped(a) && WellEscaped(b)
    ensures WellEscaped(a + b)
    decreases |a|
  {
    if a == [] {
      assert a + b == b;
    } else if Unreserved(a[0]) && WellEscaped(a[1..]) {
      WellEscapedAppend(a[1..], b);
      assert (a + b)[1..] == a[1..] + b;
    } else {
      WellEscapedAppend(a[3..], b);
      assert (a + b)[3..] == a[3..] + b;
    }
  }

  lemma {:induction false} EscapeBytesWellEscaped(bs: seq<byte>)
    ensures WellEscaped(EscapeBytes(bs))
  {
    if bs != [] {
      HexRoundTrip(bs[0] as nat / 16);
      HexRoundTrip(bs[0] as nat % 16);
      var e := EscapeByte(bs[0]);
      assert e[3..] == [];
      EscapeBytesWellEscaped(bs[1..]);
      WellEscapedAppend(e, EscapeBytes(bs[1..]));
    }
  }

  /** Every escaped part consists of unreserved characters and `%XX` triples only. */
  lemma {:induction false} EscapeWellEscaped(s: string)
    ensures WellEscaped(Escape(s))
  {
    EscapeCons(s);
    if s != [] {
      if Unreserved(s[0]) {
        assert WellEscaped(EscapeChar(s[0])) by { assert EscapeChar(s[0])[1..] == []; }
      } else {
        EscapeBytesWellEscaped(Utf8(s[0]));
      }
      EscapeWellEscaped(s[1..]);
      WellEscapedAppend(EscapeChar(s[0]), Escape(s[1..]));
    }
  }

  /** The characters a well-formed escaped part can hold; `/` is not one of them. */
  lemma {:induction false} WellEscapedCharacters(t: string)
    requires WellEscaped(t)
    ensures forall i :: 0 <= i < |t| ==> Unreserved(t[i]) || t[i] == '%'
    decreases |t|
  {
    if t != [] {
      if Unreserved(t[0]) && WellEscaped(t[1..]) {
        WellEscapedCharacters(t[1..]);
        assert forall i :: 1 <= i < |t| ==> t[i] == t[1..][i - 1];
      } else {
        WellEscapedCharacters(t[3..]);
        assert forall i :: 3 <= i < |t| ==> t[i] == t[3..][i - 3];
      }
    }
  }

  /** A part made of unreserved characters only is left as it is. */
  lemma {:induction false} EscapeUnreservedIdentity(s: string)
    requires forall i :: 0 <= i < |s| ==> Unreserved(s[i])
    ensures Escape(s) == s
  {
    EscapeCons(s);
    if s != [] {
      EscapeUnreservedIdentity(s[1..]);
      assert s == [s[0]] + s[1..];
    }
  }

  lemma {:induction false} ConcatAppend(x: seq<string>, y: seq<string>)
    ensures Concat(x + y) == Concat(x) + Concat(y)
  {
    if x != [] {
      ConcatAppend(x[1..], y);
      assert (x + y)[1..] == x[1..] + y;
    } else {
      assert x + y == y;
    }
  }

  /** Escaping works character by character. */
  lemma EscapeAppend(a: string, b: string)
    ensures Escape(a + b) == Escape(a) + Escape(b)
  {
    var pa := seq(|a|, i requires 0 <= i < |a| => EscapeChar(a[i]));
    var pb := seq(|b|, i requires 0 <= i < |b| => EscapeChar(b[i]));
    var pab := seq(|a + b|, i requires 0 <= i < |a + b| => EscapeChar((a + b)[i]));
    assert pab == pa + pb;
    ConcatAppend(pa, pb);
  }
}
