/** Percent decoding of request targets: `string_from_utf8` in core/string.hh. */
module Percent {
  import opened Text

  /** `Undefined` is the read past the terminating NUL that a final '%' causes. */
  datatype Decoded = Text(value: string) | Undefined

  /** Signed characters and the cast to `char` only matter modulo 256. */
  function HexToInt(a: char): int {
    if '0' <= a <= '9' then a as int - 48
    else if 'A' <= a <= 'Z' then a as int - 55
    else a as int - 87
  }

  function DecodedByte(a: char, b: char): char {
    ((HexToInt(a) * 16 + HexToInt(b)) % 256) as char
  }

  /** One character at a time: what a '%' and the two characters behind it stand
      for; the NUL behind the text is the only character past its end that may be read. */
  function Decode(s: string): Decoded {
    if s == "" then Text("")
    else if s[0] != '%' then Prefixed([s[0]], Decode(s[1..]))
    else if |s| == 1 then Undefined
    else if |s| == 2 then Text([DecodedByte(s[1], '\0')])
    else Prefixed([DecodedByte(s[1], s[2])], Decode(s[3..]))
  }

  function Prefixed(p: string, d: Decoded): Decoded {
    if d.Text? then Text(p + d.value) else Undefined
  }

  lemma PrefixedTwice(p: string, q: string, d: Decoded)
    ensures Prefixed(p, Prefixed(q, d)) == Prefixed(p + q, d)
  {
    if d.Text? {
      Assoc(p, q, d.value);
    }
  }

  /** The loop of the source: decoded characters are batched in `ss` and moved to
      the result when a literal character follows. */
  method StringFromUtf8(s: string) returns (r: Decoded)
    ensures r == Decode(s)
  {
    var result, ss := "", "";
    var i, n := 0, |s|;
    var flag := false;
    while i < n
      invariant 0 <= i <= n + 1
      invariant !flag ==> ss == ""
      invariant Decode(s) == Prefixed(result + ss, DecodeFrom(s, i))
    {
      var x := s[i];
      ghost var all := result + ss;
      DecodeFromStep(s, i, all);
      i := i + 1;
      if x == '%' {
        flag := true;
        if i == n {
          return Undefined;
        }
        var c := DecodedByte(s[i], if i + 1 < n then s[i + 1] else '\0');
        i := i + 2;
        Assoc(result, ss, [c]);
        ss := ss + [c];
      } else {
        if flag {
          result := result + ss;
          ss := "";
        }
        assert result + "" == result == all;
        result := result + [x];
        flag := false;
        assert result + "" == result;
      }
    }
    if flag {
      result := result + ss;
    }
    return Text(result);
  }

  /** Decoding what is behind position `i`, which may be one past the end. */
  function DecodeFrom(s: string, i: nat): Decoded {
    if i < |s| then Decode(s[i..]) else Text("")
  }

  lemma DecodeFromStep(s: string, i: nat, all: string)
    requires i < |s|
    ensures Prefixed(all, DecodeFrom(s, i)) ==
            if s[i] != '%' then Prefixed(all + [s[i]], DecodeFrom(s, i + 1))
            else if i + 1 == |s| then Undefined
            else Prefixed(all + [DecodedByte(s[i + 1], if i + 2 < |s| then s[i + 2] else '\0')], DecodeFrom(s, i + 3))
  {
    var t := s[i..];
    if s[i] != '%' {
      assert t[1..] == s[i + 1..];
      assert Decode(t) == Prefixed([s[i]], DecodeFrom(s, i + 1));
      PrefixedTwice(all, [s[i]], DecodeFrom(s, i + 1));
    } else if i + 1 < |s| {
      var c := DecodedByte(s[i + 1], if i + 2 < |s| then s[i + 2] else '\0');
      assert i + 3 <= |s| ==> t[3..] == s[i + 3..];
      assert [c] + "" == [c];
      assert Decode(t) == Prefixed([c], DecodeFrom(s, i + 3));
      PrefixedTwice(all, [c], DecodeFrom(s, i + 3));
    }
  }

  // ---------------------------------------------------------------------------
  // Decoding inverts every encoding

  /** How one byte is written: as itself, or as '%' and two hex digits, each of
      either case (section 2.1 of RFC 3986). */
  datatype Spelling = Literal | Escaped(upper1: bool, upper2: bool)

  function HexDigit(d: nat, upper: bool): char
    requires d < 16
  {
    if d < 10 then '0' + d as char else if upper then 'A' + (d - 10) as char else 'a' + (d - 10) as char
  }

  function Spell(c: char, how: Spelling): string
    requires c as int < 256
  {
    if how.Literal? then [c]
    else ['%', HexDigit(c as int / 16, how.upper1), HexDigit(c as int % 16, how.upper2)]
  }

  predicate CanSpell(c: char, how: Spelling) {
    c as int < 256 && (how.Literal? ==> c != '%')
  }

  function Encode(s: string, how: seq<Spelling>): string
    requires |how| == |s| && forall i :: 0 <= i < |s| ==> CanSpell(s[i], how[i])
  {
    if s == "" then "" else
    assert CanSpell(s[0], how[0]);
    Spell(s[0], how[0]) + Encode(s[1..], how[1..])
  }

  lemma DecodeSpell(c: char, how: Spelling, tail: string)
    requires CanSpell(c, how)
    ensures Decode(Spell(c, how) + tail) == Prefixed([c], Decode(tail))
  {
    var s := Spell(c, how) + tail;
    if how.Literal? {
      assert s[1..] == tail;
    } else {
      assert s[3..] == tail;
      assert HexToInt(s[1]) == c as int / 16 && HexToInt(s[2]) == c as int % 16;
    }
  }

  lemma {:induction false} DecodeInvertsEncode(s: string, how: seq<Spelling>)
    requires |how| == |s| && forall i :: 0 <= i < |s| ==> CanSpell(s[i], how[i])
    ensures Decode(Encode(s, how)) == Text(s)
  {
    if s != "" {
      DecodeSpell(s[0], how[0], Encode(s[1..], how[1..]));
      DecodeInvertsEncode(s[1..], how[1..]);
    }
  }

  /** A text without '%' is its own decoding. */
  lemma {:induction false} DecodeLiteral(s: string)
    requires forall i :: 0 <= i < |s| ==> s[i] != '%'
    ensures Decode(s) == Text(s)
  {
    if s != "" {
      DecodeLiteral(s[1..]);
      assert s == [s[0]] + s[1..];
    }
  }

  /** Decoding reads past its input exactly when, after the escapes before it, a
      '%' is the last character. */
  predicate LonePercent(s: string) {
    s != "" &&
    if s[0] != '%' then LonePercent(s[1..])
    else |s| == 1 || (|s| > 2 && LonePercent(s[3..]))
  }

  lemma {:induction false} UndefinedExactly(s: string)
    ensures Decode(s) == Undefined <==> LonePercent(s)
  {
    if s != "" && s[0] != '%' {
      UndefinedExactly(s[1..]);
    } else if |s| > 2 {
      UndefinedExactly(s[3..]);
    }
  }
}
