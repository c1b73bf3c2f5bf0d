// Base64 as section 4 (standard alphabet, '=' padding) and section 5 (URL-safe
// alphabet) of RFC 4648 define it, in the forms the system uses: Java's basic
// encoder and decoder, its MIME encoder with 64-character lines, its URL-safe
// encoder without padding, and the browser's `btoa` followed by the character
// rewrites of the PKCE helper.
module Base64 {
  import opened Wrappers
  import opened Strings

  type Byte = x: int | 0 <= x < 256

  /** The character of a six-bit value in the standard alphabet. */
  function StdChar(v: nat): (c: char)
    requires v < 64
  {
    if v < 26 then (65 + v) as char
    else if v < 52 then (97 + v - 26) as char
    else if v < 62 then (48 + v - 52) as char
    else if v == 62 then '+' else '/'
  }

  /** The character of a six-bit value in the URL-safe alphabet. */
  function UrlChar(v: nat): (c: char)
    requires v < 64
  {
    if v == 62 then '-' else if v == 63 then '_' else StdChar(v)
  }

  predicate IsStdChar(c: char)
  {
    IsUpper(c) || IsLower(c) || IsDigit(c) || c == '+' || c == '/'
  }

  predicate IsUrlChar(c: char)
  {
    IsUpper(c) || IsLower(c) || IsDigit(c) || c == '-' || c == '_'
  }

  /** The six-bit value of a standard-alphabet character. */
  function StdValue(c: char): (v: nat)
    requires IsStdChar(c)
    ensures v < 64 && StdChar(v) == c
  {
    if IsUpper(c) then c as int - 65
    else if IsLower(c) then c as int - 97 + 26
    else if IsDigit(c) then c as int - 48 + 52
    else if c == '+' then 62 else 63
  }

  lemma StdValueOfChar(v: nat)
    requires v < 64
    ensures IsStdChar(StdChar(v)) && StdValue(StdChar(v)) == v
  {
  }

  datatype Alphabet = Standard | UrlSafe

  function Char(a: Alphabet, v: nat): char
    requires v < 64
  {
    if a == Standard then StdChar(v) else UrlChar(v)
  }

  /** The six-bit groups of one to three bytes, the last group zero-filled. */
  function Group(b: seq<Byte>): (vs: seq<nat>)
    requires 1 <= |b| <= 3
    ensures |vs| == |b| + 1 && forall i :: 0 <= i < |vs| ==> vs[i] < 64
  {
    if |b| == 1 then [b[0] / 4, (b[0] % 4) * 16]
    else if |b| == 2 then [b[0] / 4, (b[0] % 4) * 16 + b[1] / 16, (b[1] % 16) * 4]
    else [b[0] / 4, (b[0] % 4) * 16 + b[1] / 16, (b[1] % 16) * 4 + b[2] / 64, b[2] % 64]
  }

  /** The characters of one group. */
  function Unit(a: Alphabet, b: seq<Byte>): (s: string)
    requires 1 <= |b| <= 3
    ensures |s| == |b| + 1
  {
    var vs := Group(b);
    if |b| == 1 then [Char(a, vs[0]), Char(a, vs[1])]
    else if |b| == 2 then [Char(a, vs[0]), Char(a, vs[1]), Char(a, vs[2])]
    else [Char(a, vs[0]), Char(a, vs[1]), Char(a, vs[2]), Char(a, vs[3])]
  }

  /** The '=' characters that complete the last four-character unit. */
  function Padding(n: nat): (p: string)
    ensures |p| <= 2
  {
    if n % 3 == 1 then "==" else if n % 3 == 2 then "=" else ""
  }

  /** Groups of three bytes to four characters, with or without the final padding. */
  function Encoded(b: seq<Byte>, a: Alphabet, pad: bool): string
    decreases |b|
  {
    if |b| == 0 then ""
    else if |b| < 3 then Unit(a, b) + (if pad then Padding(|b|) else "")
    else Unit(a, b[..3]) + Encoded(b[3..], a, pad)
  }

  /** `Base64.getEncoder().encodeToString(b)`. */
  function Encode(b: seq<Byte>): string
  {
    Encoded(b, Standard, true)
  }

  /** `Base64.getUrlEncoder().withoutPadding().encodeToString(b)`. */
  function EncodeUrlNoPad(b: seq<Byte>): string
  {
    Encoded(b, UrlSafe, false)
  }

  /** Four characters for every started group of three bytes. */
  lemma {:induction false} EncodedLength(b: seq<Byte>)
    ensures |Encode(b)| == 4 * ((|b| + 2) / 3)
    ensures |Encode(b)| % 4 == 0
    decreases |b|
  {
    if |b| >= 3 {
      EncodedLength(b[3..]);
      var k := (|b| - 3 + 2) / 3;
      assert (|b| + 2) / 3 == k + 1;
      assert |Encode(b)| == 4 + |Encode(b[3..])|;
    }
  }

  /** Without padding the length is the number of six-bit groups. */
  lemma {:induction false} UnpaddedLength(b: seq<Byte>, a: Alphabet)
    ensures |Encoded(b, a, false)| == (4 * |b| + 2) / 3
    decreases |b|
  {
    if |b| >= 3 {
      UnpaddedLength(b[3..], a);
    }
  }

  /** The padded text is the unpadded text followed by the padding of the last group. */
  lemma {:induction false} PaddedSplit(b: seq<Byte>, a: Alphabet)
    ensures Encoded(b, a, true) == Encoded(b, a, false) + Padding(|b|)
    decreases |b|
  {
    if |b| >= 3 {
      PaddedSplit(b[3..], a);
      assert Padding(|b|) == Padding(|b| - 3);
      var u := Unit(a, b[..3]);
      assert u + (Encoded(b[3..], a, false) + Padding(|b|)) == (u + Encoded(b[3..], a, false)) + Padding(|b|);
    } else if |b| == 0 {
      assert Encoded(b, a, false) + "" == "";
    }
  }

  predicate InAlphabet(a: Alphabet, c: char)
  {
    if a == Standard then IsStdChar(c) else IsUrlChar(c)
  }

  /** A standard-alphabet character or padding: what the basic encoder emits. */
  predicate IsEncodedChar(c: char) { IsStdChar(c) || c == '=' }

  lemma UnitInAlphabet(a: Alphabet, b: seq<Byte>)
    requires 1 <= |b| <= 3
    ensures forall i :: 0 <= i < |Unit(a, b)| ==> InAlphabet(a, Unit(a, b)[i])
  {
    var vs := Group(b);
    forall i | 0 <= i < |vs| ensures InAlphabet(a, Unit(a, b)[i]) {
      StdValueOfChar(vs[i]);
    }
  }

  lemma AllAppend(x: string, y: string, p: char -> bool)
    requires All(x, p) && All(y, p)
    ensures All(x + y, p)
  {
    forall i | 0 <= i < |x + y| ensures p((x + y)[i]) {
      if i < |x| {
        assert (x + y)[i] == x[i];
      } else {
        assert (x + y)[i] == y[i - |x|];
      }
    }
  }

  /** The basic encoder emits only alphabet characters and padding. */
  lemma {:induction false} EncodeChars(b: seq<Byte>)
    ensures All(Encode(b), IsEncodedChar)
    decreases |b|
  {
    if |b| > 0 {
      var n := if |b| < 3 then |b| else 3;
      UnitInAlphabet(Standard, b[..n]);
      var u := Unit(Standard, b[..n]);
      assert All(u, IsEncodedChar);
      if |b| >= 3 {
        EncodeChars(b[3..]);
        AllAppend(u, Encode(b[3..]), IsEncodedChar);
      } else {
        assert b[..n] == b;
        var p := Padding(|b|);
        assert All(p, IsEncodedChar);
        AllAppend(u, p, IsEncodedChar);
      }
    }
  }

  /** The URL-safe encoder without padding emits only URL-safe characters. */
  lemma {:induction false} UrlNoPadChars(b: seq<Byte>)
    ensures All(EncodeUrlNoPad(b), IsUrlChar)
    decreases |b|
  {
    if |b| > 0 {
      var n := if |b| < 3 then |b| else 3;
      UnitInAlphabet(UrlSafe, b[..n]);
      var u := Unit(UrlSafe, b[..n]);
      assert All(u, IsUrlChar);
      if |b| >= 3 {
        UrlNoPadChars(b[3..]);
        AllAppend(u, EncodeUrlNoPad(b[3..]), IsUrlChar);
      } else {
        assert b[..n] == b;
        assert EncodeUrlNoPad(b) == u + "";
      }
    }
  }

  /** The three bytes a full four-character unit stands for. */
  function Triple(c0: nat, c1: nat, c2: nat, c3: nat): seq<Byte>
    requires c0 < 64 && c1 < 64 && c2 < 64 && c3 < 64
  {
    [c0 * 4 + c1 / 16, (c1 % 16) * 16 + c2 / 4, (c2 % 4) * 64 + c3]
  }

  /**
   * `Base64.getDecoder().decode(s)`: full units give three bytes each; the
   * final unit may be two or three characters, either bare or completed by
   * exactly the right number of '='; any other character, a dangling single
   * character, a short padding or anything after the padding is an error.
   */
  function Decode(s: string): Option<seq<Byte>>
    decreases |s|
  {
    if |s| == 0 then Some([])
    else if |s| >= 4 && IsStdChar(s[0]) && IsStdChar(s[1]) && IsStdChar(s[2]) && IsStdChar(s[3]) then
      match Decode(s[4..])
      case None => None
      case Some(rest) => Some(Triple(StdValue(s[0]), StdValue(s[1]), StdValue(s[2]), StdValue(s[3])) + rest)
    else if |s| >= 3 && IsStdChar(s[0]) && IsStdChar(s[1]) && IsStdChar(s[2]) && (s[3..] == "" || s[3..] == "=") then
      var c0, c1, c2 := StdValue(s[0]), StdValue(s[1]), StdValue(s[2]);
      Some([c0 * 4 + c1 / 16, (c1 % 16) * 16 + c2 / 4])
    else if |s| >= 2 && IsStdChar(s[0]) && IsStdChar(s[1]) && (s[2..] == "" || s[2..] == "==") then
      Some([StdValue(s[0]) * 4 + StdValue(s[1]) / 16])
    else None
  }

  /** The characters of a full group are standard and stand for its three bytes. */
  lemma FullUnit(b: seq<Byte>)
    requires |b| == 3
    ensures var u := Unit(Standard, b);
      IsStdChar(u[0]) && IsStdChar(u[1]) && IsStdChar(u[2]) && IsStdChar(u[3])
      && Triple(StdValue(u[0]), StdValue(u[1]), StdValue(u[2]), StdValue(u[3])) == b
  {
    var vs := Group(b);
    StdValueOfChar(vs[0]);
    StdValueOfChar(vs[1]);
    StdValueOfChar(vs[2]);
    StdValueOfChar(vs[3]);
    TripleOfSextets(b[0], b[1], b[2]);
    assert b == [b[0], b[1], b[2]];
  }

  lemma TripleOfSextets(b0: Byte, b1: Byte, b2: Byte)
    ensures Triple(b0 / 4, (b0 % 4) * 16 + b1 / 16, (b1 % 16) * 4 + b2 / 64, b2 % 64) == [b0, b1, b2]
  {
  }

  lemma DecodeOneByte(b: seq<Byte>)
    requires |b| == 1
    ensures Decode(Encode(b)) == Some(b)
  {
    var vs := Group(b);
    var s := Encode(b);
    assert s == Unit(Standard, b) + "==";
    assert s == [StdChar(vs[0]), StdChar(vs[1]), '=', '='];
    assert !IsStdChar(s[2]);
    StdValueOfChar(vs[0]);
    StdValueOfChar(vs[1]);
    assert s[2..] == "==";
    assert (b[0] / 4) * 4 + ((b[0] % 4) * 16) / 16 == b[0];
    assert b == [b[0]];
  }

  lemma DecodeTwoBytes(b: seq<Byte>)
    requires |b| == 2
    ensures Decode(Encode(b)) == Some(b)
  {
    var vs := Group(b);
    var s := Encode(b);
    assert s == Unit(Standard, b) + "=";
    assert s == [StdChar(vs[0]), StdChar(vs[1]), StdChar(vs[2]), '='];
    assert !IsStdChar(s[3]);
    StdValueOfChar(vs[0]);
    StdValueOfChar(vs[1]);
    StdValueOfChar(vs[2]);
    assert s[3..] == "=";
    assert (b[0] / 4) * 4 + ((b[0] % 4) * 16 + b[1] / 16) / 16 == b[0];
    assert (((b[0] % 4) * 16 + b[1] / 16) % 16) * 16 + ((b[1] % 16) * 4) / 4 == b[1];
    assert b == [b[0], b[1]];
  }

  /** The decoder inverts the encoder. */
  lemma {:induction false} DecodeEncode(b: seq<Byte>)
    ensures Decode(Encode(b)) == Some(b)
    decreases |b|
  {
    if |b| == 1 {
      DecodeOneByte(b);
    } else if |b| == 2 {
      DecodeTwoBytes(b);
    } else if |b| >= 3 {
      var s := Encode(b);
      var u := Unit(Standard, b[..3]);
      assert s == u + Encode(b[3..]);
      assert s[..4] == u && s[4..] == Encode(b[3..]);
      FullUnit(b[..3]);
      DecodeEncode(b[3..]);
      assert b == b[..3] + b[3..];
    }
  }

  /** Java's MIME encoder: the encoded text broken into lines of `width` characters by '\n'. */
  function MimeLines(s: string, width: nat): (r: string)
    requires width > 0
    decreases |s|
  {
    if |s| <= width then s else s[..width] + "\n" + MimeLines(s[width..], width)
  }

  /** `Base64.getMimeEncoder(64, new byte[]{'\n'}).encodeToString(b)`. */
  function EncodeMime(b: seq<Byte>): string
  {
    MimeLines(Encode(b), 64)
  }

  predicate NotNewline(c: char) { c != '\n' }

  predicate NotPad(c: char) { c != '=' }

  lemma {:induction false} FilterAppend(a: string, b: string, keep: char -> bool)
    ensures FilterChars(a + b, keep) == FilterChars(a, keep) + FilterChars(b, keep)
    decreases |a|
  {
    if a != [] {
      var h: string := if keep(a[0]) then [a[0]] else [];
      assert (a + b)[0] == a[0];
      assert (a + b)[1..] == a[1..] + b;
      FilterAppend(a[1..], b, keep);
      calc {
        FilterChars(a + b, keep);
        h + FilterChars(a[1..] + b, keep);
        h + (FilterChars(a[1..], keep) + FilterChars(b, keep));
        (h + FilterChars(a[1..], keep)) + FilterChars(b, keep);
        FilterChars(a, keep) + FilterChars(b, keep);
      }
    } else {
      assert a + b == b;
    }
  }

  lemma {:induction false} FilterAllKept(s: string, keep: char -> bool)
    requires All(s, keep)
    ensures FilterChars(s, keep) == s
    decreases |s|
  {
    if s != [] {
      assert All(s[1..], keep) by {
        assert forall i :: 0 <= i < |s[1..]| ==> s[1..][i] == s[i + 1];
      }
      FilterAllKept(s[1..], keep);
      assert [s[0]] + s[1..] == s;
    }
  }

  lemma {:induction false} FilterNoneKept(s: string, keep: char -> bool)
    requires forall i :: 0 <= i < |s| ==> !keep(s[i])
    ensures FilterChars(s, keep) == []
    decreases |s|
  {
    if s != [] {
      assert forall i :: 0 <= i < |s[1..]| ==> s[1..][i] == s[i + 1];
      FilterNoneKept(s[1..], keep);
    }
  }

  lemma {:induction false} MimeLinesChars(s: string, width: nat)
    requires width > 0
    ensures forall c :: c in MimeLines(s, width) ==> c in s || c == '\n'
    decreases |s|
  {
    if |s| > width {
      var rest := MimeLines(s[width..], width);
      MimeLinesChars(s[width..], width);
      assert MimeLines(s, width) == s[..width] + "\n" + rest;
      forall c | c in MimeLines(s, width) ensures c in s || c == '\n' {
        if c in s[..width] {
        } else if c in rest {
        }
      }
    }
  }

  lemma NewlineDropped()
    ensures FilterChars("\n", NotNewline) == []
  {
    assert "\n"[1..] == [];
  }

  /** A line break between two pieces of text disappears in the filter. */
  lemma DropNewline(x: string, y: string)
    ensures FilterChars(x + ("\n" + y), NotNewline) == FilterChars(x, NotNewline) + FilterChars(y, NotNewline)
  {
    var fx, fy := FilterChars(x, NotNewline), FilterChars(y, NotNewline);
    FilterAppend(x, "\n" + y, NotNewline);
    FilterAppend("\n", y, NotNewline);
    NewlineDropped();
    assert FilterChars("\n" + y, NotNewline) == [] + fy == fy;
  }

  lemma {:induction false} MimeLinesFilter(s: string, width: nat)
    requires width > 0
    ensures FilterChars(MimeLines(s, width), NotNewline) == FilterChars(s, NotNewline)
    decreases |s|
  {
    if |s| > width {
      var head, tail := s[..width], s[width..];
      var rest := MimeLines(tail, width);
      assert MimeLines(s, width) == head + ("\n" + rest);
      DropNewline(head, rest);
      MimeLinesFilter(tail, width);
      assert s == head + tail;
      FilterAppend(head, tail, NotNewline);
    }
  }

  /** Line breaks aside, the MIME text is the basic encoding. */
  lemma MimeIsEncode(b: seq<Byte>)
    ensures forall c :: c in EncodeMime(b) ==> IsStdChar(c) || c == '=' || c == '\n'
    ensures FilterChars(EncodeMime(b), NotNewline) == Encode(b)
  {
    var s := Encode(b);
    MimeLinesChars(s, 64);
    MimeLinesFilter(s, 64);
    EncodeChars(b);
    assert All(s, NotNewline);
    FilterAllKept(s, NotNewline);
  }

  /** `btoa` over the bytes, then '+' to '-', '/' to '_' and every '=' dropped. */
  function BtoaUrl(b: seq<Byte>): string
  {
    FilterChars(ReplaceChar(ReplaceChar(Encode(b), '+', "-"), '/', "_"), NotPad)
  }

  /** Replacing a character by one character rewrites position by position. */
  lemma {:induction false} ReplaceCharPointwise(s: string, c: char, d: char)
    ensures |ReplaceChar(s, c, [d])| == |s|
    ensures forall i :: 0 <= i < |s| ==> ReplaceChar(s, c, [d])[i] == (if s[i] == c then d else s[i])
    decreases |s|
  {
    if s != [] {
      ReplaceCharPointwise(s[1..], c, d);
      var r := ReplaceChar(s, c, [d]);
      assert r == [if s[0] == c then d else s[0]] + ReplaceChar(s[1..], c, [d]);
    }
  }

  lemma ReplaceCharHead(s: string, c: char, repl: string)
    requires s != []
    ensures ReplaceChar(s, c, repl) == (if s[0] == c then repl else [s[0]]) + ReplaceChar(s[1..], c, repl)
  {
  }

  lemma {:induction false} ReplaceCharAppend(a: string, b: string, c: char, repl: string)
    ensures ReplaceChar(a + b, c, repl) == ReplaceChar(a, c, repl) + ReplaceChar(b, c, repl)
    decreases |a|
  {
    if a != [] {
      var ab := a + b;
      var h: string := if a[0] == c then repl else [a[0]];
      assert ab[0] == a[0] && ab[1..] == a[1..] + b;
      ReplaceCharHead(ab, c, repl);
      ReplaceCharHead(a, c, repl);
      ReplaceCharAppend(a[1..], b, c, repl);
      var x, y := ReplaceChar(a[1..], c, repl), ReplaceChar(b, c, repl);
      assert h + (x + y) == (h + x) + y;
    } else {
      assert a + b == b;
    }
  }

  /** The standard characters of a group with '+' and '/' rewritten are its URL-safe characters. */
  lemma RewriteChar(v: nat)
    requires v < 64
    ensures var c := StdChar(v);
      var c1 := if c == '+' then '-' else c;
      (if c1 == '/' then '_' else c1) == UrlChar(v) && UrlChar(v) != '='
  {
  }

  lemma RewriteUnit(b: seq<Byte>)
    requires 1 <= |b| <= 3
    ensures ReplaceChar(ReplaceChar(Unit(Standard, b), '+', "-"), '/', "_") == Unit(UrlSafe, b)
    ensures All(Unit(UrlSafe, b), NotPad)
  {
    var s := Unit(Standard, b);
    var t := ReplaceChar(s, '+', "-");
    ReplaceCharPointwise(s, '+', '-');
    ReplaceCharPointwise(t, '/', '_');
    var u := ReplaceChar(t, '/', "_");
    var vs := Group(b);
    var w := Unit(UrlSafe, b);
    forall i | 0 <= i < |vs| ensures u[i] == w[i] && w[i] != '=' {
      RewriteChar(vs[i]);
      assert s[i] == StdChar(vs[i]) && w[i] == UrlChar(vs[i]);
    }
  }

  /** `btoa` with the rewrites, applied to a text and its continuation separately. */
  lemma RewriteAppend(x: string, y: string)
    ensures FilterChars(ReplaceChar(ReplaceChar(x + y, '+', "-"), '/', "_"), NotPad)
         == FilterChars(ReplaceChar(ReplaceChar(x, '+', "-"), '/', "_"), NotPad)
          + FilterChars(ReplaceChar(ReplaceChar(y, '+', "-"), '/', "_"), NotPad)
  {
    ReplaceCharAppend(x, y, '+', "-");
    ReplaceCharAppend(ReplaceChar(x, '+', "-"), ReplaceChar(y, '+', "-"), '/', "_");
    FilterAppend(ReplaceChar(ReplaceChar(x, '+', "-"), '/', "_"), ReplaceChar(ReplaceChar(y, '+', "-"), '/', "_"), NotPad);
  }

  /** One group: the rewritten standard characters are the URL-safe ones. */
  lemma RewriteGroup(b: seq<Byte>)
    requires 1 <= |b| <= 3
    ensures FilterChars(ReplaceChar(ReplaceChar(Unit(Standard, b), '+', "-"), '/', "_"), NotPad) == Unit(UrlSafe, b)
  {
    RewriteUnit(b);
    FilterAllKept(Unit(UrlSafe, b), NotPad);
  }

  lemma {:induction false} ReplaceCharAbsent(s: string, c: char, repl: string)
    requires c !in s
    ensures ReplaceChar(s, c, repl) == s
  {
    if s != [] {
      assert s[1..] + [] == s[1..];
      ReplaceCharAbsent(s[1..], c, repl);
      assert [s[0]] + s[1..] == s;
    }
  }

  /** The padding disappears. */
  lemma RewritePadding(n: nat)
    ensures FilterChars(ReplaceChar(ReplaceChar(Padding(n), '+', "-"), '/', "_"), NotPad) == ""
  {
    var p := Padding(n);
    assert '+' !in p;
    ReplaceCharAbsent(p, '+', "-");
    assert '/' !in p;
    ReplaceCharAbsent(p, '/', "_");
    FilterNoneKept(p, NotPad);
  }

  /** The PKCE helper's rewrite of browser Base64 is exactly URL-safe Base64 without padding. */
  lemma {:induction false} BtoaUrlIsUrlNoPad(b: seq<Byte>)
    ensures BtoaUrl(b) == EncodeUrlNoPad(b)
    decreases |b|
  {
    if |b| >= 3 {
      RewriteAppend(Unit(Standard, b[..3]), Encode(b[3..]));
      RewriteGroup(b[..3]);
      BtoaUrlIsUrlNoPad(b[3..]);
    } else if |b| > 0 {
      RewriteAppend(Unit(Standard, b), Padding(|b|));
      RewriteGroup(b);
      RewritePadding(|b|);
      assert EncodeUrlNoPad(b) == Unit(UrlSafe, b) + "";
    }
  }

  /** Thirty-two random bytes give a 43-character URL-safe text. */
  lemma ThirtyTwoBytes(b: seq<Byte>)
    requires |b| == 32
    ensures |EncodeUrlNoPad(b)| == 43
  {
    UnpaddedLength(b, UrlSafe);
  }
}
