/** The incremental UTF-8 decoder behind `codecs.getincrementaldecoder("utf-8")(errors="replace")`.

    Well-formedness is section 4 of RFC 3629 (the same rows as Table 3-7 of the Unicode Standard);
    replacement is one U+FFFD per maximal subpart (section 3.9 of the Unicode Standard). */
module Utf8 {
  import opened Seqs

  type Byte = x: int | 0 <= x < 256

  const REPLACEMENT: char := '\U{FFFD}'

  predicate Continuation(b: Byte) {
    0x80 <= b <= 0xBF
  }

  /** The second byte a three- or four-byte lead admits. */
  predicate Second(lead: Byte, b: Byte) {
    if lead == 0xE0 then 0xA0 <= b <= 0xBF
    else if lead == 0xED then 0x80 <= b <= 0x9F
    else if lead == 0xF0 then 0x90 <= b <= 0xBF
    else if lead == 0xF4 then 0x80 <= b <= 0x8F
    else Continuation(b)
  }

  /** What the first bytes of a stream are: a scalar value, a maximal ill-formed subpart,
      or the beginning of a sequence whose end has not arrived. */
  datatype Head = Scalar(c: char, width: nat) | Malformed(width: nat) | Truncated

  /** Two, three and four bytes put together, six bits from each continuation byte. */
  function Join2(a: int, b: int): int { 64 * (a - 0xC0) + (b - 0x80) }
  function Join3(a: int, b: int, c: int): int { 64 * (64 * (a - 0xE0) + (b - 0x80)) + (c - 0x80) }
  function Join4(a: int, b: int, c: int, d: int): int {
    64 * (64 * (64 * (a - 0xF0) + (b - 0x80)) + (c - 0x80)) + (d - 0x80)
  }

  function HeadOf(s: seq<Byte>): (h: Head)
    requires s != []
    ensures !h.Truncated? ==> 1 <= h.width <= |s|
    ensures h.Truncated? ==> |s| < 4 && s[0] >= 0xC2
  {
    var lead := s[0];
    if lead <= 0x7F then Scalar(lead as char, 1)
    else if lead < 0xC2 || lead > 0xF4 then Malformed(1)
    else if |s| < 2 then Truncated
    else if !Second(lead, s[1]) then Malformed(1)
    else if lead <= 0xDF then Scalar(Join2(lead, s[1]) as char, 2)
    else if |s| < 3 then Truncated
    else if !Continuation(s[2]) then Malformed(2)
    else if lead <= 0xEF then Scalar(Join3(lead, s[1], s[2]) as char, 3)
    else if |s| < 4 then Truncated
    else if !Continuation(s[3]) then Malformed(3)
    else Scalar(Join4(lead, s[1], s[2], s[3]) as char, 4)
  }

  /** The text decoded so far and the undecoded suffix kept for the next call. */
  datatype Decoded = Decoded(text: string, rest: seq<Byte>)

  /** The first two bytes of an encoded surrogate. No encoding begins with them, but the codec waits
      for the third before it replaces them, for the sake of error handlers that would admit it. */
  predicate HalfSurrogate(s: seq<Byte>) {
    |s| == 2 && s[0] == 0xED && 0xA0 <= s[1] <= 0xBF
  }

  function Decode(s: seq<Byte>, final: bool): Decoded
    decreases |s|
  {
    if s == [] then Decoded("", [])
    else if !final && HalfSurrogate(s) then Decoded("", s)
    else
      var h := HeadOf(s);
      if !h.Truncated? then
        var d := Decode(s[h.width..], final);
        Decoded([if h.Scalar? then h.c else REPLACEMENT] + d.text, d.rest)
      else if final then Decoded([REPLACEMENT], [])
      else Decoded("", s)
  }

  /** The UTF-8 encoding of one scalar value (section 3 of RFC 3629). */
  function Encode(c: char): (s: seq<Byte>)
    ensures 1 <= |s| <= 4
  {
    var n := c as int;
    var (m, k) := (n / 64, n / 64 / 64);
    if n < 0x80 then [n]
    else if n < 0x800 then [0xC0 + m, 0x80 + n % 64]
    else if n < 0x10000 then [0xE0 + k, 0x80 + m % 64, 0x80 + n % 64]
    else [0xF0 + k / 64, 0x80 + k % 64, 0x80 + m % 64, 0x80 + n % 64]
  }

  function EncodeAll(text: string): seq<Byte> {
    if text == "" then [] else Encode(text[0]) + EncodeAll(text[1..])
  }

  /** The table of section 3 of RFC 3629: which bits of a character's number its bytes carry. */
  lemma EncodeIsTheTable(w: nat, x: nat, y: nat, z: nat)
    requires x < 64 && y < 64 && z < 64
    ensures w < 128 ==> Encode(w as char) == [w]
    ensures 2 <= y < 32 ==> Encode((64 * y + z) as char) == [0xC0 + y, 0x80 + z]
    ensures var n := 64 * (64 * x + y) + z;
      x < 16 && n >= 0x800 && !(0xD800 <= n < 0xE000) ==> Encode(n as char) == [0xE0 + x, 0x80 + y, 0x80 + z]
    ensures var n := 64 * (64 * (64 * w + x) + y) + z;
      0x10000 <= n < 0x110000 ==> Encode(n as char) == [0xF0 + w, 0x80 + x, 0x80 + y, 0x80 + z]
  {
    EncodeOfTwo(y, z);
    EncodeOfThree(x, y, z);
    EncodeOfFour(w, x, y, z);
  }

  lemma EncodeOfTwo(y: nat, z: nat)
    requires y < 64 && z < 64
    ensures 2 <= y < 32 ==> Encode((64 * y + z) as char) == [0xC0 + y, 0x80 + z]
  {
    Digits(0, y, z);
  }

  lemma EncodeOfThree(x: nat, y: nat, z: nat)
    requires y < 64 && z < 64
    ensures var n := 64 * (64 * x + y) + z;
      x < 16 && n >= 0x800 && !(0xD800 <= n < 0xE000) ==> Encode(n as char) == [0xE0 + x, 0x80 + y, 0x80 + z]
  {
    Digits(x, y, z);
  }

  lemma EncodeOfFour(w: nat, x: nat, y: nat, z: nat)
    requires x < 64 && y < 64 && z < 64
    ensures var n := 64 * (64 * (64 * w + x) + y) + z;
      0x10000 <= n < 0x110000 ==> Encode(n as char) == [0xF0 + w, 0x80 + x, 0x80 + y, 0x80 + z]
  {
    Digits(64 * w + x, y, z);
    if w < 64 {
      Digits(0, w, x);
    }
  }

  lemma Digits(x: nat, y: nat, z: nat)
    requires y < 64 && z < 64
    ensures var n := 64 * (64 * x + y) + z;
      n / 64 == 64 * x + y && n % 64 == z && n / 64 / 64 == x && n / 64 % 64 == y
  {
  }

  /** Encoded text decodes to itself, whatever follows it. */
  lemma {:induction false} EncodeThenDecode(text: string, more: seq<Byte>, final: bool)
    ensures Decode(EncodeAll(text) + more, final)
         == Decoded(text + Decode(more, final).text, Decode(more, final).rest)
  {
    if text == "" {
      assert EncodeAll(text) + more == more;
    } else {
      EncodeThenDecode(text[1..], more, final);
      HeadOfEncoded(text[0], EncodeAll(text[1..]) + more);
      PrependEncoded(Encode(text[0]), text, EncodeAll(text[1..]), more, final);
    }
  }

  lemma PrependEncoded(s: seq<Byte>, text: string, tail: seq<Byte>, more: seq<Byte>, final: bool)
    requires s != [] && text != "" && HeadOf(s + (tail + more)) == Scalar(text[0], |s|)
    requires Decode(tail + more, final) == Decoded(text[1..] + Decode(more, final).text, Decode(more, final).rest)
    ensures Decode(s + tail + more, final) == Decoded(text + Decode(more, final).text, Decode(more, final).rest)
  {
    DecodeAfterScalar(text[0], s, tail + more, final);
    Associate(s, tail, more);
    HeadAndTail(text);
    Associate([text[0]], text[1..], Decode(more, final).text);
  }

  lemma DecodeAfterScalar(c: char, s: seq<Byte>, tail: seq<Byte>, final: bool)
    requires s != [] && HeadOf(s + tail) == Scalar(c, |s|)
    ensures Decode(s + tail, final) == Decoded([c] + Decode(tail, final).text, Decode(tail, final).rest)
  {
    CutFront(s, tail, |s|);
  }

  lemma HeadOfEncoded(c: char, tail: seq<Byte>)
    ensures HeadOf(Encode(c) + tail) == Scalar(c, |Encode(c)|)
  {
    var s := Encode(c);
    assert forall i :: 0 <= i < |s| ==> (s + tail)[i] == s[i];
  }

  /** A scalar head is exactly an encoded character. */
  lemma ScalarHeadIsEncoded(s: seq<Byte>)
    requires s != [] && HeadOf(s).Scalar?
    ensures HeadOf(s).width == |Encode(HeadOf(s).c)|
    ensures s[..HeadOf(s).width] == Encode(HeadOf(s).c)
  {
    var h := HeadOf(s);
    var n := h.c as int;
    var lead: int := s[0];
    if h.width == 2 {
      assert n / 64 == lead - 0xC0;
    } else if h.width == 3 {
      assert n / 64 == 64 * (lead - 0xE0) + (s[1] - 0x80);
      assert n / 64 / 64 == lead - 0xE0;
    } else if h.width == 4 {
      assert n / 64 == 64 * (64 * (lead - 0xF0) + (s[1] - 0x80)) + (s[2] - 0x80);
      assert n / 64 / 64 == 64 * (lead - 0xF0) + (s[1] - 0x80);
      assert n / 64 / 64 / 64 == lead - 0xF0;
    }
  }

  ghost predicate StartsEncoding(s: seq<Byte>) {
    exists c: char :: s <= Encode(c)
  }

  /** Each replaced subpart is maximal: longer than one byte only if it begins some encoding,
      and no encoding begins with one byte more. */
  lemma MalformedIsMaximalSubpart(s: seq<Byte>)
    requires s != [] && HeadOf(s).Malformed?
    ensures var n := HeadOf(s).width;
      && (n == 1 || StartsEncoding(s[..n]))
      && (n < |s| ==> !StartsEncoding(s[..n + 1]))
  {
    var n := HeadOf(s).width;
    if n > 1 {
      var filled := s[..n] + seq(4 - n, i => 0x80);
      var h := HeadOf(filled);
      assert h.Scalar?;
      ScalarHeadIsEncoded(filled);
      assert s[..n] <= Encode(h.c);
    }
    if n < |s| {
      forall c: char ensures !(s[..n + 1] <= Encode(c)) {
        HeadOfEncoded(c, []);
        assert Encode(c) + [] == Encode(c);
        assert forall i :: 0 <= i <= n ==> s[..n + 1][i] == s[i];
      }
    }
  }

  /** A suffix that waits for its end begins some encoding: flushed, it is one maximal subpart too. */
  lemma TruncatedStartsEncoding(s: seq<Byte>)
    requires s != [] && HeadOf(s).Truncated?
    ensures StartsEncoding(s)
  {
    var lead := s[0];
    var second: Byte := if lead in {0xE0, 0xF0} then 0xA0 else 0x80;
    var filled := if |s| == 1 then [lead, second, 0x80, 0x80] else s + seq(4 - |s|, i => 0x80);
    assert HeadOf(filled).Scalar?;
    ScalarHeadIsEncoded(filled);
    assert s <= Encode(HeadOf(filled).c);
  }

  /** A decided head is not revised by bytes that arrive later. */
  lemma HeadIsStable(s: seq<Byte>, t: seq<Byte>)
    requires s != [] && !HeadOf(s).Truncated?
    ensures HeadOf(s + t) == HeadOf(s)
  {
    assert forall i :: 0 <= i < |s| ==> (s + t)[i] == s[i];
  }

  /** Decoding in two calls, carrying the undecoded suffix, is decoding in one. */
  lemma {:induction false} DecodeInTwoCalls(s: seq<Byte>, t: seq<Byte>, final: bool)
    ensures var first := Decode(s, false);
      var second := Decode(first.rest + t, final);
      Decode(s + t, final) == Decoded(first.text + second.text, second.rest)
    decreases |s|
  {
    if s == [] {
      assert s + t == t && [] + t == t;
    } else if HalfSurrogate(s) || HeadOf(s).Truncated? {
      assert Decode(s, false) == Decoded("", s);
    } else {
      DecodeInTwoCalls(s[HeadOf(s).width..], t, final);
      DecodeStep(s, t, final);
      DecodeStep(s, [], false);
      assert s + [] == s && s[HeadOf(s).width..] + [] == s[HeadOf(s).width..];
      var first := Decode(s[HeadOf(s).width..], false);
      Associate([HeadChar(s)], first.text, Decode(first.rest + t, final).text);
    }
  }

  function HeadChar(s: seq<Byte>): char
    requires s != []
  {
    if HeadOf(s).Scalar? then HeadOf(s).c else REPLACEMENT
  }

  lemma DecodeStep(s: seq<Byte>, t: seq<Byte>, final: bool)
    requires s != [] && !HeadOf(s).Truncated? && !HalfSurrogate(s)
    ensures var d := Decode(s[HeadOf(s).width..] + t, final);
      Decode(s + t, final) == Decoded([HeadChar(s)] + d.text, d.rest)
  {
    HeadIsStable(s, t);
    CutFront(s, t, HeadOf(s).width);
  }

  /** What `decode` keeps for later is the beginning of one encoding, which the flush replaces by one
      character, or half a surrogate, of which it replaces each byte. */
  lemma {:induction false} FlushReplacesTheRest(s: seq<Byte>)
    ensures var rest := Decode(s, false).rest;
      && |rest| < 4
      && (rest == [] || HalfSurrogate(rest) || StartsEncoding(rest))
      && !(HalfSurrogate(rest) && StartsEncoding(rest))
      && Decode(rest, true) == Decoded(Flushed(rest), [])
    decreases |s|
  {
    if s == [] {
    } else if HalfSurrogate(s) {
      HalfSurrogateIsKept(s);
    } else if HeadOf(s).Truncated? {
      TruncatedStartsEncoding(s);
    } else {
      FlushReplacesTheRest(s[HeadOf(s).width..]);
    }
  }

  function Flushed(rest: seq<Byte>): string {
    if rest == [] then "" else if HalfSurrogate(rest) then [REPLACEMENT, REPLACEMENT] else [REPLACEMENT]
  }

  /** The input where the flush gives two characters: half a surrogate, as in `ED A0`. */
  lemma HalfSurrogateIsKept(s: seq<Byte>)
    requires HalfSurrogate(s)
    ensures !StartsEncoding(s)
    ensures Decode(s, false) == Decoded("", s)
    ensures Decode(s, true) == Decoded([REPLACEMENT, REPLACEMENT], [])
  {
    MalformedIsMaximalSubpart(s);
    assert s[..2] == s;
    assert s[1..] == [s[1]] && s[1..][1..] == [];
    assert HeadOf(s[1..]) == Malformed(1);
    assert Decode(s[1..], true) == Decoded([REPLACEMENT], []);
  }

  lemma {:induction false} FinalCallKeepsNothing(s: seq<Byte>)
    ensures Decode(s, true).rest == []
    decreases |s|
  {
    if s != [] && !HeadOf(s).Truncated? {
      FinalCallKeepsNothing(s[HeadOf(s).width..]);
    }
  }

  // --- What a text is decoded from -----------------------------------------------------------------

  /** An ill-formed part in front of `rest`: no character's encoding begins there; it is one byte or
      the beginning of an encoding, and one byte more would not be. */
  ghost predicate IllFormed(part: seq<Byte>, rest: seq<Byte>) {
    && part != [] && (forall c: char :: !(Encode(c) <= part + rest))
    && (|part| == 1 || StartsEncoding(part))
    && (rest != [] ==> !StartsEncoding(part + [rest[0]]))
  }

  ghost predicate DecodesTo(part: seq<Byte>, rest: seq<Byte>, c: char) {
    part == Encode(c) || (c == '\U{FFFD}' && IllFormed(part, rest))
  }

  /** The text of any bytes whatever: they fall into parts, one for each character, which is the one
      the part encodes, or U+FFFD for a maximal part that encodes none. */
  lemma {:induction false} DecodesPartByPart(s: seq<Byte>) returns (parts: seq<seq<Byte>>)
    ensures Concat(parts) == s && PartsDecodeTo(parts, Decode(s, true).text)
    decreases |s|
  {
    if s == [] {
      parts := [];
    } else {
      var n := if HeadOf(s).Truncated? then |s| else HeadOf(s).width;
      var more := DecodesPartByPart(s[n..]);
      HeadDecodes(s, n);
      parts := [s[..n]] + more;
      OneMorePart(s[..n], more, Decode(s, true).text);
      CutAt(s, 0, n);
    }
  }

  ghost predicate PartsDecodeTo(parts: seq<seq<Byte>>, text: string) {
    |parts| == |text| && forall k :: 0 <= k < |parts| ==> DecodesTo(parts[k], Concat(parts[k + 1..]), text[k])
  }

  lemma OneMorePart(part: seq<Byte>, more: seq<seq<Byte>>, text: string)
    requires text != "" && PartsDecodeTo(more, text[1..]) && DecodesTo(part, Concat(more), text[0])
    ensures PartsDecodeTo([part] + more, text)
    ensures Concat([part] + more) == part + Concat(more)
  {
    var parts := [part] + more;
    assert parts[1..] == more;
    forall k | 0 <= k < |parts| ensures DecodesTo(parts[k], Concat(parts[k + 1..]), text[k]) {
      if k > 0 {
        assert parts[k + 1..] == more[k..] && parts[k] == more[k - 1] && text[k] == text[1..][k - 1];
      }
    }
  }

  lemma HeadDecodes(s: seq<Byte>, n: nat)
    requires s != [] && n == if HeadOf(s).Truncated? then |s| else HeadOf(s).width
    ensures var d := Decode(s, true);
      d.text != "" && d.text[1..] == Decode(s[n..], true).text && DecodesTo(s[..n], s[n..], d.text[0])
  {
    TextOfHead(s, n);
    if HeadOf(s).Scalar? {
      ScalarHeadIsEncoded(s);
    } else {
      OtherHeadIsIllFormed(s, n);
    }
  }

  lemma TextOfHead(s: seq<Byte>, n: nat)
    requires s != [] && n == if HeadOf(s).Truncated? then |s| else HeadOf(s).width
    ensures var d := Decode(s, true);
      && d.text != "" && d.text[1..] == Decode(s[n..], true).text
      && d.text[0] == if HeadOf(s).Scalar? then HeadOf(s).c else '\U{FFFD}'
  {
  }

  lemma OtherHeadIsIllFormed(s: seq<Byte>, n: nat)
    requires s != [] && !HeadOf(s).Scalar? && n == if HeadOf(s).Truncated? then |s| else HeadOf(s).width
    ensures IllFormed(s[..n], s[n..])
  {
    NothingEncodedInFront(s);
    CutAt(s, 0, n);
    if HeadOf(s).Truncated? {
      TruncatedStartsEncoding(s);
      assert s[..n] == s && s[n..] == [];
    } else {
      MalformedIsMaximalSubpart(s);
      assert n < |s| ==> s[..n] + [s[n..][0]] == s[..n + 1];
    }
    assert s[..n] + s[n..] == s;
  }

  lemma EncodedHeadIsScalar(s: seq<Byte>, c: char)
    requires Encode(c) <= s
    ensures s != [] && HeadOf(s).Scalar?
  {
    HeadOfEncoded(c, s[|Encode(c)|..]);
    assert Encode(c) + s[|Encode(c)|..] == s;
  }

  lemma NothingEncodedInFront(s: seq<Byte>)
    requires s != [] && !HeadOf(s).Scalar?
    ensures forall c: char :: !(Encode(c) <= s)
  {
    forall c: char ensures !(Encode(c) <= s) {
      if Encode(c) <= s {
        EncodedHeadIsScalar(s, c);
      }
    }
  }

  /** The codec object: it buffers the undecoded suffix between calls. `fed` and `emitted` are the
      bytes and the text of all calls since the last final one. */
  class IncrementalDecoder {
    var buffer: seq<Byte>
    ghost var fed: seq<Byte>
    ghost var emitted: string

    constructor ()
      ensures Valid() && fed == [] && emitted == ""
    {
      buffer, fed, emitted := [], [], "";
    }

    /** All calls so far have done what one call on all their bytes does. */
    ghost predicate Valid()
      reads this
    {
      Decoded(emitted, buffer) == Decode(fed, false)
    }

    method Feed(input: seq<Byte>, final: bool) returns (text: string)
      requires Valid()
      modifies this
      ensures Valid()
      ensures !final ==> fed == old(fed) + input && emitted == old(emitted) + text
      ensures final ==> old(emitted) + text == Decode(old(fed) + input, true).text && fed == [] && emitted == ""
    {
      DecodeInTwoCalls(fed, input, final);
      var d := Decode(buffer + input, final);
      text, buffer := d.text, d.rest;
      if final {
        FinalCallKeepsNothing(old(buffer) + input);
        fed, emitted := [], "";
      } else {
        fed, emitted := fed + input, emitted + text;
      }
    }
  }
}
