/** UTF-8 decoding as Python's codec checks it. With errors 'strict' (what
    `bytes.decode()` uses) the valid inputs are the well-formed byte sequences
    of the Unicode Standard, Table 3-7: no overlong forms, no surrogates,
    nothing above U+10FFFF. With errors 'surrogatepass' (what `json.loads`
    uses on bytes) the encoded surrogates U+D800..U+DFFF are let through too. */
module Utf8 {

  newtype byte = x: int | 0 <= x < 256

  predicate IsContinuation(x: byte)
  {
    0x80 <= x <= 0xBF
  }

  /** Length of the encoded character that starts `b`, or 0 when `b` does not
      start with one; `surrogatePass` admits the three-byte surrogates. */
  function LeadLength(b: seq<byte>, surrogatePass: bool): (n: nat)
    requires |b| > 0
    ensures n <= 4 && n <= |b|
  {
    var b0 := b[0];
    if b0 <= 0x7F then 1
    else if 0xC2 <= b0 <= 0xDF then
      if |b| >= 2 && IsContinuation(b[1]) then 2 else 0
    else if 0xE0 <= b0 <= 0xEF then
      var lo: byte := if b0 == 0xE0 then 0xA0 else 0x80;
      var hi: byte := if b0 == 0xED && !surrogatePass then 0x9F else 0xBF;
      if |b| >= 3 && lo <= b[1] <= hi && IsContinuation(b[2]) then 3 else 0
    else if 0xF0 <= b0 <= 0xF4 then
      var lo: byte := if b0 == 0xF0 then 0x90 else 0x80;
      var hi: byte := if b0 == 0xF4 then 0x8F else 0xBF;
      if |b| >= 4 && lo <= b[1] <= hi && IsContinuation(b[2]) && IsContinuation(b[3]) then 4 else 0
    else 0
  }

  /** The whole of `b` decodes. */
  predicate Decodes(b: seq<byte>, surrogatePass: bool)
    decreases |b|
  {
    if |b| == 0 then true
    else
      var n := LeadLength(b, surrogatePass);
      n > 0 && Decodes(b[n..], surrogatePass)
  }

  /** `b.decode()` succeeds. */
  predicate Valid(b: seq<byte>)
  {
    Decodes(b, false)
  }

  /** `b.decode('utf-8', 'surrogatepass')` succeeds. */
  predicate DecodesSurrogatePass(b: seq<byte>)
  {
    Decodes(b, true)
  }

  predicate IsAscii(b: seq<byte>)
  {
    forall i :: 0 <= i < |b| ==> b[i] <= 0x7F
  }

  /** Every strictly valid text also decodes with 'surrogatepass'. */
  lemma {:induction false} StrictDecodesSurrogatePass(b: seq<byte>)
    requires Valid(b)
    ensures DecodesSurrogatePass(b)
    decreases |b|
  {
    if |b| > 0 {
      assert LeadLength(b, true) == LeadLength(b, false);
      StrictDecodesSurrogatePass(b[LeadLength(b, false)..]);
    }
  }

  /** Pure ASCII text followed by valid text is valid. */
  lemma {:induction false} AsciiPrefixKeepsValidity(a: seq<byte>, b: seq<byte>, surrogatePass: bool)
    requires IsAscii(a)
    ensures Decodes(a + b, surrogatePass) <==> Decodes(b, surrogatePass)
    decreases |a|
  {
    if |a| > 0 {
      var ab := a + b;
      assert LeadLength(ab, surrogatePass) == 1;
      assert ab[1..] == a[1..] + b;
      AsciiPrefixKeepsValidity(a[1..], b, surrogatePass);
    } else {
      assert a + b == b;
    }
  }

  /** `é` (C3 A9) then `a` decodes; the lone lead byte C3 does not. */
  lemma TwoByteCharacterCases()
    ensures Valid([0xC3, 0xA9, 0x61]) && !Valid([0xC3])
  {
    var tail: seq<byte> := [0xC3, 0xA9, 0x61];
    var last: seq<byte> := [0x61];
    assert LeadLength(tail, false) == 2 && tail[2..] == last;
    assert LeadLength(last, false) == 1 && last[1..] == [];
    var lone: seq<byte> := [0xC3];
    assert LeadLength(lone, false) == 0;
  }

  /** The encoded surrogate U+D800 (ED A0 80) decodes only with 'surrogatepass'. */
  lemma SurrogateCases()
    ensures DecodesSurrogatePass([0xED, 0xA0, 0x80]) && !Valid([0xED, 0xA0, 0x80])
  {
    var tail: seq<byte> := [0xED, 0xA0, 0x80];
    assert LeadLength(tail, true) == 3 && tail[3..] == [];
    assert LeadLength(tail, false) == 0;
  }

  /** The first 100 bytes of a valid body need not be valid: 99 ASCII bytes
      followed by the two-byte encoding of U+00E9 decode, but cutting after
      byte 100 splits that character. */
  lemma ValidBodyWithInvalidPreview()
    ensures exists body: seq<byte> :: Valid(body) && |body| > 100 && !Valid(body[..100])
  {
    var a: seq<byte> := seq(99, _ => 0x61);
    var body := a + [0xC3, 0xA9, 0x61];
    assert IsAscii(a);
    TwoByteCharacterCases();
    AsciiPrefixKeepsValidity(a, [0xC3, 0xA9, 0x61], false);
    assert body[..100] == a + [0xC3];
    AsciiPrefixKeepsValidity(a, [0xC3], false);
    assert Valid(body) && !Valid(body[..100]);
  }

  /** Pure ASCII text decodes. */
  lemma AsciiDecodes(a: seq<byte>, surrogatePass: bool)
    requires IsAscii(a)
    ensures Decodes(a, surrogatePass)
  {
    AsciiPrefixKeepsValidity(a, [], surrogatePass);
    assert a + [] == a;
  }

  /** An encoded surrogate after ASCII text: the text decodes, the whole body
      decodes only with 'surrogatepass'. */
  lemma SurrogateAfterAscii(a: seq<byte>)
    requires IsAscii(a)
    ensures var body := a + [0xED, 0xA0, 0x80];
      Valid(body[..|a|]) && DecodesSurrogatePass(body) && !Valid(body)
  {
    var tail: seq<byte> := [0xED, 0xA0, 0x80];
    assert (a + tail)[..|a|] == a;
    AsciiDecodes(a, false);
    SurrogateCases();
    AsciiPrefixKeepsValidity(a, tail, true);
    AsciiPrefixKeepsValidity(a, tail, false);
  }

  /** An encoded surrogate after 100 ASCII bytes: the first 100 bytes decode,
      the whole body decodes only with 'surrogatepass'. */
  lemma SurrogateAfterAsciiPreview()
    ensures exists body: seq<byte> ::
      (|body| > 100 && Valid(body[..100]) && DecodesSurrogatePass(body) && !Valid(body))
  {
    var a: seq<byte> := seq(100, _ => 0x61);
    assert IsAscii(a);
    SurrogateAfterAscii(a);
    var body := a + [0xED, 0xA0, 0x80];
    assert |body| > 100;
  }
}
