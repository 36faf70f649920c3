/**
 * UTF-8 decoding with replacement, after the UTF-8 decoder of the WHATWG Encoding Standard
 * (the decoding Node.js applies in `Buffer.prototype.toString`): a byte that cannot continue
 * the current sequence yields U+FFFD and is then decoded afresh, and an incomplete sequence at
 * the end of the input yields one U+FFFD.
 */
module Utf8 {

  type byte = b: int | 0 <= b < 256

  const Replacement: char := '\U{FFFD}'

  /**
   * The decoder's state between bytes: how many continuation bytes the current sequence
   * needs, how many it has seen, the code point bits gathered so far, and the range the next
   * byte must fall in.
   */
  datatype Decoder = Decoder(needed: nat, seen: nat, cp: int, lower: int, upper: int)

  const Idle: Decoder := Decoder(0, 0, 0, 0x80, 0xBF)

  /**
   * The states the decoder can reach, listed so that every completion of a pending sequence
   * is a Unicode scalar value (no surrogate, nothing above U+10FFFF, no overlong form).
   */
  ghost predicate Valid(d: Decoder) {
    || d == Idle
    || (d.needed == 1 && d.seen == 0 && 2 <= d.cp <= 31 && d.lower == 0x80 && d.upper == 0xBF)
    || (&& d.needed == 2 && d.seen == 0 && 0 <= d.cp <= 15
        && d.lower == (if d.cp == 0 then 0xA0 else 0x80)
        && d.upper == (if d.cp == 13 then 0x9F else 0xBF))
    || (&& d.needed == 2 && d.seen == 1 && 32 <= d.cp <= 1023 && !(864 <= d.cp <= 895)
        && d.lower == 0x80 && d.upper == 0xBF)
    || (&& d.needed == 3 && d.seen == 0 && 0 <= d.cp <= 4
        && d.lower == (if d.cp == 0 then 0x90 else 0x80)
        && d.upper == (if d.cp == 4 then 0x8F else 0xBF))
    || (d.needed == 3 && d.seen == 1 && 16 <= d.cp <= 271 && d.lower == 0x80 && d.upper == 0xBF)
    || (d.needed == 3 && d.seen == 2 && 1024 <= d.cp <= 17407 && d.lower == 0x80 && d.upper == 0xBF)
  }

  /** Decoding `b` from the idle state: an ASCII character, the lead of a sequence, or an error. */
  function Start(b: byte): (r: (Decoder, string))
    ensures Valid(r.0)
  {
    if b <= 0x7F then (Idle, [b as char])
    else if 0xC2 <= b <= 0xDF then (Decoder(1, 0, b - 0xC0, 0x80, 0xBF), "")
    else if 0xE0 <= b <= 0xEF then
      (Decoder(2, 0, b - 0xE0, if b == 0xE0 then 0xA0 else 0x80, if b == 0xED then 0x9F else 0xBF), "")
    else if 0xF0 <= b <= 0xF4 then
      (Decoder(3, 0, b - 0xF0, if b == 0xF0 then 0x90 else 0x80, if b == 0xF4 then 0x8F else 0xBF), "")
    else (Idle, [Replacement])
  }

  /** One byte of input: the next state and the characters it completes. */
  function Step(d: Decoder, b: byte): (r: (Decoder, string))
    requires Valid(d)
    ensures Valid(r.0)
  {
    if d.needed == 0 then Start(b)
    else if !(d.lower <= b <= d.upper) then
      var (d', out) := Start(b);
      (d', [Replacement] + out)
    else
      var cp := d.cp * 64 + (b - 0x80);
      if d.seen + 1 == d.needed then (Idle, [cp as char])
      else (Decoder(d.needed, d.seen + 1, cp, 0x80, 0xBF), "")
  }

  /** Feeding `bytes` to the decoder in state `d`: the final state and every character completed. */
  function Run(d: Decoder, bytes: seq<byte>): (r: (Decoder, string))
    requires Valid(d)
    ensures Valid(r.0)
    decreases |bytes|
  {
    if bytes == [] then (d, "")
    else
      var first := Step(d, bytes[0]);
      var rest := Run(first.0, bytes[1..]);
      (rest.0, first.1 + rest.1)
  }

  /** What an unfinished sequence at the end of the input becomes. */
  function Flush(d: Decoder): string {
    if d.needed == 0 then "" else [Replacement]
  }

  /** Whether a sequence is under way: the one character `Flush` would still produce. */
  function Pending(d: Decoder): nat {
    if d.needed == 0 then 0 else 1
  }

  /**
   * One byte yields at most one character beyond what the pending sequence owed, and either
   * yields something or leaves a sequence pending.
   */
  lemma StepLength(d: Decoder, b: byte)
    requires Valid(d)
    ensures |Step(d, b).1| + Pending(Step(d, b).0) <= 1 + Pending(d)
    ensures |Step(d, b).1| > 0 || Pending(Step(d, b).0) == 1
  {
  }

  /** Over a whole run: at most one character per byte, and nothing lost while input remains. */
  lemma {:induction false} RunLength(d: Decoder, bytes: seq<byte>)
    requires Valid(d)
    ensures |Run(d, bytes).1| + Pending(Run(d, bytes).0) <= |bytes| + Pending(d)
    ensures (bytes != [] || Pending(d) == 1) ==> (|Run(d, bytes).1| > 0 || Pending(Run(d, bytes).0) == 1)
    decreases |bytes|
  {
    if bytes != [] {
      StepLength(d, bytes[0]);
      RunFirst(d, bytes);
      RunLength(Step(d, bytes[0]).0, bytes[1..]);
    }
  }

  /**
   * Decoding a whole byte sequence at once, as `Buffer.prototype.toString()` does: the text is
   * empty exactly when the input is, and has at most one character per byte.
   */
  function Decode(bytes: seq<byte>): (r: string)
    ensures |r| <= |bytes|
    ensures r == [] <==> bytes == []
  {
    RunLength(Idle, bytes);
    var (d, out) := Run(Idle, bytes);
    out + Flush(d)
  }

  /** Feeding a byte and then the rest. */
  lemma RunCons(d: Decoder, x: byte, rest: seq<byte>)
    requires Valid(d)
    ensures Run(d, [x] + rest).0 == Run(Step(d, x).0, rest).0
    ensures Run(d, [x] + rest).1 == Step(d, x).1 + Run(Step(d, x).0, rest).1
  {
    assert ([x] + rest)[0] == x && ([x] + rest)[1..] == rest;
  }

  /** Feeding two pieces one after the other ends in the state that feeding their concatenation does. */
  lemma {:induction false} RunAppendState(d: Decoder, a: seq<byte>, b: seq<byte>)
    requires Valid(d)
    ensures Run(d, a + b).0 == Run(Run(d, a).0, b).0
    decreases |a|
  {
    if a == [] {
      assert a + b == b;
    } else {
      var x, tail := a[0], a[1..];
      assert a == [x] + tail && a + b == [x] + (tail + b);
      RunCons(d, x, tail);
      RunCons(d, x, tail + b);
      RunAppendState(Step(d, x).0, tail, b);
    }
  }

  /** Feeding a non-empty input is stepping on its first byte and feeding the rest. */
  lemma RunFirst(d: Decoder, a: seq<byte>)
    requires Valid(d) && a != []
    ensures Run(d, a).0 == Run(Step(d, a[0]).0, a[1..]).0
    ensures Run(d, a).1 == Step(d, a[0]).1 + Run(Step(d, a[0]).0, a[1..]).1
  {
  }

  /** Feeding `a + b` for a non-empty `a` is stepping on `a`'s first byte and feeding the rest. */
  lemma RunFirstAppend(d: Decoder, a: seq<byte>, b: seq<byte>)
    requires Valid(d) && a != []
    ensures Run(d, a + b).1 == Step(d, a[0]).1 + Run(Step(d, a[0]).0, a[1..] + b).1
  {
    assert (a + b)[0] == a[0] && (a + b)[1..] == a[1..] + b;
    RunFirst(d, a + b);
  }

  /** The inductive step of `RunAppend`: from the claim for `a[1..]`, the claim for `a`. */
  lemma RunAppendCons(d: Decoder, a: seq<byte>, b: seq<byte>)
    requires Valid(d) && a != []
    requires Run(Step(d, a[0]).0, a[1..] + b).1
             == Run(Step(d, a[0]).0, a[1..]).1 + Run(Run(Step(d, a[0]).0, a[1..]).0, b).1
    ensures Run(d, a + b).1 == Run(d, a).1 + Run(Run(d, a).0, b).1
  {
    RunFirstAppend(d, a, b);
    RunFirst(d, a);
    var next := Step(d, a[0]);
    Regroup(Run(d, a + b).1, Run(d, a).1, next.1, Run(next.0, a[1..]).1, Run(Run(next.0, a[1..]).0, b).1);
  }

  lemma Regroup(whole: string, first: string, o0: string, o1: string, o2: string)
    requires whole == o0 + (o1 + o2) && first == o0 + o1
    ensures whole == first + o2
  {
  }

  /**
   * Feeding two pieces one after the other, carrying the state across, is feeding their
   * concatenation: the output does not depend on where the input was cut.
   */
  lemma {:induction false} RunAppend(d: Decoder, a: seq<byte>, b: seq<byte>)
    requires Valid(d)
    ensures Run(d, a + b).0 == Run(Run(d, a).0, b).0
    ensures Run(d, a + b).1 == Run(d, a).1 + Run(Run(d, a).0, b).1
    decreases |a|
  {
    RunAppendState(d, a, b);
    if a == [] {
      assert a + b == b;
    } else {
      RunAppend(Step(d, a[0]).0, a[1..], b);
      RunAppendCons(d, a, b);
    }
  }

  /** The UTF-8 encoding of one Unicode scalar value: one to four bytes. */
  function EncodeChar(c: char): (r: seq<byte>)
    ensures 1 <= |r| <= 4
  {
    var n := c as int;
    if n < 0x80 then [n]
    else if n < 0x800 then [0xC0 + n / 64, 0x80 + n % 64]
    else if n < 0x10000 then [0xE0 + n / 4096, 0x80 + (n / 64) % 64, 0x80 + n % 64]
    else [0xF0 + n / 262144, 0x80 + (n / 4096) % 64, 0x80 + (n / 64) % 64, 0x80 + n % 64]
  }

  /** The UTF-8 encoding of a string. */
  function Encode(s: string): seq<byte> {
    if s == [] then [] else EncodeChar(s[0]) + Encode(s[1..])
  }

  lemma RunSingle(d: Decoder, b: byte)
    requires Valid(d)
    ensures Run(d, [b]) == Step(d, b)
  {
    assert [b][1..] == [];
    assert Step(d, b).1 + "" == Step(d, b).1;
  }

  /** Feeding one byte more after `bytes`. */
  lemma RunSnoc(d: Decoder, bytes: seq<byte>, b: byte)
    requires Valid(d)
    ensures Run(d, bytes + [b]).0 == Step(Run(d, bytes).0, b).0
    ensures Run(d, bytes + [b]).1 == Run(d, bytes).1 + Step(Run(d, bytes).0, b).1
  {
    RunAppend(d, bytes, [b]);
    RunSingle(Run(d, bytes).0, b);
  }

  /** One byte more after a prefix that left the decoder in `d` and completed nothing. */
  lemma RunPrefixStep(p: seq<byte>, b: byte, d: Decoder)
    requires Run(Idle, p) == (d, "")
    ensures Run(Idle, p + [b]) == Step(d, b)
  {
    RunSnoc(Idle, p, b);
    assert "" + Step(d, b).1 == Step(d, b).1;
  }

  /** The first byte of an encoding, fed alone. */
  lemma RunLead(e: seq<byte>)
    requires e != []
    ensures Run(Idle, e[..1]) == Step(Idle, e[0])
  {
    assert e[..1] == [e[0]];
    RunSingle(Idle, e[0]);
  }

  lemma DecodeEncodeTwo(c: char)
    requires 0x80 <= c as int < 0x800
    ensures Run(Idle, EncodeChar(c)) == (Idle, [c])
  {
    var n := c as int;
    var e := EncodeChar(c);
    assert e == [0xC0 + n / 64, 0x80 + n % 64];
    RunLead(e);
    var d1 := Decoder(1, 0, n / 64, 0x80, 0xBF);
    assert Step(Idle, e[0]) == (d1, "");
    RunPrefixStep(e[..1], e[1], d1);
    assert e[..1] + [e[1]] == e;
    assert Step(d1, e[1]) == (Idle, [c]);
  }

  /** The first two bytes of a three-byte encoding leave the decoder one byte short. */
  lemma ThreeLeadPair(c: char)
    requires 0x800 <= c as int < 0x10000
    ensures Run(Idle, EncodeChar(c)[..2]) == (Decoder(2, 1, c as int / 64, 0x80, 0xBF), "")
  {
    var n := c as int;
    var e := EncodeChar(c);
    var q1, q2 := n / 4096, n / 64;
    assert q2 == q1 * 64 + q2 % 64;
    assert e == [0xE0 + q1, 0x80 + q2 % 64, 0x80 + n % 64];
    RunLead(e);
    var d1 := Decoder(2, 0, q1, if q1 == 0 then 0xA0 else 0x80, if q1 == 13 then 0x9F else 0xBF);
    assert Step(Idle, e[0]) == (d1, "");
    RunPrefixStep(e[..1], e[1], d1);
    assert e[..1] + [e[1]] == e[..2];
  }

  lemma DecodeEncodeThree(c: char)
    requires 0x800 <= c as int < 0x10000
    ensures Run(Idle, EncodeChar(c)) == (Idle, [c])
  {
    var n := c as int;
    var e := EncodeChar(c);
    assert e[2] == 0x80 + n % 64 && |e| == 3;
    ThreeLeadPair(c);
    var d2 := Decoder(2, 1, n / 64, 0x80, 0xBF);
    RunPrefixStep(e[..2], e[2], d2);
    assert e[..2] + [e[2]] == e;
    assert Step(d2, e[2]) == (Idle, [c]);
  }

  /** The first two bytes of a four-byte encoding leave the decoder two bytes short. */
  lemma FourLeadPair(c: char)
    requires 0x10000 <= c as int
    ensures Run(Idle, EncodeChar(c)[..2]) == (Decoder(3, 1, c as int / 4096, 0x80, 0xBF), "")
  {
    var n := c as int;
    var e := EncodeChar(c);
    var q1, q2 := n / 262144, n / 4096;
    assert q2 == q1 * 64 + q2 % 64;
    assert e[0] == 0xF0 + q1 && e[1] == 0x80 + q2 % 64;
    RunLead(e);
    var d1 := Decoder(3, 0, q1, if q1 == 0 then 0x90 else 0x80, if q1 == 4 then 0x8F else 0xBF);
    assert Step(Idle, e[0]) == (d1, "");
    RunPrefixStep(e[..1], e[1], d1);
    assert e[..1] + [e[1]] == e[..2];
  }

  /** The first three bytes of a four-byte encoding leave the decoder one byte short. */
  lemma FourLeadTriple(c: char)
    requires 0x10000 <= c as int
    ensures Run(Idle, EncodeChar(c)[..3]) == (Decoder(3, 2, c as int / 64, 0x80, 0xBF), "")
  {
    var n := c as int;
    var e := EncodeChar(c);
    var q2, q3 := n / 4096, n / 64;
    assert q3 == q2 * 64 + q3 % 64;
    assert e[2] == 0x80 + q3 % 64 && |e| == 4;
    FourLeadPair(c);
    var d2 := Decoder(3, 1, q2, 0x80, 0xBF);
    RunPrefixStep(e[..2], e[2], d2);
    assert e[..2] + [e[2]] == e[..3];
  }

  lemma DecodeEncodeFour(c: char)
    requires 0x10000 <= c as int
    ensures Run(Idle, EncodeChar(c)) == (Idle, [c])
  {
    var n := c as int;
    var e := EncodeChar(c);
    assert e[3] == 0x80 + n % 64 && |e| == 4;
    FourLeadTriple(c);
    var d3 := Decoder(3, 2, n / 64, 0x80, 0xBF);
    RunPrefixStep(e[..3], e[3], d3);
    assert e[..3] + [e[3]] == e;
    assert Step(d3, e[3]) == (Idle, [c]);
  }

  /** The decoder, started idle, turns the encoding of one character back into that character. */
  lemma DecodeEncodeChar(c: char)
    ensures Run(Idle, EncodeChar(c)) == (Idle, [c])
  {
    var n := c as int;
    if n < 0x80 {
      RunSingle(Idle, EncodeChar(c)[0]);
    } else if n < 0x800 {
      DecodeEncodeTwo(c);
    } else if n < 0x10000 {
      DecodeEncodeThree(c);
    } else {
      DecodeEncodeFour(c);
    }
  }

  /** Decoding inverts encoding, and the decoder ends idle. */
  lemma {:induction false} DecodeEncode(s: string)
    ensures Run(Idle, Encode(s)) == (Idle, s)
    ensures Decode(Encode(s)) == s
  {
    if s != [] {
      DecodeEncodeChar(s[0]);
      DecodeEncode(s[1..]);
      RunAppend(Idle, EncodeChar(s[0]), Encode(s[1..]));
      assert [s[0]] + s[1..] == s;
    }
  }
}
