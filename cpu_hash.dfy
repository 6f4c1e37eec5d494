/**
 * The cpu-hash workload: a 32-byte buffer holding a fixed prefix and, in its last eight
 * bytes, the little-endian iteration counter, fed to a streaming SHA-256 once per
 * iteration; then one output line with the count, the hex digest and the elapsed time.
 * SHA-256 itself is a parameter: the model fixes the exact message it is applied to.
 */
module CpuHash {
  import opened Common
  import opened Text

  newtype byte = b: int | 0 <= b < 256

  const U64Limit: nat := 0x1_0000_0000_0000_0000

  const DefaultIterations: nat := 2_000_000

  // ---------------------------------------------------------------------------------
  // The iteration count

  /** The digits `u64::from_str` reads: one optional leading `+` is skipped. */
  function UnsignedDigits(s: string): string {
    if |s| > 0 && s[0] == '+' then s[1..] else s
  }

  /**
   * `s.parse::<u64>()`: an optional `+` and then one or more ASCII digits whose value fits
   * in 64 bits; anything else (empty, a sign alone, `-`, other characters, overflow) fails.
   */
  function ParseU64(s: string): (r: Option<nat>)
    ensures r.Some? ==> r.value < U64Limit
    ensures r.Some? ==> UnsignedDigits(s) != [] && AllIn(UnsignedDigits(s), Digit)
    ensures r.Some? ==> DigitsValue(UnsignedDigits(s)) == r.value
  {
    var ds := UnsignedDigits(s);
    if ds != [] && AllIn(ds, Digit) && DigitsValue(ds) < U64Limit then Some(DigitsValue(ds)) else None
  }

  /** Every 64-bit count's decimal text parses back to it, with or without a `+`. */
  lemma ParseU64OfNat(n: nat)
    requires n < U64Limit
    ensures ParseU64(NatToString(n)) == Some(n)
    ensures ParseU64("+" + NatToString(n)) == Some(n)
  {
    assert UnsignedDigits("+" + NatToString(n)) == NatToString(n);
  }

  /** An empty argument, a negative number and a count past 64 bits do not parse. */
  lemma ParseU64Rejects(n: nat)
    ensures ParseU64("") == None
    ensures ParseU64("-" + NatToString(n)) == None
    ensures n >= U64Limit ==> ParseU64(NatToString(n)) == None
  {
    var minus := "-" + NatToString(n);
    assert !IsDigit(minus[0]);
  }

  /** `args[1].parse().unwrap_or(2_000_000)`, or 2 000 000 without an argument. */
  function Iterations(args: seq<string>): (r: nat)
    ensures r < U64Limit
    ensures |args| <= 1 ==> r == DefaultIterations
    ensures |args| > 1 && ParseU64(args[1]).None? ==> r == DefaultIterations
    ensures |args| > 1 && ParseU64(args[1]).Some? ==> r == ParseU64(args[1]).value
  {
    if |args| > 1 then ParseU64(args[1]).GetOr(DefaultIterations) else DefaultIterations
  }

  /** A count given as the first argument in decimal is the count used. */
  lemma IterationsGiven(args: seq<string>, n: nat)
    requires |args| > 1 && args[1] == NatToString(n) && n < U64Limit
    ensures Iterations(args) == n
  {
    ParseU64OfNat(n);
  }

  // ---------------------------------------------------------------------------------
  // Little-endian counters

  function Pow256(n: nat): (r: nat)
    ensures r >= 1
  {
    if n == 0 then 1 else 256 * Pow256(n - 1)
  }

  /** The low `n` bytes of `x`, least significant first. */
  function LeBytesN(x: nat, n: nat): (r: seq<byte>)
    ensures |r| == n
  {
    if n == 0 then [] else [(x % 256) as byte] + LeBytesN(x / 256, n - 1)
  }

  /** The number a little-endian byte string denotes. */
  function LeValue(bs: seq<byte>): nat {
    if bs == [] then 0 else bs[0] as nat + 256 * LeValue(bs[1..])
  }

  lemma {:induction false} LeValueBound(bs: seq<byte>)
    ensures LeValue(bs) < Pow256(|bs|)
  {
    if bs != [] {
      LeValueBound(bs[1..]);
    }
  }

  /** Writing `x` in `n` bytes loses nothing when it fits. */
  lemma {:induction false} LeBytesRoundTrip(x: nat, n: nat)
    requires x < Pow256(n)
    ensures LeValue(LeBytesN(x, n)) == x
  {
    if n > 0 {
      var r := LeBytesN(x, n);
      assert r[1..] == LeBytesN(x / 256, n - 1);
      LeBytesRoundTrip(x / 256, n - 1);
    }
  }

  /** Every byte string is the little-endian form of its value. */
  lemma {:induction false} LeValueRoundTrip(bs: seq<byte>)
    ensures LeBytesN(LeValue(bs), |bs|) == bs
  {
    if bs != [] {
      var v := LeValue(bs);
      assert v % 256 == bs[0] as nat && v / 256 == LeValue(bs[1..]);
      LeValueRoundTrip(bs[1..]);
    }
  }

  /** `i.to_le_bytes()` for a `u64`. */
  function LeBytes(i: nat): (r: seq<byte>)
    requires i < U64Limit
    ensures |r| == 8
    ensures LeValue(r) == i
  {
    assert Pow256(8) == U64Limit;
    LeBytesRoundTrip(i, 8);
    LeBytesN(i, 8)
  }

  // ---------------------------------------------------------------------------------
  // The buffer and the message

  const BufferSize: nat := 32

  /** Where the counter goes: the buffer's last eight bytes. */
  const CounterOffset: nat := BufferSize - 8

  const PrefixText: string := "cpu-hash-benchmark"

  /** A byte-string literal. */
  function Ascii(s: string): (r: seq<byte>)
    requires forall k :: 0 <= k < |s| ==> s[k] as int < 256
    ensures |r| == |s|
    ensures forall k :: 0 <= k < |s| ==> r[k] as int == s[k] as int
  {
    seq(|s|, k requires 0 <= k < |s| => s[k] as int as byte)
  }

  /** `b"cpu-hash-benchmark"`. */
  const Prefix: seq<byte> := Ascii(PrefixText)

  function Zeros(n: nat): (r: seq<byte>)
    ensures |r| == n
    ensures forall k :: 0 <= k < n ==> r[k] == 0
  {
    seq(n, _ => 0)
  }

  /** The part of the buffer no iteration touches: the prefix, then zero padding. */
  function Header(): (r: seq<byte>)
    ensures |r| == CounterOffset
  {
    Prefix + Zeros(CounterOffset - |Prefix|)
  }

  /** The buffer as the `i`-th iteration hashes it. */
  function Block(i: nat): (r: seq<byte>)
    requires i < U64Limit
    ensures |r| == BufferSize
  {
    Header() + LeBytes(i)
  }

  /** Bytes 0..18 are the prefix, 18..24 are zero and 24..32 decode to the iteration number. */
  lemma BlockLayout(i: nat)
    requires i < U64Limit
    ensures |Prefix| == 18
    ensures Block(i)[..|Prefix|] == Prefix
    ensures forall k :: |Prefix| <= k < CounterOffset ==> Block(i)[k] == 0
    ensures LeValue(Block(i)[CounterOffset..]) == i
  {
    assert Block(i)[CounterOffset..] == LeBytes(i);
    assert Block(i)[..|Prefix|] == Prefix;
  }

  /** Different iterations hash different buffers. */
  lemma BlocksDistinct(i: nat, j: nat)
    requires i < U64Limit && j < U64Limit && Block(i) == Block(j)
    ensures i == j
  {
    BlockLayout(i);
    BlockLayout(j);
  }

  /** Everything fed to the hasher over `n` iterations: the blocks 0..n-1 in order. */
  function Message(n: nat): seq<byte>
    requires n <= U64Limit
  {
    if n == 0 then [] else Message(n - 1) + Block(n - 1)
  }

  /** The message is 32 bytes per iteration; zero iterations hash the empty message. */
  lemma {:induction false} MessageLength(n: nat)
    requires n <= U64Limit
    ensures |Message(n)| == 32 * n
    ensures n == 0 ==> Message(n) == []
  {
    if n > 0 {
      MessageLength(n - 1);
    }
  }

  /** The `i`-th 32-byte slice of the message is the `i`-th block. */
  lemma {:induction false} MessageBlock(n: nat, i: nat)
    requires i < n <= U64Limit
    ensures |Message(n)| == 32 * n
    ensures Message(n)[32 * i..32 * (i + 1)] == Block(i)
  {
    MessageLength(n);
    MessageLength(n - 1);
    if i < n - 1 {
      MessageBlock(n - 1, i);
      EarlierChunk(Message(n - 1), Block(n - 1), i, n - 1);
    } else {
      LastChunk(Message(n - 1), Block(n - 1), n - 1);
    }
  }

  /** Appending keeps the chunks already there. */
  lemma EarlierChunk(m: seq<byte>, b: seq<byte>, i: nat, k: nat)
    requires |m| == 32 * k && i < k
    ensures (m + b)[32 * i..32 * (i + 1)] == m[32 * i..32 * (i + 1)]
  {
  }

  /** An appended 32-byte block is the last chunk. */
  lemma LastChunk(m: seq<byte>, b: seq<byte>, k: nat)
    requires |b| == 32 && |m| == 32 * k
    ensures (m + b)[32 * k..32 * (k + 1)] == b
  {
    assert (m + b)[|m|..] == b;
  }

  // ---------------------------------------------------------------------------------
  // The hashing loop

  /** `Sha256`, as the bytes it has been fed; the digest function is applied at the end. */
  class Hasher {
    var message: seq<byte>

    /** `Sha256::new()`. */
    constructor ()
      ensures message == []
    {
      message := [];
    }

    /** `hasher.update(data)`. */
    method Update(data: seq<byte>)
      modifies this
      ensures message == old(message) + data
    {
      message := message + data;
    }

    /** `hasher.finalize()`. */
    method Finalize(sha: seq<byte> -> seq<byte>) returns (digest: seq<byte>)
      ensures digest == sha(message)
    {
      digest := sha(message);
    }
  }

  /** `dst[start..start + |src|].copy_from_slice(src)`: only that range changes. */
  method CopyInto(dst: array<byte>, start: nat, src: seq<byte>)
    requires start + |src| <= dst.Length
    modifies dst
    ensures dst[..] == old(dst[..start]) + src + old(dst[start + |src|..])
  {
    for k := 0 to |src|
      invariant forall j :: 0 <= j < dst.Length ==>
        dst[j] == (if start <= j < start + k then src[j - start] else old(dst[j]))
    {
      dst[start + k] := src[k];
    }
    assert dst[..] == old(dst[..start]) + src + old(dst[start + |src|..]);
  }

  /** One iteration's write: the counter's bytes replace the last eight and nothing else moves. */
  method WriteCounter(data: array<byte>, i: nat)
    requires data.Length == BufferSize && i < U64Limit
    modifies data
    ensures data[..] == old(data[..CounterOffset]) + LeBytes(i)
  {
    var counterBytes := LeBytes(i);
    var offset := BufferSize - |counterBytes|;
    CopyInto(data, offset, counterBytes);
    assert old(data[offset + |counterBytes|..]) == [];
  }

  /** The buffer set-up and the loop: the digest is SHA-256 of blocks 0..iterations-1. */
  method Run(iterations: nat, sha: seq<byte> -> seq<byte>) returns (digest: seq<byte>)
    requires iterations < U64Limit
    ensures digest == sha(Message(iterations))
  {
    var data := NewBuffer();
    var hasher := new Hasher();
    for i := 0 to iterations
      invariant data.Length == BufferSize
      invariant data[..CounterOffset] == Header()
      invariant hasher.message == Message(i)
    {
      WriteCounter(data, i);
      NextBlock(data[..], i);
      hasher.Update(data[..]);
    }
    digest := hasher.Finalize(sha);
  }

  /** The zeroed buffer with the prefix copied to its start. */
  method NewBuffer() returns (data: array<byte>)
    ensures fresh(data) && data.Length == BufferSize && data[..CounterOffset] == Header()
  {
    var prefix := Prefix;
    data := new byte[BufferSize](_ => 0);
    var prefixLen := |prefix|;
    assert prefixLen <= BufferSize - 8;
    CopyInto(data, 0, prefix);
    assert data[..CounterOffset] == Header();
  }

  /** The buffer after the counter write is the iteration's block, and keeps its header. */
  lemma NextBlock(buffer: seq<byte>, i: nat)
    requires i < U64Limit && buffer == Header() + LeBytes(i)
    ensures buffer == Block(i) && buffer[..CounterOffset] == Header()
  {
  }

  // ---------------------------------------------------------------------------------
  // The output line

  predicate IsLowerHex(c: char) {
    '0' <= c <= '9' || 'a' <= c <= 'f'
  }

  /** The lower-case hex digit of `d`. */
  function HexDigit(d: nat): (c: char)
    requires d < 16
    ensures IsLowerHex(c)
  {
    if d < 10 then ('0' as int + d) as char else ('a' as int + d - 10) as char
  }

  /** `{:x}` of one byte: two lower-case hex digits. */
  function HexByte(b: byte): (r: string)
    ensures |r| == 2
  {
    [HexDigit(b as nat / 16), HexDigit(b as nat % 16)]
  }

  /** `{:x}` of a digest. */
  function Hex(bs: seq<byte>): (r: string)
    ensures |r| == 2 * |bs|
    ensures forall k :: 0 <= k < |r| ==> IsLowerHex(r[k])
  {
    if bs == [] then [] else HexByte(bs[0]) + Hex(bs[1..])
  }

  /** The value of a lower-case hex digit. */
  function HexValue(c: char): Option<nat> {
    if '0' <= c <= '9' then Some(c as int - '0' as int)
    else if 'a' <= c <= 'f' then Some(c as int - 'a' as int + 10)
    else None
  }

  /** Reads lower-case hex back into bytes, two digits per byte. */
  function ParseHex(s: string): Option<seq<byte>> {
    if s == [] then Some([])
    else if |s| == 1 then None
    else
      var hi :- HexValue(s[0]);
      var lo :- HexValue(s[1]);
      var rest :- ParseHex(s[2..]);
      if hi < 16 && lo < 16 then Some([(hi * 16 + lo) as byte] + rest) else None
  }

  /** Reading one printed byte in front of readable hex. */
  lemma ParseHexCons(b: byte, rest: string)
    requires ParseHex(rest).Some?
    ensures ParseHex(HexByte(b) + rest) == Some([b] + ParseHex(rest).value)
  {
    var t := HexByte(b) + rest;
    assert t[2..] == rest;
    assert HexValue(t[0]) == Some(b as nat / 16);
    assert HexValue(t[1]) == Some(b as nat % 16);
    assert (b as nat / 16) * 16 + b as nat % 16 == b as nat;
  }

  /** The printed digest determines the digest. */
  lemma {:induction false} HexRoundTrip(bs: seq<byte>)
    ensures ParseHex(Hex(bs)) == Some(bs)
  {
    if bs != [] {
      HexRoundTrip(bs[1..]);
      ParseHexCons(bs[0], Hex(bs[1..]));
      assert [bs[0]] + bs[1..] == bs;
    }
  }

  /** Three digits, with leading zeros. */
  function ThreeDigits(r: nat): (s: string)
    requires r < 1000
    ensures |s| == 3 && AllIn(s, Digit)
    ensures DigitsValue(s) == r
  {
    var s := [DigitChar(r / 100), DigitChar(r / 10 % 10), DigitChar(r % 10)];
    assert s[..2][..1] == [s[0]] && s[..2] == [s[0], s[1]];
    assert [s[0]][..0] == [];
    assert DigitsValue([s[0]]) == r / 100;
    assert DigitsValue(s[..2]) == (r / 100) * 10 + r / 10 % 10;
    assert DigitsValue(s) == ((r / 100) * 10 + r / 10 % 10) * 10 + r % 10;
    s
  }

  /** `{:.3}` of the elapsed milliseconds, given as a whole number of microseconds. */
  function Millis(micros: nat): string {
    NatToString(micros / 1000) + "." + ThreeDigits(micros % 1000)
  }

  /** The printed time reads back as the exact number of milliseconds. */
  lemma MillisParses(micros: nat)
    ensures AllIn(Millis(micros), NumChar)
    ensures ParseDecimal(Millis(micros)) == Some(micros as real / 1000.0)
  {
    var q, r := micros / 1000, micros % 1000;
    ParseDecimalReads(NatToString(q), ThreeDigits(r));
    assert Pow10(3) == 1000;
    assert PointValue(NatToString(q), ThreeDigits(r)) == q as real + r as real / 1000.0;
    assert micros as real == 1000.0 * q as real + r as real;
  }

  /** `iterations=<N> digest=<hex> elapsed_ms=<ms>`. */
  function OutputLine(iterations: nat, digest: seq<byte>, micros: nat): string {
    "iterations=" + NatToString(iterations) + " digest=" + Hex(digest) + " elapsed_ms=" + Millis(micros)
  }

  /** Each field of the output line reads back as the value printed into it. */
  lemma OutputLineFields(iterations: nat, digest: seq<byte>, micros: nat)
    requires iterations < U64Limit
    ensures OutputLine(iterations, digest, micros) ==
      "iterations=" + NatToString(iterations) + " digest=" + Hex(digest) + " elapsed_ms=" + Millis(micros)
    ensures ParseU64(NatToString(iterations)) == Some(iterations)
    ensures ParseHex(Hex(digest)) == Some(digest)
    ensures AllIn(Millis(micros), NumChar) && ParseDecimal(Millis(micros)) == Some(micros as real / 1000.0)
  {
    ParseU64OfNat(iterations);
    HexRoundTrip(digest);
    MillisParses(micros);
  }

  /** The whole program, with the elapsed time given. */
  method Benchmark(args: seq<string>, sha: seq<byte> -> seq<byte>, micros: nat) returns (line: string)
    ensures line == OutputLine(Iterations(args), sha(Message(Iterations(args))), micros)
  {
    var iterations := Iterations(args);
    var digest := Run(iterations, sha);
    line := OutputLine(iterations, digest, micros);
  }
}
