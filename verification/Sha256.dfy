/** Streaming SHA-256: any way of cutting the message into updates yields the digest that
    FIPS 180-4 defines for the whole message. */
module Sha256 {
  import opened Sequences
  import opened Domain

  newtype byte = x: int | 0 <= x < 256

  // ---- FIPS 180-4, section 4: constants and functions ----

  function RoundConstants(): seq<bv32> {
    [0x428a2f98, 0x71374491, 0xb5c0fbcf, 0xe9b5dba5, 0x3956c25b, 0x59f111f1, 0x923f82a4, 0xab1c5ed5,
     0xd807aa98, 0x12835b01, 0x243185be, 0x550c7dc3, 0x72be5d74, 0x80deb1fe, 0x9bdc06a7, 0xc19bf174,
     0xe49b69c1, 0xefbe4786, 0x0fc19dc6, 0x240ca1cc, 0x2de92c6f, 0x4a7484aa, 0x5cb0a9dc, 0x76f988da,
     0x983e5152, 0xa831c66d, 0xb00327c8, 0xbf597fc7, 0xc6e00bf3, 0xd5a79147, 0x06ca6351, 0x14292967,
     0x27b70a85, 0x2e1b2138, 0x4d2c6dfc, 0x53380d13, 0x650a7354, 0x766a0abb, 0x81c2c92e, 0x92722c85,
     0xa2bfe8a1, 0xa81a664b, 0xc24b8b70, 0xc76c51a3, 0xd192e819, 0xd6990624, 0xf40e3585, 0x106aa070,
     0x19a4c116, 0x1e376c08, 0x2748774c, 0x34b0bcb5, 0x391c0cb3, 0x4ed8aa4a, 0x5b9cca4f, 0x682e6ff3,
     0x748f82ee, 0x78a5636f, 0x84c87814, 0x8cc70208, 0x90befffa, 0xa4506ceb, 0xbef9a3f7, 0xc67178f2]
  }

  function InitialState(): seq<bv32> {
    [0x6a09e667, 0xbb67ae85, 0x3c6ef372, 0xa54ff53a, 0x510e527f, 0x9b05688c, 0x1f83d9ab, 0x5be0cd19]
  }

  function Rotr(x: bv32, n: nat): bv32
    requires n <= 32
  {
    (x >> n) | (x << (32 - n))
  }

  function SmallSigma0(x: bv32): bv32 { Rotr(x, 7) ^ Rotr(x, 18) ^ (x >> 3) }
  function SmallSigma1(x: bv32): bv32 { Rotr(x, 17) ^ Rotr(x, 19) ^ (x >> 10) }
  function BigSigma0(x: bv32): bv32 { Rotr(x, 2) ^ Rotr(x, 13) ^ Rotr(x, 22) }
  function BigSigma1(x: bv32): bv32 { Rotr(x, 6) ^ Rotr(x, 11) ^ Rotr(x, 25) }
  function Ch(x: bv32, y: bv32, z: bv32): bv32 { (x & y) ^ (!x & z) }
  function Maj(x: bv32, y: bv32, z: bv32): bv32 { (x & y) ^ (x & z) ^ (y & z) }

  // ---- section 6.2.2: message schedule and compression ----

  function BigEndianWord(b0: byte, b1: byte, b2: byte, b3: byte): bv32 {
    ((b0 as bv32) << 24) | ((b1 as bv32) << 16) | ((b2 as bv32) << 8) | (b3 as bv32)
  }

  /** Addition modulo 2^32. */
  function Add(x: bv32, y: bv32): bv32 { x + y }

  function Extend(w16: bv32, w15: bv32, w7: bv32, w2: bv32): bv32 {
    Add(Add(Add(w16, SmallSigma0(w15)), w7), SmallSigma1(w2))
  }

  function Words(block: seq<byte>): (words: seq<bv32>)
    requires |block| == 64
    ensures |words| == 16
  {
    seq(16, t requires 0 <= t < 16 => BigEndianWord(block[4 * t], block[4 * t + 1], block[4 * t + 2], block[4 * t + 3]))
  }

  function Schedule(words: seq<bv32>, t: nat): bv32
    requires |words| == 16
  {
    if t < 16 then words[t]
    else Extend(Schedule(words, t - 16), Schedule(words, t - 15), Schedule(words, t - 7), Schedule(words, t - 2))
  }

  datatype Work = Work(a: bv32, b: bv32, c: bv32, d: bv32, e: bv32, f: bv32, g: bv32, h: bv32)

  function Round(x: Work, k: bv32, w: bv32): Work {
    var t1 := Add(Add(Add(Add(x.h, BigSigma1(x.e)), Ch(x.e, x.f, x.g)), k), w);
    var t2 := Add(BigSigma0(x.a), Maj(x.a, x.b, x.c));
    Work(Add(t1, t2), x.a, x.b, x.c, Add(x.d, t1), x.e, x.f, x.g)
  }

  /** The first t rounds with round constants k. */
  function Rounds(k: seq<bv32>, x: Work, words: seq<bv32>, t: nat): Work
    requires |words| == 16 && t <= |k|
  {
    if t == 0 then x else Round(Rounds(k, x, words, t - 1), k[t - 1], Schedule(words, t - 1))
  }

  function Load(h: seq<bv32>): Work
    requires |h| == 8
  {
    Work(h[0], h[1], h[2], h[3], h[4], h[5], h[6], h[7])
  }

  /** The i-th working variable. */
  function Part(x: Work, i: nat): bv32 {
    if i == 0 then x.a else if i == 1 then x.b else if i == 2 then x.c else if i == 3 then x.d
    else if i == 4 then x.e else if i == 5 then x.f else if i == 6 then x.g else x.h
  }

  function AddInto(h: seq<bv32>, x: Work): (r: seq<bv32>)
    requires |h| == 8
    ensures |r| == 8
  {
    seq(8, i requires 0 <= i < 8 => Add(h[i], Part(x, i)))
  }

  function Compress(k: seq<bv32>, h: seq<bv32>, block: seq<byte>): (r: seq<bv32>)
    requires |h| == 8 && |block| == 64
    ensures |r| == 8
  {
    AddInto(h, Rounds(k, Load(h), Words(block), |k|))
  }

  /** Compresses the whole blocks of a message one after another; a rest shorter than a block is ignored. */
  function Absorb(k: seq<bv32>, h: seq<bv32>, message: seq<byte>): (r: seq<bv32>)
    requires |h| == 8
    ensures |r| == 8
    decreases |message|
  {
    if |message| < 64 then h else Absorb(k, Compress(k, h, message[..64]), message[64..])
  }

  // ---- section 5.1.1: padding ----

  /** The 64-bit unsigned value of a count. */
  function Wrap64(n: nat): nat { n % 0x1_0000_0000_0000_0000 }

  predicate Fits64(n: nat) { n < 0x1_0000_0000_0000_0000 }

  function Power256(i: nat): nat {
    if i == 0 then 1 else 256 * Power256(i - 1)
  }

  lemma Power256Positive(i: nat)
    ensures Power256(i) > 0
  {
  }

  function LengthByte(bits: nat, i: nat): byte
    requires i < 8
  {
    Power256Positive(7 - i);
    ((bits / Power256(7 - i)) % 256) as byte
  }

  /** The bit length as eight bytes, most significant first. */
  function LengthBytes(bits: nat): (r: seq<byte>)
    ensures |r| == 8
  {
    seq(8, i requires 0 <= i < 8 => LengthByte(bits, i))
  }

  function Zeros(n: nat): (r: seq<byte>)
    ensures |r| == n
  {
    seq(n, _ => 0)
  }

  /** The least number of zero bytes that leaves room for exactly the length field. */
  function ZeroCount(length: nat): (k: nat)
    ensures k < 64 && (length + 1 + k) % 64 == 56
  {
    (119 - length % 64) % 64
  }

  function PadWith(message: seq<byte>, bits: nat): seq<byte> {
    message + [0x80] + Zeros(ZeroCount(|message|)) + LengthBytes(bits)
  }

  function Pad(message: seq<byte>): seq<byte> {
    PadWith(message, 8 * |message|)
  }

  function HexDigit(x: bv32): char {
    if x == 0 then '0' else if x == 1 then '1' else if x == 2 then '2' else if x == 3 then '3'
    else if x == 4 then '4' else if x == 5 then '5' else if x == 6 then '6' else if x == 7 then '7'
    else if x == 8 then '8' else if x == 9 then '9' else if x == 10 then 'a' else if x == 11 then 'b'
    else if x == 12 then 'c' else if x == 13 then 'd' else if x == 14 then 'e' else 'f'
  }

  function HexWord(x: bv32): (r: string)
    ensures |r| == 8
  {
    [HexDigit((x >> 28) & 0xf), HexDigit((x >> 24) & 0xf), HexDigit((x >> 20) & 0xf), HexDigit((x >> 16) & 0xf),
     HexDigit((x >> 12) & 0xf), HexDigit((x >> 8) & 0xf), HexDigit((x >> 4) & 0xf), HexDigit(x & 0xf)]
  }

  function HexWords(words: seq<bv32>): (r: string)
    ensures |r| == 8 * |words|
  {
    if words == [] then [] else HexWords(words[..|words| - 1]) + HexWord(words[|words| - 1])
  }

  /** The digest of a message shorter than 2^61 bytes, as FIPS 180-4 defines it. */
  function Digest(message: seq<byte>): string {
    HexWords(Absorb(RoundConstants(), InitialState(), Pad(message)))
  }

  // ---- lemmas ----

  lemma {:induction false} AbsorbAppend(k: seq<bv32>, h: seq<bv32>, a: seq<byte>, b: seq<byte>)
    requires |h| == 8 && |a| % 64 == 0
    ensures Absorb(k, h, a + b) == Absorb(k, Absorb(k, h, a), b)
    decreases |a|
  {
    if |a| == 0 {
      assert a + b == b;
    } else {
      assert |a| >= 64;
      assert (a + b)[..64] == a[..64] && (a + b)[64..] == a[64..] + b;
      AbsorbAppend(k, Compress(k, h, a[..64]), a[64..], b);
    }
  }

  lemma AbsorbBlock(k: seq<bv32>, h: seq<bv32>, a: seq<byte>, block: seq<byte>)
    requires |h| == 8 && |a| % 64 == 0 && |block| == 64
    ensures Absorb(k, h, a + block) == Compress(k, Absorb(k, h, a), block)
  {
    AbsorbAppend(k, h, a, block);
    assert block[..64] == block && block[64..] == [];
  }

  /** The padded message is a whole number of blocks and starts with the message. */
  lemma PaddedIsWhole(message: seq<byte>, bits: nat)
    ensures |PadWith(message, bits)| % 64 == 0
    ensures PadWith(message, bits)[..|message|] == message
  {
  }

  /** Where `fed` stands: the whole blocks are compressed into the state, the rest is in the buffer. */
  ghost predicate Holds(k: seq<bv32>, h: seq<bv32>, state: seq<bv32>, buffered: seq<byte>, fed: seq<byte>) {
    && |h| == 8 && |buffered| < 64 && |buffered| <= |fed| && (|fed| - |buffered|) % 64 == 0
    && state == Absorb(k, h, fed[..|fed| - |buffered|])
    && buffered == fed[|fed| - |buffered|..]
  }

  lemma HoldsNothing(k: seq<bv32>, h: seq<bv32>)
    requires |h| == 8
    ensures Holds(k, h, h, [], [])
  {
  }

  /** Bytes that do not fill the buffer. */
  lemma HoldsMore(k: seq<bv32>, h: seq<bv32>, state: seq<bv32>, buffered: seq<byte>, fed: seq<byte>, more: seq<byte>)
    requires Holds(k, h, state, buffered, fed) && |buffered| + |more| < 64
    ensures Holds(k, h, state, buffered + more, fed + more)
  {
    var cut := |fed| - |buffered|;
    assert (fed + more)[..cut] == fed[..cut];
    assert (fed + more)[cut..] == fed[cut..] + more;
  }

  lemma WholeMore(n: nat)
    requires n % 64 == 0
    ensures (n + 64) % 64 == 0
  {
  }

  lemma HoldsAll(k: seq<bv32>, h: seq<bv32>, fed: seq<byte>)
    requires |h| == 8 && |fed| % 64 == 0
    ensures Holds(k, h, Absorb(k, h, fed), [], fed)
  {
    assert fed[..|fed|] == fed && fed[|fed|..] == [];
  }

  /** Bytes that fill the buffer exactly: one more block is compressed. */
  lemma HoldsBlock(k: seq<bv32>, h: seq<bv32>, state: seq<bv32>, buffered: seq<byte>, fed: seq<byte>, more: seq<byte>)
    requires Holds(k, h, state, buffered, fed) && |buffered| + |more| == 64
    ensures |state| == 8 && Holds(k, h, Compress(k, state, buffered + more), [], fed + more)
  {
    var cut := |fed| - |buffered|;
    assert fed + more == fed[..cut] + (buffered + more);
    AbsorbBlock(k, h, fed[..cut], buffered + more);
    assert |fed + more| == cut + 64;
    WholeMore(cut);
    HoldsAll(k, h, fed + more);
  }

  lemma HoldsLength(k: seq<bv32>, h: seq<bv32>, state: seq<bv32>, buffered: seq<byte>, fed: seq<byte>)
    requires Holds(k, h, state, buffered, fed)
    ensures |buffered| == |fed| % 64
  {
  }

  /** Once a whole number of blocks is in, the state is the fold over all of it. */
  lemma HoldsWhole(k: seq<bv32>, h: seq<bv32>, state: seq<bv32>, buffered: seq<byte>, fed: seq<byte>)
    requires Holds(k, h, state, buffered, fed) && |fed| % 64 == 0
    ensures buffered == [] && state == Absorb(k, h, fed)
  {
    HoldsLength(k, h, state, buffered, fed);
    assert fed[..|fed|] == fed;
  }

  /** The first i words of the schedule are in place. */
  ghost predicate Scheduled(w: seq<bv32>, words: seq<bv32>, i: nat)
    requires |words| == 16
  {
    i <= |w| && forall t: nat :: t < i ==> w[t] == Schedule(words, t)
  }

  lemma ScheduledMore(w: seq<bv32>, w': seq<bv32>, words: seq<bv32>, i: nat)
    requires |words| == 16 <= i < |w| == |w'| && Scheduled(w, words, i)
    requires w' == w[i := w'[i]] && w'[i] == Extend(w[i - 16], w[i - 15], w[i - 7], w[i - 2])
    ensures Scheduled(w', words, i + 1)
  {
    assert w[i - 16] == Schedule(words, i - 16) && w[i - 15] == Schedule(words, i - 15);
    assert w[i - 7] == Schedule(words, i - 7) && w[i - 2] == Schedule(words, i - 2);
    assert w'[i] == Schedule(words, i);
  }

  class Hasher {
    const constants: seq<bv32>
    const initial: seq<bv32>
    const state: array<bv32>
    const buffer: array<byte>
    var bitLen: nat
    var bufferLen: nat
    ghost var fed: seq<byte>

    /** Sizes that never change. */
    ghost predicate Shaped() {
      |constants| == 64 && |initial| == 8 && state.Length == 8 && buffer.Length == 64
    }

    ghost predicate Valid()
      reads this, state, buffer
    {
      && Shaped() && bufferLen < 64
      && Holds(constants, initial, state[..], buffer[..bufferLen], fed)
      && bitLen == Wrap64(8 * |fed|)
    }

    constructor ()
      ensures Valid() && fed == [] && fresh(state) && fresh(buffer)
      ensures constants == RoundConstants() && initial == InitialState()
    {
      var start := InitialState();
      constants, initial := RoundConstants(), start;
      state := new bv32[8](i requires 0 <= i < 8 => start[i]);
      buffer := new byte[64];
      bitLen, bufferLen, fed := 0, 0, [];
      new;
      assert state[..] == initial && buffer[..0] == [];
      HoldsNothing(constants, initial);
    }

    method Reset()
      requires Shaped()
      modifies this, state
      ensures Valid() && fed == []
    {
      forall i | 0 <= i < 8 { state[i] := initial[i]; }
      bitLen, bufferLen, fed := 0, 0, [];
      assert state[..] == initial && buffer[..0] == [];
      HoldsNothing(constants, initial);
    }

    /** The first sixteen words are the block itself. */
    method LoadWords() returns (w: array<bv32>)
      requires buffer.Length == 64
      ensures fresh(w) && w.Length == 64 && w[..16] == Words(buffer[..])
    {
      w := new bv32[64];
      ghost var words := Words(buffer[..]);
      for i := 0 to 16
        invariant forall t :: 0 <= t < i ==> w[t] == words[t]
      {
        w[i] := BigEndianWord(buffer[i * 4], buffer[i * 4 + 1], buffer[i * 4 + 2], buffer[i * 4 + 3]);
      }
    }

    /** The other 48 words are computed from earlier ones. */
    method ExtendSchedule(w: array<bv32>, ghost words: seq<bv32>)
      requires w.Length == 64 && |words| == 16 && w[..16] == words
      modifies w
      ensures Scheduled(w[..], words, 64)
    {
      assert forall t: nat :: t < 16 ==> w[..][t] == words[t];
      for i := 16 to 64
        invariant Scheduled(w[..], words, i)
      {
        ghost var before := w[..];
        var s0 := SmallSigma0(w[i - 15]);
        var s1 := SmallSigma1(w[i - 2]);
        w[i] := Add(Add(Add(w[i - 16], s0), w[i - 7]), s1);
        assert w[i] == Extend(before[i - 16], before[i - 15], before[i - 7], before[i - 2]);
        ScheduledMore(before, w[..], words, i);
      }
    }

    /** The 64 rounds, on eight working variables. */
    method RunRounds(w: array<bv32>, ghost words: seq<bv32>, start: Work) returns (x: Work)
      requires Shaped() && w.Length == 64 && |words| == 16 && Scheduled(w[..], words, 64)
      ensures x == Rounds(constants, start, words, |constants|)
    {
      var a, b, c, d, e, f, g, h := start.a, start.b, start.c, start.d, start.e, start.f, start.g, start.h;
      for i := 0 to |constants|
        invariant Work(a, b, c, d, e, f, g, h) == Rounds(constants, start, words, i)
      {
        ghost var before := Work(a, b, c, d, e, f, g, h);
        var s1 := BigSigma1(e);
        var ch := Ch(e, f, g);
        var t1 := Add(Add(Add(Add(h, s1), ch), constants[i]), w[i]);
        var s0 := BigSigma0(a);
        var maj := Maj(a, b, c);
        var t2 := Add(s0, maj);
        h := g;
        g := f;
        f := e;
        e := Add(d, t1);
        d := c;
        c := b;
        b := a;
        a := Add(t1, t2);
        assert Work(a, b, c, d, e, f, g, h) == Round(before, constants[i], w[i]);
        assert w[..][i] == Schedule(words, i);
      }
      x := Work(a, b, c, d, e, f, g, h);
    }

    method AddToState(x: Work)
      requires Shaped()
      modifies state
      ensures state[..] == AddInto(old(state[..]), x)
    {
      forall i | 0 <= i < 8 { state[i] := Add(state[i], Part(x, i)); }
    }

    /** Compresses the full buffer into the state. */
    method ProcessBlock()
      requires Shaped()
      modifies state
      ensures state[..] == Compress(constants, old(state[..]), buffer[..])
    {
      var w := LoadWords();
      ghost var words := Words(buffer[..]);
      ExtendSchedule(w, words);
      ghost var before := state[..];
      var start := Work(state[0], state[1], state[2], state[3], state[4], state[5], state[6], state[7]);
      assert start == Load(before);
      var x := RunRounds(w, words, start);
      AddToState(x);
    }

    /** Copies bytes behind the buffered ones. */
    method Fill(bytes: seq<byte>)
      requires Shaped() && bufferLen + |bytes| <= 64
      modifies buffer, this`bufferLen
      ensures bufferLen == old(bufferLen) + |bytes|
      ensures buffer[..bufferLen] == old(buffer[..bufferLen]) + bytes
    {
      forall i | 0 <= i < |bytes| { buffer[bufferLen + i] := bytes[i]; }
      bufferLen := bufferLen + |bytes|;
    }

    /** One pass of the update loop: as many bytes as the buffer takes. */
    method Take(bytes: seq<byte>)
      requires Shaped() && bufferLen < 64 && 0 < |bytes| <= 64 - bufferLen
      requires Holds(constants, initial, state[..], buffer[..bufferLen], fed)
      modifies buffer, state, this`bufferLen, this`fed
      ensures bufferLen < 64 && fed == old(fed) + bytes
      ensures Holds(constants, initial, state[..], buffer[..bufferLen], fed)
    {
      ghost var h, held := state[..], buffer[..bufferLen];
      Fill(bytes);
      if bufferLen == 64 {
        HoldsBlock(constants, initial, h, held, fed, bytes);
        assert buffer[..64] == buffer[..];
        ProcessBlock();
        bufferLen := 0;
        assert buffer[..0] == [];
      } else {
        HoldsMore(constants, initial, h, held, fed, bytes);
      }
      fed := fed + bytes;
    }

    /** The update loop. */
    method Feed(data: seq<byte>)
      requires Shaped() && bufferLen < 64
      requires Holds(constants, initial, state[..], buffer[..bufferLen], fed)
      modifies buffer, state, this`bufferLen, this`fed
      ensures bufferLen < 64 && fed == old(fed) + data
      ensures Holds(constants, initial, state[..], buffer[..bufferLen], fed)
    {
      var rest := data;
      ghost var whole := fed + data;
      while |rest| > 0
        invariant Shaped() && bufferLen < 64 && fed + rest == whole
        invariant Holds(constants, initial, state[..], buffer[..bufferLen], fed)
        decreases |rest|
      {
        var take := if |rest| < 64 - bufferLen then |rest| else 64 - bufferLen;
        assert rest == rest[..take] + rest[take..];
        Take(rest[..take]);
        rest := rest[take..];
      }
    }

    method Update(data: seq<byte>)
      requires Valid()
      modifies this, state, buffer
      ensures Valid() && fed == old(fed) + data
    {
      ghost var n := |fed|;
      bitLen := Wrap64(bitLen + 8 * |data|);
      Feed(data);
      BitsAdd(n, |data|);
    }

    /** Pads what was fed, returns the hexadecimal digest and starts over. */
    method HexDigest() returns (out: string)
      requires Valid()
      modifies this, state, buffer
      ensures out == HexWords(Absorb(constants, initial, PadWith(old(fed), Wrap64(8 * |old(fed)|))))
      ensures Valid() && fed == []
    {
      var totalBits := bitLen;
      ghost var message := fed;
      PadBuffer();
      var lengthBytes := LengthField(totalBits);
      Update(lengthBytes);
      PaddedIsWhole(message, totalBits);
      HoldsWhole(constants, initial, state[..], buffer[..bufferLen], fed);
      out := Hex();
      Reset();
    }

    /** 0x80, then zero bytes until eight bytes are left in the buffer. */
    method PadBuffer()
      requires Valid()
      modifies this, state, buffer
      ensures Valid() && fed == old(fed) + [0x80] + Zeros(ZeroCount(|old(fed)|))
    {
      ghost var message, n := fed, 0;
      Update([0x80]);
      BufferLength();
      PadStep(|message|, 0, |fed|, bufferLen);
      while bufferLen != 56
        invariant Valid() && n <= ZeroCount(|message|)
        invariant fed == message + [0x80] + Zeros(n)
        invariant bufferLen == 56 <==> n == ZeroCount(|message|)
        decreases ZeroCount(|message|) - n
      {
        Update([0x00]);
        BufferLength();
        assert Zeros(n) + [0x00] == Zeros(n + 1);
        n := n + 1;
        PadStep(|message|, n, |fed|, bufferLen);
      }
    }

    lemma BufferLength()
      requires Valid()
      ensures bufferLen == |fed| % 64
    {
      HoldsLength(constants, initial, state[..], buffer[..bufferLen], fed);
    }

    method Hex() returns (out: string)
      requires Shaped()
      ensures out == HexWords(state[..])
    {
      out := "";
      for i := 0 to 8
        invariant out == HexWords(state[..i])
      {
        assert state[..i + 1][..i] == state[..i];
        out := out + HexWord(state[i]);
      }
      assert state[..8] == state[..];
    }
  }

  /** The buffer reaches 56 bytes exactly when the last zero byte is in. */
  lemma PadStep(length: nat, n: nat, total: nat, held: nat)
    requires n <= ZeroCount(length) && total == length + 1 + n && held == total % 64
    ensures held == 56 <==> n == ZeroCount(length)
  {
  }

  /** Adding bit lengths modulo 2^64 loses nothing against reducing the whole length at the end. */
  lemma BitsAdd(m: nat, n: nat)
    ensures Wrap64(Wrap64(8 * m) + 8 * n) == Wrap64(8 * (m + n))
  {
  }

  method LengthField(totalBits: nat) returns (bytes: seq<byte>)
    ensures bytes == LengthBytes(totalBits)
  {
    bytes := [];
    for i := 0 to 8
      invariant bytes == LengthBytes(totalBits)[..i]
    {
      bytes := bytes + [LengthByte(totalBits, i)];
    }
  }

  /** Below 2^61 bytes the wrapped 64-bit counter is the true bit length. */
  lemma ShortLength(message: seq<byte>)
    requires Fits64(8 * |message|)
    ensures PadWith(message, Wrap64(8 * |message|)) == Pad(message)
  {
  }

  /** What is computed whatever the length: the length field holds the bit length modulo 2^64. */
  function WrappedDigest(message: seq<byte>): string {
    HexWords(Absorb(RoundConstants(), InitialState(), PadWith(message, Wrap64(8 * |message|))))
  }

  lemma ShortDigest(message: seq<byte>)
    requires Fits64(8 * |message|)
    ensures WrappedDigest(message) == Digest(message)
  {
    ShortLength(message);
  }

  /** The digest of a file read in any chunks. */
  method HashFile(readable: bool, chunks: seq<seq<byte>>, readError: bool) returns (hex: Option<string>)
    ensures hex.Some? <==> readable && !readError
    ensures hex.Some? ==> hex.value == WrappedDigest(Concat(chunks))
    ensures hex.Some? && Fits64(8 * |Concat(chunks)|) ==> hex.value == Digest(Concat(chunks))
  {
    if !readable {
      return None;
    }
    var hasher := new Hasher();
    for i := 0 to |chunks|
      invariant fresh(hasher) && fresh(hasher.state) && fresh(hasher.buffer)
      invariant hasher.Valid() && hasher.fed == Concat(chunks[..i])
    {
      assert chunks[..i + 1][..i] == chunks[..i];
      hasher.Update(chunks[i]);
    }
    assert chunks[..|chunks|] == chunks;
    if readError {
      return None;
    }
    var digits := hasher.HexDigest();
    if Fits64(8 * |Concat(chunks)|) { ShortDigest(Concat(chunks)); }
    return Some(digits);
  }

  method Sha256Hex(text: seq<byte>) returns (hex: string)
    ensures hex == WrappedDigest(text)
    ensures Fits64(8 * |text|) ==> hex == Digest(text)
  {
    var hasher := new Hasher();
    hasher.Update(text);
    assert hasher.fed == text;
    hex := hasher.HexDigest();
    if Fits64(8 * |text|) { ShortDigest(text); }
  }

  // ---- The padding loses nothing ----

  function BigEndian(bytes: seq<byte>): nat {
    if bytes == [] then 0 else 256 * BigEndian(bytes[..|bytes| - 1]) + bytes[|bytes| - 1] as nat
  }

  lemma {:induction false} LengthPrefix(bits: nat, i: nat)
    requires i <= 8 && bits < Power256(8)
    ensures Power256(8 - i) > 0 && BigEndian(LengthBytes(bits)[..i]) == bits / Power256(8 - i)
  {
    Power256Positive(8 - i);
    if i == 0 {
      DivideUnique(bits, Power256(8), 0, bits);
    } else {
      LengthPrefix(bits, i - 1);
      assert LengthBytes(bits)[..i][..i - 1] == LengthBytes(bits)[..i - 1];
      assert LengthBytes(bits)[..i][i - 1] == LengthByte(bits, i - 1);
      LastByte(bits, Power256(8 - i));
    }
  }

  lemma LastByte(n: nat, p: nat)
    requires p > 0
    ensures 256 * (n / (256 * p)) + ((n / p) % 256) as byte as nat == n / p
  {
    DivideTwice(n, p);
  }

  lemma DivideTwice(n: nat, p: nat)
    requires p > 0
    ensures n / (256 * p) == (n / p) / 256
  {
    var q, r := n / p, n % p;
    var a, b := q / 256, q % 256;
    Regroup(p, a, b);
    MulMonotone(p, b, 255);
    DivideUnique(n, 256 * p, a, p * b + r);
  }

  lemma Regroup(p: nat, a: nat, b: nat)
    ensures p * (256 * a + b) == (256 * p) * a + p * b
  {
  }

  lemma MulMonotone(d: int, x: int, y: int)
    ensures 0 <= d && x <= y ==> d * x <= d * y
  {
  }

  lemma DivideUnique(n: nat, d: nat, q: nat, r: nat)
    requires 0 <= r < d && n == d * q + r
    ensures n / d == q
  {
    var q' := n / d;
    if q' < q {
      MulMonotone(d, q' + 1, q);
    } else if q' > q {
      MulMonotone(d, q + 1, q');
    }
  }

  /** The length field reads back as the bit length. */
  lemma LengthRoundTrip(bits: nat)
    requires Fits64(bits)
    ensures BigEndian(LengthBytes(bits)) == bits
  {
    Power256Eight();
    LengthPrefix(bits, 8);
    assert LengthBytes(bits)[..8] == LengthBytes(bits);
    assert Power256(0) == 1;
  }

  lemma Power256Eight()
    ensures Power256(8) == 0x1_0000_0000_0000_0000
  {
    assert Power256(2) == 0x1_0000;
    assert Power256(4) == 0x1_0000_0000;
    assert Power256(6) == 0x1_0000_0000_0000;
  }

  /** Two different messages below 2^61 bytes never pad to the same blocks. */
  lemma PadInjective(a: seq<byte>, b: seq<byte>)
    requires Fits64(8 * |a|) && Fits64(8 * |b|) && Pad(a) == Pad(b)
    ensures a == b
  {
    PadEnds(a);
    PadEnds(b);
    LengthRoundTrip(8 * |a|);
    LengthRoundTrip(8 * |b|);
    assert a == Pad(a)[..|a|] && b == Pad(b)[..|b|];
  }

  lemma PadEnds(a: seq<byte>)
    ensures |Pad(a)| >= 8 && Pad(a)[|Pad(a)| - 8..] == LengthBytes(8 * |a|)
  {
  }
}
