/** The streaming SHA-256 object (net/src/sha256.cpp), which buffers what is short of a block. */
module Sha256 {
  import opened Fips180
  import opened Modulo
  import opened Parts

  // ---------------------------------------------------------------- one block

  /** The schedule as it is filled in: words from 0 up. */
  method FillSchedule(block: seq<Byte>) returns (w: array<Word>)
    requires |block| == BLOCK
    ensures fresh(w) && w.Length == 64 && forall t | 0 <= t < 64 :: w[t] == Schedule(block, t)
  {
    hide BigEndian, NextWord;
    w := new Word[64];
    for i := 0 to 16
      invariant forall t | 0 <= t < i :: w[t] == Schedule(block, t)
    {
      w[i] := BigEndian(block, i * 4);
    }
    for i := 16 to 64
      invariant forall t | 0 <= t < i :: w[t] == Schedule(block, t)
    {
      w[i] := NextWord(w[i - 2], w[i - 7], w[i - 15], w[i - 16]);
    }
  }

  /** The sixty-four rounds on the working variables. */
  method RunRounds(v: Vars, block: seq<Byte>) returns (r: Vars)
    requires |block| == BLOCK
    ensures r == Rounds(v, block, 64)
  {
    hide T1, T2, Add, Schedule, KAt;
    var w := FillSchedule(block);
    var a, b, c, d, e, f, g, hh := v.a, v.b, v.c, v.d, v.e, v.f, v.g, v.h;
    for i := 0 to 64
      invariant Vars(a, b, c, d, e, f, g, hh) == Rounds(v, block, i)
    {
      var t1, t2 := T1(e, f, g, hh, KAt(i), w[i]), T2(a, b, c);
      hh := g; g := f; f := e; e := Add(d, t1);
      d := c; c := b; b := a; a := Add(t1, t2);
    }
    r := Vars(a, b, c, d, e, f, g, hh);
  }

  /** `compress_one`, in place on the eight words. */
  method CompressOne(h: array<Word>, block: seq<Byte>)
    requires h.Length == 8 && |block| == BLOCK
    modifies h
    ensures h[..] == Compress(old(h[..]), block)
  {
    hide Rounds, Sum;
    var v := RunRounds(VarsOf(h[..]), block);
    var sum := Sum(h[..], v);
    for i := 0 to 8
      invariant h[..i] == sum[..i] && h.Length == 8
    {
      h[i] := sum[i];
    }
  }

  /** Whole blocks, in place. */
  method CompressBlocks(h: array<Word>, data: seq<Byte>)
    requires h.Length == 8 && |data| % BLOCK == 0
    modifies h
    ensures h[..] == Fold(old(h[..]), data)
  {
    hide Compress;
    var p := 0;
    assert data[0..] == data;
    while p < |data|
      invariant p <= |data| && p % BLOCK == 0 && h.Length == 8
      invariant Fold(h[..], data[p..]) == Fold(old(h[..]), data)
    {
      assert data[p..][..BLOCK] == data[p..p + BLOCK] && data[p..][BLOCK..] == data[p + BLOCK..];
      CompressOne(h, data[p..p + BLOCK]);
      p := p + BLOCK;
    }
  }

  lemma BitsAdd(n: nat, k: nat)
    ensures (BitLength(n) + 8 * k) % TWO64 == BitLength(n + k)
  {
    ModAdd(8 * n, 8 * k, TWO64);
  }

  // ---------------------------------------------------------------- the object

  class Sha256 {
    const h: array<Word>
    const buf: array<Byte>
    var bits: nat                     // modulo 2^64
    var held: nat
    ghost var message: seq<Byte>      // everything fed since the last reset

    /** The words are the fold of `m`'s whole blocks, but for the last `held` bytes, buffered. */
    ghost predicate Holds(m: seq<Byte>)
      reads this`held, h, buf
    {
      && h.Length == 8 && buf.Length == BLOCK
      && held <= BLOCK && held <= |m| && (|m| - held) % BLOCK == 0
      && h[..] == Fold(H0, m[..|m| - held]) && buf[..held] == m[|m| - held..]
    }

    ghost predicate Valid()
      reads this, h, buf
    {
      Holds(message) && held < BLOCK && bits == BitLength(|message|)
    }

    method Reset()
      requires h.Length == 8 && buf.Length == BLOCK
      modifies this, h, buf
      ensures Valid() && message == []
    {
      hide Compress;
      for i := 0 to 8
        invariant h[..i] == H0[..i]
      {
        h[i] := H0[i];
      }
      for i := 0 to BLOCK
        invariant h[..] == H0
      {
        buf[i] := 0;
      }
      bits, held, message := 0, 0, [];
    }

    constructor ()
      ensures Valid() && message == [] && fresh(h) && fresh(buf)
    {
      h := new Word[8];
      buf := new Byte[BLOCK];
      new;
      Reset();
    }

    /** Bytes into the buffer, after what it holds. */
    method Hold(data: seq<Byte>, ghost m: seq<Byte>)
      requires Holds(m) && held + |data| <= BLOCK
      modifies buf, this`held
      ensures Holds(m + data) && held == old(held) + |data|
    {
      hide Fold;
      ghost var was := held;
      for i := 0 to |data|
        invariant held == was && h[..] == old(h[..]) && buf[..held + i] == old(buf[..held]) + data[..i]
      {
        buf[held + i] := data[i];
      }
      held := held + |data|;
      ghost var all := m + data;
      assert all[..|all| - held] == m[..|m| - was];
      assert all[|all| - held..] == m[|m| - was..] + data;
    }

    /** A full buffer into the words. */
    method Flush(ghost m: seq<Byte>)
      requires Holds(m) && held == BLOCK
      modifies h, this`held
      ensures Holds(m) && held == 0
    {
      hide Fold;
      CompressBlocks(h, buf[..]);
      held := 0;
      ghost var n := |m| - BLOCK;
      assert buf[..] == buf[..BLOCK] && m[..|m|] == m[..n] + m[n..];
      FoldSum(H0, m[..n], m[n..]);
    }

    /** Whole blocks straight from the caller's bytes. */
    method TakeBlocks(data: seq<Byte>, ghost m: seq<Byte>)
      requires Holds(m) && held == 0 && |data| % BLOCK == 0
      modifies h
      ensures Holds(m + data)
    {
      hide Fold;
      CompressBlocks(h, data);
      assert m[..|m|] == m && (m + data)[..|m + data|] == m + data;
      FoldSum(H0, m, data);
    }

    /** The next bytes of the message. */
    method Update(data: seq<Byte>)
      requires Holds(message) && held < BLOCK
      modifies this, h, buf
      ensures Holds(message) && held < BLOCK && message == old(message) + data
      ensures bits == if |data| == 0 then old(bits) else (old(bits) + 8 * |data|) % TWO64
      ensures old(Valid()) ==> Valid()
    {
      hide Holds, BitLength, Fold;
      if |data| == 0 {
        assert message + data == message;
        return;
      }
      BitsAdd(|message|, |data|);
      bits := (bits + 8 * |data|) % TWO64;
      var rest := data;
      ghost var m := message;
      message := message + data;
      if held != 0 {
        var want := BLOCK - held;
        var take := if |rest| < want then |rest| else want;
        Hold(rest[..take], m);
        m := m + rest[..take];
        rest := rest[take..];
        assert m + rest == message;
        if held < BLOCK {
          assert m == message;
          return;
        }
        Flush(m);
      }
      if |rest| >= BLOCK {
        var n := |rest| / BLOCK * BLOCK;
        TakeBlocks(rest[..n], m);
        m := m + rest[..n];
        rest := rest[n..];
        assert m + rest == message;
      }
      if |rest| != 0 {
        Hold(rest, m);
        m := m + rest;
      }
      assert m == message;
    }

    lemma HeldIs(m: seq<Byte>)
      requires Holds(m) && held < BLOCK
      ensures held == |m| % BLOCK
    {
      hide Fold;
      var q := (|m| - held) / BLOCK;
      assert |m| == BLOCK * q + held;
    }

    /** The 1 bit and the zeros: across a block's end when the length no longer fits in this one. */
    method Pad() returns (ghost n: nat)
      requires Valid()
      modifies this, h, buf
      ensures Holds(message) && held == BLOCK - 8 && bits == old(bits)
      ensures message == old(message) + ([0x80] + Zeros(ZeroCount(|old(message)|)))
    {
      hide Holds, ZeroCount;
      var saved := bits;
      ghost var m, k := message, ZeroCount(|message|);
      n := 0;
      Update([0x80]);
      bits := saved;
      assert [0x80] + Zeros(0) == [0x80];
      HeldIs(message);
      while held != BLOCK - 8
        invariant Holds(message) && held < BLOCK && bits == saved
        invariant n <= k && message == m + ([0x80] + Zeros(n)) && held == |message| % BLOCK
        decreases k - n
      {
        Update([0]);
        bits := saved;
        n := n + 1;
        assert m + ([0x80] + Zeros(n - 1)) + [0] == m + ([0x80] + Zeros(n));
        HeldIs(message);
      }
      SameZeros(|m| + 1, n, k);
    }

    /** The digest of everything fed, after which the object is as new. */
    method Finish() returns (digest: seq<Byte>)
      requires Valid()
      modifies this, h, buf
      ensures digest == Hash(old(message))
      ensures Valid() && message == []
    {
      hide Holds, Fold, BitLength, ZeroCount, Bytes, ByteOf;
      ghost var m := message;
      var saved := bits;
      ghost var n := Pad();
      ghost var p := message;
      assert p + LengthBytes(saved)[..0] == p;
      for i := 0 to 8
        invariant Holds(p + LengthBytes(saved)[..i]) && held == BLOCK - 8 + i && bits == saved
      {
        ghost var done := LengthBytes(saved)[..i];
        Hold([ByteOf(saved, 7 - i)], p + done);
        assert p + done + [ByteOf(saved, 7 - i)] == p + LengthBytes(saved)[..i + 1];
      }
      ghost var all := p + LengthBytes(saved);
      assert LengthBytes(saved)[..8] == LengthBytes(saved);
      Flush(all);
      assert all == Fips180.Padded(m);
      WordsAre(all);
      digest := [];
      assert Bytes([]) == [] by { NoWords(); }
      for i := 0 to 8
        invariant h[..] == Fold(H0, Fips180.Padded(m)) && digest == Bytes(h[..i])
      {
        WordNext(h[..], i);
        digest := digest + WordBytes(h[i]);
      }
      assert h[..8] == h[..];
      Reset();
    }

    lemma WordsAre(m: seq<Byte>)
      requires Holds(m) && held == 0
      ensures h.Length == 8 && buf.Length == BLOCK && |m| % BLOCK == 0 && h[..] == Fold(H0, m)
    {
      hide Fold;
      assert m[..|m|] == m;
    }
  }

  lemma NoWords()
    ensures Bytes([]) == []
  {}

  lemma WordNext(words: seq<Word>, i: nat)
    requires i < |words|
    ensures Bytes(words[..i + 1]) == Bytes(words[..i]) + WordBytes(words[i])
  {
    hide WordBytes;
    assert words[..i + 1][..i] == words[..i];
  }

  /** Two counts of zeros below a block that end at the same place are one. */
  lemma SameZeros(base: nat, n: nat, k: nat)
    requires n <= k < 64 && (base + n) % 64 == (base + k) % 64
    ensures n == k
  {
    var a, b := (base + n) / 64, (base + k) / 64;
    assert k - n == 64 * (b - a);
  }

  /** However a message is split into updates, the digest is FIPS 180-4's of the whole. */
  method HashParts(parts: seq<seq<Byte>>) returns (digest: seq<Byte>)
    ensures digest == Hash(Join(parts))
  {
    hide Hash;
    var s := new Sha256();
    assert parts[0..] == parts;
    for i := 0 to |parts|
      invariant s.Valid() && fresh(s) && fresh(s.h) && fresh(s.buf) && s.message + Join(parts[i..]) == Join(parts)
    {
      ghost var was := s.message;
      assert parts[i..][1..] == parts[i + 1..];
      assert was + (parts[i] + Join(parts[i + 1..])) == was + parts[i] + Join(parts[i + 1..]);
      s.Update(parts[i]);
    }
    assert s.message == Join(parts);
    digest := s.Finish();
  }
}
