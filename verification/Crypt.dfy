// The stream cipher of the file stores: a writer and a reader that XOR what
// passes through them with a keystream, each keeping its own position in it.
// The keystream is a parameter, fixed by the secret.
module Crypt {
  type Byte = bv8
  type Bytes = seq<Byte>
  type Keystream = nat -> Byte

  // data XORed with the keystream from position pos on.
  function Xor(ks: Keystream, pos: nat, data: Bytes): (out: Bytes)
    ensures |out| == |data|
  {
    seq(|data|, k requires 0 <= k < |data| => data[k] ^ ks(pos + k))
  }

  lemma XorTwice(ks: Keystream, pos: nat, data: Bytes)
    ensures Xor(ks, pos, Xor(ks, pos, data)) == data
  {
    forall k | 0 <= k < |data| ensures Xor(ks, pos, Xor(ks, pos, data))[k] == data[k] {
      XorBit(data[k], ks(pos + k));
    }
  }

  lemma XorBit(x: Byte, k: Byte)
    ensures (x ^ k) ^ k == x
  {
  }

  lemma XorConcat(ks: Keystream, pos: nat, a: Bytes, b: Bytes)
    ensures Xor(ks, pos, a + b) == Xor(ks, pos, a) + Xor(ks, pos + |a|, b)
  {
    forall k | 0 <= k < |a + b| ensures Xor(ks, pos, a + b)[k] == (Xor(ks, pos, a) + Xor(ks, pos + |a|, b))[k] {
      if k >= |a| { assert pos + k == pos + |a| + (k - |a|); }
    }
  }

  // The form in which stores keep content.
  function Seal(ks: Keystream, content: Bytes): Bytes { Xor(ks, 0, content) }

  lemma SealInjective(ks: Keystream, a: Bytes, b: Bytes)
    requires Seal(ks, a) == Seal(ks, b)
    ensures a == b
  {
    XorTwice(ks, 0, a);
    XorTwice(ks, 0, b);
  }

  function Concat(chunks: seq<Bytes>): Bytes {
    if chunks == [] then [] else Concat(chunks[..|chunks|-1]) + chunks[|chunks|-1]
  }

  // --- Encrypting ---

  class EncryptWriter {
    const ks: Keystream
    var pos: nat
    var out: Bytes      // what the underlying writer has accepted

    constructor (ks: Keystream)
      ensures pos == 0 && out == [] && this.ks == ks
    {
      this.ks, pos, out := ks, 0, [];
    }

    // The underlying writer accepts the first `taken` bytes; the keystream moves
    // on by the whole chunk either way.
    method Write(p: Bytes, taken: nat) returns (n: nat)
      requires taken <= |p|
      modifies this`pos, this`out
      ensures pos == old(pos) + |p| && n == taken
      ensures out == old(out) + Xor(ks, old(pos), p)[..taken]
    {
      var ct := Xor(ks, pos, p);
      pos := pos + |p|;
      out := out + ct[..taken];
      n := taken;
    }
  }

  // io.Copy into the writer: whatever the chunks, the result is that of sealing
  // the whole content at once. A source that fails leaves a prefix behind.
  method EncryptChunks(ks: Keystream, chunks: seq<Bytes>) returns (sealed: Bytes)
    ensures sealed == Seal(ks, Concat(chunks))
  {
    var w := new EncryptWriter(ks);
    var k := 0;
    while k < |chunks|
      invariant 0 <= k <= |chunks| && w.ks == ks && fresh(w)
      invariant w.out == Seal(ks, Concat(chunks[..k])) && w.pos == |Concat(chunks[..k])|
    {
      assert chunks[..k+1][..k] == chunks[..k];
      XorConcat(ks, 0, Concat(chunks[..k]), chunks[k]);
      var _ := w.Write(chunks[k], |chunks[k]|);
      k := k + 1;
    }
    assert chunks[..k] == chunks;
    sealed := w.out;
  }

  // --- Decrypting ---

  // XORKeyStream with one buffer as source and target.
  method XorInPlace(ks: Keystream, pos: nat, p: array<Byte>)
    modifies p
    ensures p[..] == Xor(ks, pos, old(p[..]))
  {
    for k := 0 to p.Length
      invariant forall j :: 0 <= j < k ==> p[j] == old(p[j]) ^ ks(pos + j)
      invariant forall j :: k <= j < p.Length ==> p[j] == old(p[j])
    {
      p[k] := p[k] ^ ks(pos + k);
    }
  }

  // What an underlying reader does with the bytes it has: they replace the
  // start of the buffer.
  method Fill(p: array<Byte>, bytes: Bytes)
    requires |bytes| <= p.Length
    modifies p
    ensures p[..] == bytes + old(p[|bytes|..])
  {
    for k := 0 to |bytes|
      invariant forall j :: 0 <= j < k ==> p[j] == bytes[j]
      invariant forall j :: k <= j < p.Length ==> p[j] == old(p[j])
    {
      p[k] := bytes[k];
    }
  }

  class DecryptReader {
    const ks: Keystream
    var pos: nat
    var source: Bytes   // what the underlying reader has yet to deliver

    constructor (ks: Keystream, source: Bytes)
      ensures pos == 0 && this.source == source && this.ks == ks
    {
      this.ks, this.source, pos := ks, source, 0;
    }

    // The underlying reader delivers `got` bytes into the caller's buffer; the
    // whole buffer is then XORed in place, old bytes included, and the keystream
    // moves on by the buffer's length.
    method Read(p: array<Byte>, got: nat) returns (n: nat)
      requires got <= p.Length && got <= |source|
      modifies this`pos, this`source, p
      ensures n == got && pos == old(pos) + p.Length && source == old(source[got..])
      ensures p[..] == Xor(ks, old(pos), old(source[..got] + p[got..]))
    {
      Fill(p, source[..got]);
      XorInPlace(ks, pos, p);
      source, pos := source[got..], pos + p.Length;
      n := got;
    }
  }

  // One read: the length of the caller's buffer and how much of it is filled.
  datatype Chunk = Chunk(size: nat, got: nat)

  predicate Possible(calls: seq<Chunk>, available: nat)
    decreases |calls|
  {
    calls == [] || (calls[0].got <= calls[0].size && calls[0].got <= available &&
      Possible(calls[1..], available - calls[0].got))
  }

  function Delivered(calls: seq<Chunk>): nat {
    if calls == [] then 0 else calls[0].got + Delivered(calls[1..])
  }

  // What a caller collects by a sequence of reads that starts at position pos.
  function Collect(ks: Keystream, pos: nat, source: Bytes, calls: seq<Chunk>): Bytes
    requires Possible(calls, |source|)
    decreases |calls|
  {
    if calls == [] then []
    else Xor(ks, pos, source[..calls[0].got]) + Collect(ks, pos + calls[0].size, source[calls[0].got..], calls[1..])
  }

  // One more read of the list.
  lemma CollectNext(ks: Keystream, pos: nat, source: Bytes, calls: seq<Chunk>, k: nat)
    requires k < |calls| && Possible(calls[k..], |source|)
    ensures calls[k].got <= calls[k].size && calls[k].got <= |source|
    ensures Possible(calls[k+1..], |source[calls[k].got..]|)
    ensures Collect(ks, pos, source, calls[k..]) ==
      Xor(ks, pos, source[..calls[k].got]) + Collect(ks, pos + calls[k].size, source[calls[k].got..], calls[k+1..])
  {
    assert calls[k..][0] == calls[k] && calls[k..][1..] == calls[k+1..];
  }

  lemma FilledPart(ks: Keystream, pos: nat, bytes: Bytes, stale: Bytes)
    ensures Xor(ks, pos, bytes + stale)[..|bytes|] == Xor(ks, pos, bytes)
  {
    XorConcat(ks, pos, bytes, stale);
  }

  // The reader run over a list of reads.
  method ReadChunks(ks: Keystream, source: Bytes, calls: seq<Chunk>) returns (content: Bytes)
    requires Possible(calls, |source|)
    ensures content == Collect(ks, 0, source, calls)
  {
    var r := new DecryptReader(ks, source);
    content := [];
    assert calls[0..] == calls && Collect(ks, 0, source, calls) == content + Collect(ks, 0, source, calls[0..]);
    assert calls[|calls|..] == [];
    for k := 0 to |calls|
      invariant fresh(r) && r.ks == ks && Possible(calls[k..], |r.source|)
      invariant Collect(ks, 0, source, calls) == content + Collect(ks, r.pos, r.source, calls[k..])
    {
      hide *;
      CollectNext(ks, r.pos, r.source, calls, k);
      var p := new Byte[calls[k].size];
      FilledPart(ks, r.pos, r.source[..calls[k].got], p[calls[k].got..]);
      var n := r.Read(p, calls[k].got);
      assert p[..n] == p[..][..n];
      content := content + p[..n];
    }
  }

  // A read after which more data comes must fill its buffer.
  predicate Filled(calls: seq<Chunk>) {
    forall i, j :: 0 <= i < j < |calls| && 0 < calls[j].got ==> calls[i].got == calls[i].size
  }

  // drift: how far the keystream is ahead of the data.
  predicate InStep(drift: nat, calls: seq<Chunk>)
    decreases |calls|
  {
    calls == [] || (calls[0].got <= calls[0].size && (0 < calls[0].got ==> drift == 0) &&
                    InStep(drift + calls[0].size - calls[0].got, calls[1..]))
  }

  predicate AllEmpty(calls: seq<Chunk>) { forall j :: 0 <= j < |calls| ==> calls[j].got == 0 }

  lemma {:induction false} InStepMeans(drift: nat, calls: seq<Chunk>, available: nat)
    requires Possible(calls, available)
    ensures InStep(drift, calls) <==> (if drift == 0 then Filled(calls) else AllEmpty(calls))
    decreases |calls|
  {
    if calls != [] {
      var first, rest := calls[0], calls[1..];
      InStepMeans(drift + first.size - first.got, rest, available - first.got);
      assert forall j :: 0 <= j < |rest| ==> rest[j] == calls[j + 1];
      assert Filled(calls) ==> Filled(rest) by {
        assert forall i, j :: 0 <= i < j < |rest| ==> rest[i] == calls[i + 1] && rest[j] == calls[j + 1];
      }
      assert AllEmpty(calls) <==> first.got == 0 && AllEmpty(rest);
      if first.got != first.size && Filled(calls) {
        assert AllEmpty(rest);
      }
    }
  }

  lemma {:induction false} InStepDecrypts(ks: Keystream, at: nat, drift: nat, data: Bytes, calls: seq<Chunk>)
    requires Possible(calls, |data|) && InStep(drift, calls)
    ensures Delivered(calls) <= |data|
    ensures Collect(ks, at + drift, Xor(ks, at, data), calls) == data[..Delivered(calls)]
    decreases |calls|
  {
    if calls != [] {
      var (n, tail) := (calls[0].got, calls[1..]);
      var sealed := Xor(ks, at, data);
      InStepTail(drift, calls, |data|);
      hide *;
      CollectFirst(ks, at + drift, sealed, calls);
      var first := Xor(ks, at + drift, sealed[..n]);
      var rest := Collect(ks, at + drift + calls[0].size, sealed[n..], tail);
      assert first == data[..n] by {
        SplitSealed(ks, at, data, n);
        FirstChunk(ks, at, drift, data, n);
      }
      assert rest == data[n..][..Delivered(tail)] by {
        SplitSealed(ks, at, data, n);
        InStepDecrypts(ks, at + n, drift + calls[0].size - n, data[n..], tail);
      }
      DeliveredFits(calls, |data|);
      SplitTaken(data, n, Delivered(tail));
    } else {
      DeliveredFits(calls, |data|);
    }
  }

  lemma InStepTail(drift: nat, calls: seq<Chunk>, available: nat)
    requires calls != [] && Possible(calls, available) && InStep(drift, calls)
    ensures calls[0].got <= calls[0].size && calls[0].got <= available && (0 < calls[0].got ==> drift == 0)
    ensures Possible(calls[1..], available - calls[0].got) && InStep(drift + calls[0].size - calls[0].got, calls[1..])
    ensures Delivered(calls) == calls[0].got + Delivered(calls[1..])
  {
  }

  lemma CollectFirst(ks: Keystream, pos: nat, source: Bytes, calls: seq<Chunk>)
    requires calls != [] && Possible(calls, |source|)
    ensures calls[0].got <= |source| && Possible(calls[1..], |source[calls[0].got..]|)
    ensures Collect(ks, pos, source, calls) ==
      Xor(ks, pos, source[..calls[0].got]) + Collect(ks, pos + calls[0].size, source[calls[0].got..], calls[1..])
  {
  }

  lemma SplitTaken(data: Bytes, n: nat, more: nat)
    requires n + more <= |data|
    ensures data[..n] + data[n..][..more] == data[..n + more]
  {
  }

  lemma SplitSealed(ks: Keystream, at: nat, data: Bytes, n: nat)
    requires n <= |data|
    ensures Xor(ks, at, data)[..n] == Xor(ks, at, data[..n])
    ensures Xor(ks, at, data)[n..] == Xor(ks, at + n, data[n..])
  {
    assert data == data[..n] + data[n..];
    XorConcat(ks, at, data[..n], data[n..]);
  }

  lemma FirstChunk(ks: Keystream, at: nat, drift: nat, data: Bytes, n: nat)
    requires n <= |data| && (0 < n ==> drift == 0)
    ensures Xor(ks, at + drift, Xor(ks, at, data[..n])) == data[..n]
  {
    if n > 0 { XorTwice(ks, at, data[..n]); }
  }

  // A keystream with a single set bit, which shows where it was applied.
  function Mark(where: nat): Keystream { k => if k == where then 1 else 0 }

  function Zeros(n: nat): Bytes { seq(n, _ => 0) }

  // The reads go wrong at some byte: the keystream marked there reveals it.
  lemma {:induction false} OutOfStep(at: nat, drift: nat, n: nat, calls: seq<Chunk>) returns (ks: Keystream)
    requires Possible(calls, n) && !InStep(drift, calls)
    ensures Delivered(calls) <= n
    ensures Collect(ks, at + drift, Xor(ks, at, Zeros(n)), calls) != Zeros(n)[..Delivered(calls)]
    decreases |calls|
  {
    var first := calls[0];
    DeliveredFits(calls, n);
    if 0 < first.got && drift != 0 {
      ks := Mark(at);
      MarkShows(at, drift, n, first.got);
    } else {
      var m := n - first.got;
      ks := OutOfStep(at + first.got, drift + first.size - first.got, m, calls[1..]);
      var source := Xor(ks, at, Zeros(n));
      SplitSealed(ks, at, Zeros(n), first.got);
      assert Zeros(n)[first.got..] == Zeros(m);
      hide Xor, InStep, Possible;
      var tail := Collect(ks, at + drift + first.size, source[first.got..], calls[1..]);
      assert at + first.got + (drift + first.size - first.got) == at + drift + first.size;
      assert Collect(ks, at + drift, source, calls)[first.got..] == tail;
      assert Zeros(n)[..Delivered(calls)][first.got..] == Zeros(m)[..Delivered(calls[1..])];
    }
  }

  lemma MarkShows(at: nat, drift: nat, n: nat, got: nat)
    requires 0 < got <= n && drift != 0
    ensures Xor(Mark(at), at + drift, Xor(Mark(at), at, Zeros(n))[..got])[0] == 1
  {
    var ks := Mark(at);
    assert Xor(ks, at, Zeros(n))[0] == 0 ^ ks(at + 0) == 1;
    assert Xor(ks, at + drift, Xor(ks, at, Zeros(n))[..got])[0] == 1 ^ ks(at + drift + 0);
    assert (1 as bv8) ^ 0 == 1;
  }

  lemma {:induction false} DeliveredFits(calls: seq<Chunk>, n: nat)
    requires Possible(calls, n)
    ensures Delivered(calls) <= n
    decreases |calls|
  {
    if calls != [] { DeliveredFits(calls[1..], n - calls[0].got); }
  }

  // Reading returns what was sealed, for every secret and every content of
  // length n, exactly when every read that is followed by more data filled its
  // buffer.
  lemma DecryptsIffFilled(n: nat, calls: seq<Chunk>)
    requires Possible(calls, n)
    ensures Delivered(calls) <= n
    ensures (forall ks: Keystream, data: Bytes | |data| == n ::
      Collect(ks, 0, Seal(ks, data), calls) == data[..Delivered(calls)])
       <==> Filled(calls)
  {
    DeliveredFits(calls, n);
    InStepMeans(0, calls, n);
    hide InStep, Collect, Filled, Xor;
    if Filled(calls) {
      forall ks: Keystream, data: Bytes | |data| == n
        ensures Collect(ks, 0, Seal(ks, data), calls) == data[..Delivered(calls)]
      {
        InStepDecrypts(ks, 0, 0, data, calls);
      }
    } else {
      var ks := OutOfStep(0, 0, n, calls);
      assert Collect(ks, 0, Seal(ks, Zeros(n)), calls) != Zeros(n)[..Delivered(calls)];
    }
  }
}
