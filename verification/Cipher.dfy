/** The chunked RSA helpers (libavproto/include/avproto.hpp) over an abstract block primitive. */
module Cipher {
  import opened Std

  type byte = x: int | 0 <= x < 256
  type Bytes = seq<byte>

  /** `RSA_PKCS1_PADDING_SIZE`: what PKCS #1 v1.5 takes out of a block (RFC 8017, section 7.2.1). */
  const PADDING: nat := 11

  /**
   * An RSA key: `RSA_size` and the four block primitives. Type-2 padding is random, so the public
   * encryption of a block also takes the number of the random draw; the other three are
   * deterministic. `None` is OpenSSL's -1, on which `std::string::append` throws.
   */
  datatype Rsa = Rsa(
    size: nat,
    publicEncrypt: (nat, Bytes) -> Bytes,
    privateDecrypt: Bytes -> Option<Bytes>,
    privateEncrypt: (nat, Bytes) -> Bytes,
    publicDecrypt: Bytes -> Option<Bytes>)

  /** `m`, encrypted with random draw number `draw`, leaves room for the padding. */
  predicate Plain(size: nat, draw: nat, m: Bytes) {
    |m| + PADDING <= size
  }

  /** A block of at most size-11 bytes becomes exactly `size` bytes. */
  ghost predicate FillsBlock(size: nat, seal: (nat, Bytes) -> Bytes) {
    forall draw: nat, m: Bytes {:trigger Plain(size, draw, m)} :: Plain(size, draw, m) ==> |seal(draw, m)| == size
  }

  /** Nothing that comes out of a block exceeds the block buffer. */
  ghost predicate FitsBlock(size: nat, open: Bytes -> Option<Bytes>) {
    forall b: Bytes {:trigger open(b)} :: open(b).Some? ==> |open(b).value| <= size
  }

  /** `seal` fills blocks, and `open` undoes it whatever the random draw was. */
  ghost predicate Inverse(size: nat, seal: (nat, Bytes) -> Bytes, open: Bytes -> Option<Bytes>) {
    && FillsBlock(size, seal)
    && FitsBlock(size, open)
    && forall draw: nat, m: Bytes {:trigger Plain(size, draw, m)} ::
         Plain(size, draw, m) ==> open(seal(draw, m)) == Some(m)
  }

  ghost predicate BlockContract(k: Rsa) {
    && k.size > PADDING
    && Inverse(k.size, k.publicEncrypt, k.privateDecrypt)
    && Inverse(k.size, k.privateEncrypt, k.publicDecrypt)
  }

  // ----- What the loops compute -----

  /** One block per `chunk` bytes of input, the last one possibly shorter, each with its own draw. */
  function EncryptBlocks(seal: (nat, Bytes) -> Bytes, chunk: nat, draw: nat, from: Bytes): Bytes
    requires chunk > 0
    decreases |from|
  {
    if from == [] then []
    else if |from| <= chunk then seal(draw, from)
    else seal(draw, from[..chunk]) + EncryptBlocks(seal, chunk, draw + 1, from[chunk..])
  }

  /**
   * Opens one `size`-byte block after another; one bad block spoils the whole. A key of size zero
   * never advances the loop past a non-empty input, so that, too, yields no plaintext.
   */
  function DecryptBlocks(open: Bytes -> Option<Bytes>, size: nat, from: Bytes): Option<Bytes>
    decreases |from|
  {
    if from == [] then Some([])
    else if size == 0 then None
    else
      var flen := if size <= |from| then size else |from|;
      var head := open(from[..flen]);
      if head.None? then None else Prepend(head.value, DecryptBlocks(open, size, from[flen..]))
  }

  function Prepend(head: Bytes, rest: Option<Bytes>): Option<Bytes> {
    if rest.None? then None else Some(head + rest.value)
  }

  /** What is left of the input once the loop index has reached `i`. */
  function Rest(from: Bytes, i: nat): Bytes {
    if i <= |from| then from[i..] else []
  }

  /** The block buffer: the primitive overwrites its front, the caller appends that much of it. */
  method Overwrite(block: array<byte>, out: Bytes)
    requires |out| <= block.Length
    modifies block
    ensures block[..|out|] == out
  {
    for i := 0 to |out|
      invariant block[..i] == out[..i]
    {
      block[i] := out[i];
    }
  }

  /** The encryption loop shared by `RSA_public_encrypt` and `RSA_private_encrypt`. */
  method EncryptLoop(keysize: nat, seal: (nat, Bytes) -> Bytes, draw: nat, from: Bytes)
    returns (result: Bytes)
    requires keysize > PADDING && FillsBlock(keysize, seal)
    ensures result == EncryptBlocks(seal, keysize - PADDING, draw, from)
  {
    result := [];
    var block := new byte[keysize](_ => 0);
    var chunksize := keysize - PADDING;
    var inputlen := |from|;
    var i, blocks := 0, 0;
    assert Rest(from, 0) == from;
    while i < inputlen
      invariant 0 <= i
      invariant EncryptBlocks(seal, chunksize, draw, from) ==
                result + EncryptBlocks(seal, chunksize, draw + blocks, Rest(from, i))
    {
      var flen := if chunksize <= inputlen - i then chunksize else inputlen - i;
      var out := seal(draw + blocks, from[i..i + flen]);
      assert Plain(keysize, draw + blocks, from[i..i + flen]);
      EncryptAdvance(seal, chunksize, draw + blocks, from, i, flen);
      Associate(result, out, EncryptBlocks(seal, chunksize, draw + blocks + 1, Rest(from, i + chunksize)));
      Overwrite(block, out);
      result := result + block[..|out|];
      i, blocks := i + chunksize, blocks + 1;
    }
  }

  lemma Associate(a: Bytes, b: Bytes, c: Bytes)
    ensures a + (b + c) == a + b + c
  {
  }

  lemma EncryptStep(seal: (nat, Bytes) -> Bytes, chunk: nat, draw: nat, from: Bytes, flen: nat)
    requires chunk > 0 && from != [] && flen == if chunk <= |from| then chunk else |from|
    ensures EncryptBlocks(seal, chunk, draw, from) ==
            seal(draw, from[..flen]) + EncryptBlocks(seal, chunk, draw + 1, from[flen..])
  {
    if |from| <= chunk {
      assert from[..flen] == from && from[flen..] == [];
    }
  }

  /** One turn of the loop moves one block from what is left of the input to the result. */
  lemma EncryptAdvance(
      seal: (nat, Bytes) -> Bytes, chunk: nat, draw: nat, from: Bytes, i: nat, flen: nat)
    requires chunk > 0 && i < |from| && flen == if chunk <= |from| - i then chunk else |from| - i
    ensures EncryptBlocks(seal, chunk, draw, Rest(from, i)) ==
            seal(draw, from[i..i + flen]) + EncryptBlocks(seal, chunk, draw + 1, Rest(from, i + chunk))
  {
    assert Rest(from, i)[..flen] == from[i..i + flen];
    assert Rest(from, i)[flen..] == Rest(from, i + chunk);
    EncryptStep(seal, chunk, draw, Rest(from, i), flen);
  }

  /** The decryption loop shared by `RSA_private_decrypt` and `RSA_public_decrypt`. */
  method DecryptLoop(keysize: nat, open: Bytes -> Option<Bytes>, from: Bytes)
    returns (result: Option<Bytes>)
    requires keysize > 0 || from == []
    requires FitsBlock(keysize, open)
    ensures result == DecryptBlocks(open, keysize, from)
  {
    var plain: Bytes := [];
    var block := new byte[keysize](_ => 0);
    var inputlen := |from|;
    var i := 0;
    assert Rest(from, 0) == from;
    PrependNothing(DecryptBlocks(open, keysize, from));
    while i < inputlen
      invariant 0 <= i
      invariant DecryptBlocks(open, keysize, from) == Prepend(plain, DecryptBlocks(open, keysize, Rest(from, i)))
    {
      var flen := if keysize <= inputlen - i then keysize else inputlen - i;
      var out := open(from[i..i + flen]);
      assert Rest(from, i)[..flen] == from[i..i + flen];
      assert Rest(from, i)[flen..] == Rest(from, i + keysize);
      if out.None? {
        return None;
      }
      Overwrite(block, out.value);
      PrependTwice(plain, out.value, DecryptBlocks(open, keysize, Rest(from, i + keysize)));
      plain := plain + block[..|out.value|];
      i := i + keysize;
    }
    assert plain + [] == plain;
    result := Some(plain);
  }

  lemma PrependNothing(rest: Option<Bytes>)
    ensures Prepend([], rest) == rest
  {
    if rest.Some? {
      assert [] + rest.value == rest.value;
    }
  }

  lemma PrependTwice(a: Bytes, b: Bytes, rest: Option<Bytes>)
    ensures Prepend(a, Prepend(b, rest)) == Prepend(a + b, rest)
  {
    if rest.Some? {
      assert a + (b + rest.value) == a + b + rest.value;
    }
  }

  // ----- Round trips -----

  /** The least number of `d`-byte chunks that hold `n` bytes, that is, n / d rounded up. */
  function Blocks(n: nat, d: nat): (b: nat)
    requires d > 0
    ensures n <= b * d < n + d
  {
    if n == 0 then 0 else if n <= d then 1 else 1 + Blocks(n - d, d)
  }

  /** A whole block in front of the input is opened on its own. */
  lemma DecryptStep(open: Bytes -> Option<Bytes>, size: nat, head: Bytes, tail: Bytes)
    requires size > 0 && |head| == size && open(head).Some?
    ensures DecryptBlocks(open, size, head + tail) == Prepend(open(head).value, DecryptBlocks(open, size, tail))
  {
    assert (head + tail)[..size] == head && (head + tail)[size..] == tail;
  }

  /** For every key size above 11 and every input: decryption undoes encryption, block by block. */
  lemma {:induction false} BlocksRoundTrip(
      size: nat, seal: (nat, Bytes) -> Bytes, open: Bytes -> Option<Bytes>, draw: nat, from: Bytes)
    requires size > PADDING && Inverse(size, seal, open)
    ensures DecryptBlocks(open, size, EncryptBlocks(seal, size - PADDING, draw, from)) == Some(from)
    decreases |from|
  {
    if from != [] {
      var chunk := size - PADDING;
      var flen := if chunk <= |from| then chunk else |from|;
      assert Plain(size, draw, from[..flen]);
      EncryptStep(seal, chunk, draw, from, flen);
      BlocksRoundTrip(size, seal, open, draw + 1, from[flen..]);
      DecryptStep(open, size, seal(draw, from[..flen]), EncryptBlocks(seal, chunk, draw + 1, from[flen..]));
      assert from == from[..flen] + from[flen..];
    }
  }

  /** The ciphertext is one whole block per started chunk. */
  lemma {:induction false} CipherLength(size: nat, seal: (nat, Bytes) -> Bytes, draw: nat, from: Bytes)
    requires size > PADDING && FillsBlock(size, seal)
    ensures |EncryptBlocks(seal, size - PADDING, draw, from)| == size * Blocks(|from|, size - PADDING)
    decreases |from|
  {
    if from != [] {
      var chunk := size - PADDING;
      var flen := if chunk <= |from| then chunk else |from|;
      assert Plain(size, draw, from[..flen]);
      EncryptStep(seal, chunk, draw, from, flen);
      CipherLength(size, seal, draw + 1, from[flen..]);
      OneMoreBlock(size, Blocks(|from|, chunk), Blocks(|from| - flen, chunk));
    }
  }

  lemma OneMoreBlock(size: nat, b: nat, rest: nat)
    requires b == 1 + rest
    ensures size * b == size + size * rest
  {
  }

  /** Chunk number `j` of `s`, the last one possibly shorter; empty behind the last one. */
  function Chunk(s: Bytes, d: nat, j: nat): (r: Bytes)
    requires d > 0
    ensures |r| <= d
    decreases j
  {
    if j == 0 then (if d <= |s| then s[..d] else s)
    else if |s| <= d then []
    else Chunk(s[d..], d, j - 1)
  }

  /** Where it lies. */
  lemma {:induction false} ChunkIsSlice(s: Bytes, d: nat, j: nat)
    requires d > 0 && (j + 1) * d <= |s|
    ensures Chunk(s, d, j) == s[j * d..(j + 1) * d]
    decreases j
  {
    if j > 0 {
      OneBlockOn(j, d);
      OneBlockOn(j + 1, d);
      assert j * d > 0;
      ChunkIsSlice(s[d..], d, j - 1);
      SliceInside(s, d, j * d, (j + 1) * d);
    }
  }

  lemma OneBlockOn(j: nat, d: nat)
    requires j > 0 && d > 0
    ensures j * d == (j - 1) * d + d && j * d >= d
  {
  }

  lemma SliceInside(s: Bytes, d: nat, i: nat, j: nat)
    requires d <= i <= j <= |s|
    ensures s[d..][i - d..j - d] == s[i..j]
  {
  }

  /** Block number `j` of the ciphertext is chunk number `j` of the input, sealed with draw number `j`. */
  lemma {:induction false} EncryptedBlock(
      size: nat, seal: (nat, Bytes) -> Bytes, draw: nat, from: Bytes, j: nat)
    requires size > PADDING && FillsBlock(size, seal) && Chunk(from, size - PADDING, j) != []
    ensures Chunk(EncryptBlocks(seal, size - PADDING, draw, from), size, j) ==
            seal(draw + j, Chunk(from, size - PADDING, j))
    decreases j
  {
    var chunk := size - PADDING;
    var flen := if chunk <= |from| then chunk else |from|;
    var head, tail := seal(draw, from[..flen]), EncryptBlocks(seal, chunk, draw + 1, from[flen..]);
    assert Plain(size, draw, from[..flen]);
    EncryptStep(seal, chunk, draw, from, flen);
    assert (head + tail)[..size] == head && (head + tail)[size..] == tail;
    if j > 0 {
      EncryptedBlock(size, seal, draw + 1, from[flen..], j - 1);
      assert Plain(size, draw + j, Chunk(from[flen..], chunk, j - 1));
    }
  }

  /**
   * Decryption opens one block after another from the front, a last short one included; the first that does
   * not open spoils the whole, and the plaintexts are put together in order.
   */
  lemma DecryptsInOrder(open: Bytes -> Option<Bytes>, size: nat, from: Bytes)
    requires size > 0 && from != []
    ensures |from| <= size ==> DecryptBlocks(open, size, from) == open(from)
    ensures |from| > size ==>
              var head, rest := open(from[..size]), DecryptBlocks(open, size, from[size..]);
              DecryptBlocks(open, size, from) ==
              if head.None? || rest.None? then None else Some(head.value + rest.value)
  {
    if |from| <= size {
      assert from[..|from|] == from && from[|from|..] == [];
      assert open(from).Some? ==> open(from).value + [] == open(from).value;
    }
  }

  /** Nothing decrypts to nothing, and a key of no size decrypts nothing else. */
  lemma DecryptsNothing(open: Bytes -> Option<Bytes>, size: nat, from: Bytes)
    ensures DecryptBlocks(open, size, []) == Some([])
    ensures from != [] ==> DecryptBlocks(open, 0, from) == None
  {
  }

  /** A block that does not open, wherever it stands, spoils the whole. */
  lemma {:induction false} BadBlockSpoils(open: Bytes -> Option<Bytes>, size: nat, from: Bytes, j: nat)
    requires size > 0 && Chunk(from, size, j) != [] && open(Chunk(from, size, j)).None?
    ensures DecryptBlocks(open, size, from) == None
    decreases j
  {
    DecryptsInOrder(open, size, from);
    if j > 0 {
      BadBlockSpoils(open, size, from[size..], j - 1);
    }
  }

  /** What `async_sendto_op` does to the data: for the target first, then as the sender. */
  function Seal(sender: Rsa, target: Rsa, draw: nat, data: Bytes): Bytes
    requires sender.size > PADDING && target.size > PADDING
  {
    var encrypted := EncryptBlocks(target.publicEncrypt, target.size - PADDING, draw, data);
    EncryptBlocks(sender.privateEncrypt, sender.size - PADDING, 0, encrypted)
  }

  /** What the receiver does to a payload. */
  function Open(sender: Rsa, target: Rsa, payload: Bytes): Option<Bytes> {
    var stage1 := DecryptBlocks(sender.publicDecrypt, sender.size, payload);
    if stage1.None? then None else DecryptBlocks(target.privateDecrypt, target.size, stage1.value)
  }

  /** The two stages cancel although neither key size need divide the other's block boundaries. */
  lemma OpenUndoesSeal(sender: Rsa, target: Rsa, draw: nat, data: Bytes)
    requires BlockContract(sender) && BlockContract(target)
    ensures Open(sender, target, Seal(sender, target, draw, data)) == Some(data)
  {
    var encrypted := EncryptBlocks(target.publicEncrypt, target.size - PADDING, draw, data);
    BlocksRoundTrip(target.size, target.publicEncrypt, target.privateDecrypt, draw, data);
    BlocksRoundTrip(sender.size, sender.privateEncrypt, sender.publicDecrypt, 0, encrypted);
  }

  /** The receiver gets data exactly if both stages open all their blocks, and then that of the second. */
  lemma OpensInTwoStages(sender: Rsa, target: Rsa, payload: Bytes, data: Bytes)
    ensures Open(sender, target, payload) == Some(data) <==>
            exists between :: DecryptBlocks(sender.publicDecrypt, sender.size, payload) == Some(between)
              && DecryptBlocks(target.privateDecrypt, target.size, between) == Some(data)
  {
  }

  /** A payload with a block that the sender's key does not open gives nothing. */
  lemma ForgedBlockOpensNothing(sender: Rsa, target: Rsa, payload: Bytes, j: nat)
    requires sender.size > 0 && Chunk(payload, sender.size, j) != []
    requires sender.publicDecrypt(Chunk(payload, sender.size, j)).None?
    ensures Open(sender, target, payload) == None
  {
    BadBlockSpoils(sender.publicDecrypt, sender.size, payload, j);
  }

  /** The two loops in sequence, as the sender runs them. */
  method SealMessage(sender: Rsa, target: Rsa, draw: nat, data: Bytes) returns (sealed: Bytes)
    requires BlockContract(sender) && BlockContract(target)
    ensures sealed == Seal(sender, target, draw, data)
    ensures Open(sender, target, sealed) == Some(data)
  {
    var encrypted := EncryptLoop(target.size, target.publicEncrypt, draw, data);
    sealed := EncryptLoop(sender.size, sender.privateEncrypt, 0, encrypted);
    OpenUndoesSeal(sender, target, draw, data);
  }

  /** The two loops in sequence, as the receiver runs them on whatever key a packet carries. */
  method OpenMessage(sender: Rsa, target: Rsa, payload: Bytes) returns (data: Option<Bytes>)
    requires sender.size > 0 && target.size > 0
    requires FitsBlock(sender.size, sender.publicDecrypt) && FitsBlock(target.size, target.privateDecrypt)
    ensures data == Open(sender, target, payload)
  {
    var stage1 := DecryptLoop(sender.size, sender.publicDecrypt, payload);
    if stage1.None? {
      return None;
    }
    data := DecryptLoop(target.size, target.privateDecrypt, stage1.value);
  }

  // ----- The contract can be met -----

  /** The padded block 00 || kind || PS || 00 || m of RFC 8017, section 7.2.1, PS free of zeros. */
  function Pad(kind: byte, fill: byte, size: nat, m: Bytes): (b: Bytes)
    requires |m| + PADDING <= size && fill != 0
    ensures |b| == size
  {
    [0, kind] + seq(size - |m| - 3, _ => fill) + [0] + m
  }

  /** The message after the first zero byte of `b` at or past position `i`. */
  function AfterZero(b: Bytes, i: nat): (r: Option<Bytes>)
    ensures r.Some? ==> |r.value| <= |b|
    decreases |b| - i
  {
    if i >= |b| then None else if b[i] == 0 then Some(b[i + 1..]) else AfterZero(b, i + 1)
  }

  function Unpad(size: nat, b: Bytes): Option<Bytes> {
    if |b| == size then AfterZero(b, 2) else None
  }

  lemma {:induction false} AfterZeroSkips(b: Bytes, i: nat, j: nat)
    requires i <= j < |b| && b[j] == 0 && forall k :: i <= k < j ==> b[k] != 0
    ensures AfterZero(b, i) == Some(b[j + 1..])
    decreases j - i
  {
    if i < j {
      AfterZeroSkips(b, i + 1, j);
    }
  }

  /** PKCS #1 padding around the identity permutation: no secrecy, but a key that meets the contract. */
  function PaddingOnly(size: nat): Rsa {
    Rsa(
      size,
      (draw: nat, m: Bytes) => PadBlock(2, 1 + draw % 255, size, m),
      b => Unpad(size, b),
      (draw: nat, m: Bytes) => PadBlock(1, 255, size, m),
      b => Unpad(size, b))
  }

  function PadBlock(kind: byte, fill: byte, size: nat, m: Bytes): Bytes
    requires fill != 0
  {
    if |m| + PADDING <= size then Pad(kind, fill, size, m) else []
  }

  lemma PadRoundTrip(kind: byte, fill: byte, size: nat, m: Bytes)
    requires |m| + PADDING <= size && fill != 0
    ensures Unpad(size, PadBlock(kind, fill, size, m)) == Some(m)
  {
    var b := Pad(kind, fill, size, m);
    var j := size - |m| - 1;
    AfterZeroSkips(b, 2, j);
    assert b[j + 1..] == m;
  }

  lemma PaddingOnlyMeetsContract(size: nat)
    requires size > PADDING
    ensures BlockContract(PaddingOnly(size))
  {
    var k := PaddingOnly(size);
    forall draw: nat, m: Bytes {:trigger Plain(size, draw, m)} | Plain(size, draw, m)
      ensures |k.publicEncrypt(draw, m)| == size && k.privateDecrypt(k.publicEncrypt(draw, m)) == Some(m)
    {
      PadRoundTrip(2, 1 + draw % 255, size, m);
    }
    forall draw: nat, m: Bytes {:trigger Plain(size, draw, m)} | Plain(size, draw, m)
      ensures |k.privateEncrypt(draw, m)| == size && k.publicDecrypt(k.privateEncrypt(draw, m)) == Some(m)
    {
      PadRoundTrip(1, 255, size, m);
    }
  }
}
