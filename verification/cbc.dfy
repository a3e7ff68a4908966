/**
 * Padding and the two block loops of ms_crypto.c, over any block functions. Chaining is that of
 * section 6.2 of NIST SP 800-38A; padding that of section 6.3 of RFC 5652.
 */
module Cbc {

  type Octet = bv8

  const BLOCK: nat := 16

  type Block = s: seq<Octet> | |s| == BLOCK witness seq(16, _ => 0)

  type Cipher = Block -> Block

  const INVALID_INPUT_LENGTH: int := -0x22

  function Xor(a: Block, b: Block): (r: Block)
    ensures forall i :: 0 <= i < BLOCK ==> r[i] == a[i] ^ b[i]
  {
    seq(BLOCK, i requires 0 <= i < BLOCK => a[i] ^ b[i])
  }

  lemma OctetXorTwice(a: Octet, b: Octet)
    ensures (a ^ b) ^ b == a
  {
  }

  lemma XorTwice(a: Block, b: Block)
    ensures Xor(Xor(a, b), b) == a
  {
    forall i | 0 <= i < BLOCK
      ensures Xor(Xor(a, b), b)[i] == a[i]
    {
      OctetXorTwice(a[i], b[i]);
    }
  }

  predicate Whole(s: seq<Octet>) {
    |s| % BLOCK == 0
  }

  function Encrypt(f: Cipher, prev: Block, p: seq<Octet>): (c: seq<Octet>)
    requires Whole(p)
    ensures |c| == |p|
    decreases |p|
  {
    if p == [] then []
    else
      var out := f(Xor(p[..BLOCK], prev));
      out + Encrypt(f, out, p[BLOCK..])
  }

  function Decrypt(g: Cipher, prev: Block, c: seq<Octet>): (p: seq<Octet>)
    requires Whole(c)
    ensures |p| == |c|
    decreases |c|
  {
    if c == [] then []
    else Xor(g(c[..BLOCK]), prev) + Decrypt(g, c[..BLOCK], c[BLOCK..])
  }

  // ---------------------------------------------------------------- inversion

  lemma {:induction false} DecryptUndoes(f: Cipher, g: Cipher, prev: Block, p: seq<Octet>)
    requires Whole(p) && forall b: Block :: g(f(b)) == b
    ensures Decrypt(g, prev, Encrypt(f, prev, p)) == p
    decreases |p|
  {
    if p != [] {
      var first: Block := p[..BLOCK];
      var out := f(Xor(first, prev));
      var c := Encrypt(f, prev, p);
      assert c[..BLOCK] == out && c[BLOCK..] == Encrypt(f, out, p[BLOCK..]);
      DecryptUndoes(f, g, out, p[BLOCK..]);
      XorTwice(first, prev);
      assert p == first + p[BLOCK..];
    }
  }

  /** One block shows what the block functions must satisfy. */
  lemma OneBlock(f: Cipher, g: Cipher, iv: Block, b: Block)
    requires Decrypt(g, iv, Encrypt(f, iv, Xor(b, iv))) == Xor(b, iv)
    ensures g(f(b)) == b
  {
    var p := Xor(b, iv);
    XorTwice(b, iv);
    assert p[..BLOCK] == p && p[BLOCK..] == [];
    var c := Encrypt(f, iv, p);
    assert Encrypt(f, f(b), []) == [];
    assert c == f(b);
    assert c[..BLOCK] == c && c[BLOCK..] == [];
    assert Decrypt(g, iv, c) == Xor(g(f(b)), iv);
    XorTwice(g(f(b)), iv);
  }

  /** Decryption undoes encryption, for any number of blocks, exactly when g undoes f on one block. */
  lemma RoundTripIffInverse(f: Cipher, g: Cipher, iv: Block)
    ensures (forall p :: Whole(p) ==> Decrypt(g, iv, Encrypt(f, iv, p)) == p)
            <==> (forall b: Block :: g(f(b)) == b)
  {
    if forall b: Block :: g(f(b)) == b {
      forall p | Whole(p)
        ensures Decrypt(g, iv, Encrypt(f, iv, p)) == p
      {
        DecryptUndoes(f, g, iv, p);
      }
    }
    if forall p :: Whole(p) ==> Decrypt(g, iv, Encrypt(f, iv, p)) == p {
      forall b: Block
        ensures g(f(b)) == b
      {
        assert Whole(Xor(b, iv));
        OneBlock(f, g, iv, b);
      }
    }
  }

  /**
   * The decrypt loop as written calls the block function in its encrypting mode: then the round
   * trip holds exactly for block functions that are their own inverse.
   */
  lemma AsWrittenIffInvolution(f: Cipher, iv: Block)
    ensures (forall p :: Whole(p) ==> Decrypt(f, iv, Encrypt(f, iv, p)) == p)
            <==> (forall b: Block :: f(f(b)) == b)
  {
    RoundTripIffInverse(f, f, iv);
  }

  // ---------------------------------------------------------------- block by block

  /** Block j of a text. */
  function BlockAt(s: seq<Octet>, j: nat): Block
    requires BLOCK * j + BLOCK <= |s|
  {
    s[BLOCK * j..BLOCK * j + BLOCK]
  }

  lemma BlockAfter(first: Block, rest: seq<Octet>, j: nat)
    requires BLOCK * j + BLOCK <= |first + rest|
    ensures BlockAt(first + rest, j) == if j == 0 then first else BlockAt(rest, j - 1)
  {
  }

  lemma BlockOfRest(s: seq<Octet>, j: nat)
    requires j > 0 && BLOCK * j + BLOCK <= |s|
    ensures BlockAt(s[BLOCK..], j - 1) == BlockAt(s, j)
  {
  }

  /** Each ciphertext block is the block function on plaintext xor the ciphertext block before (or the iv). */
  lemma {:induction false} EncryptChains(f: Cipher, iv: Block, p: seq<Octet>, j: nat)
    requires Whole(p) && 16 * j + 16 <= |p|
    ensures var c := Encrypt(f, iv, p);
            BlockAt(c, j) == f(Xor(BlockAt(p, j), if j == 0 then iv else BlockAt(c, j - 1)))
    decreases j
  {
    hide Xor;
    var out := f(Xor(p[..BLOCK], iv));
    var rest := Encrypt(f, out, p[BLOCK..]);
    BlockAfter(out, rest, j);
    if j > 0 {
      EncryptChains(f, out, p[BLOCK..], j - 1);
      BlockOfRest(p, j);
      BlockAfter(out, rest, j - 1);
    }
  }

  /** Each plaintext block is the block call on the ciphertext block, xor the one before (or the iv). */
  lemma {:induction false} DecryptChains(g: Cipher, iv: Block, c: seq<Octet>, j: nat)
    requires Whole(c) && 16 * j + 16 <= |c|
    ensures var p := Decrypt(g, iv, c);
            BlockAt(p, j) == Xor(g(BlockAt(c, j)), if j == 0 then iv else BlockAt(c, j - 1))
    decreases j
  {
    hide Xor;
    var first: Block := c[..BLOCK];
    var rest := Decrypt(g, first, c[BLOCK..]);
    BlockAfter(Xor(g(first), iv), rest, j);
    if j > 0 {
      DecryptChains(g, first, c[BLOCK..], j - 1);
      BlockOfRest(c, j);
      if j > 1 {
        BlockOfRest(c, j - 1);
      }
    }
  }

  // ---------------------------------------------------------------- padding

  function PadLength(n: nat): (k: nat)
    ensures 1 <= k <= BLOCK && (n + k) % BLOCK == 0
  {
    (n / BLOCK + 1) * BLOCK - n
  }

  function Pad(p: seq<Octet>): (r: seq<Octet>)
    ensures Whole(r) && |r| == |p| + PadLength(|p|)
  {
    p + seq(PadLength(|p|), _ => PadLength(|p|) as Octet)
  }

  /** One to sixteen octets follow the text, up to a whole block, each telling their number. */
  lemma PadOctets(p: seq<Octet>)
    ensures var r := Pad(p);
            var k := |r| - |p|;
            && |r| % 16 == 0 && 1 <= k <= 16 && r[..|p|] == p
            && forall i :: |p| <= i < |r| ==> r[i] == k as Octet
  {
  }

  /** The padded text read back: its last octet says how many to drop. */
  function Unpad(r: seq<Octet>): seq<Octet> {
    if r == [] || r[|r| - 1] as nat > |r| then r else r[..|r| - r[|r| - 1] as nat]
  }

  lemma SmallOctet(k: nat)
    requires k <= BLOCK
    ensures (k as Octet) as nat == k
  {
  }

  /** Padding, encryption, decryption and removal of the padding restore any text of any length. */
  lemma PaddedRoundTrip(f: Cipher, g: Cipher, iv: Block, p: seq<Octet>)
    requires forall b: Block :: g(f(b)) == b
    ensures Unpad(Decrypt(g, iv, Encrypt(f, iv, Pad(p)))) == p
  {
    DecryptUndoes(f, g, iv, Pad(p));
    SmallOctet(PadLength(|p|));
  }

  lemma EncryptStep(f: Cipher, prev: Block, p: seq<Octet>, i: nat, done: seq<Octet>)
    requires i + BLOCK <= |p| && Whole(p[i..])
    ensures Whole(p[i + BLOCK..])
    ensures var out := f(Xor(p[i..i + BLOCK], prev));
            done + Encrypt(f, prev, p[i..]) == (done + out) + Encrypt(f, out, p[i + BLOCK..])
  {
    assert p[i..][..BLOCK] == p[i..i + BLOCK] && p[i..][BLOCK..] == p[i + BLOCK..];
  }

  lemma DecryptStep(g: Cipher, prev: Block, c: seq<Octet>, i: nat, done: seq<Octet>)
    requires i + BLOCK <= |c| && Whole(c[i..])
    ensures Whole(c[i + BLOCK..])
    ensures var first := c[i..i + BLOCK];
            done + Decrypt(g, prev, c[i..]) == (done + Xor(g(first), prev)) + Decrypt(g, first, c[i + BLOCK..])
  {
    assert c[i..][..BLOCK] == c[i..i + BLOCK] && c[i..][BLOCK..] == c[i + BLOCK..];
  }

  lemma EncryptNone(f: Cipher, prev: Block, p: seq<Octet>)
    requires p == []
    ensures Encrypt(f, prev, p) == []
  {
  }

  lemma DecryptNone(g: Cipher, prev: Block, c: seq<Octet>)
    requires c == []
    ensures Decrypt(g, prev, c) == []
  {
  }

  lemma FirstBlock(s: seq<Octet>, i: nat)
    requires i + BLOCK <= |s|
    ensures s[i..][..BLOCK] == s[i..i + BLOCK]
  {
  }

  /** s with block b written over it at i. */
  function Splice(s: seq<Octet>, i: nat, b: Block): (r: seq<Octet>)
    requires i + BLOCK <= |s|
    ensures |r| == |s|
  {
    s[..i] + b + s[i + BLOCK..]
  }

  lemma SpliceParts(s: seq<Octet>, i: nat, b: Block, n: nat)
    requires i + BLOCK <= n <= |s|
    ensures var r := Splice(s, i, b);
            r[..i + BLOCK] == s[..i] + b && r[i + BLOCK..n] == s[i..n][BLOCK..] && r[n..] == s[n..]
  {
  }

  lemma NoPartialBlock(s: seq<Octet>, i: nat)
    requires i < |s| && Whole(s[i..])
    ensures i + BLOCK <= |s|
  {
  }

  // ---------------------------------------------------------------- in place

  method Padding(payload: array<Octet>, n: nat) returns (padded: nat)
    requires n + PadLength(n) <= payload.Length
    modifies payload
    ensures padded == n + PadLength(n)
    ensures payload[..padded] == Pad(old(payload[..n]))
    ensures payload[padded..] == old(payload[padded..])
  {
    padded := (n / BLOCK + 1) * BLOCK;
    var k := padded - n;
    var i := 0;
    while i < k
      invariant 0 <= i <= k
      invariant forall j :: n <= j < n + i ==> payload[j] == k as Octet
      invariant payload[..n] == old(payload[..n])
      invariant payload[padded..] == old(payload[padded..])
    {
      payload[n + i] := k as Octet;
      i := i + 1;
    }
    assert payload[..padded] == payload[..n] + payload[n..padded];
    assert payload[n..padded] == seq(k, _ => k as Octet);
  }

  method XorInto(block: array<Octet>, other: array<Octet>)
    requires block.Length == other.Length == BLOCK && block != other
    modifies block
    ensures block[..] == Xor(old(block[..]), other[..])
  {
    var i := 0;
    while i < BLOCK
      invariant 0 <= i <= BLOCK
      invariant forall j :: 0 <= j < BLOCK ==> block[j] == if j < i then old(block[j]) ^ other[j] else old(block[j])
    {
      block[i] := block[i] ^ other[i];
      i := i + 1;
    }
    assert block[..] == Xor(old(block[..]), other[..]);
  }

  /** Fills a one-block buffer. */
  method SetBlock(to: array<Octet>, b: Block)
    requires to.Length == BLOCK
    modifies to
    ensures to[..] == b
  {
    forall i | 0 <= i < BLOCK {
      to[i] := b[i];
    }
    assert to[..] == b;
  }

  /** Writes a block into a longer buffer, starting at `at`. */
  method StoreBlock(to: array<Octet>, at: nat, b: Block)
    requires at + BLOCK <= to.Length
    modifies to
    ensures to[..] == Splice(old(to[..]), at, b)
  {
    forall i | 0 <= i < BLOCK {
      to[at + i] := b[i];
    }
    assert to[..] == Splice(old(to[..]), at, b);
  }

  method Buffer(b: Block) returns (buffer: array<Octet>)
    ensures fresh(buffer) && buffer[..] == b
  {
    buffer := new Octet[BLOCK];
    SetBlock(buffer, b);
  }

  /** One pass of the encrypting loop: payload block at i, chained, encrypted, stored and chained on. */
  method EncryptBlock(f: Cipher, payload: array<Octet>, i: nat, block: array<Octet>, chain: array<Octet>,
                      result: array<Octet>)
    requires i + BLOCK <= payload.Length && i + BLOCK <= result.Length && block.Length == chain.Length == BLOCK
    requires block != chain && block != payload && block != result && chain != payload && chain != result
    modifies block, chain, result
    ensures chain[..] == f(Xor(old(payload[i..i + BLOCK]), old(chain[..])))
    ensures result[..] == Splice(old(result[..]), i, chain[..])
  {
    hide Splice, Xor;
    SetBlock(block, payload[i..i + BLOCK]);
    XorInto(block, chain);
    SetBlock(chain, f(block[..]));
    StoreBlock(result, i, chain[..]);
  }

  /** One pass of the decrypting loop. */
  method DecryptBlock(g: Cipher, payload: array<Octet>, i: nat, block: array<Octet>, chain: array<Octet>,
                      output: array<Octet>, result: array<Octet>)
    requires i + BLOCK <= payload.Length && i + BLOCK <= result.Length
    requires block.Length == chain.Length == output.Length == BLOCK
    requires block != chain && block != output && chain != output
    requires block != payload && chain != payload && output != payload
    requires block != result && chain != result && output != result
    modifies block, chain, output, result
    ensures chain[..] == old(payload[i..i + BLOCK])
    ensures result[..] == Splice(old(result[..]), i, Xor(g(old(payload[i..i + BLOCK])), old(chain[..])))
  {
    hide Splice, Xor;
    SetBlock(block, payload[i..i + BLOCK]);
    SetBlock(output, g(block[..]));
    XorInto(output, chain);
    SetBlock(chain, block[..]);
    StoreBlock(result, i, output[..]);
  }

  /** The encrypting loop. The result buffer may be the payload itself. */
  method EncryptLoop(f: Cipher, iv: Block, payload: array<Octet>, n: nat, result: array<Octet>)
    requires n <= payload.Length && n <= result.Length && Whole(payload[..n])
    modifies result
    ensures result[..n] == Encrypt(f, iv, old(payload[..n]))
    ensures result[n..] == old(result[n..])
  {
    hide Encrypt, Xor, Splice;
    ghost var was, rest, target := payload[..n], result[n..], Encrypt(f, iv, payload[..n]);
    var block := new Octet[BLOCK];
    var chain := Buffer(iv);
    var i := 0;
    assert was[0..] == was;
    while i < n
      invariant 0 <= i <= n && Whole(was[i..])
      invariant payload[i..n] == was[i..]
      invariant result[n..] == rest
      invariant result[..i] + Encrypt(f, chain[..], was[i..]) == target
    {
      ghost var prev, before := chain[..], result[..];
      NoPartialBlock(was, i);
      EncryptStep(f, prev, was, i, before[..i]);
      FirstBlock(was, i);
      assert payload[i..i + BLOCK] == payload[i..n][..BLOCK];
      assert payload != result ==> payload[i + BLOCK..n] == payload[i..n][BLOCK..];
      EncryptBlock(f, payload, i, block, chain, result);
      SpliceParts(before, i, chain[..], n);
      i := i + BLOCK;
    }
    EncryptNone(f, chain[..], was[i..]);
    assert result[..n] == target;
  }

  /** Rejects a ragged length, otherwise encrypts. */
  method EncryptAesCbc(f: Cipher, iv: Block, payload: array<Octet>, n: nat, result: array<Octet>) returns (err: int)
    requires n <= payload.Length && n <= result.Length
    modifies result
    ensures n % BLOCK != 0 ==> err == INVALID_INPUT_LENGTH && result[..] == old(result[..])
    ensures n % BLOCK == 0 ==> && err == 0
                               && result[..n] == Encrypt(f, iv, old(payload[..n]))
                               && result[n..] == old(result[n..])
  {
    if n % BLOCK != 0 {
      return INVALID_INPUT_LENGTH;
    }
    EncryptLoop(f, iv, payload, n, result);
    err := 0;
  }

  /** The decrypting loop. The result buffer may be the payload itself. */
  method DecryptLoop(g: Cipher, iv: Block, payload: array<Octet>, n: nat, result: array<Octet>)
    requires n <= payload.Length && n <= result.Length && Whole(payload[..n])
    modifies result
    ensures result[..n] == Decrypt(g, iv, old(payload[..n]))
    ensures result[n..] == old(result[n..])
  {
    hide Decrypt, Xor, Splice;
    ghost var was, rest, target := payload[..n], result[n..], Decrypt(g, iv, payload[..n]);
    var block := new Octet[BLOCK];
    var output := new Octet[BLOCK];
    var chain := Buffer(iv);
    var i := 0;
    assert was[0..] == was;
    while i < n
      invariant 0 <= i <= n && Whole(was[i..])
      invariant payload[i..n] == was[i..]
      invariant result[n..] == rest
      invariant result[..i] + Decrypt(g, chain[..], was[i..]) == target
    {
      ghost var prev, before := chain[..], result[..];
      NoPartialBlock(was, i);
      DecryptStep(g, prev, was, i, before[..i]);
      FirstBlock(was, i);
      assert payload[i..i + BLOCK] == payload[i..n][..BLOCK];
      assert payload != result ==> payload[i + BLOCK..n] == payload[i..n][BLOCK..];
      DecryptBlock(g, payload, i, block, chain, output, result);
      SpliceParts(before, i, Xor(g(was[i..i + BLOCK]), prev), n);
      i := i + BLOCK;
    }
    DecryptNone(g, chain[..], was[i..]);
    assert result[..n] == target;
  }

  /** Rejects a ragged length, otherwise decrypts with g for the block call. */
  method DecryptAesCbc(g: Cipher, iv: Block, payload: array<Octet>, n: nat, result: array<Octet>) returns (err: int)
    requires n <= payload.Length && n <= result.Length
    modifies result
    ensures n % BLOCK != 0 ==> err == INVALID_INPUT_LENGTH && result[..] == old(result[..])
    ensures n % BLOCK == 0 ==> && err == 0
                               && result[..n] == Decrypt(g, iv, old(payload[..n]))
                               && result[n..] == old(result[n..])
  {
    if n % BLOCK != 0 {
      return INVALID_INPUT_LENGTH;
    }
    DecryptLoop(g, iv, payload, n, result);
    err := 0;
  }
}
