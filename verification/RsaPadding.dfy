/** The padding check on a decrypted RSA signature. */
module RsaPadding {
  const SIZE := 256
  const HASH_SIZE := 32

  type Hash = h: seq<bv8> | |h| == HASH_SIZE witness seq(HASH_SIZE, _ => 0)

  /** The DER prefix of a SHA-256 digest, note 1 in section 9.2 of RFC 8017. */
  const PREFIX: seq<bv8> := [0x30, 0x31, 0x30, 0x0D, 0x06, 0x09, 0x60, 0x86, 0x48, 0x01, 0x65, 0x03, 0x04, 0x02, 0x01,
                             0x05, 0x00, 0x04, 0x20]

  /** EMSA-PKCS1-v1_5, section 9.2 of RFC 8017: 00 01 PS 00 T with T the prefix and
      the hash, and PS as many FF bytes as it takes. */
  function Encoded(hash: Hash, length: nat): (em: seq<bv8>)
    requires length >= |PREFIX| + HASH_SIZE + 11
    ensures |em| == length
  {
    var t := PREFIX + hash;
    [0x00, 0x01] + seq(length - |t| - 3, _ => 0xFF) + [0x00] + t
  }

  /** The block lies in memory with its last byte first. */
  function Reversed(s: seq<bv8>): (r: seq<bv8>)
    ensures |r| == |s|
  {
    seq(|s|, i requires 0 <= i < |s| => s[|s| - 1 - i])
  }

  /** The bytes from padPtr on have been read, from the end of the block down, and
      they are the ones of the encoding. */
  ghost predicate Matches(block: seq<bv8>, em: seq<bv8>, padPtr: nat, order: seq<nat>) {
    && |block| == |em| == SIZE && padPtr <= SIZE && |order| == SIZE - padPtr
    && (forall i :: 0 <= i < |order| ==> order[i] == SIZE - 1 - i)
    && (forall i :: 0 <= i < SIZE - padPtr ==> Reversed(block)[i] == em[i])
  }

  /** One comparison of *--pad_ptr. */
  method Expect(block: array<bv8>, padPtr: nat, b: bv8, ghost em: seq<bv8>, ghost order0: seq<nat>)
    returns (ok: bool, next: nat, ghost order: seq<nat>)
    requires block.Length == SIZE && 0 < padPtr <= SIZE && Matches(block[..], em, padPtr, order0)
    requires em[SIZE - padPtr] == b
    ensures next == padPtr - 1 && order == order0 + [next]
    ensures ok ==> Matches(block[..], em, next, order)
    ensures !ok ==> Reversed(block[..]) != em
  {
    next := padPtr - 1;
    order := order0 + [next];
    ok := block[next] == b;
    assert Reversed(block[..])[SIZE - padPtr] == block[next];
  }

  /** RecreatePaddingAndCheck: the block is accepted exactly when it is the encoding
      of the hash. Each byte is read at most once, from the last one down, and all of
      them when the block is accepted. */
  method RecreatePaddingAndCheck(signature: array<bv8>, hash: Hash) returns (ok: bool, ghost order: seq<nat>)
    requires signature.Length == SIZE
    ensures ok <==> Reversed(signature[..]) == Encoded(hash, SIZE)
    ensures |order| <= SIZE && (forall i :: 0 <= i < |order| ==> order[i] == SIZE - 1 - i)
    ensures ok ==> |order| == SIZE
  {
    hide Reversed, Encoded;
    ghost var em := Encoded(hash, SIZE);
    Layout(hash);
    order := [];
    var padPtr, pad := SIZE, SIZE - 3 - 19 - 32;
    ok, padPtr, order := Expect(signature, padPtr, 0x00, em, order);
    if !ok { return; }
    ok, padPtr, order := Expect(signature, padPtr, 0x01, em, order);
    if !ok { return; }
    var i := 0;
    while i < pad
      invariant 0 <= i <= pad && padPtr == SIZE - 2 - i && Matches(signature[..], em, padPtr, order)
    {
      ok, padPtr, order := Expect(signature, padPtr, 0xFF, em, order);
      if !ok { return; }
      i := i + 1;
    }
    ok, padPtr, order := Expect(signature, padPtr, 0x00, em, order);
    if !ok { return; }
    i := 0;
    while i < |PREFIX|
      invariant 0 <= i <= |PREFIX| && padPtr == 51 - i && Matches(signature[..], em, padPtr, order)
    {
      ok, padPtr, order := Expect(signature, padPtr, PREFIX[i], em, order);
      if !ok { return; }
      i := i + 1;
    }
    i := 0;
    while i < HASH_SIZE
      invariant 0 <= i <= HASH_SIZE && padPtr == HASH_SIZE - i && Matches(signature[..], em, padPtr, order)
    {
      ok, padPtr, order := Expect(signature, padPtr, hash[i], em, order);
      if !ok { return; }
      i := i + 1;
    }
    ok := true;
    assert Reversed(signature[..]) == em;
  }

  lemma Layout(hash: Hash)
    ensures var em := Encoded(hash, SIZE);
            && em[0] == 0x00 && em[1] == 0x01 && (forall i :: 2 <= i < 204 ==> em[i] == 0xFF) && em[204] == 0x00
            && (forall i :: 0 <= i < 19 ==> em[205 + i] == PREFIX[i])
            && (forall i :: 0 <= i < 32 ==> em[224 + i] == hash[i])
  {
  }

  /** A block is accepted for one hash at most. */
  lemma OneHash(signature: seq<bv8>, h1: Hash, h2: Hash)
    requires |signature| == SIZE
    requires Reversed(signature) == Encoded(h1, SIZE) && Reversed(signature) == Encoded(h2, SIZE)
    ensures h1 == h2
  {
    hide Reversed, Encoded;
    Layout(h1);
    Layout(h2);
    forall i | 0 <= i < HASH_SIZE ensures h1[i] == h2[i] {
      assert Encoded(h1, SIZE)[224 + i] == h1[i] && Encoded(h2, SIZE)[224 + i] == h2[i];
    }
  }
}
