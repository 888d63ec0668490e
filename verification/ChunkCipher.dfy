// ChunkCipher of dbs/crypto/chunked.py: the index and the final flag of a chunk are part of its
// nonce, which is why an ideal AEAD cannot be made to accept a chunk out of place.
module ChunkCipher {
  import opened Wrappers
  import opened Bytes
  import opened Container

  const NONCE_PREFIX_LENGTH: nat := 7
  const MAX_CHUNKS: nat := 0x1_0000_0000

  // chunk_nonce; None where the source raises.
  function ChunkNonce(prefix: seq<Byte>, index: nat, final: bool): Option<seq<Byte>> {
    if |prefix| != NONCE_PREFIX_LENGTH || index >= MAX_CHUNKS then None
    else Some(prefix + BigEndian(index, 4) + [ByteOf(FlagOf(final))])
  }

  // A nonce tells its prefix, the index and the final flag: no two chunks of a run share one.
  lemma NonceIsInjective(prefix: seq<Byte>, index: nat, final: bool, otherPrefix: seq<Byte>, otherIndex: nat, otherFinal: bool)
    requires ChunkNonce(prefix, index, final).Some? && ChunkNonce(prefix, index, final) == ChunkNonce(otherPrefix, otherIndex, otherFinal)
    ensures prefix == otherPrefix && index == otherIndex && final == otherFinal
  {
    assert Power256(4) == MAX_CHUNKS;
    FieldRoundTrip(index, 4);
    FieldRoundTrip(otherIndex, 4);
    hide BigEndian, FromBigEndian, ByteOf, Value;
    var (nonce, other) := (ChunkNonce(prefix, index, final).value, ChunkNonce(otherPrefix, otherIndex, otherFinal).value);
    assert nonce[..7] == prefix && other[..7] == otherPrefix;
    assert nonce[7..11] == BigEndian(index, 4) && other[7..11] == BigEndian(otherIndex, 4);
    assert nonce[11] == ByteOf(FlagOf(final)) && other[11] == ByteOf(FlagOf(otherFinal));
  }

  // AES-GCM with a fixed key: nonce, text and associated data.
  datatype Aead = Aead(
    encrypt: (seq<Byte>, seq<Byte>, seq<Byte>) -> seq<Byte>,
    decrypt: (seq<Byte>, seq<Byte>, seq<Byte>) -> Option<seq<Byte>>)
  {
    // Ideal for a run: exactly what was sealed decrypts, to what was sealed.
    ghost predicate IdealFor(prefix: seq<Byte>, associated: seq<Byte>, chunks: seq<seq<Byte>>) {
      && (forall nonce, sealed, data :: decrypt(nonce, sealed, data).Some? ==>
            exists i: nat :: i < |chunks| && WasSealed(prefix, associated, chunks, i, nonce, sealed, data)
                             && decrypt(nonce, sealed, data) == Some(chunks[i]))
      && (forall i: nat, nonce, sealed, data :: i < |chunks| && WasSealed(prefix, associated, chunks, i, nonce, sealed, data) ==>
            decrypt(nonce, sealed, data) == Some(chunks[i]))
    }

    // A cipher under a key that sealed nothing.
    ghost predicate OpensNothing() {
      forall nonce, sealed, data :: decrypt(nonce, sealed, data).None?
    }

    ghost predicate WasSealed(prefix: seq<Byte>, associated: seq<Byte>, chunks: seq<seq<Byte>>, i: nat,
                              nonce: seq<Byte>, sealed: seq<Byte>, data: seq<Byte>)
      requires i < |chunks|
    {
      && data == associated && ChunkNonce(prefix, i, i == |chunks| - 1) == Some(nonce)
      && sealed == encrypt(nonce, chunks[i], associated)
    }
  }

  function SealChunk(aead: Aead, prefix: seq<Byte>, associated: seq<Byte>, index: nat, plaintext: seq<Byte>, final: bool): Option<seq<Byte>> {
    match ChunkNonce(prefix, index, final)
    case None => None
    case Some(nonce) => Some(aead.encrypt(nonce, plaintext, associated))
  }

  function OpenChunk(aead: Aead, prefix: seq<Byte>, associated: seq<Byte>, index: nat, ciphertext: seq<Byte>, final: bool): Option<seq<Byte>> {
    match ChunkNonce(prefix, index, final)
    case None => None
    case Some(nonce) => aead.decrypt(nonce, ciphertext, associated)
  }

  // A chunk opens exactly at the index and with the flag it was sealed with, under the same nonce
  // prefix and the same associated data.
  lemma OpenedInPlace(aead: Aead, prefix: seq<Byte>, associated: seq<Byte>, chunks: seq<seq<Byte>>,
                      own: seq<Byte>, data: seq<Byte>, index: nat, sealed: seq<Byte>, final: bool)
    requires aead.IdealFor(prefix, associated, chunks) && OpenChunk(aead, own, data, index, sealed, final).Some?
    ensures own == prefix && data == associated && index < |chunks| && final == (index == |chunks| - 1)
    ensures Some(sealed) == SealChunk(aead, prefix, associated, index, chunks[index], final)
    ensures OpenChunk(aead, own, data, index, sealed, final) == Some(chunks[index])
  {
    var nonce := ChunkNonce(own, index, final).value;
    hide ChunkNonce;
    var i: nat :| i < |chunks| && aead.WasSealed(prefix, associated, chunks, i, nonce, sealed, data)
                  && aead.decrypt(nonce, sealed, data) == Some(chunks[i]);
    NonceIsInjective(own, index, final, prefix, i, i == |chunks| - 1);
  }

  lemma SealedOpens(aead: Aead, prefix: seq<Byte>, associated: seq<Byte>, chunks: seq<seq<Byte>>, i: nat)
    requires aead.IdealFor(prefix, associated, chunks) && |prefix| == NONCE_PREFIX_LENGTH && i < |chunks| <= MAX_CHUNKS
    ensures var sealed := SealChunk(aead, prefix, associated, i, chunks[i], i == |chunks| - 1);
            sealed.Some? && OpenChunk(aead, prefix, associated, i, sealed.value, i == |chunks| - 1) == Some(chunks[i])
  {
    var nonce := ChunkNonce(prefix, i, i == |chunks| - 1).value;
    hide ChunkNonce;
    assert aead.WasSealed(prefix, associated, chunks, i, nonce, aead.encrypt(nonce, chunks[i], associated), associated);
  }

  // A codec built on such a cipher, with whatever nonce prefix and header the reader found, opens
  // nothing but the run; so does one under another key, which opens nothing at all.
  lemma FoundIsAuthentic(codec: Codec, aead: Aead, own: seq<Byte>, found: seq<Byte>, prefix: seq<Byte>, written: seq<Byte>, chunks: seq<seq<Byte>>)
    requires aead.OpensNothing() || aead.IdealFor(prefix, written, chunks)
    requires forall index: nat, sealed, final :: codec.open(index, sealed, final) == OpenChunk(aead, own, found, index, sealed, final)
    ensures codec.Authentic(chunks)
    ensures own != prefix || found != written ==> forall index: nat, sealed, final :: codec.open(index, sealed, final).None?
  {
    hide OpenChunk, SealChunk, Aead.IdealFor, Aead.OpensNothing;
    forall index: nat, sealed, final | codec.open(index, sealed, final).Some?
      ensures own == prefix && found == written && index < |chunks| && final == (index == |chunks| - 1)
      ensures codec.open(index, sealed, final) == Some(chunks[index])
    {
      if aead.OpensNothing() {
        NothingOpens(aead, own, found, index, sealed, final);
      } else {
        OpenedInPlace(aead, prefix, written, chunks, own, found, index, sealed, final);
      }
    }
  }

  lemma NothingOpens(aead: Aead, prefix: seq<Byte>, data: seq<Byte>, index: nat, sealed: seq<Byte>, final: bool)
    requires aead.OpensNothing()
    ensures OpenChunk(aead, prefix, data, index, sealed, final).None?
  {}

  // Under the run's own key, prefix and header everything the run sealed opens again.
  lemma RunOpens(codec: Codec, aead: Aead, prefix: seq<Byte>, written: seq<Byte>, chunks: seq<seq<Byte>>)
    requires aead.IdealFor(prefix, written, chunks) && |prefix| == NONCE_PREFIX_LENGTH && |chunks| <= MAX_CHUNKS
    requires forall index: nat, sealed, final :: codec.open(index, sealed, final) == OpenChunk(aead, prefix, written, index, sealed, final)
    requires forall index: nat, chunk, final :: SealChunk(aead, prefix, written, index, chunk, final).Some? ==>
      codec.seal(index, chunk, final) == SealChunk(aead, prefix, written, index, chunk, final).value
    ensures codec.Opens(chunks)
  {
    hide OpenChunk, SealChunk, Aead.IdealFor;
    forall i: nat | i < |chunks|
      ensures codec.open(i, codec.seal(i, chunks[i], i == |chunks| - 1), i == |chunks| - 1) == Some(chunks[i])
    {
      SealedOpens(aead, prefix, written, chunks, i);
    }
  }
}
