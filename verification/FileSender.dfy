// The sending side of a file transfer: a file is cut into 48 KiB chunks, each sent as one
// base64 message, between a start message and a complete message with the checksum.

module FileSender {
  import opened Basics
  import opened Checksum
  import opened DataChannel
  import Base64
  import FileStore

  const CHUNK_SIZE: nat := 48 * 1024

  // The offset of chunk i, and of the end of the file for the index after the last chunk.
  function Offset(size: nat, i: nat): nat { Min(i * CHUNK_SIZE, size) }

  function ChunkCount(size: nat): nat { (size + CHUNK_SIZE - 1) / CHUNK_SIZE }

  function Chunk(file: seq<byte>, i: nat): seq<byte>
    requires i < ChunkCount(|file|)
  {
    OffsetGrows(|file|, i);
    file[Offset(|file|, i)..Offset(|file|, i + 1)]
  }

  function Chunks(file: seq<byte>, n: nat): seq<seq<byte>>
    requires n <= ChunkCount(|file|)
  {
    seq(n, i requires 0 <= i < n => Chunk(file, i))
  }

  function ChunkMessage(id: string, file: seq<byte>, i: nat): Message
    requires i < ChunkCount(|file|)
  {
    FileChunk(id, i, Base64.Encode(Chunk(file, i)))
  }

  function CompleteMessage(id: string, file: seq<byte>): Message {
    FileComplete(id, FormatFileTransferChecksum(Fnv1a(file)))
  }

  // Everything a run of `sendFile` without faults puts on the channel, in order.
  function Transcript(id: string, name: string, file: seq<byte>): seq<Message> {
    [FileStart(id, name, |file|)]
    + seq(ChunkCount(|file|), i requires 0 <= i < ChunkCount(|file|) => ChunkMessage(id, file, i))
    + [CompleteMessage(id, file)]
  }

  lemma OffsetGrows(size: nat, i: nat)
    requires i < ChunkCount(size)
    ensures 0 <= Offset(size, i) < Offset(size, i + 1) <= size
    ensures Offset(size, i) == i * CHUNK_SIZE
    ensures Offset(size, i + 1) - Offset(size, i) <= CHUNK_SIZE
  {
  }

  lemma OffsetOfEnd(size: nat)
    ensures Offset(size, ChunkCount(size)) == size
  {
  }

  // Only the end of the file is at offset `size`.
  lemma OffsetReachesEnd(size: nat, i: nat)
    requires i <= ChunkCount(size) && Offset(size, i) == size
    ensures i == ChunkCount(size)
  {
    if i < ChunkCount(size) {
      OffsetGrows(size, i);
    }
  }

  lemma ChunkLength(file: seq<byte>, i: nat)
    requires i < ChunkCount(|file|)
    ensures 1 <= |Chunk(file, i)| <= 49152
    ensures |Chunk(file, i)| == Offset(|file|, i + 1) - Offset(|file|, i)
  {
    OffsetGrows(|file|, i);
  }

  lemma PrefixGrowsByChunk(file: seq<byte>, i: nat)
    requires i < ChunkCount(|file|)
    ensures Offset(|file|, i) <= |file| && Offset(|file|, i + 1) <= |file|
    ensures file[..Offset(|file|, i)] + Chunk(file, i) == file[..Offset(|file|, i + 1)]
  {
    OffsetGrows(|file|, i);
  }

  lemma {:induction false} PrefixOfChunks(file: seq<byte>, n: nat)
    requires n <= ChunkCount(|file|)
    ensures Offset(|file|, n) <= |file|
    ensures Flatten(Chunks(file, n)) == file[..Offset(|file|, n)]
  {
    if n > 0 {
      PrefixOfChunks(file, n - 1);
      PrefixGrowsByChunk(file, n - 1);
      assert Chunks(file, n) == Chunks(file, n - 1) + [Chunk(file, n - 1)];
      FlattenAppend(Chunks(file, n - 1), Chunk(file, n - 1));
    }
  }

  /** The chunks are ceil(size / 49152) non-empty pieces whose concatenation is the file, and the
      checksum folded over them is the checksum of the file. */
  lemma ChunksAreTheFile(file: seq<byte>)
    ensures Flatten(Chunks(file, ChunkCount(|file|))) == file
    ensures FoldChunks(FNV_OFFSET, Chunks(file, ChunkCount(|file|))) == Fnv1a(file)
  {
    PrefixOfChunks(file, ChunkCount(|file|));
    OffsetOfEnd(|file|);
    ChunkedFoldIsWholeFold(FNV_OFFSET, Chunks(file, ChunkCount(|file|)));
  }

  lemma ChunkCountIsCeiling(size: nat)
    ensures (ChunkCount(size) - 1) * 49152 < size <= ChunkCount(size) * 49152
  {
  }

  /** Every message of a transfer passes the receiver's validators unchanged. */
  lemma TranscriptPassesSanitizer(id: string, name: string, file: seq<byte>, k: nat)
    requires IsToken(id, MAX_TRANSFER_ID_LENGTH) && |name| <= MAX_FILE_NAME_LENGTH
    requires |file| <= MAX_FILE_TRANSFER_BYTES
    requires k < |Transcript(id, name, file)|
    ensures Sanitize(Transcript(id, name, file)[k]) == Some(Transcript(id, name, file)[k])
  {
    TranscriptAt(id, name, file, k);
    if k == 0 {
      StartPassesSanitizer(id, name, |file|);
    } else if k <= ChunkCount(|file|) {
      ChunkMessagePasses(id, file, k - 1, Transcript(id, name, file)[k]);
    } else {
      CompletePassesSanitizer(id, file);
    }
  }

  lemma StartPassesSanitizer(id: string, name: string, size: nat)
    requires IsToken(id, MAX_TRANSFER_ID_LENGTH) && |name| <= MAX_FILE_NAME_LENGTH
    requires size <= MAX_FILE_TRANSFER_BYTES
    ensures Sanitize(FileStart(id, name, size)) == Some(FileStart(id, name, size))
  {
    SanitizeTokenId(id);
  }

  lemma TranscriptAt(id: string, name: string, file: seq<byte>, k: nat)
    requires k < |Transcript(id, name, file)|
    ensures |Transcript(id, name, file)| == ChunkCount(|file|) + 2
    ensures Transcript(id, name, file)[k]
         == if k == 0 then FileStart(id, name, |file|)
            else if k <= ChunkCount(|file|) then ChunkMessage(id, file, k - 1)
            else CompleteMessage(id, file)
  {
  }

  lemma CompletePassesSanitizer(id: string, file: seq<byte>)
    requires IsToken(id, MAX_TRANSFER_ID_LENGTH)
    ensures Sanitize(CompleteMessage(id, file)) == Some(CompleteMessage(id, file))
  {
    SanitizeTokenId(id);
    FormatPassesSanitizer(Fnv1a(file));
  }

  lemma ChunkMessagePasses(id: string, file: seq<byte>, i: nat, m: Message)
    requires IsToken(id, MAX_TRANSFER_ID_LENGTH)
    requires i < ChunkCount(|file|) && m == ChunkMessage(id, file, i)
    ensures Sanitize(m) == Some(m)
  {
    var chunk := Chunk(file, i);
    SanitizeTokenId(id);
    ChunkLength(file, i);
    Base64.EncodeShape(chunk);
    Base64.GroupCountValue(|chunk|);
    Base64.EncodePassesSanitizer(chunk, MAX_CHUNK_BASE64_LENGTH, MAX_CHUNK_BYTES);
  }

  // Every chunk message passes the renderer's validator unchanged, decodes to its chunk, and as a
  // call to the main process is within that process's limits too.
  lemma ChunkPassesSanitizer(id: string, file: seq<byte>, i: nat)
    requires IsToken(id, MAX_TRANSFER_ID_LENGTH)
    requires i < ChunkCount(|file|)
    ensures Sanitize(ChunkMessage(id, file, i)) == Some(ChunkMessage(id, file, i))
    ensures Base64.Atob(ChunkMessage(id, file, i).data) == Some(Chunk(file, i))
    ensures FileStore.ValidAppend(id, i, Chunk(file, i))
  {
    ChunkMessagePasses(id, file, i, ChunkMessage(id, file, i));
    ChunkLength(file, i);
    Base64.RoundTrip(Chunk(file, i));
    FileStore.SanitizeTokenId(id);
  }

  // One turn of the sending loop: the bytes read are chunk i, and the message is the next one.
  lemma SendingTurn(id: string, name: string, file: seq<byte>, i: nat)
    requires Offset(|file|, i) < |file|
    ensures i < ChunkCount(|file|)
    ensures Offset(|file|, i) < Offset(|file|, i + 1) <= |file|
    ensures Min(Offset(|file|, i) + CHUNK_SIZE, |file|) == Offset(|file|, i + 1)
    ensures Transcript(id, name, file)[..i + 2]
         == Transcript(id, name, file)[..i + 1]
            + [FileChunk(id, i, Base64.Encode(file[Offset(|file|, i)..Offset(|file|, i + 1)]))]
    ensures Fold(Fnv1a(file[..Offset(|file|, i)]), file[Offset(|file|, i)..Offset(|file|, i + 1)])
         == Fnv1a(file[..Offset(|file|, i + 1)])
  {
    assert i < ChunkCount(|file|);
    OffsetGrows(|file|, i);
    PrefixGrowsByChunk(file, i);
    FoldConcat(FNV_OFFSET, file[..Offset(|file|, i)], Chunk(file, i));
    var t := Transcript(id, name, file);
    assert t[i + 1] == ChunkMessage(id, file, i);
    assert t[..i + 2] == t[..i + 1] + [t[i + 1]];
  }

  lemma SendingEnd(id: string, name: string, file: seq<byte>, i: nat)
    requires i <= ChunkCount(|file|) && Offset(|file|, i) == |file|
    ensures i == ChunkCount(|file|)
    ensures file[..Offset(|file|, i)] == file
    ensures Transcript(id, name, file) == Transcript(id, name, file)[..i + 1] + [CompleteMessage(id, file)]
  {
    OffsetReachesEnd(|file|, i);
  }

  // What `sendFile` has put on the channel when it returns or throws. `healthy(k)` stands for the
  // checks made before message k: channel open, no abort from the receiver, drained, file readable.
  // `abortSent` tells whether the channel could still take the abort message of a failed run, and
  // `delivered` counts the transcript messages sent.
  method SendFile(id: string, name: string, file: seq<byte>, healthy: nat -> bool, abortSent: bool)
    returns (sent: seq<Message>, delivered: nat, ok: bool)
    ensures |file| > 268435456 ==> !ok && delivered == 0
    ensures delivered <= ChunkCount(|file|) + 2
    ensures forall k :: 0 <= k < delivered ==> healthy(k)
    ensures ok ==> delivered == ChunkCount(|file|) + 2 && healthy(delivered)
    ensures !ok && |file| <= 268435456 ==> !healthy(delivered)
    ensures sent == Transcript(id, name, file)[..delivered]
                    + if !ok && delivered > 0 && abortSent then [FileAbort(id)] else []
  {
    sent, delivered, ok := [], 0, false;
    if |file| > MAX_FILE_TRANSFER_BYTES || !healthy(0) {
      return;
    }
    sent, delivered := [FileStart(id, name, |file|)], 1;
    var offset, index, checksum := 0, 0, FNV_OFFSET;
    while offset < |file|
      invariant index <= ChunkCount(|file|) && offset == Offset(|file|, index) <= |file|
      invariant checksum == Fnv1a(file[..offset])
      invariant delivered == index + 1 && sent == Transcript(id, name, file)[..delivered]
      invariant forall k :: 0 <= k < delivered ==> healthy(k)
      decreases |file| - offset
    {
      if !healthy(delivered) {
        sent := sent + if abortSent then [FileAbort(id)] else [];
        return;
      }
      SendingTurn(id, name, file, index);
      var bytes := file[offset..Min(offset + CHUNK_SIZE, |file|)];
      checksum := UpdateFileTransferChecksum(checksum, bytes);
      sent, delivered := sent + [FileChunk(id, index, Base64.Encode(bytes))], delivered + 1;
      offset, index := offset + |bytes|, index + 1;
    }
    SendingEnd(id, name, file, index);
    if !healthy(delivered) {
      sent := sent + if abortSent then [FileAbort(id)] else [];
      return;
    }
    sent, delivered := sent + [FileComplete(id, FormatFileTransferChecksum(checksum))], delivered + 1;
    if !healthy(delivered) {
      sent := sent + if abortSent then [FileAbort(id)] else [];
      return;
    }
    ok := true;
  }
}
