// The file-transfer messages of the data channel and the validators every received
// message passes before it reaches the transfer code.

module DataChannel {
  import opened Basics
  import Base64
  import Checksum

  const MAX_FILE_TRANSFER_BYTES: nat := 256 * 1024 * 1024
  const MAX_CHUNK_BASE64_LENGTH: nat := 96 * 1024
  const MAX_CHUNK_BYTES: nat := 72 * 1024
  const MAX_TRANSFER_ID_LENGTH: nat := 80
  const MAX_FILE_NAME_LENGTH: nat := 260

  datatype Message =
    | FileStart(transferId: string, name: string, size: int)
    | FileChunk(transferId: string, index: int, data: string)
    | FileComplete(transferId: string, checksum: string)
    | FileAbort(transferId: string)

  function SanitizeString(value: string, maxLength: nat, trim: bool): Option<string> {
    if |value| > maxLength then None
    else
      var normalized := if trim then Trim(value) else value;
      if |normalized| <= maxLength then Some(normalized) else None
  }

  // A transfer id as the renderer accepts it: trimmed, and not empty.
  function SanitizeTransferId(value: string): Option<string> {
    match SanitizeString(value, MAX_TRANSFER_ID_LENGTH, true)
    case None => None
    case Some(id) => if id == "" then None else Some(id)
  }

  ghost function Sanitize(m: Message): Option<Message> {
    match SanitizeTransferId(m.transferId)
    case None => None
    case Some(id) =>
      match m
      case FileStart(_, name, size) =>
        if |name| > MAX_FILE_NAME_LENGTH || size < 0 || size > MAX_FILE_TRANSFER_BYTES then None
        else Some(FileStart(id, name, size))
      case FileChunk(_, index, data) =>
        (match Base64.SanitizeBase64(data, MAX_CHUNK_BASE64_LENGTH, MAX_CHUNK_BYTES)
         case None => None
         case Some(checked) => if index < 0 then None else Some(FileChunk(id, index, checked)))
      case FileComplete(_, checksum) =>
        (match Checksum.SanitizeChecksum(checksum)
         case None => None
         case Some(checked) => Some(FileComplete(id, checked)))
      case FileAbort(_) => Some(FileAbort(id))
  }

  lemma SanitizeTokenId(id: string)
    requires IsToken(id, MAX_TRANSFER_ID_LENGTH)
    ensures SanitizeTransferId(id) == Some(id)
  {
    TrimToken(id, MAX_TRANSFER_ID_LENGTH);
  }

  lemma TrimIsShorter(s: string)
    ensures |Trim(s)| <= |s|
  {
    TrimStartIsShorter(s);
    TrimEndEnds(TrimStart(s));
  }

  lemma {:induction false} TrimStartIsShorter(s: string)
    ensures |TrimStart(s)| <= |s|
  {
    if s != "" && IsWhitespace(s[0]) {
      TrimStartIsShorter(s[1..]);
    }
  }

  lemma IdIsValid(raw: string)
    ensures SanitizeTransferId(raw) == if Trim(raw) != "" && |raw| <= 80 then Some(Trim(raw)) else None
  {
    TrimIsShorter(raw);
  }

  /** Which start messages pass, in numbers: the id is trimmed, name and size are as sent. */
  lemma StartIsValid(raw: string, name: string, size: int)
    ensures Sanitize(FileStart(raw, name, size))
            == if Trim(raw) != "" && |raw| <= 80 && |name| <= 260 && 0 <= size <= 268435456
               then Some(FileStart(Trim(raw), name, size)) else None
  {
    IdIsValid(raw);
  }

  /** Which chunks pass: any bytes as a sender encodes them, up to 73728 of them and 98304 characters. */
  lemma ChunkIsValid(raw: string, index: int, bytes: seq<byte>)
    ensures Sanitize(FileChunk(raw, index, Base64.Encode(bytes)))
            == if Trim(raw) != "" && |raw| <= 80 && index >= 0 && bytes != [] && |bytes| <= 73728
                  && |Base64.Encode(bytes)| <= 98304
               then Some(FileChunk(Trim(raw), index, Base64.Encode(bytes))) else None
  {
    IdIsValid(raw);
    Base64.EncodePassesSanitizer(bytes, MAX_CHUNK_BASE64_LENGTH, MAX_CHUNK_BYTES);
  }

  predicate HexText(checksum: string) {
    |checksum| == 8
    && forall i :: 0 <= i < 8 ==> '0' <= checksum[i] <= '9' || 'a' <= checksum[i] <= 'f' || 'A' <= checksum[i] <= 'F'
  }

  // The same digits, in lower case.
  predicate Lowered(checksum: string, lower: string) {
    |lower| == |checksum|
    && forall i :: 0 <= i < |checksum| ==>
         lower[i] as int == checksum[i] as int + if 'A' <= checksum[i] <= 'F' then 'a' as int - 'A' as int else 0
  }

  /** A complete message passes with eight hexadecimal digits, which are put in lower case; an abort
      passes always. */
  lemma EndIsValid(raw: string, checksum: string)
    ensures var passed := Sanitize(FileComplete(raw, checksum));
      if Trim(raw) != "" && |raw| <= 80 && HexText(checksum)
      then passed.Some? && passed.value.FileComplete? && passed.value.transferId == Trim(raw)
           && Lowered(checksum, passed.value.checksum)
      else passed.None?
    ensures Sanitize(FileAbort(raw)) == if Trim(raw) != "" && |raw| <= 80 then Some(FileAbort(Trim(raw))) else None
  {
    IdIsValid(raw);
  }
}
