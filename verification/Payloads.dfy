/** Compressing a payload for the wire and decoding it within the size limit. */
module Payloads {
  import opened Basics
  import opened Wire
  import opened Messages

  const MAX_DECODED_BYTES: nat := 64 * 1024 * 1024

  /** GZIP as two parameters: a compressor, and a reader that stops after a number of bytes. */
  datatype Gzip = Gzip(compress: Bytes -> Bytes, read: (Bytes, nat) -> Option<Bytes>)

  function FirstBytes(data: Bytes, n: nat): Bytes {
    if |data| <= n then data else data[..n]
  }

  /** Reading what was compressed gives the data back, as far as one reads. */
  ghost predicate Inverse(gz: Gzip) {
    forall data, n :: gz.read(gz.compress(data), n) == Some(FirstBytes(data, n))
  }

  datatype DecodeError = SizeMismatch | OverLimit | NoRawSize | InvalidGzip | RawSizeMismatch

  datatype Packed = Packed(payload: Payload, compression: Option<CompressedInfo>)

  predicate Compresses(data: Bytes, threshold: nat, wanted: bool) {
    wanted && |data| > threshold
  }

  /** The message a key or value becomes; None when a length does not fit its uint32 field. */
  function Pack(gz: Gzip, data: Bytes, threshold: nat, wanted: bool): Option<Packed> {
    var body := if Compresses(data, threshold, wanted) then gz.compress(data) else data;
    if |body| > UINT32_MAX || |data| > UINT32_MAX then None
    else Some(Packed(Payload(body, |body|),
                     if Compresses(data, threshold, wanted) then Some(CompressedInfo(true, Some(|data|))) else None))
  }

  /**
   The written message: a payload is compressed exactly when that is wanted and it is longer than
   the threshold; then the message announces its raw length, and otherwise it holds the bytes.
   */
  lemma PackedMessage(gz: Gzip, data: Bytes, threshold: nat, wanted: bool)
    requires Pack(gz, data, threshold, wanted).Some?
    ensures var packed := Pack(gz, data, threshold, wanted).value;
            && packed.payload.size == |packed.payload.bytes|
            && if wanted && |data| > threshold then
                 && packed.payload.bytes == gz.compress(data)
                 && packed.compression == Some(CompressedInfo(true, Some(|data|)))
               else packed.payload.bytes == data && packed.compression == None
  {
  }

  function Unpack(gz: Gzip, payload: Payload, compression: Option<CompressedInfo>): Result<Bytes, DecodeError> {
    var info := if compression.Some? then compression.value else CompressedInfo(false, None);
    if |payload.bytes| != payload.size then Failure(SizeMismatch)
    else if !info.enabled then
      if |payload.bytes| > MAX_DECODED_BYTES then Failure(OverLimit) else Success(payload.bytes)
    else if info.rawSize.None? || info.rawSize.value == 0 then Failure(NoRawSize)
    else if info.rawSize.value > MAX_DECODED_BYTES then Failure(OverLimit)
    else match gz.read(payload.bytes, info.rawSize.value + 1)
      case None => Failure(InvalidGzip)
      case Some(decoded) => if |decoded| == info.rawSize.value then Success(decoded) else Failure(RawSizeMismatch)
  }

  /**
   Whether compressed or not, what was packed decodes to the original bytes exactly when they
   are within the decoded-size limit; otherwise decoding refuses them as too large.
   */
  lemma PackRoundTrip(gz: Gzip, data: Bytes, threshold: nat, wanted: bool)
    requires Inverse(gz) && Pack(gz, data, threshold, wanted).Some?
    ensures var packed := Pack(gz, data, threshold, wanted).value;
            Unpack(gz, packed.payload, packed.compression)
            == if |data| <= MAX_DECODED_BYTES then Success(data) else Failure(OverLimit)
  {
    if Compresses(data, threshold, wanted) {
      assert gz.read(gz.compress(data), |data| + 1) == Some(FirstBytes(data, |data| + 1));
    }
  }

  /** Nothing longer than the limit, or of a length other than announced, is ever decoded. */
  lemma UnpackIsBounded(gz: Gzip, payload: Payload, compression: Option<CompressedInfo>)
    requires Unpack(gz, payload, compression).Success?
    ensures var data := Unpack(gz, payload, compression).value;
            && |data| <= MAX_DECODED_BYTES
            && |payload.bytes| == payload.size
            && (if compression.Some? && compression.value.enabled then
                  compression.value.rawSize == Some(|data|) && data != []
                else data == payload.bytes)
  {
  }
}
