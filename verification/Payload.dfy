/** One chunk of samples on the wire, and the Rust crate's way of undoing its encoding and codec. */
module Payload {
  import opened Wrappers
  import opened ByteStrings
  import opened Transition

  const ENCODING_UNSPECIFIED := 0
  const ENCODING_PACKED := 1
  const ENCODING_TRANSITION := 2

  const CODEC_UNSPECIFIED := 0
  const CODEC_NONE := 1
  const CODEC_ZSTD := 2
  const CODEC_HEATSHRINK := 3

  /** Enumerations travel as bare numbers, so a peer may send one that is not declared. */
  datatype CaptureData = CaptureData(
    captureId: nat,
    acquisition: nat,
    stream: nat,
    seqNo: nat,
    firstSample: nat,
    sampleCount: nat,
    encoding: int,
    codec: int,
    decodedLen: nat,
    payload: Bytes)

  predicate DeclaredCodec(codec: int) {
    CODEC_UNSPECIFIED <= codec <= CODEC_HEATSHRINK
  }

  /** An undeclared codec counts as unspecified, and an unspecified codec as none. */
  function DecodePayload(data: CaptureData, unitsize: nat): Result<Bytes, DecodeError> {
    if DeclaredCodec(data.codec) && data.codec != CODEC_NONE && data.codec != CODEC_UNSPECIFIED then
      Err(CodecNotDecodable(data.codec))
    else if data.encoding == ENCODING_TRANSITION then
      Decode(data.payload, unitsize, data.sampleCount)
    else
      Ok(data.payload)
  }
}
