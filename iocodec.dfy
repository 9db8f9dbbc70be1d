/** Decoder and encoder values as the client hands them to the invocation function. The
    JSON and XML codecs themselves are not part of this model: a maker is a tag naming the
    codec it would build, and a built decoder or encoder records the format it was chosen
    for and the stream it is bound to. */
module IoCodec {

  /** A decoder constructor registered under an input format. */
  datatype DecoderMaker = JSONDecoderMaker | XMLDecoderMaker | CustomDecoderMaker(name: string)

  /** An encoder constructor registered under an output format; `pretty` selects indented output. */
  datatype EncoderMaker = JSONEncoderMaker(pretty: bool) | XMLEncoderMaker(pretty: bool) | CustomEncoderMaker(name: string)

  /** Where the request body is read from. */
  datatype Stream = Stdin | File(path: string)

  /** `iocodec.NoOp` (no request body), or a decoder built by `maker` over `source`. */
  datatype Decoder = NoOpDecoder | Decoding(format: string, maker: DecoderMaker, source: Stream)

  /** `iocodec.NoOp` (no output), or an encoder built by `maker` over standard output. */
  datatype Encoder = NoOpEncoder | Encoding(format: string, maker: EncoderMaker)
}
