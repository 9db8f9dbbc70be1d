/** Choosing the request decoder and the response encoder from the configuration
    (`makeDecoder`, `makeEncoder`). Both are first-match-wins decision cascades. */
module Codecs {
  import opened Errors
  import opened IoCodec
  import opened Paths
  import opened Environment
  import opened Configuration

  /** The request body comes from standard input: it is piped in, or the file is "-". */
  predicate ReadsStdin(c: Config, fs: FileSystem)
  {
    !fs.stdinIsCharDevice || c.requestFile == "-"
  }

  /** A request file is named, and is to be opened. */
  predicate ReadsFile(c: Config, fs: FileSystem)
  {
    !ReadsStdin(c, fs) && c.requestFile != ""
  }

  /** The request file opens and its extension names a registered input format. */
  predicate ExtensionSelects(c: Config, fs: FileSystem)
  {
    && ReadsFile(c, fs)
    && fs.open(c.requestFile).Success?
    && RequestExtension(c.requestFile) != ""
    && RequestExtension(c.requestFile) in c.inDecoders
  }

  /** There is a stream to decode from: standard input, or a request file that opened. */
  predicate HasStream(c: Config, fs: FileSystem)
  {
    ReadsStdin(c, fs) || (ReadsFile(c, fs) && fs.open(c.requestFile).Success?)
  }

  /** `makeDecoder`. */
  function MakeDecoder(c: Config, fs: FileSystem): (r: Result<Decoder>)
    // the only errors: the file would not open, or the named format is unknown
    ensures r.Err? ==>
              || (r.error.RequestFileError? && ReadsFile(c, fs) && fs.open(c.requestFile) == Failure(r.error.cause))
              || r.error == UnknownRequestFormat(c.requestFormat)
    // a decoder is always one the registry holds, under the format it reports
    ensures r.Ok? && r.value.Decoding? ==>
              r.value.format in c.inDecoders && c.inDecoders[r.value.format] == r.value.maker
    // it reads standard input exactly when stdin is piped or the file is "-", else the file
    ensures r.Ok? && r.value.Decoding? ==>
              (r.value.source == Stdin <==> ReadsStdin(c, fs))
              && (r.value.source.File? ==> r.value.source.path == c.requestFile)
    // the format is the file's extension when that selects, else the requested format
    ensures r.Ok? && r.value.Decoding? ==>
              r.value.format == if ExtensionSelects(c, fs) then RequestExtension(c.requestFile) else c.requestFormat
  {
    if ReadsStdin(c, fs) then
      DecoderFor(c, Some(Stdin))
    else if c.requestFile != "" then
      match fs.open(c.requestFile)
      case Failure(cause) => Err(RequestFileError(cause))
      case Success(_) =>
        var ext := RequestExtension(c.requestFile);
        if ext != "" && ext in c.inDecoders then
          Ok(Decoding(ext, c.inDecoders[ext], File(c.requestFile)))
        else
          DecoderFor(c, Some(File(c.requestFile)))
    else
      DecoderFor(c, None)
  }

  /** The tail of `makeDecoder`: with no stream or no requested format, no decoder; else
      the requested format's decoder over the stream. */
  function DecoderFor(c: Config, stream: Option<Stream>): (r: Result<Decoder>)
    // no decoder, and no error, exactly when there is no stream or no requested format
    ensures r == Ok(NoOpDecoder) <==> stream.None? || c.requestFormat == ""
    // otherwise the requested format's registered maker over the stream, or the error naming it
    ensures r.Err? <==> stream.Some? && c.requestFormat != "" && c.requestFormat !in c.inDecoders
    ensures r.Err? ==> r.error == UnknownRequestFormat(c.requestFormat)
    ensures r.Ok? && r.value.Decoding? ==>
              && stream == Some(r.value.source)
              && r.value.format == c.requestFormat
              && c.inDecoders[c.requestFormat] == r.value.maker
  {
    if stream.None? || c.requestFormat == "" then Ok(NoOpDecoder)
    else if c.requestFormat !in c.inDecoders then Err(UnknownRequestFormat(c.requestFormat))
    else Ok(Decoding(c.requestFormat, c.inDecoders[c.requestFormat], stream.value))
  }

  /** Standard input comes first: when it is piped or the file is "-", no file is opened
      and the file name (and so its extension) plays no part. */
  lemma StdinComesFirst(c: Config, fs: FileSystem, otherFile: string, otherOpen: string -> Io<()>)
    requires ReadsStdin(c, fs)
    ensures MakeDecoder(c, fs) == MakeDecoder(c.(requestFile := "-"), fs.(open := otherOpen))
    ensures !fs.stdinIsCharDevice ==> MakeDecoder(c, fs) == MakeDecoder(c.(requestFile := otherFile), fs)
    ensures MakeDecoder(c, fs).Ok? && MakeDecoder(c, fs).value.Decoding? ==>
              MakeDecoder(c, fs).value.source == Stdin
  {
  }

  /** A request file whose extension is a registered input format is decoded with that
      format, whatever format was requested (even an empty or unknown one). */
  lemma ExtensionOverridesFormat(c: Config, fs: FileSystem, format: string)
    requires ExtensionSelects(c, fs)
    ensures MakeDecoder(c.(requestFormat := format), fs)
              == Ok(Decoding(RequestExtension(c.requestFile), c.inDecoders[RequestExtension(c.requestFile)], File(c.requestFile)))
  {
  }

  /** A request file that fails to open is reported before any format is looked at. */
  lemma OpenFailureComesFirst(c: Config, fs: FileSystem, format: string, registry: map<string, DecoderMaker>)
    requires ReadsFile(c, fs) && fs.open(c.requestFile).Failure?
    ensures MakeDecoder(c.(requestFormat := format, inDecoders := registry), fs)
              == Err(RequestFileError(fs.open(c.requestFile).cause))
  {
  }

  /** "unknown request format" is reported exactly when there is a stream, no extension
      selected a decoder, and the requested format is non-empty and unregistered. */
  lemma UnknownRequestFormatExactly(c: Config, fs: FileSystem)
    ensures MakeDecoder(c, fs) == Err(UnknownRequestFormat(c.requestFormat)) <==>
              && HasStream(c, fs)
              && !ExtensionSelects(c, fs)
              && c.requestFormat != ""
              && c.requestFormat !in c.inDecoders
  {
  }

  /** No decoder (and no error) exactly when no stream was found, or the stream is there
      but no format was requested and the file's extension did not select one. */
  lemma NoOpDecoderExactly(c: Config, fs: FileSystem)
    ensures MakeDecoder(c, fs) == Ok(NoOpDecoder) <==>
              && !(ReadsFile(c, fs) && fs.open(c.requestFile).Failure?)
              && !ExtensionSelects(c, fs)
              && (!HasStream(c, fs) || c.requestFormat == "")
  {
  }

  /** `makeEncoder`. */
  function MakeEncoder(c: Config): (r: Result<Encoder>)
    // it fails exactly on a non-empty, unregistered format, and says which
    ensures r.Ok? <==> c.responseFormat == "" || c.responseFormat in c.outEncoders
    ensures r.Err? ==> r.error == UnknownResponseFormat(c.responseFormat)
    // no output exactly when no format is asked for
    ensures r == Ok(NoOpEncoder) <==> c.responseFormat == ""
    // otherwise the registered encoder of that very format
    ensures r.Ok? && r.value.Encoding? ==>
              r.value.format == c.responseFormat && c.outEncoders[c.responseFormat] == r.value.maker
  {
    if c.responseFormat == "" then Ok(NoOpEncoder)
    else if c.responseFormat !in c.outEncoders then Err(UnknownResponseFormat(c.responseFormat))
    else Ok(Encoding(c.responseFormat, c.outEncoders[c.responseFormat]))
  }

  /** Registering an output format makes it selectable, and leaves the choice for every
      other format as it was. */
  lemma RegisteredEncoderIsSelected(c: Config, format: string, maker: EncoderMaker, other: string)
    requires format != "" && other != format
    ensures MakeEncoder(c.(outEncoders := c.outEncoders[format := maker], responseFormat := format))
              == Ok(Encoding(format, maker))
    ensures MakeEncoder(c.(outEncoders := c.outEncoders[format := maker], responseFormat := other))
              == MakeEncoder(c.(responseFormat := other))
  {
  }

  /** Registering an input format makes a named request file with that extension decode
      with it. */
  lemma RegisteredDecoderIsSelected(c: Config, fs: FileSystem, maker: DecoderMaker)
    requires ReadsFile(c, fs) && fs.open(c.requestFile).Success?
    requires RequestExtension(c.requestFile) != ""
    ensures var c' := c.(inDecoders := c.inDecoders[RequestExtension(c.requestFile) := maker]);
      MakeDecoder(c', fs) == Ok(Decoding(RequestExtension(c.requestFile), maker, File(c.requestFile)))
  {
  }

  /** With the defaults, the response formats accepted are exactly "" and the four
      registered ones. */
  lemma DefaultResponseFormats(format: string)
    ensures MakeEncoder(InitialDefaults().(responseFormat := format)).Ok? <==>
              format in {"", "json", "prettyjson", "xml", "prettyxml"}
  {
  }

  /** The end-to-end case: defaults, json both ways, request piped on standard input. */
  lemma PipedJsonRequest(fs: FileSystem)
    requires !fs.stdinIsCharDevice
    ensures var c := InitialDefaults().(serverAddr := "localhost:9000");
      && MakeDecoder(c, fs) == Ok(Decoding("json", JSONDecoderMaker, Stdin))
      && MakeEncoder(c) == Ok(Encoding("json", JSONEncoderMaker(false)))
  {
  }

  /** A request file named req.json decodes as json from the file, not from stdin, even
      with no request format given. */
  lemma RequestJsonFromFile(fs: FileSystem)
    requires fs.stdinIsCharDevice && fs.open("req.json").Success?
    ensures var c := InitialDefaults().(requestFile := "req.json", requestFormat := "");
      MakeDecoder(c, fs) == Ok(Decoding("json", JSONDecoderMaker, File("req.json")))
  {
    ExtensionOfRequestJson();
  }
}
