# protoc-gen-cobra client core, modelled in Dafny

This project models the runtime client package that every generated protoc-gen-cobra
command calls before and around a gRPC call (`client/client.go`):

- the client `Config` with its input-decoder and output-encoder registries, the
  package-wide `DefaultConfig`, the `Register*` functions that extend it, and `NewConfig`,
  which copies the defaults and applies functional options in order;
- `decoderFormats` / `encoderFormats`, which list the registered format names;
- `makeDecoder`, the first-match cascade that picks the request source (piped stdin or
  "-", a request file, or nothing) and the decoder (the file's extension, the requested
  format, or none), including the extension rule `TrimLeft(filepath.Ext(path), ".")`;
- `makeEncoder`, which picks the response encoder;
- `dialOpts`, which validates the TLS settings in a fixed order, appends the transport
  credentials to the dial option list in place, and runs the pre-dial hooks in
  registration order, stopping at the first error;
- `RoundTrip`, which runs those steps in order, dials under a deadline when a timeout is
  set, rewrites a deadline-exceeded dial error, runs the caller's function on the
  connection and closes it.

Modules, one per file:

| file | module | contents |
|---|---|---|
| strings.dfy | `Strings` | searching a string for a character |
| errors.dfy | `Errors` | `Option`, `Result`, the client's errors and their exact message texts |
| paths.dfy | `Paths` | `filepath.Ext`, the leading-dot trim, the request extension |
| net.dfy | `Net` | the host part of `net.SplitHostPort` (the error is discarded at the call site) |
| iocodec.dfy | `IoCodec` | decoder/encoder makers as tags, decoders and encoders as values |
| transport.dfy | `Transport` | TLS settings and dial options as values |
| environment.dfy | `Environment` | the file system and stdin as oracles |
| configuration.dfy | `Configuration` | `Config`, the defaults, `ClientPackage` (the global `DefaultConfig`), `NewConfig`, the format listings |
| codecs.dfy | `Codecs` | `makeDecoder`, `makeEncoder` |
| dialopts.dfy | `Dialing` | the credentials, the pre-dial hooks, `dialOpts` over an in-place option list |
| roundtrip.dfy | `Client` | `RoundTrip` as a method that returns the error and a trace of its steps |

Modelling choices:

- The operating system, gRPC and crypto libraries are inputs.
  - A `FileSystem` value says whether stdin is a character device and what opening a file,
    reading a file and loading a key pair give back.
  - The dial is a function of the target, the options and the deadline. Its outcome is a
    connection, `DeadlineExceeded` or another error.
  - The caller's function is a function of the connection, the decoder and the encoder.
- Pre-dial hooks are functions from the option list to either a new list or an error.
- `Config` is a value, as Go's `c := *DefaultConfig` copies the struct. The package-global
  `DefaultConfig` is the field of a `ClientPackage` object whose registration methods
  update it in place.
- `dialOpts` changes the option list it is given in place: an `OptionList` object.
- `RoundTrip` returns the error and a trace of the steps taken. The deferred `Close` and
  the deferred release of the deadline appear in the trace in the order Go runs them.

## Model

| member | source | states |
|---|---|---|
| Errors.Message | client/client.go:156-224 | no contract of its own: the seven `fmt.Errorf` texts (lines 156, 172, 189, 200, 212, 220, 224); `MessageRoundTrip` and `MessageInjective` state its properties |
| Errors.UnknownRequestFormatParses | client/client.go:189 | the "unknown request format" text parses back to that error and format |
| Errors.UnknownResponseFormatParses | client/client.go:200 | the "unknown response format" text parses back to that error and format |
| Errors.CaCertParses | client/client.go:212 | the "ca cert" text parses back to that error and cause |
| Errors.KeyFileParses | client/client.go:220 | "key file not specified" parses back to that error |
| Errors.CertKeyParses | client/client.go:224 | the "cert/key" text parses back to that error and cause |
| Errors.DialTimeoutParses | client/client.go:156 | the timeout text parses back to that error and address |
| Errors.MessageRoundTrip | client/client.go:156-224 | each error the client builds renders (as its `fmt.Errorf` call does) to a text that parses back to exactly that error |
| Errors.MessageInjective | client/client.go:156-224 | two different client errors never share a message text |
| Paths.Ext | client/client.go:175 | no contract of its own: `filepath.Ext`; `ExtIsFinalDotSuffix` states its properties |
| Paths.RequestExtension | client/client.go:175 | no contract of its own: `TrimLeft(filepath.Ext(path), ".")`; `RequestExtensionDropsDot` and `RequestExtensionIsTextAfterLastDot` state its properties |
| Paths.ExtIsFinalDotSuffix | client/client.go:175 | `filepath.Ext` is a suffix of the path; a non-empty one starts with '.' and holds no further '.' or separator; an empty one means the last path element holds no '.' |
| Paths.TrimLeadingDots | client/client.go:175 | `TrimLeft(s, ".")` removes exactly the leading run of dots: the result is a suffix of s not starting with '.', and everything removed is a dot |
| Paths.RequestExtensionDropsDot | client/client.go:175 | the request extension is `filepath.Ext` without its '.', and empty when there is no extension |
| Paths.RequestExtensionIsTextAfterLastDot | client/client.go:175 | the request extension holds no '.' or separator, and a non-empty one is the text right after a '.' at the end of the path |
| Paths.ExtensionAfterFinalDot | client/client.go:175 | for any stem, `stem + "." + x` with x free of dots and separators has extension x |
| Paths.NoExtensionWithoutDot | client/client.go:175 | a last element with no '.' gives no extension, whatever dots the directories hold |
| Paths.ExtensionOfRequestJson | client/client.go:175 | "req.json" gives "json" |
| Paths.ExtensionOfDoubleSuffix | client/client.go:175 | "archive.tar.gz" gives "gz": only the final dot counts |
| Paths.ExtensionOfDotInDirectory | client/client.go:175 | "conf.d/request" gives "": a dot in a directory name does not count |
| Paths.ExtensionOfTrailingDot | client/client.go:175 | "request." gives "" |
| Net.SplitHost | client/client.go:231 | a host is found only when the address has a ':', and never holds a bracket |
| Net.HostOfPlainAddress | client/client.go:231 | "host:port" without brackets or extra colons yields exactly host |
| Net.HostOfBracketedAddress | client/client.go:231 | "[host]:port" yields the text between the brackets, colons included |
| Net.StrayBracketHasNoHost | client/client.go:231 | an address not starting with '[' that holds a ']' anywhere yields no host |
| Net.NoHostWithoutPort | client/client.go:231 | an address with no ':' yields no host, so the server name is "" |
| Configuration.InitialDefaults | client/client.go:50-67 | input formats are exactly json and xml; output formats are exactly json, prettyjson, xml and prettyxml; both default formats are registered; no hooks, TLS off, a positive timeout |
| Configuration.ApplyOptions | client/client.go:70-73 | no contract of its own: the options applied to a copy, first to last; `ApplyOptionsInOrder` and `ClientPackage.NewConfig` state its properties |
| Configuration.ApplyOptionsInOrder | client/client.go:69-75 | options take effect in the order given: applying `first + rest` is applying `first`, then `rest` to the result |
| Configuration.ClientPackage.constructor | client/client.go:50-67 | the package starts from the initial defaults |
| Configuration.ClientPackage.RegisterFlagBinder | client/client.go:77-79 | the binder is appended; nothing else changes |
| Configuration.ClientPackage.RegisterPreDialer | client/client.go:81-83 | the hook is appended after the earlier ones, which keep their order; nothing else changes |
| Configuration.ClientPackage.RegisterInputDecoder | client/client.go:85-87 | the format is added or overwritten with the maker; every other entry and every other field is unchanged |
| Configuration.ClientPackage.RegisterOutputEncoder | client/client.go:89-91 | the same for the output registry |
| Configuration.ClientPackage.NewConfig | client/client.go:69-75 | the result is the defaults with every option applied, first to last; with no options it is the defaults |
| Configuration.FormatNames | client/client.go:111-129 | the listing has one slot per registry entry and holds every key exactly once |
| Configuration.DecoderFormats | client/client.go:111-119 | the input format names, each registered key exactly once |
| Configuration.EncoderFormats | client/client.go:121-129 | the output format names, each registered key exactly once |
| Codecs.MakeDecoder | client/client.go:165-193 | the only errors are a failed open of the named file or an unknown requested format; a decoder is the registry's maker for its format; it reads stdin exactly when stdin is piped or the file is "-", else the named file; its format is the extension when that is registered, else the requested format |
| Codecs.DecoderFor | client/client.go:185-192 | no decoder exactly when there is no stream or no requested format; the error exactly when the requested format is non-empty and unregistered, naming it; otherwise the registered maker of the requested format over the stream |
| Codecs.StdinComesFirst | client/client.go:167-168 | with piped stdin or "-", no file is opened and the file name plays no part; the source is stdin |
| Codecs.OpenFailureComesFirst | client/client.go:169-173 | a file that fails to open gives "request file" with the open error, whatever the format and the registry |
| Codecs.ExtensionOverridesFormat | client/client.go:175-178 | a registered extension selects its decoder over the file, whatever format was requested, even an empty or unknown one |
| Codecs.RegisteredDecoderIsSelected | client/client.go:175-178 | after registering a maker under a file's extension, that file decodes with that maker |
| Codecs.UnknownRequestFormatExactly | client/client.go:185-192 | "unknown request format" comes exactly when there is a stream, no extension selected, and the requested format is non-empty and unregistered |
| Codecs.NoOpDecoderExactly | client/client.go:165-187 | no decoder and no error exactly when there was no open failure and no extension selected, and either there is no stream or no format was requested |
| Codecs.RequestJsonFromFile | client/client.go:169-178 | with the defaults and no format given, "req.json" decodes as json from the file |
| Codecs.PipedJsonRequest | client/client.go:165-204 | with the defaults and piped stdin: json decoding from stdin and plain json output |
| Codecs.MakeEncoder | client/client.go:195-204 | success exactly when the response format is "" or registered; no output exactly for ""; else that format's registered encoder; the only error is "unknown response format" naming it |
| Codecs.RegisteredEncoderIsSelected | client/client.go:199-203 | after registering a format it selects that maker, and the choice for every other format is unchanged |
| Codecs.DefaultResponseFormats | client/client.go:61-66 | with the defaults, the accepted response formats are exactly "", json, prettyjson, xml and prettyxml |
| Dialing.ServerNameFor | client/client.go:228-233 | the override when non-empty, else the host of the server address, else "" |
| Dialing.TransportCredentials | client/client.go:207-238 | TLS off gives the insecure option and reads no file; TLS on succeeds exactly when the CA file and the key pair are usable; a CA failure is reported first; "key file not specified" comes exactly when the CA is fine and a certificate has no key file; once both pass, a key pair that fails to load gives "cert/key" with the loader's error, and a "cert/key" error only comes from the loader; the TLS settings carry the skip-verify flag, the CA pool, the pair and the server name |
| Dialing.KeyFileCheckedBeforeLoading | client/client.go:218-222 | a missing key file is reported whatever the key-pair loader would do: no pair is loaded first |
| Dialing.RunPreDialers | client/client.go:240-244 | at most every hook runs; with no error every hook ran; an error means some hook ran |
| Dialing.FirstPreDialerErrorWins | client/client.go:240-244 | on an error, every earlier hook succeeded, the last hook that ran failed with that error, and no later hook ran |
| Dialing.AppendingHooksKeepPrefix | client/client.go:240-244 | hooks that only append keep the list they were given as a prefix |
| Dialing.DialOptions | client/client.go:206-247 | a credentials error stops before any hook and leaves the list as it was; no more hooks run than are registered |
| Dialing.BlockThenCredentials | client/client.go:235-244 | from `[WithBlock]`, with appending hooks, a successful run keeps `WithBlock` first, then exactly the credentials option (the insecure one when TLS is off) |
| Dialing.PlaintextWithoutHooks | client/client.go:236-238 | TLS off and no hooks give exactly `[WithBlock, WithInsecure]` |
| Dialing.OptionList.Append | client/client.go:235-237 | the option goes at the end of the list |
| Dialing.DialOpts | client/client.go:206-247 | the in-place list, the error and the number of hooks that ran are those of `DialOptions` on the list it was given |
| Client.DialDeadline | client/client.go:147-150 | a deadline is set exactly when the timeout is positive, and it is that timeout |
| Client.DialError | client/client.go:153-162 | a deadline-exceeded dial gives the timeout error; another dial error passes unchanged; after connecting, the function's own result |
| Client.TimeoutNamesServer | client/client.go:155-156 | the timeout error's text is "timeout dialing server: " followed by the server address, and it reads back as that error |
| Client.DialPhase | client/client.go:147-162 | no contract of its own: deadline set (when the timeout is positive), dial, invoke and close when connected, deadline released; `DialPhaseDialsOnce`, `DialPhaseClosesOnce` and `DialPhaseBrackets` state its properties |
| Client.DialPhaseDialsOnce | client/client.go:147-163 | the dial phase holds exactly one dial |
| Client.DialPhaseClosesOnce | client/client.go:153-162 | only the connection the dial returned is closed, exactly once, right after the function ran on it, and only the deadline release follows |
| Client.DialPhaseBrackets | client/client.go:147-162 | the function runs exactly when the dial connected; a deadline, when set, is set first and released last |
| Client.Connect | client/client.go:147-162 | the steps taken and the error returned are the dial phase and the dial error for the dial's outcome |
| Client.RoundTrip | client/client.go:131-163 | decoder, encoder and dial options resolve in this order, each only after the one before succeeded; the first configuration error is returned and nothing is dialed; otherwise the dial phase follows with the resolved options, decoder and encoder, exactly one dial is made, and the error is the dial error |

## Left out

- `BindFlags` and the flag binders it calls: command-line flag wiring with no decision logic. Binders are only appended and kept in order.
- `UseEnvVars` and `EnvVarPrefix`: no logic in `client/client.go` reads them.
- `os.Stdin.Stat` failing: `stat` is then nil and `stat.Mode()` at client/client.go:167 panics. The model assumes the call succeeds and takes "stdin is a character device" as an input. A terminal and a device such as /dev/null are both character devices, so neither is read.
- Opening and reading files, loading key pairs, building the certificate pool and TLS credentials: these are library calls, modelled as success or failure oracles. The CA pool holds the raw bytes read.
- The deferred close of the request file at client/client.go:174, which runs even when a decoder over that file is returned. Decoded content is not modelled, so this has no effect in the model.
- The JSON and XML codecs themselves. Makers are tags; decoding and encoding are not modelled. The encoder's target, standard output, is implicit.
- `grpc.DialContext`, `WithBlock` and `WithInsecure` semantics, contexts, timers and cancellation. The dial is an input function, and the deadline is recorded as events.
- The `ctx` passed to pre-dial hooks: a hook is a function of the option list alone.
- A hook that changes the list and also returns an error: the model keeps the list the hook was given.
- Map and slice sharing between `DefaultConfig` and the copies `NewConfig` returns. The model copies values, which is what Go gives when registration finishes before `NewConfig` is called.
- Concurrent registration and use.
- `Paths.Ext`: follows `filepath.Ext` with the '/' separator only. The Windows '\' separator and volume names are not modelled.
- `Net.SplitHost`: `net.SplitHostPort` is not part of this model's source files. The host is extracted by Go's documented rules (last ':', bracketed form, misplaced brackets), and the model returns no host exactly where Go reports an error. The port part is not extracted.
- The `Option` type taken by `NewConfig` is defined outside `client/client.go`. It is modelled as any function from `Config` to `Config`.
- `Configuration.FormatNames`: Go's map iteration order is unspecified, so the contract fixes which names appear and that each appears once, not their order.
