/** `RoundTrip`: resolve the decoder, the encoder and the dial options, dial the server
    (under a deadline when a timeout is set), run the caller's invocation on the live
    connection, and close it. The network is not modelled: what the dial and the
    invocation do is given, and the method records the steps it takes as a trace. */
module Client {
  import opened Errors
  import opened IoCodec
  import opened Transport
  import opened Environment
  import opened Configuration
  import opened Codecs
  import opened Dialing

  /** What `grpc.DialContext` gave back: a connection, the context's deadline running out,
      or another error. */
  datatype DialOutcome = Connected(conn: nat) | DeadlineExceeded | DialFailed(error: Error)

  /** The dial, as a function of the target, the options and the deadline (if any). */
  type Dialer = (string, seq<DialOption>, Option<int>) -> DialOutcome

  /** The caller's invocation: given the connection, decoder and encoder, an error or none. */
  type Invocation = (nat, Decoder, Encoder) -> Option<Error>

  /** The steps of one `RoundTrip`. */
  datatype Event =
    | DecoderResolved(decoding: Result<Decoder>)
    | EncoderResolved(encoding: Result<Encoder>)
    | DialOptionsResolved(outcome: HooksOutcome)
    | DeadlineSet(timeout: int)
    | Dialed(addr: string, opts: seq<DialOption>, deadline: Option<int>)
    | Invoked(conn: nat, decoder: Decoder, encoder: Encoder)
    | Closed(conn: nat)
    | DeadlineReleased

  /** The deadline the dial runs under: the timeout, when it is positive. */
  function DialDeadline(cfg: Config): (d: Option<int>)
    ensures d.Some? <==> cfg.timeout > 0
    ensures d.Some? ==> d.value == cfg.timeout
  {
    if cfg.timeout > 0 then Some(cfg.timeout) else None
  }

  /** Every configuration step succeeds, so a dial is attempted. */
  predicate ReadyToDial(cfg: Config, fs: FileSystem)
  {
    MakeDecoder(cfg, fs).Ok? && MakeEncoder(cfg).Ok? && DialOptions(cfg, fs, [WithBlock]).err.None?
  }

  /** The error of the first configuration step that failed. */
  function ConfigurationError(cfg: Config, fs: FileSystem): Error
    requires !ReadyToDial(cfg, fs)
  {
    if MakeDecoder(cfg, fs).Err? then MakeDecoder(cfg, fs).error
    else if MakeEncoder(cfg).Err? then MakeEncoder(cfg).error
    else DialOptions(cfg, fs, [WithBlock]).err.value
  }

  /** The number of dial attempts in a trace. */
  function DialCount(trace: seq<Event>): nat
  {
    if trace == [] then 0 else DialCount(trace[..|trace| - 1]) + (if trace[|trace| - 1].Dialed? then 1 else 0)
  }

  lemma {:induction false} DialCountAppend(a: seq<Event>, b: seq<Event>)
    ensures DialCount(a + b) == DialCount(a) + DialCount(b)
    decreases |b|
  {
    if b == [] {
      assert a + b == a;
    } else {
      assert (a + b)[..|a + b| - 1] == a + b[..|b| - 1];
      DialCountAppend(a, b[..|b| - 1]);
    }
  }

  lemma {:induction false} NoDialCounted(trace: seq<Event>)
    requires forall i :: 0 <= i < |trace| ==> !trace[i].Dialed?
    ensures DialCount(trace) == 0
  {
    if trace != [] {
      NoDialCounted(trace[..|trace| - 1]);
    }
  }

  /** The steps once configuration has succeeded: set the deadline (when a timeout is
      set), dial, invoke and close when connected, release the deadline. */
  function DialPhase(cfg: Config, opts: seq<DialOption>, outcome: DialOutcome, decoder: Decoder, encoder: Encoder): seq<Event>
  {
    var deadline := DialDeadline(cfg);
    (if deadline.Some? then [DeadlineSet(cfg.timeout)] else [])
    + [Dialed(cfg.serverAddr, opts, deadline)]
    + (if outcome.Connected? then [Invoked(outcome.conn, decoder, encoder), Closed(outcome.conn)] else [])
    + (if deadline.Some? then [DeadlineReleased] else [])
  }

  /** The error `RoundTrip` reports after dialing: the dial's own error, rewritten when the
      deadline ran out, or else the invocation's result. */
  function DialError(cfg: Config, outcome: DialOutcome, fn: Invocation, decoder: Decoder, encoder: Encoder): (err: Option<Error>)
    ensures outcome.DeadlineExceeded? ==> err == Some(DialTimeout(cfg.serverAddr))
    ensures outcome.DialFailed? ==> err == Some(outcome.error)
    ensures outcome.Connected? ==> err == fn(outcome.conn, decoder, encoder)
  {
    match outcome
    case DeadlineExceeded => Some(DialTimeout(cfg.serverAddr))
    case DialFailed(e) => Some(e)
    case Connected(conn) => fn(conn, decoder, encoder)
  }

  /** A dial that ran out of time is reported under the client's own timeout message,
      which names the server address and reads back as that very error. */
  lemma TimeoutNamesServer(cfg: Config, fn: Invocation, decoder: Decoder, encoder: Encoder)
    ensures var err := DialError(cfg, DeadlineExceeded, fn, decoder, encoder);
      && err.Some?
      && Message(err.value) == "timeout dialing server: " + cfg.serverAddr
      && ParseMessage(Message(err.value)) == Some(DialTimeout(cfg.serverAddr))
  {
    MessageRoundTrip(DialTimeout(cfg.serverAddr));
  }

  /** The dial phase dials exactly once. */
  lemma DialPhaseDialsOnce(cfg: Config, opts: seq<DialOption>, outcome: DialOutcome, decoder: Decoder, encoder: Encoder)
    ensures DialCount(DialPhase(cfg, opts, outcome, decoder, encoder)) == 1
  {
    var deadline := DialDeadline(cfg);
    var dialed := [Dialed(cfg.serverAddr, opts, deadline)];
    var pre: seq<Event> := if deadline.Some? then [DeadlineSet(cfg.timeout)] else [];
    var mid: seq<Event> := if outcome.Connected? then [Invoked(outcome.conn, decoder, encoder), Closed(outcome.conn)] else [];
    var post: seq<Event> := if deadline.Some? then [DeadlineReleased] else [];
    assert DialPhase(cfg, opts, outcome, decoder, encoder) == (pre + dialed) + (mid + post);
    NoDialCounted(pre);
    NoDialCounted(mid + post);
    assert DialCount(dialed) == 1 by {
      assert dialed[..0] == [];
    }
    DialCountAppend(pre, dialed);
    DialCountAppend(pre + dialed, mid + post);
  }

  /** The connection, and no other, is closed exactly once, right after the invocation ran
      on it, and nothing but the release of the deadline follows. */
  lemma DialPhaseClosesOnce(cfg: Config, opts: seq<DialOption>, outcome: DialOutcome, decoder: Decoder, encoder: Encoder)
    ensures var t := DialPhase(cfg, opts, outcome, decoder, encoder);
      var k := if cfg.timeout > 0 then 1 else 0;
      && (forall i :: 0 <= i < |t| && t[i].Closed? ==>
            outcome == Connected(t[i].conn) && i == |t| - 1 - k)
      && (outcome.Connected? ==>
            |t| == 3 + 2 * k
            && t[|t| - 1 - k] == Closed(outcome.conn) && t[|t| - 2 - k] == Invoked(outcome.conn, decoder, encoder))
  {
    var deadline := DialDeadline(cfg);
    var t := DialPhase(cfg, opts, outcome, decoder, encoder);
    var dialed := Dialed(cfg.serverAddr, opts, deadline);
    match outcome {
      case Connected(c) =>
        var inv := Invoked(c, decoder, encoder);
        if deadline.Some? {
          assert t == [DeadlineSet(cfg.timeout), dialed, inv, Closed(c), DeadlineReleased];
        } else {
          assert t == [dialed, inv, Closed(c)];
        }
      case _ =>
        if deadline.Some? {
          assert t == [DeadlineSet(cfg.timeout), dialed, DeadlineReleased];
        } else {
          assert t == [dialed];
        }
    }
  }

  /** The invocation runs exactly when the dial connected; the deadline, when there is one,
      is set first and released last. */
  lemma DialPhaseBrackets(cfg: Config, opts: seq<DialOption>, outcome: DialOutcome, decoder: Decoder, encoder: Encoder)
    ensures var t := DialPhase(cfg, opts, outcome, decoder, encoder);
      && (outcome.Connected? <==> exists i :: 0 <= i < |t| && t[i].Invoked?)
      && (cfg.timeout > 0 ==> t[0] == DeadlineSet(cfg.timeout) && t[|t| - 1] == DeadlineReleased)
  {
    var t := DialPhase(cfg, opts, outcome, decoder, encoder);
    var k := if cfg.timeout > 0 then 1 else 0;
    if outcome.Connected? {
      assert t[k + 1].Invoked?;
    }
  }

  /** Dialing, then the invocation and the deferred steps. */
  method Connect(cfg: Config, opts: seq<DialOption>, dial: Dialer, fn: Invocation, decoder: Decoder, encoder: Encoder)
    returns (err: Option<Error>, phase: seq<Event>)
    ensures var outcome := dial(cfg.serverAddr, opts, DialDeadline(cfg));
      && phase == DialPhase(cfg, opts, outcome, decoder, encoder)
      && err == DialError(cfg, outcome, fn, decoder, encoder)
  {
    phase := [];
    var deadline: Option<int> := None;
    if cfg.timeout > 0 {
      deadline := Some(cfg.timeout);
      phase := phase + [DeadlineSet(cfg.timeout)];
    }
    var outcome := dial(cfg.serverAddr, opts, deadline);
    phase := phase + [Dialed(cfg.serverAddr, opts, deadline)];
    match outcome {
      case DeadlineExceeded =>
        err := Some(DialTimeout(cfg.serverAddr));
      case DialFailed(e) =>
        err := Some(e);
      case Connected(conn) =>
        // the deferred Close runs once the invocation has returned
        err := fn(conn, decoder, encoder);
        phase := phase + [Invoked(conn, decoder, encoder), Closed(conn)];
    }
    if deadline.Some? {
      // the deferred release of the deadline runs last
      phase := phase + [DeadlineReleased];
    }
  }

  method RoundTrip(cfg: Config, fs: FileSystem, dial: Dialer, fn: Invocation)
    returns (err: Option<Error>, trace: seq<Event>)
    // configuration steps run in order, each only when the one before succeeded
    ensures |trace| >= 1 && trace[0] == DecoderResolved(MakeDecoder(cfg, fs))
    ensures |trace| >= 2 ==> MakeDecoder(cfg, fs).Ok? && trace[1] == EncoderResolved(MakeEncoder(cfg))
    ensures |trace| >= 3 ==> MakeEncoder(cfg).Ok? && trace[2] == DialOptionsResolved(DialOptions(cfg, fs, [WithBlock]))
    // a configuration error is returned as is, and then nothing is dialed
    ensures !ReadyToDial(cfg, fs) ==> err == Some(ConfigurationError(cfg, fs)) && |trace| <= 3 && DialCount(trace) == 0
    ensures MakeDecoder(cfg, fs).Err? ==> |trace| == 1
    // once configuration succeeds: the dial phase, with the resolved options, the dial's
    // outcome, and the decoder and encoder handed to the invocation, and its error
    ensures ReadyToDial(cfg, fs) ==>
      var opts := DialOptions(cfg, fs, [WithBlock]).opts;
      var outcome := dial(cfg.serverAddr, opts, DialDeadline(cfg));
      && |trace| > 3
      && trace[3..] == DialPhase(cfg, opts, outcome, MakeDecoder(cfg, fs).value, MakeEncoder(cfg).value)
      && err == DialError(cfg, outcome, fn, MakeDecoder(cfg, fs).value, MakeEncoder(cfg).value)
    ensures ReadyToDial(cfg, fs) ==> DialCount(trace) == 1
  {
    var decoder := MakeDecoder(cfg, fs);
    trace := [DecoderResolved(decoder)];
    if decoder.Err? {
      NoDialCounted(trace);
      return Some(decoder.error), trace;
    }
    var encoder := MakeEncoder(cfg);
    trace := trace + [EncoderResolved(encoder)];
    if encoder.Err? {
      NoDialCounted(trace);
      return Some(encoder.error), trace;
    }

    var opts := new OptionList([WithBlock]);
    var optsErr, ran := DialOpts(cfg, fs, opts);
    trace := trace + [DialOptionsResolved(HooksOutcome(opts.items, ran, optsErr))];
    NoDialCounted(trace);
    if optsErr.Some? {
      return optsErr, trace;
    }
    var phase;
    err, phase := Connect(cfg, opts.items, dial, fn, decoder.value, encoder.value);
    DialPhaseDialsOnce(cfg, opts.items, dial(cfg.serverAddr, opts.items, DialDeadline(cfg)), decoder.value, encoder.value);
    DialCountAppend(trace, phase);
    trace := trace + phase;
    assert trace[3..] == phase;
  }
}
