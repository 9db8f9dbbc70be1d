/** The client configuration, the package-wide defaults with their format registries and
    hook lists, and the per-invocation copy `NewConfig` builds from them. */
module Configuration {
  import opened Errors
  import opened IoCodec
  import opened Transport

  /** What a pre-dial hook does with the dial option list it is handed: replace it with a
      new list (usually the old one with options appended) or fail. */
  datatype HookResult = Proceed(opts: seq<DialOption>) | Abort(error: Error)

  /** A hook run before dialing, with access to the dial option list. */
  type PreDialer = seq<DialOption> -> HookResult

  /** A callback that binds extra command-line flags; only its identity is modelled. */
  datatype FlagBinder = FlagBinder(id: nat)

  datatype Config = Config(
    serverAddr: string,
    requestFile: string,
    requestFormat: string,
    responseFormat: string,
    /** the dial timeout, a `time.Duration` in nanoseconds */
    timeout: int,
    useEnvVars: bool,
    envVarPrefix: string,
    tls: bool,
    serverName: string,
    insecureSkipVerify: bool,
    caCertFile: string,
    certFile: string,
    keyFile: string,
    flagBinders: seq<FlagBinder>,
    preDialers: seq<PreDialer>,
    inDecoders: map<string, DecoderMaker>,
    outEncoders: map<string, EncoderMaker>)

  /** A functional option: a change applied to a configuration. */
  type ConfigOption = Config -> Config

  const Second: int := 1_000_000_000

  /** The value `DefaultConfig` starts with, before any registration. */
  function InitialDefaults(): (c: Config)
    ensures c.inDecoders.Keys == {"json", "xml"}
    ensures c.outEncoders.Keys == {"json", "prettyjson", "xml", "prettyxml"}
    ensures c.requestFormat in c.inDecoders && c.responseFormat in c.outEncoders
    ensures c.preDialers == [] && c.flagBinders == [] && !c.tls && c.timeout > 0
  {
    Config(
      serverAddr := "localhost:8080",
      requestFile := "",
      requestFormat := "json",
      responseFormat := "json",
      timeout := 10 * Second,
      useEnvVars := true,
      envVarPrefix := "",
      tls := false,
      serverName := "",
      insecureSkipVerify := false,
      caCertFile := "",
      certFile := "",
      keyFile := "",
      flagBinders := [],
      preDialers := [],
      inDecoders := map["json" := JSONDecoderMaker, "xml" := XMLDecoderMaker],
      outEncoders := map[
        "json" := JSONEncoderMaker(false),
        "prettyjson" := JSONEncoderMaker(true),
        "xml" := XMLEncoderMaker(false),
        "prettyxml" := XMLEncoderMaker(true)])
  }

  /** The configuration after applying `options` to `c`, first option first. */
  function ApplyOptions(c: Config, options: seq<ConfigOption>): Config
    decreases |options|
  {
    if options == [] then c
    else options[|options| - 1](ApplyOptions(c, options[..|options| - 1]))
  }

  /** Applying a list of options in one go is applying its first part and then the rest:
      options take effect strictly in the order given, and a later one sees (and may
      override) what an earlier one set. */
  lemma {:induction false} ApplyOptionsInOrder(c: Config, first: seq<ConfigOption>, rest: seq<ConfigOption>)
    ensures ApplyOptions(c, first + rest) == ApplyOptions(ApplyOptions(c, first), rest)
    decreases |rest|
  {
    if rest == [] {
      assert first + rest == first;
    } else {
      var all := first + rest;
      assert all[..|all| - 1] == first + rest[..|rest| - 1];
      assert all[|all| - 1] == rest[|rest| - 1];
      ApplyOptionsInOrder(c, first, rest[..|rest| - 1]);
    }
  }

  /** The package's global state: the `DefaultConfig` that registration functions extend
      and `NewConfig` copies. */
  class ClientPackage {
    var defaultConfig: Config

    constructor ()
      ensures defaultConfig == InitialDefaults()
    {
      defaultConfig := InitialDefaults();
    }

    /** `RegisterFlagBinder`: appends the binder to the default binder list. */
    method RegisterFlagBinder(binder: FlagBinder)
      modifies this
      ensures defaultConfig == old(defaultConfig).(flagBinders := old(defaultConfig).flagBinders + [binder])
    {
      defaultConfig := defaultConfig.(flagBinders := defaultConfig.flagBinders + [binder]);
    }

    /** `RegisterPreDialer`: appends the hook, so hooks keep their registration order. */
    method RegisterPreDialer(dialer: PreDialer)
      modifies this
      ensures defaultConfig == old(defaultConfig).(preDialers := old(defaultConfig).preDialers + [dialer])
      ensures |defaultConfig.preDialers| == |old(defaultConfig).preDialers| + 1
      ensures defaultConfig.preDialers[..|old(defaultConfig).preDialers|] == old(defaultConfig).preDialers
    {
      defaultConfig := defaultConfig.(preDialers := defaultConfig.preDialers + [dialer]);
    }

    /** `RegisterInputDecoder`: binds `format` to `maker`, adding the key or overwriting it;
        every other entry and every other field is unchanged. */
    method RegisterInputDecoder(format: string, maker: DecoderMaker)
      modifies this
      ensures defaultConfig.inDecoders.Keys == old(defaultConfig).inDecoders.Keys + {format}
      ensures defaultConfig.inDecoders[format] == maker
      ensures forall k :: k in old(defaultConfig).inDecoders && k != format ==>
                defaultConfig.inDecoders[k] == old(defaultConfig).inDecoders[k]
      ensures defaultConfig == old(defaultConfig).(inDecoders := defaultConfig.inDecoders)
    {
      defaultConfig := defaultConfig.(inDecoders := defaultConfig.inDecoders[format := maker]);
    }

    /** `RegisterOutputEncoder`: binds `format` to `maker`, adding the key or overwriting it;
        every other entry and every other field is unchanged. */
    method RegisterOutputEncoder(format: string, maker: EncoderMaker)
      modifies this
      ensures defaultConfig.outEncoders.Keys == old(defaultConfig).outEncoders.Keys + {format}
      ensures defaultConfig.outEncoders[format] == maker
      ensures forall k :: k in old(defaultConfig).outEncoders && k != format ==>
                defaultConfig.outEncoders[k] == old(defaultConfig).outEncoders[k]
      ensures defaultConfig == old(defaultConfig).(outEncoders := defaultConfig.outEncoders)
    {
      defaultConfig := defaultConfig.(outEncoders := defaultConfig.outEncoders[format := maker]);
    }

    /** `NewConfig`: a copy of the defaults with each option applied in turn; the defaults
        themselves are left as they were. */
    method NewConfig(options: seq<ConfigOption>) returns (c: Config)
      ensures c == ApplyOptions(defaultConfig, options)
      ensures options == [] ==> c == defaultConfig
    {
      c := defaultConfig;
      for i := 0 to |options|
        invariant c == ApplyOptions(defaultConfig, options[..i])
      {
        assert options[..i + 1][..i] == options[..i];
        c := options[i](c);
      }
      assert options[..|options|] == options;
    }
  }

  /** The keys of a format registry, one per slot, in the map's iteration order (left
      open here, as Go leaves it unspecified). */
  method FormatNames<M>(registry: map<string, M>) returns (names: seq<string>)
    ensures |names| == |registry|
    ensures forall k :: k in registry <==> k in names
    ensures forall i, j :: 0 <= i < j < |names| ==> names[i] != names[j]
  {
    var f := new string[|registry|];
    var i := 0;
    var left := registry.Keys;
    while left != {}
      invariant left <= registry.Keys
      invariant i + |left| == |registry| == f.Length
      invariant forall j :: 0 <= j < i ==> f[j] in registry && f[j] !in left
      invariant forall k :: k in registry && k !in left ==> k in f[..i]
      invariant forall a, b :: 0 <= a < b < i ==> f[a] != f[b]
      decreases |left|
    {
      var k :| k in left;
      ghost var before := f[..i];
      f[i] := k;
      assert f[..i + 1] == before + [k];
      i := i + 1;
      left := left - {k};
    }
    names := f[..];
  }

  /** `decoderFormats`: the registered input format names, each exactly once. */
  method DecoderFormats(c: Config) returns (names: seq<string>)
    ensures |names| == |c.inDecoders|
    ensures forall k :: k in c.inDecoders <==> k in names
    ensures forall i, j :: 0 <= i < j < |names| ==> names[i] != names[j]
  {
    names := FormatNames(c.inDecoders);
  }

  /** `encoderFormats`: the registered output format names, each exactly once. */
  method EncoderFormats(c: Config) returns (names: seq<string>)
    ensures |names| == |c.outEncoders|
    ensures forall k :: k in c.outEncoders <==> k in names
    ensures forall i, j :: 0 <= i < j < |names| ==> names[i] != names[j]
  {
    names := FormatNames(c.outEncoders);
  }
}
