/** Building the dial option list (`dialOpts`): the transport credentials from the TLS
    settings, then every registered pre-dial hook in turn. */
module Dialing {
  import opened Errors
  import opened Transport
  import opened Environment
  import opened Net
  import opened Configuration

  /** The name the server's certificate is checked against: the override when one is
      given, else the host part of the server address ("" when that is malformed). */
  function ServerNameFor(c: Config): (name: string)
    ensures c.serverName != "" ==> name == c.serverName
    ensures c.serverName == "" && SplitHost(c.serverAddr).None? ==> name == ""
    ensures c.serverName == "" && SplitHost(c.serverAddr).Some? ==> name == SplitHost(c.serverAddr).value
  {
    if c.serverName != "" then c.serverName
    else match SplitHost(c.serverAddr)
      case None => ""
      case Some(host) => host
  }

  /** The CA certificate file, when one is named, can be read. */
  predicate CaCertUsable(c: Config, fs: FileSystem)
  {
    c.caCertFile == "" || fs.readFile(c.caCertFile).Success?
  }

  /** The client certificate, when one is named, comes with a key file and the pair loads. */
  predicate KeyPairUsable(c: Config, fs: FileSystem)
  {
    c.certFile == "" || (c.keyFile != "" && fs.loadKeyPair(c.certFile, c.keyFile).Success?)
  }

  /** The credentials option `dialOpts` appends, checked in the source's order: the CA
      file, then the key file's presence, then the key pair. */
  function TransportCredentials(c: Config, fs: FileSystem): (r: Result<DialOption>)
    // TLS off: plaintext, and no TLS field or file is looked at
    ensures !c.tls ==> r == Ok(WithInsecure)
    // TLS on: success exactly when every named file is usable
    ensures c.tls ==> (r.Ok? <==> CaCertUsable(c, fs) && KeyPairUsable(c, fs))
    // an unreadable CA file is reported first, whatever the certificate settings
    ensures c.tls && !CaCertUsable(c, fs) ==> r == Err(CaCertError(fs.readFile(c.caCertFile).cause))
    // a certificate without a key file is reported before any key pair is loaded
    ensures r == Err(KeyFileNotSpecified) <==> c.tls && CaCertUsable(c, fs) && c.certFile != "" && c.keyFile == ""
    ensures r.Err? && r.error.CertKeyError? ==>
              c.keyFile != "" && fs.loadKeyPair(c.certFile, c.keyFile) == Failure(r.error.cause)
    // a key pair that fails to load is reported, with the loader's error, once the CA file
    // and the key file's presence have passed
    ensures c.tls && CaCertUsable(c, fs) && c.certFile != "" && c.keyFile != ""
              && fs.loadKeyPair(c.certFile, c.keyFile).Failure? ==>
              r == Err(CertKeyError(fs.loadKeyPair(c.certFile, c.keyFile).cause))
    // the TLS settings carry the flags, the trust pool, the pair and the server name
    ensures c.tls && r.Ok? ==>
              && r.value.WithTransportCredentials?
              && r.value.tls.insecureSkipVerify == c.insecureSkipVerify
              && (r.value.tls.rootCAs.Some? <==> c.caCertFile != "")
              && (c.caCertFile != "" ==> r.value.tls.rootCAs.value == CertPool(fs.readFile(c.caCertFile).value))
              && (c.certFile == "" ==> r.value.tls.certificates == [])
              && (c.certFile != "" ==> r.value.tls.certificates == [fs.loadKeyPair(c.certFile, c.keyFile).value])
              && r.value.tls.serverName == ServerNameFor(c)
  {
    if !c.tls then Ok(WithInsecure)
    else if c.caCertFile != "" && fs.readFile(c.caCertFile).Failure? then
      Err(CaCertError(fs.readFile(c.caCertFile).cause))
    else if c.certFile != "" && c.keyFile == "" then
      Err(KeyFileNotSpecified)
    else if c.certFile != "" && fs.loadKeyPair(c.certFile, c.keyFile).Failure? then
      Err(CertKeyError(fs.loadKeyPair(c.certFile, c.keyFile).cause))
    else
      var roots := if c.caCertFile != "" then Some(CertPool(fs.readFile(c.caCertFile).value)) else None;
      var certs := if c.certFile != "" then [fs.loadKeyPair(c.certFile, c.keyFile).value] else [];
      Ok(WithTransportCredentials(TlsConfig(c.insecureSkipVerify, roots, certs, ServerNameFor(c))))
  }

  /** A missing key file is reported whatever the key-pair loader would have done: no key
      pair is loaded before the check. */
  lemma KeyFileCheckedBeforeLoading(c: Config, fs: FileSystem, loader: (string, string) -> Io<Certificate>)
    requires c.tls && CaCertUsable(c, fs) && c.certFile != "" && c.keyFile == ""
    ensures TransportCredentials(c, fs.(loadKeyPair := loader)) == Err(KeyFileNotSpecified)
  {
  }

  /** What running the pre-dial hooks produced: the final option list, how many hooks ran,
      and the first hook error, if any. */
  datatype HooksOutcome = HooksOutcome(opts: seq<DialOption>, ran: nat, err: Option<Error>)

  /** The hooks run in order on the evolving option list; the first error stops the run. */
  function RunPreDialers(hooks: seq<PreDialer>, opts: seq<DialOption>): (r: HooksOutcome)
    ensures r.ran <= |hooks|
    ensures r.err.None? ==> r.ran == |hooks|
    ensures r.err.Some? ==> r.ran > 0
    decreases |hooks|
  {
    if hooks == [] then HooksOutcome(opts, 0, None)
    else match hooks[0](opts)
      case Abort(e) => HooksOutcome(opts, 1, Some(e))
      case Proceed(next) =>
        var rest := RunPreDialers(hooks[1..], next);
        rest.(ran := rest.ran + 1)
  }

  /** The first error wins: the hooks before the last one that ran all succeeded, the last
      one that ran failed with the reported error, and no later hook ran. */
  lemma {:induction false} FirstPreDialerErrorWins(hooks: seq<PreDialer>, opts: seq<DialOption>)
    ensures var r := RunPreDialers(hooks, opts);
      r.err.Some? ==>
        var before := RunPreDialers(hooks[..r.ran - 1], opts);
        before.err.None? && hooks[r.ran - 1](before.opts) == Abort(r.err.value)
    decreases |hooks|
  {
    var r := RunPreDialers(hooks, opts);
    if hooks != [] && r.err.Some? {
      match hooks[0](opts)
      case Abort(e) =>
        assert hooks[..0] == [];
      case Proceed(next) =>
        var tail := hooks[1..];
        var rt := RunPreDialers(tail, next);
        assert r == rt.(ran := rt.ran + 1);
        FirstPreDialerErrorWins(tail, next);
        var prefix := hooks[..r.ran - 1];
        assert prefix[0] == hooks[0];
        assert prefix[1..] == tail[..rt.ran - 1];
        assert hooks[r.ran - 1] == tail[rt.ran - 1];
    }
  }

  /** A hook that only ever appends to the list it is given. */
  ghost predicate AppendsOnly(hook: PreDialer)
  {
    forall o :: hook(o).Proceed? ==> o <= hook(o).opts
  }

  /** Hooks that only append keep the list they started from as a prefix. */
  lemma {:induction false} AppendingHooksKeepPrefix(hooks: seq<PreDialer>, opts: seq<DialOption>)
    requires forall i :: 0 <= i < |hooks| ==> AppendsOnly(hooks[i])
    ensures opts <= RunPreDialers(hooks, opts).opts
    decreases |hooks|
  {
    if hooks != [] {
      match hooks[0](opts)
      case Abort(_) =>
      case Proceed(next) =>
        assert AppendsOnly(hooks[0]);
        assert opts <= next;
        AppendingHooksKeepPrefix(hooks[1..], next);
    }
  }

  /** `dialOpts` as a function of the list it starts from: the credentials option is
      appended, then the hooks run; a credentials error stops before any hook. */
  function DialOptions(c: Config, fs: FileSystem, initial: seq<DialOption>): (r: HooksOutcome)
    ensures TransportCredentials(c, fs).Err? ==> r == HooksOutcome(initial, 0, Some(TransportCredentials(c, fs).error))
    ensures r.ran <= |c.preDialers|
  {
    match TransportCredentials(c, fs)
    case Err(e) => HooksOutcome(initial, 0, Some(e))
    case Ok(cred) => RunPreDialers(c.preDialers, initial + [cred])
  }

  /** Started from `[WithBlock]` with hooks that only append, a successful run keeps
      `WithBlock` first, followed by the one credentials option. */
  lemma BlockThenCredentials(c: Config, fs: FileSystem)
    requires forall i :: 0 <= i < |c.preDialers| ==> AppendsOnly(c.preDialers[i])
    requires DialOptions(c, fs, [WithBlock]).err.None?
    ensures var opts := DialOptions(c, fs, [WithBlock]).opts;
      && |opts| >= 2 && opts[0] == WithBlock && opts[1].IsCredentials()
      && opts[1] == TransportCredentials(c, fs).value
      && (!c.tls ==> opts[1] == WithInsecure)
  {
    var cred := TransportCredentials(c, fs).value;
    AppendingHooksKeepPrefix(c.preDialers, [WithBlock, cred]);
    assert [WithBlock] + [cred] == [WithBlock, cred];
  }

  /** With no hooks registered, TLS off gives exactly `[WithBlock, WithInsecure]`. */
  lemma PlaintextWithoutHooks(c: Config, fs: FileSystem)
    requires !c.tls && c.preDialers == []
    ensures DialOptions(c, fs, [WithBlock]) == HooksOutcome([WithBlock, WithInsecure], 0, None)
  {
  }

  /** The dial option list, a `[]grpc.DialOption` that `dialOpts` appends to in place. */
  class OptionList {
    var items: seq<DialOption>

    constructor (initial: seq<DialOption>)
      ensures items == initial
    {
      items := initial;
    }

    method Append(o: DialOption)
      modifies this
      ensures items == old(items) + [o]
    {
      items := items + [o];
    }
  }

  /** `dialOpts`: appends the credentials option to `opts`, then hands the list to each
      pre-dial hook in registration order, stopping at the first error. Reports the error
      and the number of hooks that ran. */
  method DialOpts(c: Config, fs: FileSystem, opts: OptionList) returns (err: Option<Error>, ran: nat)
    modifies opts
    ensures var r := DialOptions(c, fs, old(opts.items));
      err == r.err && ran == r.ran && opts.items == r.opts
  {
    var cred := TransportCredentials(c, fs);
    if cred.Err? {
      return Some(cred.error), 0;
    }
    opts.Append(cred.value);
    ghost var start := opts.items;
    var hooks := c.preDialers;
    var i := 0;
    while i < |hooks|
      invariant 0 <= i <= |hooks|
      invariant RunPreDialers(hooks, start) == var r := RunPreDialers(hooks[i..], opts.items); r.(ran := r.ran + i)
    {
      assert hooks[i..][0] == hooks[i] && hooks[i..][1..] == hooks[i + 1..];
      match hooks[i](opts.items)
      case Abort(e) =>
        return Some(e), i + 1;
      case Proceed(next) =>
        opts.items := next;
      i := i + 1;
    }
    assert hooks[i..] == [];
    return None, i;
  }
}
