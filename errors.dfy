/** Outcome types shared by the client model, and the errors the client reports. */
module Errors {

  datatype Option<+T> = None | Some(value: T)

  /** A value or the error that prevented it. */
  datatype Result<+T> = Ok(value: T) | Err(error: Error)

  /** Every error the client itself constructs, plus `Foreign` for an error value that
      comes from code outside the client (a dial failure, a pre-dial hook, the invocation
      function) and is passed on unchanged. */
  datatype Error =
    | RequestFileError(cause: string)
    | UnknownRequestFormat(format: string)
    | UnknownResponseFormat(format: string)
    | CaCertError(cause: string)
    | KeyFileNotSpecified
    | CertKeyError(cause: string)
    | DialTimeout(addr: string)
    | Foreign(message: string)

  /** The text of the error, as the client's `fmt.Errorf` calls render it. */
  function Message(e: Error): string
  {
    match e
    case RequestFileError(cause) => "request file: " + cause
    case UnknownRequestFormat(format) => "unknown request format: " + format
    case UnknownResponseFormat(format) => "unknown response format: " + format
    case CaCertError(cause) => "ca cert: " + cause
    case KeyFileNotSpecified => "key file not specified"
    case CertKeyError(cause) => "cert/key: " + cause
    case DialTimeout(addr) => "timeout dialing server: " + addr
    case Foreign(message) => message
  }

  /** Recovers the client's own error from its message text: the inverse of `Message`. */
  function ParseMessage(s: string): (r: Option<Error>)
    ensures r.Some? ==> !r.value.Foreign?
  {
    if "request file: " <= s then Some(RequestFileError(s[|"request file: "|..]))
    else if "unknown request format: " <= s then Some(UnknownRequestFormat(s[|"unknown request format: "|..]))
    else if "unknown response format: " <= s then Some(UnknownResponseFormat(s[|"unknown response format: "|..]))
    else if "ca cert: " <= s then Some(CaCertError(s[|"ca cert: "|..]))
    else if s == "key file not specified" then Some(KeyFileNotSpecified)
    else if "cert/key: " <= s then Some(CertKeyError(s[|"cert/key: "|..]))
    else if "timeout dialing server: " <= s then Some(DialTimeout(s[|"timeout dialing server: "|..]))
    else None
  }

  /** p followed by anything starts with p, and what follows is the rest. */
  lemma Prefixed(p: string, rest: string)
    ensures p <= p + rest && (p + rest)[|p|..] == rest
  {
    assert (p + rest)[..|p|] == p;
  }

  /** A string that differs from p at some position within p does not start with p. */
  lemma NotPrefixed(s: string, p: string, i: nat)
    requires i < |p| && i < |s| && s[i] != p[i]
    ensures !(p <= s)
  {
    if |p| <= |s| {
      assert s[..|p|][i] == s[i];
    }
  }

  /** The client's own messages are unambiguous: each one parses back to the error it renders. */
  lemma MessageRoundTrip(e: Error)
    requires !e.Foreign?
    ensures ParseMessage(Message(e)) == Some(e)
  {
    match e
    case RequestFileError(cause) => Prefixed("request file: ", cause);
    case UnknownRequestFormat(format) => UnknownRequestFormatParses(format);
    case UnknownResponseFormat(format) => UnknownResponseFormatParses(format);
    case CaCertError(cause) => CaCertParses(cause);
    case KeyFileNotSpecified => KeyFileParses();
    case CertKeyError(cause) => CertKeyParses(cause);
    case DialTimeout(addr) => DialTimeoutParses(addr);
  }

  // One case of `MessageRoundTrip` each: the message fails every earlier prefix test of
  // `ParseMessage` and passes its own.

  lemma UnknownRequestFormatParses(format: string)
    ensures ParseMessage(Message(UnknownRequestFormat(format))) == Some(UnknownRequestFormat(format))
  {
    var s := Message(UnknownRequestFormat(format));
    NotPrefixed(s, "request file: ", 0);
    Prefixed("unknown request format: ", format);
  }

  lemma UnknownResponseFormatParses(format: string)
    ensures ParseMessage(Message(UnknownResponseFormat(format))) == Some(UnknownResponseFormat(format))
  {
    var s := Message(UnknownResponseFormat(format));
    NotPrefixed(s, "request file: ", 0);
    NotPrefixed(s, "unknown request format: ", 10);
    Prefixed("unknown response format: ", format);
  }

  lemma CaCertParses(cause: string)
    ensures ParseMessage(Message(CaCertError(cause))) == Some(CaCertError(cause))
  {
    var s := Message(CaCertError(cause));
    NotPrefixed(s, "request file: ", 0);
    NotPrefixed(s, "unknown request format: ", 0);
    NotPrefixed(s, "unknown response format: ", 0);
    Prefixed("ca cert: ", cause);
  }

  lemma KeyFileParses()
    ensures ParseMessage(Message(KeyFileNotSpecified)) == Some(KeyFileNotSpecified)
  {
    var s := Message(KeyFileNotSpecified);
    NotPrefixed(s, "request file: ", 0);
    NotPrefixed(s, "unknown request format: ", 0);
    NotPrefixed(s, "unknown response format: ", 0);
    NotPrefixed(s, "ca cert: ", 0);
  }

  lemma CertKeyParses(cause: string)
    ensures ParseMessage(Message(CertKeyError(cause))) == Some(CertKeyError(cause))
  {
    var s := Message(CertKeyError(cause));
    NotPrefixed(s, "request file: ", 0);
    NotPrefixed(s, "unknown request format: ", 0);
    NotPrefixed(s, "unknown response format: ", 0);
    NotPrefixed(s, "ca cert: ", 1);
    assert s != "key file not specified" by { assert s[0] != 'k'; }
    Prefixed("cert/key: ", cause);
  }

  lemma DialTimeoutParses(addr: string)
    ensures ParseMessage(Message(DialTimeout(addr))) == Some(DialTimeout(addr))
  {
    var s := Message(DialTimeout(addr));
    NotPrefixed(s, "request file: ", 0);
    NotPrefixed(s, "unknown request format: ", 0);
    NotPrefixed(s, "unknown response format: ", 0);
    NotPrefixed(s, "ca cert: ", 0);
    assert s != "key file not specified" by { assert s[0] != 'k'; }
    NotPrefixed(s, "cert/key: ", 0);
    Prefixed("timeout dialing server: ", addr);
  }

  /** Two different errors of the client's own never render the same text. */
  lemma MessageInjective(e1: Error, e2: Error)
    requires !e1.Foreign? && !e2.Foreign?
    requires Message(e1) == Message(e2)
    ensures e1 == e2
  {
    MessageRoundTrip(e1);
    MessageRoundTrip(e2);
  }
}
