/** The host part of a dial target, as `net.SplitHostPort` extracts it. `dialOpts` discards
    the error, so a malformed address yields no host. */
module Net {
  import opened Errors
  import opened Strings

  /** The host of "host:port" or "[host]:port"; None where `net.SplitHostPort` reports an
      error (no port separator, too many colons, a misplaced bracket). */
  function SplitHost(hostport: string): (host: Option<string>)
    // a host is only found when there is a port separator
    ensures host.Some? ==> ':' in hostport
    // the host never holds a bracket
    ensures host.Some? ==> '[' !in host.value && ']' !in host.value
  {
    var i := LastIndexOf(hostport, ':');
    if i < 0 then None
    else if hostport[0] == '[' then
      var end := IndexOf(hostport, ']');
      if end < 0 || end + 1 != i then None
      else if '[' in hostport[1..] || ']' in hostport[end + 1..] then None
      else
        assert forall k :: 1 <= k < end ==> hostport[k] == hostport[1..][k - 1];
        Some(hostport[1..end])
    else
      var host := hostport[..i];
      if ':' in host || '[' in hostport || ']' in hostport then None
      else
        assert forall k :: 0 <= k < i ==> hostport[k] == host[k];
        Some(host)
  }

  /** An unbracketed "host:port" yields exactly its host. */
  lemma HostOfPlainAddress(host: string, port: string)
    requires ':' !in host && '[' !in host && ']' !in host
    requires ':' !in port && '[' !in port && ']' !in port
    ensures SplitHost(host + ":" + port) == Some(host)
  {
    var s := host + ":" + port;
    var i := LastIndexOf(s, ':');
    assert s[|host|] == ':';
    if i != |host| {
      assert false;
    }
    assert s[..i] == host;
    if |host| > 0 {
      assert s[0] == host[0];
    }
    assert '[' !in s && ']' !in s by {
      forall k | 0 <= k < |s| ensures s[k] != '[' && s[k] != ']' {
        if k < |host| { assert s[k] == host[k]; }
        else if k > |host| { assert s[k] == port[k - |host| - 1]; }
      }
    }
  }

  /** A bracketed "[host]:port" (an IPv6 literal) yields the text between the brackets,
      colons included. */
  lemma HostOfBracketedAddress(host: string, port: string)
    requires '[' !in host && ']' !in host
    requires ':' !in port && '[' !in port && ']' !in port
    ensures SplitHost("[" + host + "]:" + port) == Some(host)
  {
    var s := "[" + host + "]:" + port;
    var n := |host|;
    assert s[0] == '[' && s[n + 1] == ']' && s[n + 2] == ':';
    var i := LastIndexOf(s, ':');
    if i != n + 2 {
      assert false;
    }
    var end := IndexOf(s, ']');
    if end != n + 1 {
      assert false;
    }
    assert '[' !in s[1..] by {
      forall k | 1 <= k < |s| ensures s[k] != '[' {
        if k <= n { assert s[k] == host[k - 1]; }
        else if k > n + 2 { assert s[k] == port[k - n - 3]; }
      }
    }
    assert ']' !in s[end + 1..] by {
      forall k | end + 1 <= k < |s| ensures s[k] != ']' {
        if k > n + 2 { assert s[k] == port[k - n - 3]; }
      }
    }
    assert s[1..end] == host;
  }

  /** An address without any ':' has no port, so no host is found. */
  lemma NoHostWithoutPort(hostport: string)
    requires ':' !in hostport
    ensures SplitHost(hostport) == None
  {
  }

  /** An address that does not start with '[' yields no host when it holds a ']' anywhere,
      before the port separator as well as after it. */
  lemma StrayBracketHasNoHost(hostport: string)
    requires |hostport| > 0 && hostport[0] != '[' && ']' in hostport
    ensures SplitHost(hostport) == None
  {
  }
}
