/** Route URLs are `host:port` texts: the two ways the program takes them apart, and how it builds them. */
module HostPort {
  import opened Prelude
  import opened Text

  function LastIndex(s: string, c: char): (i: int)
    ensures -1 <= i < |s|
    ensures i == -1 ==> c !in s
    ensures i >= 0 ==> s[i] == c && c !in s[i + 1..]
  {
    if s == "" then -1
    else if s[|s| - 1] == c then |s| - 1
    else
      var i := LastIndex(s[..|s| - 1], c);
      assert s == s[..|s| - 1] + [s[|s| - 1]];
      assert i >= 0 ==> s[i + 1..] == s[..|s| - 1][i + 1..] + [s[|s| - 1]];
      i
  }

  function FirstIndex(s: string, c: char): (i: int)
    ensures -1 <= i < |s|
    ensures i == -1 ==> c !in s
    ensures i >= 0 ==> s[i] == c && c !in s[..i]
  {
    if s == "" then -1
    else if s[0] == c then 0
    else
      var i := FirstIndex(s[1..], c);
      assert s == [s[0]] + s[1..];
      assert i >= 0 ==> s[..i + 1] == [s[0]] + s[1..][..i];
      if i == -1 then -1 else i + 1
  }

  /** `parseHostPort`: everything before and after the last colon. */
  function ParseHostPort(url: string): Option<(string, string)> {
    var i := LastIndex(url, ':');
    if i == -1 then None else Some((url[..i], url[i + 1..]))
  }

  function Url(host: string, port: string): string {
    host + ":" + port
  }

  lemma {:induction false} LastIndexIs(s: string, c: char, i: nat)
    requires i < |s| && s[i] == c && c !in s[i + 1..]
    ensures LastIndex(s, c) == i
  {
  }

  /** A URL parses exactly into the parts it is built from, if the port holds no colon. */
  lemma ParseIsInverse(url: string, host: string, port: string)
    ensures ParseHostPort(url) == Some((host, port)) <==> url == Url(host, port) && ':' !in port
  {
    if url == Url(host, port) && ':' !in port {
      assert url[|host| + 1..] == port;
      LastIndexIs(url, ':', |host|);
      assert url[..|host|] == host;
    }
    if ParseHostPort(url) == Some((host, port)) {
      var i := LastIndex(url, ':');
      assert url == url[..i] + [url[i]] + url[i + 1..];
    }
  }

  /** `net.JoinHostPort`: a host with a colon or a percent sign is bracketed. */
  function JoinHostPort(host: string, port: string): string {
    if ':' in host || '%' in host then "[" + host + "]:" + port else host + ":" + port
  }

  /** The host part of the URL that `JoinHostPort` builds. */
  function Bracketed(host: string): string {
    if ':' in host || '%' in host then "[" + host + "]" else host
  }

  lemma JoinIsUrl(host: string, port: string)
    ensures JoinHostPort(host, port) == Url(Bracketed(host), port)
  {
    if ':' in host || '%' in host {
      assert "[" + host + "]:" + port == ("[" + host + "]") + ":" + port;
    }
  }

  /** `net.SplitHostPort`, with its errors. */
  function SplitHostPort(s: string): Result<(string, string)> {
    var i := LastIndex(s, ':');
    if i < 0 then Err
    else if s[0] == '[' then
      var end := FirstIndex(s, ']');
      if end < 0 || end + 1 != i then Err
      else if '[' in s[1..] || ']' in s[end + 1..] then Err
      else Ok((s[1..end], s[i + 1..]))
    else if ':' in s[..i] || '[' in s || ']' in s then Err
    else Ok((s[..i], s[i + 1..]))
  }

  /** `splitHostPortNum`. */
  function SplitHostPortNum(s: string): Result<(string, Int64)> {
    var parts := SplitHostPort(s);
    if parts.Err? then Err
    else
      var n := Atoi(parts.value.1);
      if n.None? then Err else Ok((parts.value.0, n.value))
  }

  lemma {:induction false} FirstIndexIs(s: string, c: char, i: nat)
    requires i < |s| && s[i] == c && c !in s[..i]
    ensures FirstIndex(s, c) == i
  {
  }

  predicate Plain(s: string) {
    '[' !in s && ']' !in s
  }

  lemma SplitBracketed(host: string, port: string)
    requires Plain(host) && Plain(port) && ':' !in port
    ensures SplitHostPort("[" + host + "]:" + port) == Ok((host, port))
  {
    var s := "[" + host + "]:" + port;
    var end := |host| + 1;
    assert s[end] == ']' && s[end + 1] == ':' && s[end + 2..] == port;
    LastIndexIs(s, ':', end + 1);
    assert s[..end] == "[" + host;
    FirstIndexIs(s, ']', end);
    assert s[1..] == host + "]:" + port;
    assert s[end + 1..] == ":" + port;
    assert s[1..end] == host;
  }

  lemma SplitUnbracketed(host: string, port: string)
    requires Plain(host) && Plain(port) && ':' !in host && ':' !in port
    ensures SplitHostPort(host + ":" + port) == Ok((host, port))
  {
    var s := host + ":" + port;
    assert s[|host| + 1..] == port && s[..|host|] == host && s[|host|] == ':';
    LastIndexIs(s, ':', |host|);
    assert s[0] != '[' by {
      if host != "" {
        assert host[0] in host;
      }
    }
  }

  lemma SplitHoldsParts(s: string, host: string, port: string)
    requires SplitHostPort(s) == Ok((host, port))
    ensures Plain(host) && Plain(port) && ':' !in port
    ensures s == "[" + host + "]:" + port || (s == host + ":" + port && ':' !in host)
  {
    var i := LastIndex(s, ':');
    if s[0] == '[' {
      var end := FirstIndex(s, ']');
      assert s == [s[0]] + s[1..end] + [s[end]] + [s[i]] + s[i + 1..];
      assert forall c :: c in s[1..end] ==> c in s[1..] && c in s[..end];
      assert forall c :: c in s[i + 1..] ==> c in s[1..] && c in s[end + 1..];
    } else {
      assert s == s[..i] + [s[i]] + s[i + 1..];
    }
  }

  /** Which texts split, and into what: a host without colons and a port, or a bracketed host and a port, no bracket inside. */
  lemma SplitExactly(s: string, host: string, port: string)
    ensures SplitHostPort(s) == Ok((host, port)) <==>
            && Plain(host) && Plain(port) && ':' !in port
            && (s == "[" + host + "]:" + port || (s == host + ":" + port && ':' !in host))
  {
    hide SplitHostPort;
    if SplitHostPort(s) == Ok((host, port)) {
      SplitHoldsParts(s, host, port);
    } else if Plain(host) && Plain(port) && ':' !in port {
      if s == "[" + host + "]:" + port {
        SplitBracketed(host, port);
      } else if s == host + ":" + port && ':' !in host {
        SplitUnbracketed(host, port);
      }
    }
  }

  /** `SplitHostPort` undoes `JoinHostPort` for every host and port without brackets, and ports without colons. */
  lemma JoinThenSplitHostPort(host: string, port: string)
    requires Plain(host) && Plain(port) && ':' !in port
    ensures SplitHostPort(JoinHostPort(host, port)) == Ok((host, port))
  {
    hide SplitHostPort;
    if ':' in host || '%' in host {
      SplitBracketed(host, port);
    } else {
      SplitUnbracketed(host, port);
    }
  }

  /** Building a numbered address and taking it apart again gives back host and number. */
  lemma NumberedRoundTrip(host: string, n: Int64)
    requires Plain(host)
    ensures SplitHostPortNum(JoinHostPort(host, Itoa(n))) == Ok((host, n))
  {
    PortIsPlain(n);
    JoinThenSplitHostPort(host, Itoa(n));
    ItoaThenAtoi(n);
  }

  lemma PortIsPlain(n: int)
    ensures Plain(Itoa(n)) && ':' !in Itoa(n)
  {
    ItoaIsPlain(n);
  }
}
