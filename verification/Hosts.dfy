/** From the Host header of a request to the registered subdomain. */
module Hosts {
  import opened Common
  import SessionStore

  /** Position of the last c in s, or -1. */
  function LastIndex(s: string, c: char): (i: int)
    ensures -1 <= i < |s|
    ensures i >= 0 ==> s[i] == c
    ensures forall k | i < k < |s| :: s[k] != c
  {
    if s == "" then -1
    else if s[|s| - 1] == c then |s| - 1
    else LastIndex(s[..|s| - 1], c)
  }

  /** Position of the first c in s, or -1. */
  function FirstIndex(s: string, c: char): (i: int)
    ensures -1 <= i < |s|
    ensures i >= 0 ==> s[i] == c && forall k | 0 <= k < i :: s[k] != c
    ensures i == -1 ==> c !in s
  {
    if s == "" then -1
    else if s[0] == c then 0
    else
      var i := FirstIndex(s[1..], c);
      if i == -1 then -1 else i + 1
  }

  /** The host name with the port behind it, if there is one. */
  function WithPort(name: string, port: Option<string>): string {
    if port.Some? then name + ":" + port.value else name
  }

  function StripPort(host: string): string {
    var i := LastIndex(host, ':');
    if i == -1 then host else host[..i]
  }

  /** The whole host name first, then its first label. */
  function Resolve(routes: map<string, int>, host: string): Option<(int, string)> {
    var h := StripPort(host);
    if h in routes then Some((routes[h], h))
    else
      var dot := FirstIndex(h, '.');
      if dot != -1 && h[..dot] in routes then Some((routes[h[..dot]], h[..dot])) else None
  }

  lemma PlainHasNoSeparator(sub: string)
    requires SessionStore.PlainLabel(sub)
    ensures '.' !in sub && ':' !in sub
  {
  }

  lemma StripAppended(name: string, port: string)
    requires ':' !in port
    ensures StripPort(name + ":" + port) == name
  {
    var host := name + ":" + port;
    var i := LastIndex(host, ':');
    assert host[|name|] == ':';
    assert forall k | |name| < k < |host| :: host[k] == port[k - |name| - 1];
    assert i == |name|;
  }

  lemma StripWithPort(name: string, port: Option<string>)
    requires ':' !in name && (port.Some? ==> ':' !in port.value)
    ensures StripPort(WithPort(name, port)) == name
  {
    if port.Some? {
      StripAppended(name, port.value);
    }
  }

  /** Under any colon-free domain, and with or without a port, a host name of a subdomain resolves
      to exactly that subdomain's registration, and to nothing iff it has none. */
  lemma HostRoundTrip(routes: map<string, int>, sub: string, domain: string, port: Option<string>)
    requires forall k | k in routes :: SessionStore.PlainLabel(k)
    requires SessionStore.PlainLabel(sub) && ':' !in domain && (port.Some? ==> ':' !in port.value)
    ensures Resolve(routes, WithPort(sub + "." + domain, port)) == if sub in routes then Some((routes[sub], sub)) else None
  {
    var name := sub + "." + domain;
    PlainHasNoSeparator(sub);
    assert ':' !in name;
    StripWithPort(name, port);
    assert name[|sub|] == '.';
    if name in routes {
      PlainHasNoSeparator(name);
    }
    assert forall k | 0 <= k < |sub| :: name[k] == sub[k];
    assert FirstIndex(name, '.') == |sub|;
    assert name[..|sub|] == sub;
  }

  /** A host name that is a label by itself resolves to that label's registration, and to nothing iff it has none. */
  lemma BareLabel(routes: map<string, int>, sub: string, port: Option<string>)
    requires SessionStore.PlainLabel(sub) && (port.Some? ==> ':' !in port.value)
    ensures Resolve(routes, WithPort(sub, port)) == if sub in routes then Some((routes[sub], sub)) else None
  {
    PlainHasNoSeparator(sub);
    StripWithPort(sub, port);
    assert FirstIndex(sub, '.') == -1;
  }
}
