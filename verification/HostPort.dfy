/**
 How a text is taken apart into a host and a port (sensor/src/addr.rs), for texts of every form, with any white space
 around.
 */
module HostPort {
  import opened Text
  import opened AddrText
  import opened Ipv6Literals
  import Decimal

  /** A number up to 65535, with or without leading zeros. */
  function PortOf(p: string): Option<nat> {
    if p != "" && (forall i :: 0 <= i < |p| ==> '0' <= p[i] <= '9') && Spelled(p, 10) <= 65535 then Some(Spelled(p, 10)) else None
  }

  predicate Blank(s: string) {
    forall i :: 0 <= i < |s| ==> IsSpace(s[i])
  }

  /** No space at either end. */
  predicate Bare(s: string) {
    s == "" || (!IsSpace(s[0]) && !IsSpace(s[|s| - 1]))
  }

  lemma TrimIs(left: string, core: string, right: string)
    requires Blank(left) && Bare(core) && Blank(right)
    ensures Trim(left + core + right) == core
  {
    hide IsSpace;
    TrimmedIs(left, core, right, c => IsSpace(c));
  }

  lemma PortIs(p: string)
    ensures (if p == "" || !Decimal.AllDigits(p) || Decimal.Value(p) > 0xffff then None else Some(Decimal.Value(p))) == PortOf(p)
  {
    hide Decimal.Value, Spelled;
    if Decimal.AllDigits(p) { SpelledDec(p); }
  }

  predicate Bracketed(core: string) { core != "" && core[0] == '[' && ']' in core }

  /** Without a colon a text is a host. */
  lemma HostOnly(left: string, host: string, right: string)
    requires Blank(left) && Bare(host) && Blank(right) && ':' !in host && !Bracketed(host)
    ensures ParseHostPort(left + host + right) == (host, None)
  {
    hide IsSpace, Trim, Find, Last, Decimal.Value;
    TrimIs(left, host, right);
    BracketFound(host);
  }

  /** Otherwise the port is what follows the last colon. */
  lemma HostAndPort(left: string, host: string, port: string, right: string)
    requires Blank(left) && Bare(host + ":" + port) && Blank(right) && ':' !in port && !Bracketed(host + ":" + port)
    ensures ParseHostPort(left + (host + ":" + port) + right) == (host, PortOf(port))
  {
    hide IsSpace, Trim, Find, Last, Decimal.Value, Spelled;
    var core := host + ":" + port;
    TrimIs(left, core, right);
    BracketFound(core);
    assert core[|host|] == ':' && core[|host| + 1..] == port && core[..|host|] == host;
    LastIs(core, ':', |host|);
    PortIs(port);
  }

  /** In brackets the host ends at the first closing one, and a port follows only right after a colon. */
  lemma HostInBrackets(left: string, host: string, after: string, right: string)
    requires Blank(left) && Bare("[" + host + "]" + after) && Blank(right) && ']' !in host
    ensures ParseHostPort(left + ("[" + host + "]" + after) + right) ==
      (host, if after != "" && after[0] == ':' then PortOf(after[1..]) else None)
  {
    hide IsSpace, Trim, Find, Last, Decimal.Value, Spelled;
    var core := "[" + host + "]" + after;
    TrimIs(left, core, right);
    assert core[|host| + 1] == ']';
    FindFirst("[" + host, after, "]");
    assert core == ("[" + host) + ("]" + after);
    FindFirst(host, after, "]");
    assert core[1..] == host + ("]" + after);
    assert core[1..][..|host|] == host && core[1..][|host| + 1..] == after;
    if after != "" { PortIs(after[1..]); }
  }

  lemma BracketFound(s: string)
    ensures Find(s, "]").Some? <==> ']' in s
  {
    if ']' in s { FoundIn(s); } else if Find(s, "]").Some? { assert s[Find(s, "]").value..Find(s, "]").value + 1][0] == ']'; }
  }

  lemma {:induction false} FoundIn(s: string)
    requires ']' in s
    ensures Find(s, "]").Some?
  {
    if s[0] == ']' { assert s[..1] == "]"; } else { FoundIn(s[1..]); }
  }
}
