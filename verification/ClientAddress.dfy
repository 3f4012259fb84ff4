/**
 The client address a rate-limit key is made from: an entry of X-Forwarded-For
 that a trusted proxy wrote.
 */
module ClientAddress {
  import opened Trimming

  /** `s.split(",")`. */
  function Split(s: string): (parts: seq<string>)
    ensures parts != []
  {
    if s == "" then [""]
    else
      var rest := Split(s[1..]);
      if s[0] == ',' then [""] + rest else [[s[0]] + rest[0]] + rest[1..]
  }

  /** `.map(s => s.trim()).filter(Boolean)`. */
  function Entries(parts: seq<string>): (r: seq<string>)
    ensures forall e :: e in r ==> e != ""
  {
    if parts == [] then []
    else (if Trim(parts[0]) == "" then [] else [Trim(parts[0])]) + Entries(parts[1..])
  }

  function Parts(header: string): seq<string> {
    Entries(Split(header))
  }

  /** The address used, given the header ("" when absent) and the socket's peer. */
  function ClientIp(header: string, trustedProxyHops: int, peer: string): string {
    var parts := Parts(header);
    if trustedProxyHops > 0 && parts != [] then
      parts[if |parts| > trustedProxyHops then |parts| - trustedProxyHops else 0]
    else peer
  }

  /** What one proxy adds: a part of its own, no comma in it, not blank. */
  predicate IsHop(hop: string) {
    ',' !in hop && Trim(hop) != ""
  }

  function Append(header: string, hop: string): string {
    if header == "" then hop else header + "," + hop
  }

  /** The header behind a chain of proxies that each append one part. */
  function Forwarded(header: string, hops: seq<string>): string
    decreases hops
  {
    if hops == [] then header else Forwarded(Append(header, hops[0]), hops[1..])
  }

  lemma {:induction false} SplitOne(s: string)
    requires ',' !in s
    ensures Split(s) == [s]
  {
    if s != "" {
      assert s[0] in s;
      SplitOne(s[1..]);
      assert s == [s[0]] + s[1..];
    }
  }

  lemma {:induction false} SplitAppend(a: string, b: string)
    ensures Split(a + "," + b) == Split(a) + Split(b)
  {
    if a == "" {
      assert ("," + b)[1..] == b;
      assert a + "," + b == "," + b;
    } else {
      assert (a + "," + b)[1..] == a[1..] + "," + b;
      SplitAppend(a[1..], b);
    }
  }

  lemma {:induction false} EntriesAppend(a: seq<string>, b: seq<string>)
    ensures Entries(a + b) == Entries(a) + Entries(b)
  {
    if a == [] {
      assert a + b == b;
    } else {
      assert (a + b)[1..] == a[1..] + b;
      EntriesAppend(a[1..], b);
    }
  }

  lemma AppendParts(header: string, hop: string)
    requires IsHop(hop)
    ensures Parts(Append(header, hop)) == Parts(header) + [Trim(hop)]
  {
    SplitOne(hop);
    assert Parts(hop) == [Trim(hop)] by { assert Entries([hop][1..]) == []; }
    if header == "" {
      assert Entries([""][1..]) == [] && Parts("") == [];
    } else {
      SplitAppend(header, hop);
      EntriesAppend(Split(header), [hop]);
    }
  }

  function Trimmed(hops: seq<string>): seq<string> {
    seq(|hops|, i requires 0 <= i < |hops| => Trim(hops[i]))
  }

  lemma {:induction false} ForwardedParts(header: string, hops: seq<string>)
    requires forall hop :: hop in hops ==> IsHop(hop)
    ensures Parts(Forwarded(header, hops)) == Parts(header) + Trimmed(hops)
    decreases hops
  {
    if hops != [] {
      AppendParts(header, hops[0]);
      ForwardedParts(Append(header, hops[0]), hops[1..]);
      assert Trimmed(hops) == [Trim(hops[0])] + Trimmed(hops[1..]);
    }
  }

  /** Behind as many appending proxies as are trusted, the address is the part the
      outermost of them wrote, whatever header the client sent. */
  lemma AddressIsTrusted(header: string, hops: seq<string>, peer: string)
    requires hops != [] && forall hop :: hop in hops ==> IsHop(hop)
    ensures ClientIp(Forwarded(header, hops), |hops|, peer) == Trim(hops[0])
  {
    ForwardedParts(header, hops);
    var parts := Parts(Forwarded(header, hops));
    assert parts[|parts| - |hops|] == Trimmed(hops)[0];
  }
}
