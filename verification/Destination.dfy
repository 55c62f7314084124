/**
 Reading the destinations the core logs.

 A destination is printed as "network:host:port", with an IPv6 host in brackets. Reading it back is
 more lenient than printing: the network may be missing, brackets are trimmed from both ends as often
 as they occur, and where no port can be read the whole rest is the host. So only some destinations
 are read as they were printed.
 */
module Destination {
  import opened Wrappers
  import opened Text

  datatype Destination = Destination(network: string, host: string, port: int)

  const INT_RANGE: int := 0x8000_0000_0000_0000

  /** strconv.Atoi: an error outside the range of int. */
  function Atoi(s: string): Option<int> {
    match ParseInt(s)
    case Some(n) => if -INT_RANGE <= n < INT_RANGE then Some(n) else None
    case None => None
  }

  /** strings.LastIndex for one character. */
  function LastIndexOf(s: string, c: char): (r: Option<nat>)
    ensures r.None? ==> forall i :: 0 <= i < |s| ==> s[i] != c
    ensures r.Some? ==> r.value < |s| && s[r.value] == c && forall i :: r.value < i < |s| ==> s[i] != c
  {
    if s == "" then None
    else if s[|s| - 1] == c then Some(|s| - 1)
    else LastIndexOf(s[..|s| - 1], c)
  }

  /** strings.Index for one character. */
  function FirstIndexOf(s: string, c: char): (r: Option<nat>)
    ensures r.None? ==> forall i :: 0 <= i < |s| ==> s[i] != c
    ensures r.Some? ==> r.value < |s| && s[r.value] == c && forall i :: 0 <= i < r.value ==> s[i] != c
  {
    FirstIndexFrom(s, c, 0)
  }

  function FirstIndexFrom(s: string, c: char, from: nat): (r: Option<nat>)
    requires from <= |s|
    ensures r.None? ==> forall i :: from <= i < |s| ==> s[i] != c
    ensures r.Some? ==> from <= r.value < |s| && s[r.value] == c && forall i :: from <= i < r.value ==> s[i] != c
    decreases |s| - from
  {
    if from == |s| then None else if s[from] == c then Some(from) else FirstIndexFrom(s, c, from + 1)
  }

  predicate IsBracket(c: char) { c == '[' || c == ']' }

  function TrimBracketsLeft(s: string): (r: string)
    ensures |r| <= |s| && (r == "" || !IsBracket(r[0]))
    ensures s == "" || !IsBracket(s[0]) ==> r == s
  {
    if s != "" && IsBracket(s[0]) then TrimBracketsLeft(s[1..]) else s
  }

  function TrimBracketsRight(s: string): (r: string)
    ensures |r| <= |s| && r == s[..|r|] && (r == "" || !IsBracket(r[|r| - 1]))
    ensures s == "" || !IsBracket(s[|s| - 1]) ==> r == s
  {
    if s != "" && IsBracket(s[|s| - 1]) then TrimBracketsRight(s[..|s| - 1]) else s
  }

  /** strings.Trim with the cutset "[]". */
  function TrimBrackets(s: string): (r: string)
    ensures r == "" || (!IsBracket(r[0]) && !IsBracket(r[|r| - 1]))
  {
    TrimBracketsRight(TrimBracketsLeft(s))
  }

  /** The host and port of "host:port"; a port that is no number stays part of the host. */
  function SplitHostPort(s: string): (string, int) {
    var i := LastIndexOf(s, ':');
    if i.None? then (TrimBrackets(s), 0)
    else
      var port := Atoi(s[i.value + 1..]);
      if port.None? then (TrimBrackets(s), 0) else (TrimBrackets(s[..i.value]), port.value)
  }

  function SplitDestination(s: string): Destination {
    var i := FirstIndexOf(s, ':');
    if i.Some? && i.value > 0 then
      var (host, port) := SplitHostPort(s[i.value + 1..]);
      Destination(s[..i.value], host, port)
    else
      var (host, port) := SplitHostPort(s);
      Destination("tcp", host, port)
  }

  function Bracketed(host: string): string { if ':' in host then "[" + host + "]" else host }

  /** How the core prints a destination. */
  function Print(d: Destination): string
    requires d.port >= 0
  {
    d.network + ":" + Bracketed(d.host) + ":" + FormatNat(d.port)
  }

  predicate NoOuterBrackets(host: string) {
    host == "" || (!IsBracket(host[0]) && !IsBracket(host[|host| - 1]))
  }

  lemma BracketsAreTrimmed(host: string)
    ensures NoOuterBrackets(host) <==> TrimBrackets(Bracketed(host)) == host
  {
    if NoOuterBrackets(host) && ':' in host {
      var s := "[" + host + "]";
      assert s[1..] == host + "]";
      assert TrimBracketsLeft(s) == TrimBracketsLeft(host + "]") == host + "]";
      assert (host + "]")[..|host|] == host;
    }
  }

  lemma PortReads(port: nat)
    requires port < INT_RANGE
    ensures Atoi(FormatNat(port)) == Some(port as int) && ':' !in FormatNat(port)
  {
    var text := FormatNat(port);
    assert text[0] != '-' && text[0] != '+';
    assert forall i :: 0 <= i < |text| ==> text[i] != ':';
  }

  lemma HostPortSplits(host: string, port: nat)
    requires port < INT_RANGE
    ensures SplitHostPort(Bracketed(host) + ":" + FormatNat(port)) == (TrimBrackets(Bracketed(host)), port as int)
  {
    hide Atoi, FormatNat, TrimBrackets;
    var text := FormatNat(port);
    var front := Bracketed(host);
    var s := front + ":" + text;
    PortReads(port);
    assert s[|front| + 1..] == text && s[..|front|] == front;
    assert LastIndexOf(s, ':') == Some(|front|) by {
      assert s[|front|] == ':' && forall i :: |front| < i < |s| ==> s[i] == text[i - |front| - 1];
    }
  }

  /**
   A printed destination reads back exactly when its network is a name without a colon and its
   host neither starts nor ends with a bracket.
   */
  lemma SplitInvertsPrintExactlyWhen(d: Destination)
    requires 0 <= d.port < INT_RANGE
    ensures SplitDestination(Print(d)) == d <==> d.network != "" && ':' !in d.network && NoOuterBrackets(d.host)
  {
    hide SplitHostPort, Bracketed, FormatNat, FirstIndexOf, TrimBrackets, NoOuterBrackets;
    var s := Print(d);
    var tail := Bracketed(d.host) + ":" + FormatNat(d.port);
    var n := |d.network|;
    assert s == d.network + ":" + tail && s[n] == ':' && s[n + 1..] == tail && s[..n] == d.network;
    HostPortSplits(d.host, d.port);
    BracketsAreTrimmed(d.host);
    var i := FirstIndexOf(s, ':');
    assert forall k :: 0 <= k < n ==> s[k] == d.network[k];
    assert i.Some? && i.value <= n;
    assert ':' in d.network <==> i.value < n;
  }

  // ---------- Reading, written out ----------

  predicate AllBrackets(s: string) { forall i :: 0 <= i < |s| ==> s[i] == '[' || s[i] == ']' }

  /** `t` is `s` without the brackets at its ends. */
  ghost predicate IsUnbracketed(s: string, t: string) {
    && (t == "" || (t[0] !in ['[', ']'] && t[|t| - 1] !in ['[', ']']))
    && exists before, after :: AllBrackets(before) && AllBrackets(after) && s == before + t + after
  }

  lemma {:induction false} LeftBrackets(s: string) returns (gap: string)
    ensures AllBrackets(gap) && s == gap + TrimBracketsLeft(s)
  {
    gap := "";
    if s != "" && IsBracket(s[0]) {
      var rest := LeftBrackets(s[1..]);
      gap := [s[0]] + rest;
    }
  }

  lemma {:induction false} RightBrackets(s: string) returns (gap: string)
    ensures AllBrackets(gap) && s == TrimBracketsRight(s) + gap
  {
    gap := "";
    if s != "" && IsBracket(s[|s| - 1]) {
      var rest := RightBrackets(s[..|s| - 1]);
      gap := rest + [s[|s| - 1]];
      assert s == TrimBracketsRight(s) + rest + [s[|s| - 1]];
    }
  }

  /** Only brackets at the ends are taken away, and all of them. */
  lemma TrimmedIsUnbracketed(s: string)
    ensures IsUnbracketed(s, TrimBrackets(s))
  {
    var before := LeftBrackets(s);
    var after := RightBrackets(TrimBracketsLeft(s));
    assert s == before + (TrimBrackets(s) + after) == before + TrimBrackets(s) + after;
  }

  /** A number is a sign, or none, and decimal digits, within the range of int64. */
  lemma AtoiReads(sign: string, digits: string)
    requires sign in ["", "+", "-"] && digits != "" && AllDigits(digits)
    ensures var n: int := DigitsValue(digits);
      Atoi(sign + digits) ==
        if sign == "-" then (if n <= 0x8000_0000_0000_0000 then Some(-n) else None)
        else if n < 0x8000_0000_0000_0000 then Some(n) else None
  {
    var s := sign + digits;
    if sign == "" {
      assert s == digits && IsDigit(s[0]);
    } else {
      assert s[1..] == digits;
    }
  }

  /** Without a colon there is neither network nor port: TCP, and port zero. */
  lemma NoColonReads(s: string)
    requires ':' !in s
    ensures SplitDestination(s) == Destination("tcp", TrimBrackets(s), 0)
  {
  }

  /** What stands before the first colon is the network, unless it is empty. */
  lemma NetworkReads(network: string, rest: string)
    requires network != "" && ':' !in network
    ensures SplitDestination(network + ":" + rest).network == network
    ensures SplitDestination(network + ":" + rest).host == SplitHostPort(rest).0
    ensures SplitDestination(network + ":" + rest).port == SplitHostPort(rest).1
  {
    hide SplitHostPort;
    var s := network + ":" + rest;
    assert forall k :: 0 <= k < |network| ==> s[k] == network[k];
    assert s[|network|] == ':' && s[..|network|] == network && s[|network| + 1..] == rest;
    assert FirstIndexOf(s, ':') == Some(|network|);
  }

  /** A leading colon is no end of a network. */
  lemma LeadingColonReads(rest: string)
    ensures SplitDestination(":" + rest).network == "tcp"
  {
    hide SplitHostPort;
    assert (":" + rest)[0] == ':';
  }

  /** What stands after the last colon is the port if it is a number; otherwise it belongs to the host. */
  lemma HostPortReads(host: string, port: string)
    requires ':' !in port
    ensures SplitHostPort(host + ":" + port) ==
      if Atoi(port).Some? then (TrimBrackets(host), Atoi(port).value) else (TrimBrackets(host + ":" + port), 0)
    ensures SplitHostPort(port) == (TrimBrackets(port), 0)
  {
    hide Atoi, TrimBrackets;
    var s := host + ":" + port;
    assert forall k :: |host| < k < |s| ==> s[k] == port[k - |host| - 1];
    assert s[|host|] == ':' && s[..|host|] == host && s[|host| + 1..] == port;
    assert LastIndexOf(s, ':') == Some(|host|);
  }
}
