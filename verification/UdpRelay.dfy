/**
 SOCKS5 UDP ASSOCIATE over the AmneziaWG netstack, as a state machine. One goroutine reads the client
 socket, one per tunnel socket reads replies, two more watch the control connection and the context,
 and the handler itself waits for the first of them to finish. A critical section of `tunnelMu` or
 `clientMu` is one step; the outcome of every socket call is chosen by the environment.
 */
module UdpRelay {
  import opened Wrappers
  import opened SocksDatagram

  // ---------- The local address a tunnel socket is bound to ----------

  datatype Family = Ipv4 | Ipv6

  /** netip.Addr: the zero value is invalid, an address has 4 or 16 octets. */
  datatype LocalAddr = InvalidAddr | LocalAddr(ip: IP)

  function Unmap(a: LocalAddr): LocalAddr {
    if a.LocalAddr? && |a.ip| == 16 && To4(a.ip).Some? then LocalAddr(To4(a.ip).value) else a
  }

  function FamilyOf(ip: IP): Option<Family> {
    if To4(ip).Some? then Some(Ipv4) else if To16(ip).Some? then Some(Ipv6) else None
  }

  predicate Unspecified(ip: IP) { forall i :: 0 <= i < |ip| ==> ip[i] == 0 }

  /** The address can carry traffic of the family once an IPv4-mapped one is unmapped. */
  predicate Usable(a: LocalAddr, family: Family) {
    var u := Unmap(a);
    u.LocalAddr? && !Unspecified(u.ip) && (|u.ip| == 4 <==> family == Ipv4)
  }

  function BindAddress(destination: UdpAddr, locals: seq<LocalAddr>): Option<(UdpAddr, Family)> {
    var family := FamilyOf(destination.ip);
    if family.None? then None else FirstUsable(locals, family.value)
  }

  function FirstUsable(locals: seq<LocalAddr>, family: Family): (r: Option<(UdpAddr, Family)>)
    ensures r.Some? ==> r.value.1 == family
  {
    if locals == [] then None
    else if Usable(locals[0], family) then Some((UdpAddr(Unmap(locals[0]).ip, 0), family))
    else FirstUsable(locals[1..], family)
  }

  method AmneziaWgUDPBindAddress(destination: UdpAddr, locals: seq<LocalAddr>) returns (r: Option<(UdpAddr, Family)>)
    ensures r == BindAddress(destination, locals)
  {
    if |destination.ip| == 0 {
      return None;
    }
    var isIPv4 := To4(destination.ip).Some?;
    if !isIPv4 && To16(destination.ip).None? {
      return None;
    }
    var family := if isIPv4 then Ipv4 else Ipv6;
    var i := 0;
    while i < |locals|
      invariant i <= |locals|
      invariant FirstUsable(locals, family) == FirstUsable(locals[i..], family)
    {
      assert locals[i..][0] == locals[i] && locals[i..][1..] == locals[i + 1..];
      if Usable(locals[i], family) {
        return Some((UdpAddr(Unmap(locals[i]).ip, 0), family));
      }
      i := i + 1;
    }
    return None;
  }

  /** The chosen address is the first usable local one, and there is none only if no local one is usable. */
  lemma {:induction false} FirstUsableIsFirst(locals: seq<LocalAddr>, family: Family)
    ensures match FirstUsable(locals, family)
      case None => forall i :: 0 <= i < |locals| ==> !Usable(locals[i], family)
      case Some((bind, f)) =>
        && f == family && bind.port == 0
        && exists i :: 0 <= i < |locals| && Usable(locals[i], family) && bind.ip == Unmap(locals[i]).ip
             && forall j :: 0 <= j < i ==> !Usable(locals[j], family)
  {
    if locals != [] && !Usable(locals[0], family) {
      FirstUsableIsFirst(locals[1..], family);
      assert forall i :: 0 < i < |locals| ==> locals[i] == locals[1..][i - 1];
      if FirstUsable(locals, family).Some? {
        var bind := FirstUsable(locals, family).value.0;
        var i :| 0 <= i < |locals[1..]| && Usable(locals[1..][i], family) && bind.ip == Unmap(locals[1..][i]).ip
          && forall j :: 0 <= j < i ==> !Usable(locals[1..][j], family);
        assert Usable(locals[i + 1], family);
      }
    }
  }

  // ---------- The association ----------

  datatype Socket = Socket(family: Family, bind: UdpAddr, open: bool)

  /**
   A datagram the client socket received, what looking up its name returned, if it has one, and what
   it asks for if it is accepted at all.
   */
  datatype Request = Request(source: UdpAddr, packet: Bytes, lookup: Option<IP>, accepted: Option<Decoded>)

  /** A datagram a tunnel socket received, and its encoding for the client. */
  datatype Response = Response(socket: nat, remote: UdpAddr, data: Bytes, encoded: Bytes)

  /** Where the goroutine on the client socket stands; `k` numbers the request it works on. */
  datatype ClientLoop =
    | Reading
    | Parsed(k: nat, out: Decoded)
    | Routed(k: nat, out: Decoded, socket: nat)
    | Allowed(k: nat, out: Decoded, socket: nat)
    | Ended

  /** Where the goroutine on one tunnel socket stands; `k` numbers the response it works on. */
  datatype ReplyLoop = Listening | Encoded(k: nat) | Addressed(k: nat, to: Option<UdpAddr>) | Stopped

  datatype Handler = Waiting | TunnelsClosed | Returned

  /** What left through a tunnel socket, and what went back to the client. */
  datatype Sent = Sent(k: nat, out: Decoded, socket: nat)
  datatype Answer = Answer(k: nat, to: UdpAddr, packet: Bytes)

  datatype Relay = Relay(
    clientAddr: Option<UdpAddr>,
    tunnels: map<Family, nat>,
    tunnelsClosed: bool,
    finished: bool,
    closes: nat,
    clientOpen: bool,
    sockets: seq<Socket>,
    client: ClientLoop,
    replies: seq<ReplyLoop>,
    handler: Handler,
    // what happened so far
    requests: seq<Request>,
    responses: seq<Response>,
    sent: seq<Sent>,
    answers: seq<Answer>)

  const START := Relay(None, map[], false, false, 0, true, [], Reading, [], Waiting, [], [], [], [])

  /** What is fixed for one association. */
  datatype Setup = Setup(controlIP: Option<IP>, locals: seq<LocalAddr>)

  datatype Event =
    | ClientReceives(source: UdpAddr, packet: Bytes, lookup: Option<IP>)
    | ClientReadFails
    | RouteRequest(listenOk: bool)
    | PinClient
    | SendRequest(ok: bool)
    | TunnelReceives(i: nat, remote: UdpAddr, data: Bytes)
    | TunnelReadFails(i: nat)
    | LoadClient(i: nat)
    | SendAnswer(i: nat, ok: bool)
    | ControlEnds
    | ContextEnds
    | HandlerWakes
    | HandlerReturns

  /** finishOnce.Do(close(finished)). */
  function Finish(s: Relay): Relay {
    if s.finished then s else s.(finished := true, closes := s.closes + 1)
  }

  predicate SameAddr(a: UdpAddr, b: UdpAddr) { IpEqual(a.ip, b.ip) && a.port == b.port }

  predicate FromClientHost(setup: Setup, source: UdpAddr) {
    setup.controlIP.Some? ==> IpEqual(source.ip, setup.controlIP.value)
  }

  /** A lookup made for one datagram; another lookup of the same name may end differently. */
  function Answering(lookup: Option<IP>): Resolver { _ => lookup }

  /** A request counts only from the host of the control connection, and only if it can be decoded. */
  function Accept(setup: Setup, source: UdpAddr, packet: Bytes, lookup: Option<IP>): Option<Decoded> {
    if !FromClientHost(setup, source) then None
    else
      match Decode(packet, WRITTEN_START, Answering(lookup))
      case Failure(_) => None
      case Success(out) => Some(out)
  }

  function Receive(s: Relay, request: Request): Relay {
    s.(requests := s.requests + [request],
       client := if request.accepted.None? then Reading else Parsed(|s.requests|, request.accepted.value))
  }

  /** tunnelFor: one critical section of tunnelMu. */
  function Route(setup: Setup, s: Relay, k: nat, out: Decoded, listenOk: bool): Relay {
    match BindAddress(out.destination, setup.locals)
    case None => s.(client := Reading)
    case Some((bind, family)) =>
      if s.tunnelsClosed then s.(client := Reading)
      else if family in s.tunnels then s.(client := Routed(k, out, s.tunnels[family]))
      else if !listenOk then s.(client := Reading)
      else
        var id := |s.sockets|;
        s.(client := Routed(k, out, id),
           tunnels := s.tunnels[family := id],
           sockets := s.sockets + [Socket(family, bind, true)],
           replies := s.replies + [Listening])
  }

  /** One critical section of clientMu: the first client to get this far is the only one served. */
  function Pin(s: Relay, k: nat, out: Decoded, socket: nat): Relay
    requires k < |s.requests|
  {
    var source := s.requests[k].source;
    var pinned := if s.clientAddr.None? then s.(clientAddr := Some(source)) else s;
    pinned.(client := if SameAddr(pinned.clientAddr.value, source) then Allowed(k, out, socket) else Reading)
  }

  function CloseTunnels(s: Relay): Relay {
    s.(handler := TunnelsClosed, tunnelsClosed := true,
       sockets := seq(|s.sockets|, i requires 0 <= i < |s.sockets| =>
                    if i in s.tunnels.Values then s.sockets[i].(open := false) else s.sockets[i]))
  }

  /** The state after an event, or None when the event cannot happen in this state. */
  function Apply(setup: Setup, s: Relay, e: Event): Option<Relay> {
    match e
    case ClientReceives(source, packet, lookup) =>
      if s.client.Reading? && s.clientOpen then
        Some(Receive(s, Request(source, packet, lookup, Accept(setup, source, packet, lookup))))
      else None
    case ClientReadFails =>
      if s.client.Reading? then Some(Finish(s.(client := Ended))) else None
    case RouteRequest(listenOk) =>
      if s.client.Parsed? then Some(Route(setup, s, s.client.k, s.client.out, listenOk)) else None
    case PinClient =>
      if s.client.Routed? && s.client.k < |s.requests| then Some(Pin(s, s.client.k, s.client.out, s.client.socket))
      else None
    case SendRequest(ok) =>
      if !s.client.Allowed? then None
      else if !ok then Some(s.(client := Reading))
      else if s.client.socket < |s.sockets| && s.sockets[s.client.socket].open then
        Some(s.(client := Reading, sent := s.sent + [Sent(s.client.k, s.client.out, s.client.socket)]))
      else None
    case TunnelReceives(i, remote, data) =>
      if i < |s.replies| && i < |s.sockets| && s.replies[i].Listening? && s.sockets[i].open then
        Some(s.(replies := s.replies[i := Encoded(|s.responses|)],
                responses := s.responses + [Response(i, remote, data, Datagram(remote, data))]))
      else None
    case TunnelReadFails(i) =>
      if i < |s.replies| && s.replies[i].Listening? then Some(Finish(s.(replies := s.replies[i := Stopped]))) else None
    case LoadClient(i) =>
      if i < |s.replies| && s.replies[i].Encoded? then
        Some(s.(replies := s.replies[i := Addressed(s.replies[i].k, s.clientAddr)]))
      else None
    case SendAnswer(i, ok) =>
      if i < |s.replies| && s.replies[i].Addressed? && s.replies[i].k < |s.responses| && (ok ==> s.clientOpen) then
        var k, to := s.replies[i].k, s.replies[i].to;
        var s1 := s.(replies := s.replies[i := Listening]);
        if to.None? || !ok then Some(s1)
        else
          Some(s1.(answers := s.answers + [Answer(k, to.value, s.responses[k].encoded)]))
      else None
    case ControlEnds => Some(Finish(s))
    case ContextEnds => Some(Finish(s))
    case HandlerWakes => if s.handler.Waiting? && s.finished then Some(CloseTunnels(s)) else None
    case HandlerReturns =>
      if s.handler.TunnelsClosed? then Some(s.(handler := Returned, clientOpen := false)) else None
  }

  /** The state after a whole interleaving, if it can happen. */
  function Execute(setup: Setup, events: seq<Event>): Option<Relay> {
    if events == [] then Some(START)
    else
      var before := Execute(setup, events[..|events| - 1]);
      if before.None? then None else Apply(setup, before.value, events[|events| - 1])
  }

  // ---------- The invariant ----------

  /** Exactly the sockets ever opened are in the map, each under its own family. */
  ghost predicate TunnelsInv(setup: Setup, s: Relay) {
    && |s.replies| == |s.sockets|
    && (forall f :: f in s.tunnels ==> s.tunnels[f] < |s.sockets| && s.sockets[s.tunnels[f]].family == f)
    && (forall i :: 0 <= i < |s.sockets| ==>
          && s.sockets[i].family in s.tunnels && s.tunnels[s.sockets[i].family] == i
          && FirstUsable(setup.locals, s.sockets[i].family) == Some((s.sockets[i].bind, s.sockets[i].family))
          && (s.sockets[i].open <==> !s.tunnelsClosed))
  }

  ghost predicate ShutdownInv(s: Relay) {
    && s.closes == (if s.finished then 1 else 0)
    && (s.tunnelsClosed <==> !s.handler.Waiting?)
    && (s.clientOpen <==> !s.handler.Returned?)
    && (!s.handler.Waiting? ==> s.finished)
    && (s.client.Ended? ==> s.finished)
    && (forall i :: 0 <= i < |s.replies| && s.replies[i].Stopped? ==> s.finished)
  }

  /** What was received was judged and encoded as the code does. */
  ghost predicate RecordInv(setup: Setup, s: Relay) {
    && (forall r :: r in s.requests ==> r.accepted == Accept(setup, r.source, r.packet, r.lookup))
    && (forall r :: r in s.responses ==> r.encoded == Datagram(r.remote, r.data))
  }

  ghost predicate Genuine(s: Relay, k: nat, out: Decoded) {
    k < |s.requests| && s.requests[k].accepted == Some(out)
  }

  ghost predicate Fits(s: Relay, out: Decoded, socket: nat) {
    socket < |s.sockets| && FamilyOf(out.destination.ip) == Some(s.sockets[socket].family)
  }

  /** Request `k` was accepted and came from `addr`. */
  ghost predicate IsSource(s: Relay, k: nat, addr: UdpAddr) {
    k < |s.requests| && s.requests[k].accepted.Some? && s.requests[k].source == addr
  }

  ghost predicate FromPinned(s: Relay, k: nat) {
    k < |s.requests| && s.clientAddr.Some? && SameAddr(s.clientAddr.value, s.requests[k].source)
  }

  ghost predicate RequestInv(s: Relay) {
    && (match s.client
        case Parsed(k, out) => k + 1 == |s.requests| && Genuine(s, k, out)
        case Routed(k, out, socket) => k + 1 == |s.requests| && Genuine(s, k, out) && Fits(s, out, socket)
        case Allowed(k, out, socket) =>
          k + 1 == |s.requests| && Genuine(s, k, out) && Fits(s, out, socket) && FromPinned(s, k)
        case _ => true)
    && (forall i :: 0 <= i < |s.sent| ==>
          && Genuine(s, s.sent[i].k, s.sent[i].out)
          && Fits(s, s.sent[i].out, s.sent[i].socket)
          && FromPinned(s, s.sent[i].k)
          && (s.client.Parsed? || s.client.Routed? || s.client.Allowed? ==> s.sent[i].k < s.client.k))
    && (forall i, j :: 0 <= i < j < |s.sent| ==> s.sent[i].k < s.sent[j].k)
    && (s.clientAddr.None? ==> s.sent == [])
    && (s.clientAddr.Some? ==> exists k :: 0 <= k < |s.requests| && IsSource(s, k, s.clientAddr.value))
  }

  /** The response a reply loop is working on. */
  ghost predicate InFlight(s: Relay, i: nat, k: nat) {
    i < |s.replies| && (s.replies[i].Encoded? || s.replies[i].Addressed?) && s.replies[i].k == k
  }

  ghost predicate Pending(s: Relay, k: nat) { k < |s.responses| && InFlight(s, s.responses[k].socket, k) }

  ghost predicate AnswerInv(s: Relay) {
    && (forall i: nat, k: nat :: InFlight(s, i, k) ==> k < |s.responses| && s.responses[k].socket == i)
    && (forall i :: 0 <= i < |s.replies| && s.replies[i].Addressed? && s.replies[i].to.Some? ==>
          s.replies[i].to == s.clientAddr)
    && (forall a :: 0 <= a < |s.answers| ==>
          && s.answers[a].k < |s.responses|
          && Some(s.answers[a].to) == s.clientAddr
          && s.answers[a].packet == s.responses[s.answers[a].k].encoded
          && !Pending(s, s.answers[a].k))
    && (forall a, b :: 0 <= a < b < |s.answers| ==> s.answers[a].k != s.answers[b].k)
  }

  ghost predicate Inv(setup: Setup, s: Relay) {
    TunnelsInv(setup, s) && ShutdownInv(s) && RecordInv(setup, s) && RequestInv(s) && AnswerInv(s)
  }

  lemma RouteKeepsTunnels(setup: Setup, s: Relay, k: nat, out: Decoded, listenOk: bool)
    requires TunnelsInv(setup, s)
    ensures TunnelsInv(setup, Route(setup, s, k, out, listenOk))
  {
    hide FamilyOf, Usable, Unmap;
  }

  lemma CloseKeepsTunnels(setup: Setup, s: Relay)
    requires TunnelsInv(setup, s)
    ensures TunnelsInv(setup, CloseTunnels(s))
  {
    assert forall i :: 0 <= i < |s.sockets| ==> s.tunnels[s.sockets[i].family] in s.tunnels.Values;
  }

  lemma {:induction false} ApplyKeepsTunnels(setup: Setup, s: Relay, e: Event)
    requires TunnelsInv(setup, s) && Apply(setup, s, e).Some?
    ensures TunnelsInv(setup, Apply(setup, s, e).value)
  {
    hide Route, CloseTunnels, Accept, Datagram, SameAddr, TunnelsInv;
    match e
    case RouteRequest(listenOk) => RouteKeepsTunnels(setup, s, s.client.k, s.client.out, listenOk);
    case HandlerWakes => CloseKeepsTunnels(setup, s);
    case _ => SameTunnels(setup, s, Apply(setup, s, e).value);
  }

  lemma SameTunnels(setup: Setup, s: Relay, s': Relay)
    requires TunnelsInv(setup, s)
    requires s'.sockets == s.sockets && s'.tunnels == s.tunnels && s'.tunnelsClosed == s.tunnelsClosed
    requires |s'.replies| == |s.replies|
    ensures TunnelsInv(setup, s')
  {
  }

  lemma ApplyKeepsShutdown(setup: Setup, s: Relay, e: Event)
    requires ShutdownInv(s) && Apply(setup, s, e).Some?
    ensures ShutdownInv(Apply(setup, s, e).value)
  {
    hide Accept, Datagram, BindAddress, SameAddr;
  }

  lemma ApplyKeepsRecord(setup: Setup, s: Relay, e: Event)
    requires RecordInv(setup, s) && Apply(setup, s, e).Some?
    ensures RecordInv(setup, Apply(setup, s, e).value)
  {
    var s' := Apply(setup, s, e).value;
    if !e.ClientReceives? && !e.TunnelReceives? {
      assert s'.requests == s.requests && s'.responses == s.responses;
    }
  }

  lemma ReceiveKeepsRequests(s: Relay, request: Request)
    requires RequestInv(s) && s.client.Reading?
    ensures RequestInv(Receive(s, request))
  {
    var s' := Receive(s, request);
    if s.clientAddr.Some? {
      var k :| 0 <= k < |s.requests| && IsSource(s, k, s.clientAddr.value);
      assert IsSource(s', k, s'.clientAddr.value);
    }
  }

  /** Routing opens sockets at most; a request is routed to a socket of its family. */
  lemma RouteFits(setup: Setup, s: Relay, k: nat, out: Decoded, listenOk: bool)
    requires TunnelsInv(setup, s)
    ensures var s' := Route(setup, s, k, out, listenOk);
      && s'.requests == s.requests && s'.clientAddr == s.clientAddr && s'.sent == s.sent
      && |s.sockets| <= |s'.sockets| && (forall i :: 0 <= i < |s.sockets| ==> s'.sockets[i] == s.sockets[i])
      && (|| s'.client.Reading?
          || (s'.client.Routed? && s'.client == Routed(k, out, s'.client.socket) && Fits(s', out, s'.client.socket)))
  {
    hide FirstUsable, FamilyOf;
  }

  lemma RouteKeepsRequests(setup: Setup, s: Relay, listenOk: bool)
    requires TunnelsInv(setup, s) && RequestInv(s) && s.client.Parsed?
    ensures RequestInv(Route(setup, s, s.client.k, s.client.out, listenOk))
  {
    hide FromPinned, Route, Genuine, IsSource;
    var s' := Route(setup, s, s.client.k, s.client.out, listenOk);
    RouteFits(setup, s, s.client.k, s.client.out, listenOk);
    SameRequests(s, s');
  }

  lemma SameRequests(s: Relay, s': Relay)
    requires s'.requests == s.requests && s'.clientAddr == s.clientAddr
    ensures forall k, out :: Genuine(s, k, out) ==> Genuine(s', k, out)
    ensures forall k :: FromPinned(s, k) ==> FromPinned(s', k)
    ensures forall k, a :: IsSource(s, k, a) ==> IsSource(s', k, a)
  {
  }

  lemma PinKeepsRequests(s: Relay)
    requires RequestInv(s) && s.client.Routed?
    ensures RequestInv(Pin(s, s.client.k, s.client.out, s.client.socket))
  {
    var s' := Pin(s, s.client.k, s.client.out, s.client.socket);
    if s.clientAddr.None? {
      assert IsSource(s', s.client.k, s'.clientAddr.value);
    } else {
      SameRequests(s, s');
    }
  }

  lemma SendKeepsRequests(setup: Setup, s: Relay, ok: bool)
    requires RequestInv(s) && s.client.Allowed? && Apply(setup, s, SendRequest(ok)).Some?
    ensures RequestInv(Apply(setup, s, SendRequest(ok)).value)
  {
    SameRequests(s, Apply(setup, s, SendRequest(ok)).value);
  }

  /** The client side and the sockets are as before, or the client loop has ended. */
  lemma OtherEventsKeepRequests(s: Relay, s': Relay)
    requires RequestInv(s) && s'.requests == s.requests && s'.clientAddr == s.clientAddr && s'.sent == s.sent
    requires s'.client == s.client || s'.client.Ended?
    requires |s'.sockets| == |s.sockets|
    requires forall i :: 0 <= i < |s.sockets| ==> s'.sockets[i].family == s.sockets[i].family
    ensures RequestInv(s')
  {
    SameRequests(s, s');
    assert forall out, socket :: Fits(s, out, socket) ==> Fits(s', out, socket);
  }

  lemma ApplyKeepsRequests(setup: Setup, s: Relay, e: Event)
    requires TunnelsInv(setup, s) && RequestInv(s) && Apply(setup, s, e).Some?
    ensures RequestInv(Apply(setup, s, e).value)
  {
    hide Route, Accept, Datagram, Pin, RequestInv;
    match e
    case ClientReceives(source, packet, lookup) =>
      ReceiveKeepsRequests(s, Request(source, packet, lookup, Accept(setup, source, packet, lookup)));
    case RouteRequest(listenOk) => RouteKeepsRequests(setup, s, listenOk);
    case PinClient => PinKeepsRequests(s);
    case SendRequest(ok) => SendKeepsRequests(setup, s, ok);
    case _ => OtherEventsKeepRequests(s, Apply(setup, s, e).value);
  }

  lemma ReceiveKeepsAnswers(setup: Setup, s: Relay, i: nat, remote: UdpAddr, data: Bytes)
    requires AnswerInv(s) && Apply(setup, s, TunnelReceives(i, remote, data)).Some?
    ensures AnswerInv(Apply(setup, s, TunnelReceives(i, remote, data)).value)
  {
    var s' := Apply(setup, s, TunnelReceives(i, remote, data)).value;
    forall j: nat, k: nat | InFlight(s', j, k) ensures InFlight(s, j, k) || (j == i && k == |s.responses|) {
    }
  }

  lemma SendKeepsAnswers(setup: Setup, s: Relay, i: nat, ok: bool)
    requires AnswerInv(s) && Apply(setup, s, SendAnswer(i, ok)).Some?
    ensures AnswerInv(Apply(setup, s, SendAnswer(i, ok)).value)
  {
    var s' := Apply(setup, s, SendAnswer(i, ok)).value;
    var k := s.replies[i].k;
    assert InFlight(s, i, k) && Pending(s, k);
    forall j: nat, k': nat | InFlight(s', j, k') ensures InFlight(s, j, k') && j != i {
    }
  }

  /** The reply loops move no further than loading the client, and the responses and answers stay. */
  lemma OtherEventsKeepAnswers(s: Relay, s': Relay)
    requires AnswerInv(s) && s'.responses == s.responses && s'.answers == s.answers
    requires s.clientAddr.Some? ==> s'.clientAddr == s.clientAddr
    requires |s.replies| <= |s'.replies|
    requires forall i :: |s.replies| <= i < |s'.replies| ==> s'.replies[i].Listening?
    requires forall i :: 0 <= i < |s.replies| ==>
      || s'.replies[i] == s.replies[i]
      || s'.replies[i].Stopped?
      || (s.replies[i].Encoded? && s'.replies[i] == Addressed(s.replies[i].k, s.clientAddr))
    ensures AnswerInv(s')
  {
    forall i: nat, k: nat | InFlight(s', i, k) ensures InFlight(s, i, k) {
    }
  }

  lemma {:induction false} ApplyKeepsAnswers(setup: Setup, s: Relay, e: Event)
    requires TunnelsInv(setup, s) && AnswerInv(s) && Apply(setup, s, e).Some?
    ensures AnswerInv(Apply(setup, s, e).value)
  {
    hide Accept, Datagram, BindAddress, AnswerInv, SameAddr;
    match e
    case TunnelReceives(i, remote, data) => ReceiveKeepsAnswers(setup, s, i, remote, data);
    case SendAnswer(i, ok) => SendKeepsAnswers(setup, s, i, ok);
    case _ => OtherEventsKeepAnswers(s, Apply(setup, s, e).value);
  }

  lemma {:induction false} EveryInterleavingKeepsInv(setup: Setup, events: seq<Event>)
    requires Execute(setup, events).Some?
    ensures Inv(setup, Execute(setup, events).value)
  {
    if events != [] {
      var n := |events| - 1;
      EveryInterleavingKeepsInv(setup, events[..n]);
      var s := Execute(setup, events[..n]).value;
      ApplyKeepsTunnels(setup, s, events[n]);
      ApplyKeepsShutdown(setup, s, events[n]);
      ApplyKeepsRecord(setup, s, events[n]);
      ApplyKeepsRequests(setup, s, events[n]);
      ApplyKeepsAnswers(setup, s, events[n]);
    }
  }

  // ---------- What every interleaving guarantees ----------

  /** `out` is what the datagram decodes to with the lookup made for it. */
  ghost predicate IsDecodingOf(out: Decoded, r: Request) {
    Decode(r.packet, WRITTEN_START, Answering(r.lookup)) == Success(out)
  }

  /** Everything sent into the tunnel is the decoding of one request of the one pinned client, in order and once. */
  lemma {:induction false} OnlyThePinnedClientIsServed(setup: Setup, events: seq<Event>)
    requires Execute(setup, events).Some?
    ensures var s := Execute(setup, events).value;
      && (forall i :: 0 <= i < |s.sent| ==>
            && s.sent[i].k < |s.requests| && s.clientAddr.Some?
            && IpEqual(s.clientAddr.value.ip, s.requests[s.sent[i].k].source.ip)
            && s.clientAddr.value.port == s.requests[s.sent[i].k].source.port
            && (setup.controlIP.Some? ==> IpEqual(s.requests[s.sent[i].k].source.ip, setup.controlIP.value))
            && IsDecodingOf(s.sent[i].out, s.requests[s.sent[i].k]))
      && (forall i, j :: 0 <= i < j < |s.sent| ==> s.sent[i].k < s.sent[j].k)
  {
    EveryInterleavingKeepsInv(setup, events);
  }

  /** Everything sent to the client goes to the pinned address, encodes one tunnel response, and is sent once. */
  lemma {:induction false} AnswersGoToThePinnedClient(setup: Setup, events: seq<Event>)
    requires Execute(setup, events).Some?
    ensures var s := Execute(setup, events).value;
      && (forall a :: 0 <= a < |s.answers| ==>
            && Some(s.answers[a].to) == s.clientAddr
            && s.answers[a].k < |s.responses|
            && s.answers[a].packet == Datagram(s.responses[s.answers[a].k].remote, s.responses[s.answers[a].k].data))
      && (forall a, b :: 0 <= a < b < |s.answers| ==> s.answers[a].k != s.answers[b].k)
  {
    EveryInterleavingKeepsInv(setup, events);
    var s := Execute(setup, events).value;
    forall a | 0 <= a < |s.answers|
      ensures s.answers[a].k < |s.responses|
           && s.answers[a].packet == Datagram(s.responses[s.answers[a].k].remote, s.responses[s.answers[a].k].data)
    {
      assert s.responses[s.answers[a].k] in s.responses;
    }
  }

  /** At most one socket per family is ever opened, bound to the first usable local address of the family it serves. */
  lemma {:induction false} OneSocketPerFamily(setup: Setup, events: seq<Event>)
    requires Execute(setup, events).Some?
    ensures var s := Execute(setup, events).value;
      && (forall i, j :: 0 <= i < j < |s.sockets| ==> s.sockets[i].family != s.sockets[j].family)
      && (forall i :: 0 <= i < |s.sockets| ==>
            FirstUsable(setup.locals, s.sockets[i].family) == Some((s.sockets[i].bind, s.sockets[i].family)))
      && (forall i :: 0 <= i < |s.sent| ==>
            s.sent[i].socket < |s.sockets|
            && FamilyOf(s.sent[i].out.destination.ip) == Some(s.sockets[s.sent[i].socket].family))
  {
    EveryInterleavingKeepsInv(setup, events);
  }

  /** `finished` is closed at most once, and once the handler has torn down every socket ever opened is closed. */
  lemma {:induction false} TeardownLeavesNothingOpen(setup: Setup, events: seq<Event>)
    requires Execute(setup, events).Some?
    ensures var s := Execute(setup, events).value;
      && s.closes <= 1 && (s.finished <==> s.closes == 1)
      && (forall i :: 0 <= i < |s.sockets| ==> (s.sockets[i].open <==> s.handler.Waiting?))
      && (s.handler.Returned? ==> !s.clientOpen)
  {
    EveryInterleavingKeepsInv(setup, events);
  }

  /** What a later state keeps of an earlier one. */
  ghost predicate Extends(later: Relay, earlier: Relay) {
    && (earlier.clientAddr.Some? ==> later.clientAddr == earlier.clientAddr)
    && |earlier.sockets| <= |later.sockets|
    && (forall i :: 0 <= i < |earlier.sockets| ==>
          later.sockets[i].family == earlier.sockets[i].family && later.sockets[i].bind == earlier.sockets[i].bind)
    && (earlier.tunnelsClosed ==> later.tunnelsClosed && later.sockets == earlier.sockets)
    && earlier.sent <= later.sent && earlier.answers <= later.answers
    && (earlier.finished ==> later.finished)
  }

  lemma RouteExtends(setup: Setup, s: Relay, k: nat, out: Decoded, listenOk: bool)
    ensures Extends(Route(setup, s, k, out, listenOk), s)
  {
  }

  lemma {:induction false} ApplyExtends(setup: Setup, s: Relay, e: Event)
    requires Inv(setup, s) && Apply(setup, s, e).Some?
    ensures Extends(Apply(setup, s, e).value, s)
  {
    hide Route, Accept, Datagram, TunnelsInv, RequestInv, RecordInv, AnswerInv;
    var s' := Apply(setup, s, e).value;
    match e
    case RouteRequest(listenOk) => RouteExtends(setup, s, s.client.k, s.client.out, listenOk);
    case HandlerWakes => assert !s.tunnelsClosed;
    case PinClient => assert s'.sockets == s.sockets && s'.sent == s.sent && s'.answers == s.answers;
    case _ => assert s'.sockets == s.sockets && s'.clientAddr == s.clientAddr;
  }

  /** The client address is set at most once, and after teardown no socket is opened or reopened. */
  lemma {:induction false} LaterStatesExtend(setup: Setup, events: seq<Event>, n: nat)
    requires n <= |events| && Execute(setup, events).Some?
    ensures Execute(setup, events[..n]).Some?
    ensures Extends(Execute(setup, events).value, Execute(setup, events[..n]).value)
  {
    var last := |events| - 1;
    if n == |events| {
      assert events[..n] == events;
    } else {
      assert events[..last][..n] == events[..n];
      LaterStatesExtend(setup, events[..last], n);
      EveryInterleavingKeepsInv(setup, events[..last]);
      ApplyExtends(setup, Execute(setup, events[..last]).value, events[last]);
    }
  }

  /** No end is lost: whichever watched goroutine ends, `finished` has been closed. */
  lemma {:induction false} EndedGoroutineFinishes(setup: Setup, events: seq<Event>)
    requires Execute(setup, events).Some?
    requires var s := Execute(setup, events).value;
      || s.client.Ended?
      || (exists i :: 0 <= i < |s.replies| && s.replies[i].Stopped?)
      || ControlEnds in events
      || ContextEnds in events
    ensures Execute(setup, events).value.finished
  {
    hide TunnelsInv, RequestInv, RecordInv, AnswerInv, Apply;
    EveryInterleavingKeepsInv(setup, events);
    if ControlEnds in events || ContextEnds in events {
      var i :| 0 <= i < |events| && (events[i].ControlEnds? || events[i].ContextEnds?);
      LaterStatesExtend(setup, events, i + 1);
      assert events[..i + 1][..i] == events[..i];
      WatchersFinish(setup, Execute(setup, events[..i]).value, events[i]);
    }
  }

  lemma WatchersFinish(setup: Setup, s: Relay, e: Event)
    requires e.ControlEnds? || e.ContextEnds?
    ensures Apply(setup, s, e).Some? && Apply(setup, s, e).value.finished
  {
  }

  /** Once `finished` is closed, the handler can tear down and return, whatever the others do. */
  lemma {:induction false} FinishedHandlerReturns(setup: Setup, events: seq<Event>)
    requires Execute(setup, events).Some?
    requires Execute(setup, events).value.finished && Execute(setup, events).value.handler.Waiting?
    ensures var done := Execute(setup, events + [HandlerWakes] + [HandlerReturns]);
      done.Some? && done.value.handler.Returned?
  {
    assert (events + [HandlerWakes])[..|events|] == events;
    assert (events + [HandlerWakes] + [HandlerReturns])[..|events| + 1] == events + [HandlerWakes];
  }

  // ---------- Traffic is carried ----------

  lemma ExecuteAppend(setup: Setup, events: seq<Event>, e: Event, s: Relay, t: Relay)
    requires Execute(setup, events) == Some(s) && Apply(setup, s, e) == Some(t)
    ensures Execute(setup, events + [e]) == Some(t)
  {
    assert (events + [e])[..|events|] == events;
  }

  /** A datagram of the client that is pinned or about to be, for a family that has a usable local address. */
  ghost predicate Carried(setup: Setup, s: Relay, source: UdpAddr, packet: Bytes, lookup: Option<IP>, out: Decoded) {
    && (setup.controlIP.Some? ==> IpEqual(source.ip, setup.controlIP.value))
    && (s.clientAddr.Some? ==> IpEqual(s.clientAddr.value.ip, source.ip) && s.clientAddr.value.port == source.port)
    && Decode(packet, WRITTEN_START, Answering(lookup)) == Success(out)
    && FamilyOf(out.destination.ip).Some?
    && exists i :: 0 <= i < |setup.locals| && Usable(setup.locals[i], FamilyOf(out.destination.ip).value)
  }

  /** The steps by which a datagram of the client is carried into the tunnel. */
  function Carrying(source: UdpAddr, packet: Bytes, lookup: Option<IP>, listenOk: bool): seq<Event> {
    [ClientReceives(source, packet, lookup), RouteRequest(listenOk), PinClient, SendRequest(true)]
  }

  /** A routed datagram gets the open socket of its family: the one there is, or a new one. */
  lemma RouteFinds(setup: Setup, s: Relay, k: nat, out: Decoded, listenOk: bool)
    requires TunnelsInv(setup, s) && !s.tunnelsClosed && FamilyOf(out.destination.ip).Some?
    requires FirstUsable(setup.locals, FamilyOf(out.destination.ip).value).Some?
    requires listenOk || FamilyOf(out.destination.ip).value in s.tunnels
    ensures var t := Route(setup, s, k, out, listenOk);
      && t.client.Routed? && t.client == Routed(k, out, t.client.socket)
      && t.client.socket < |t.sockets| && t.sockets[t.client.socket].open
      && FamilyOf(out.destination.ip) == Some(t.sockets[t.client.socket].family)
      && t.requests == s.requests && t.clientAddr == s.clientAddr && t.sent == s.sent
      && (FamilyOf(out.destination.ip).value in s.tunnels ==> t.sockets == s.sockets)
  {
    hide FirstUsable, FamilyOf;
  }

  /**
   In every reachable state in which the client loop is reading and the handler waiting, a datagram of
   the pinned client - or of the first one - can be carried into the tunnel: exactly its decoding is
   sent, on an open socket of its family, whether that socket is there already or has to be opened.
   */
  lemma ClientDatagramIsCarried(
    setup: Setup, events: seq<Event>, source: UdpAddr, packet: Bytes, lookup: Option<IP>, out: Decoded, listenOk: bool)
    requires Execute(setup, events).Some?
    requires var s := Execute(setup, events).value;
      && s.client.Reading? && s.handler.Waiting? && Carried(setup, s, source, packet, lookup, out)
      && (listenOk || exists i :: 0 <= i < |s.sockets| && FamilyOf(out.destination.ip) == Some(s.sockets[i].family))
    ensures var s := Execute(setup, events).value;
      var after := Execute(setup, events + Carrying(source, packet, lookup, listenOk));
      && after.Some? && after.value.client.Reading?
      && after.value.clientAddr == (if s.clientAddr.Some? then s.clientAddr else Some(source))
      && |after.value.sent| == |s.sent| + 1 && after.value.sent[..|s.sent|] == s.sent
      && var last := after.value.sent[|s.sent|];
         && last.out == out && last.k < |after.value.requests| && after.value.requests[last.k].packet == packet
         && last.socket < |after.value.sockets| && after.value.sockets[last.socket].open
         && FamilyOf(out.destination.ip) == Some(after.value.sockets[last.socket].family)
  {
    hide Execute, Route, Usable, Decode, FamilyOf, FirstUsable, RecordInv, RequestInv, AnswerInv;
    EveryInterleavingKeepsInv(setup, events);
    var s := Execute(setup, events).value;
    FirstUsableIsFirst(setup.locals, FamilyOf(out.destination.ip).value);
    var received := Apply(setup, s, ClientReceives(source, packet, lookup)).value;
    var k := |s.requests|;
    var events1 := events + [ClientReceives(source, packet, lookup)];
    ExecuteAppend(setup, events, ClientReceives(source, packet, lookup), s, received);
    assert received.client == Parsed(k, out);
    RouteFinds(setup, received, k, out, listenOk);
    var routed := Route(setup, received, k, out, listenOk);
    ExecuteAppend(setup, events1, RouteRequest(listenOk), received, routed);
    var socket := routed.client.socket;
    var pinned := Pin(routed, k, out, socket);
    ExecuteAppend(setup, events1 + [RouteRequest(listenOk)], PinClient, routed, pinned);
    assert pinned.client == Allowed(k, out, socket);
    var sent := Apply(setup, pinned, SendRequest(true)).value;
    ExecuteAppend(setup, events1 + [RouteRequest(listenOk)] + [PinClient], SendRequest(true), pinned, sent);
    assert events + Carrying(source, packet, lookup, listenOk)
        == events1 + [RouteRequest(listenOk)] + [PinClient] + [SendRequest(true)];
  }

  ghost predicate Listens(s: Relay, i: nat) { i < |s.replies| && i < |s.sockets| && s.replies[i].Listening? }

  /** One more answer than before went to the pinned client: the packet. */
  ghost predicate Answered(before: Relay, after: Relay, packet: Bytes) {
    && before.clientAddr.Some? && |after.answers| == |before.answers| + 1
    && after.answers[..|before.answers|] == before.answers
    && after.answers[|before.answers|].to == before.clientAddr.value
    && after.answers[|before.answers|].packet == packet
  }

  /** With a client pinned and the handler waiting, what a tunnel socket receives can be carried back to the client. */
  lemma AnswerIsCarried(setup: Setup, events: seq<Event>, i: nat, remote: UdpAddr, data: Bytes)
    requires Execute(setup, events).Some?
    requires Execute(setup, events).value.clientAddr.Some? && Execute(setup, events).value.handler.Waiting?
    requires Listens(Execute(setup, events).value, i)
    ensures var after := Execute(setup, events + [TunnelReceives(i, remote, data), LoadClient(i), SendAnswer(i, true)]);
      && after.Some? && Listens(after.value, i)
      && Answered(Execute(setup, events).value, after.value, Datagram(remote, data))
  {
    hide Execute, RecordInv, RequestInv, AnswerInv, Datagram;
    EveryInterleavingKeepsInv(setup, events);
    var s := Execute(setup, events).value;
    var received := Apply(setup, s, TunnelReceives(i, remote, data)).value;
    var loaded := Apply(setup, received, LoadClient(i)).value;
    var answered := Apply(setup, loaded, SendAnswer(i, true)).value;
    ExecuteAppend(setup, events, TunnelReceives(i, remote, data), s, received);
    ExecuteAppend(setup, events + [TunnelReceives(i, remote, data)], LoadClient(i), received, loaded);
    ExecuteAppend(
      setup, events + [TunnelReceives(i, remote, data)] + [LoadClient(i)], SendAnswer(i, true), loaded, answered);
    assert events + [TunnelReceives(i, remote, data), LoadClient(i), SendAnswer(i, true)]
        == events + [TunnelReceives(i, remote, data)] + [LoadClient(i)] + [SendAnswer(i, true)];
  }

  /** Every loop can come to its end from where it reads, and so can the two watchers, and each end is noticed. */
  lemma EveryEndIsNoticed(setup: Setup, events: seq<Event>, i: nat)
    requires Execute(setup, events).Some?
    ensures var s := Execute(setup, events).value;
      && (s.client.Reading? ==> Ends(Execute(setup, events + [ClientReadFails])))
      && (Listens(s, i) ==> Ends(Execute(setup, events + [TunnelReadFails(i)])))
      && Ends(Execute(setup, events + [ControlEnds])) && Ends(Execute(setup, events + [ContextEnds]))
  {
    hide Execute;
    EveryInterleavingKeepsInv(setup, events);
    var s := Execute(setup, events).value;
    if s.client.Reading? {
      ExecuteAppend(setup, events, ClientReadFails, s, Apply(setup, s, ClientReadFails).value);
    }
    if Listens(s, i) {
      ExecuteAppend(setup, events, TunnelReadFails(i), s, Apply(setup, s, TunnelReadFails(i)).value);
    }
    ExecuteAppend(setup, events, ControlEnds, s, Apply(setup, s, ControlEnds).value);
    ExecuteAppend(setup, events, ContextEnds, s, Apply(setup, s, ContextEnds).value);
  }

  /** The run can happen, and `finished` is closed after it. */
  ghost predicate Ends(s: Option<Relay>) { s.Some? && s.value.finished }

  // ---------- What the bind address looks like ----------

  /**
   A destination gets a bind address of 4 octets exactly when it is IPv4, plain or mapped, and of 16
   octets otherwise; it is not all zero, its port is left open, and it is one of the local addresses.
   */
  lemma BindAddressFits(destination: UdpAddr, locals: seq<LocalAddr>)
    ensures BindAddress(destination, locals).Some? ==>
      && (|destination.ip| == 4 || |destination.ip| == 16)
      && var (bind, family) := BindAddress(destination, locals).value;
         && bind.port == 0
         && (|bind.ip| == 4 <==> |destination.ip| == 4 || destination.ip[..12] == MAPPED)
         && (|destination.ip| == 16 && destination.ip[..12] != MAPPED ==> family == Ipv6)
         && (|destination.ip| == 4 || destination.ip[..12] == MAPPED ==> family == Ipv4)
         && (exists k :: 0 <= k < |bind.ip| && bind.ip[k] != 0)
         && exists i :: 0 <= i < |locals| && locals[i].LocalAddr?
              && (bind.ip == locals[i].ip || (|locals[i].ip| == 16 && locals[i].ip == MAPPED + bind.ip))
    ensures BindAddress(destination, locals).None? ==>
      || (|destination.ip| != 4 && |destination.ip| != 16)
      || forall i :: 0 <= i < |locals| ==> !Usable(locals[i], FamilyOf(destination.ip).value)
  {
    var family := FamilyOf(destination.ip);
    if family.Some? {
      FirstUsableIsFirst(locals, family.value);
    }
  }

  const MAPPED: Bytes := [0, 0, 0, 0, 0, 0, 0, 0, 0, 0, 0xFF, 0xFF]

  ghost predicate SomeOctet(ip: IP) { exists k :: 0 <= k < |ip| && ip[k] != 0 }

  /** Which local addresses are usable for which family. */
  lemma UsableExactlyWhen(ip: IP, family: Family)
    requires |ip| == 4 || |ip| == 16
    ensures !Usable(InvalidAddr, family)
    ensures Usable(LocalAddr(ip), Ipv4) <==>
      if |ip| == 4 then SomeOctet(ip) else ip[..12] == MAPPED && SomeOctet(ip[12..])
    ensures Usable(LocalAddr(ip), Ipv6) <==> |ip| == 16 && ip[..12] != MAPPED && SomeOctet(ip)
  {
  }
}
