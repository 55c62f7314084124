/**
 The UAPI configuration text of an AmneziaWG tunnel. `BuildIpcConfig` writes it line by line;
 `ReadConfig` is a line reader that starts a new peer at every public_key. Key decoding is a
 parameter: it maps an accepted key to 64 lower-case hexadecimal digits.
 */
module IpcConfig {
  import opened Wrappers
  import opened Text
  import ObfuscationChain

  // ---------- Settings ----------

  /** A loosely typed JSON value; `Other` carries its printed form. */
  datatype Json = Null | Str(text: string) | Num(value: real) | Bool(b: bool) | Other(text: string)

  datatype Peer = Peer(
    publicKey: string, preSharedKey: string, endpoint: string, keepAlive: Json, allowedIPs: seq<string>)

  datatype Settings = Settings(
    secretKey: string,
    jc: int, jmin: int, jmax: int, s1: int, s2: int, s3: int, s4: int,
    h1: Json, h2: Json, h3: Json, h4: Json,
    i1: string, i2: string, i3: string, i4: string, i5: string,
    headerProtectionKey: string,
    contentPaddingAddition: Json, rekeyAfterTime: Json, rekeyTimeout: Json,
    rejectAfterTime: Json, keepaliveTimeout: Json, maxHandshakeAttempts: Json,
    randomTrailers: Json, disableCookies: Json,
    peers: seq<Option<Peer>>)

  type KeyDecoder = string -> Option<string>

  datatype IpcError =
    | InvalidSecretKey
    | InvalidHeaderProtectionKey
    | InvalidFlag
    | MissingPeer
    | InvalidPublicKey

  /** Conversion to int64 drops the fraction. */
  function Truncate(r: real): int { if r >= 0.0 then r.Floor else -((-r).Floor) }

  function StringVal(v: Json): string {
    match v
    case Null => ""
    case Str(text) => TrimSpace(text)
    case Num(value) => FormatInt(Truncate(value))
    case Bool(b) => FormatBool(b)
    case Other(text) => text
  }

  function FormatBool(b: bool): string { if b then "true" else "false" }

  predicate HeaderSet(v: Json) { StringVal(v) != "" && StringVal(v) != "0" }

  predicate RangeSet(v: Json) { StringVal(v) != "" && StringVal(v) != "0" && ToLower(StringVal(v)) != "off" }

  predicate SpecSet(spec: string) { TrimSpace(spec) != "" }

  datatype Flag = Unset | On(value: bool) | BadFlag

  function ParseFlag(v: Json): Flag {
    match v
    case Null => Unset
    case Bool(b) => On(b)
    case _ =>
      var text := ToLower(StringVal(v));
      if text == "" then Unset
      else if text == "on" || text == "true" || text == "1" then On(true)
      else if text == "off" || text == "false" || text == "0" then On(false)
      else BadFlag
  }

  /** A flag that cannot be read counts as set here. */
  predicate HasAmneziaParams(s: Settings) {
    || s.jc > 0 || s.jmin > 0 || s.jmax > 0 || s.s1 > 0 || s.s2 > 0 || s.s3 > 0 || s.s4 > 0
    || HeaderSet(s.h1) || HeaderSet(s.h2) || HeaderSet(s.h3) || HeaderSet(s.h4)
    || SpecSet(s.i1) || SpecSet(s.i2) || SpecSet(s.i3) || SpecSet(s.i4) || SpecSet(s.i5)
    || SpecSet(s.headerProtectionKey)
    || !ParseFlag(s.randomTrailers).Unset? || !ParseFlag(s.disableCookies).Unset?
    || RangeSet(s.contentPaddingAddition) || RangeSet(s.rekeyAfterTime) || RangeSet(s.rekeyTimeout)
    || RangeSet(s.rejectAfterTime) || RangeSet(s.keepaliveTimeout) || RangeSet(s.maxHandshakeAttempts)
  }

  // ---------- The lines ----------

  datatype Line = Line(key: string, value: string)

  function Render(lines: seq<Line>): string {
    if lines == [] then "" else lines[0].key + "=" + lines[0].value + "\n" + Render(lines[1..])
  }

  /** A line that is written only when its setting is configured. */
  datatype Entry = Entry(configured: bool, line: Line)

  function Lines(entries: seq<Entry>): seq<Line> {
    if entries == [] then []
    else (if entries[0].configured then [entries[0].line] else []) + Lines(entries[1..])
  }

  function Number(key: string, n: int): Entry { Entry(n > 0, Line(key, FormatInt(n))) }

  function Header(key: string, v: Json): Entry { Entry(HeaderSet(v), Line(key, StringVal(v))) }

  function Spec(key: string, spec: string): Entry { Entry(SpecSet(spec), Line(key, TrimSpace(spec))) }

  function Range(key: string, v: Json): Entry { Entry(RangeSet(v), Line(key, StringVal(v))) }

  function FlagEntry(key: string, v: Json): Entry {
    var flag := ParseFlag(v);
    Entry(flag.On?, Line(key, FormatBool(flag.On? && flag.value)))
  }

  function Sizes(s: Settings): seq<Entry> {
    [Number("jc", s.jc), Number("jmin", s.jmin), Number("jmax", s.jmax),
     Number("s1", s.s1), Number("s2", s.s2), Number("s3", s.s3), Number("s4", s.s4)]
  }

  function Headers(s: Settings): seq<Entry> {
    [Header("h1", s.h1), Header("h2", s.h2), Header("h3", s.h3), Header("h4", s.h4)]
  }

  function Specs(s: Settings): seq<Entry> {
    [Spec("i1", s.i1), Spec("i2", s.i2), Spec("i3", s.i3), Spec("i4", s.i4), Spec("i5", s.i5)]
  }

  function Protection(s: Settings, decode: KeyDecoder): seq<Entry> {
    var key := decode(TrimSpace(s.headerProtectionKey));
    [Entry(SpecSet(s.headerProtectionKey) && key.Some?,
           Line("header_protection_key", if key.Some? then key.value else ""))]
  }

  function Ranges(s: Settings): seq<Entry> {
    [Range("content_padding_addition", s.contentPaddingAddition),
     Range("rekey_after_time", s.rekeyAfterTime),
     Range("rekey_timeout", s.rekeyTimeout),
     Range("reject_after_time", s.rejectAfterTime),
     Range("keepalive_timeout", s.keepaliveTimeout),
     Range("max_handshake_attempts", s.maxHandshakeAttempts)]
  }

  function Flags(s: Settings): seq<Entry> {
    [FlagEntry("random_trailers", s.randomTrailers), FlagEntry("disable_cookies", s.disableCookies)]
  }

  /** The settings of the interface section after private_key, in the order they are written. */
  function SettingEntries(s: Settings, decode: KeyDecoder): seq<Entry> {
    Sizes(s) + Headers(s) + Specs(s) + Protection(s, decode) + Ranges(s) + Flags(s)
  }

  function SettingsError(s: Settings, decode: KeyDecoder): Option<IpcError> {
    if decode(s.secretKey).None? then Some(InvalidSecretKey)
    else if SpecSet(s.headerProtectionKey) && decode(TrimSpace(s.headerProtectionKey)).None? then
      Some(InvalidHeaderProtectionKey)
    else if ParseFlag(s.randomTrailers).BadFlag? || ParseFlag(s.disableCookies).BadFlag? then Some(InvalidFlag)
    else None
  }

  const PUBLIC_KEY := "public_key"
  const PRESHARED_KEY := "preshared_key"
  const ENDPOINT := "endpoint"
  const ALLOWED_IP := "allowed_ip"
  const KEEPALIVE := "persistent_keepalive_interval"

  const EVERYTHING: seq<string> := ["0.0.0.0/0", "::/0"]

  function Preshared(p: Peer, decode: KeyDecoder): Option<string> {
    var key := decode(p.preSharedKey);
    if p.preSharedKey != "" && key.Some? && key.value != "" then key else None
  }

  function Allowed(p: Peer): seq<string> { if p.allowedIPs == [] then EVERYTHING else p.allowedIPs }

  function AllowedEntries(ips: seq<string>): seq<Entry> {
    seq(|ips|, i requires 0 <= i < |ips| => Entry(true, Line(ALLOWED_IP, ips[i])))
  }

  function PeerEntries(p: Peer, publicKey: string, decode: KeyDecoder): seq<Entry> {
    var psk := Preshared(p, decode);
    [Entry(true, Line(PUBLIC_KEY, publicKey)),
     Entry(psk.Some?, Line(PRESHARED_KEY, if psk.Some? then psk.value else "")),
     Entry(p.endpoint != "", Line(ENDPOINT, p.endpoint))]
    + AllowedEntries(Allowed(p))
    + [Entry(RangeSet(p.keepAlive), Line(KEEPALIVE, StringVal(p.keepAlive)))]
  }

  /** Every peer is there and its public key can be decoded. */
  ghost predicate PeersReadable(peers: seq<Option<Peer>>, decode: KeyDecoder) {
    forall i :: 0 <= i < |peers| ==> peers[i].Some? && decode(peers[i].value.publicKey).Some?
  }

  function AllPeerEntries(peers: seq<Option<Peer>>, decode: KeyDecoder): (r: Result<seq<Entry>, IpcError>)
    ensures r.Success? <==> PeersReadable(peers, decode)
  {
    assert forall i :: 0 < i < |peers| ==> peers[i] == peers[1..][i - 1];
    assert PeersReadable(peers, decode) ==> peers == [] || PeersReadable(peers[1..], decode);
    if peers == [] then Success([])
    else if peers[0].None? then Failure(MissingPeer)
    else
      var publicKey := decode(peers[0].value.publicKey);
      if publicKey.None? then Failure(InvalidPublicKey)
      else
        match AllPeerEntries(peers[1..], decode)
        case Failure(e) => Failure(e)
        case Success(rest) => Success(PeerEntries(peers[0].value, publicKey.value, decode) + rest)
  }

  /** Everything the configuration may contain, or why there is none. */
  function AllEntries(s: Settings, decode: KeyDecoder): Result<seq<Entry>, IpcError> {
    var error := SettingsError(s, decode);
    if error.Some? then Failure(error.value)
    else
      match AllPeerEntries(s.peers, decode)
      case Failure(e) => Failure(e)
      case Success(peers) =>
        Success([Entry(true, Line("private_key", decode(s.secretKey).value))] + SettingEntries(s, decode) + peers)
  }

  /** The keys that must decode do, the flags can be read, and so can the peers. */
  ghost predicate Buildable(s: Settings, decode: KeyDecoder) {
    SettingsError(s, decode).None? && PeersReadable(s.peers, decode)
  }

  function Build(s: Settings, decode: KeyDecoder): (r: Result<string, IpcError>)
    ensures r.Success? <==> Buildable(s, decode)
  {
    match AllEntries(s, decode)
    case Failure(e) => Failure(e)
    case Success(entries) => Success(Render(Lines(entries)))
  }

  // ---------- Writing ----------

  lemma {:induction false} LinesConcat(a: seq<Entry>, b: seq<Entry>)
    ensures Lines(a + b) == Lines(a) + Lines(b)
  {
    if a == [] {
      assert a + b == b;
    } else {
      assert (a + b)[1..] == a[1..] + b && (a + b)[0] == a[0];
      LinesConcat(a[1..], b);
      var first := if a[0].configured then [a[0].line] else [];
      assert Lines(a + b) == first + (Lines(a[1..]) + Lines(b));
      assert Lines(a) == first + Lines(a[1..]);
    }
  }

  lemma {:induction false} RenderConcat(a: seq<Line>, b: seq<Line>)
    ensures Render(a + b) == Render(a) + Render(b)
  {
    if a == [] {
      assert a + b == b;
    } else {
      assert (a + b)[1..] == a[1..] + b;
      RenderConcat(a[1..], b);
    }
  }

  lemma RenderSnoc(entries: seq<Entry>, e: Entry)
    ensures Render(Lines(entries + [e])) ==
      Render(Lines(entries)) + (if e.configured then e.line.key + "=" + e.line.value + "\n" else "")
  {
    LinesConcat(entries, [e]);
    assert [e][1..] == [];
    RenderConcat(Lines(entries), Lines([e]));
    assert e.configured ==> Lines([e]) == [e.line] && [e.line][1..] == [];
  }

  /** The strings.Builder of the configuration; `entries` is what it has been asked to write. */
  class Builder {
    var text: string
    ghost var entries: seq<Entry>

    constructor ()
      ensures Valid() && entries == []
    {
      text, entries := "", [];
    }

    ghost predicate Valid()
      reads this
    {
      text == Render(Lines(entries))
    }

    method Write(e: Entry)
      requires Valid()
      modifies this
      ensures Valid() && entries == old(entries) + [e]
    {
      if e.configured {
        text := text + (e.line.key + "=" + e.line.value + "\n");
      }
      RenderSnoc(entries, e);
      entries := entries + [e];
    }

    method WriteAll(es: seq<Entry>)
      requires Valid()
      modifies this
      ensures Valid() && entries == old(entries) + es
    {
      var i := 0;
      while i < |es|
        invariant i <= |es| && Valid() && entries == old(entries) + es[..i]
      {
        Write(es[i]);
        i := i + 1;
        assert es[..i] == es[..i - 1] + [es[i - 1]];
      }
      assert es[..i] == es;
    }
  }

  /** The interface section after private_key. */
  method WriteSettings(b: Builder, s: Settings, decode: KeyDecoder) returns (error: Option<IpcError>)
    requires b.Valid()
    modifies b
    ensures b.Valid()
    ensures decode(s.secretKey).Some? ==> error == SettingsError(s, decode)
    ensures error.None? ==> b.entries == old(b.entries) + SettingEntries(s, decode)
  {
    hide Sizes, Headers, Specs, Protection, Ranges, Flags, SpecSet, ParseFlag;
    b.WriteAll(Sizes(s));
    b.WriteAll(Headers(s));
    b.WriteAll(Specs(s));
    if SpecSet(s.headerProtectionKey) && decode(TrimSpace(s.headerProtectionKey)).None? {
      return Some(InvalidHeaderProtectionKey);
    }
    b.WriteAll(Protection(s, decode));
    b.WriteAll(Ranges(s));
    if ParseFlag(s.randomTrailers).BadFlag? || ParseFlag(s.disableCookies).BadFlag? {
      return Some(InvalidFlag);
    }
    b.WriteAll(Flags(s));
    Associate(old(b.entries), Sizes(s), Headers(s), Specs(s), Protection(s, decode), Ranges(s), Flags(s));
    return None;
  }

  lemma Associate<T>(l: seq<T>, a: seq<T>, b: seq<T>, c: seq<T>, d: seq<T>, e: seq<T>, f: seq<T>)
    ensures l + a + b + c + d + e + f == l + (a + b + c + d + e + f)
  {
  }

  method WritePeers(b: Builder, peers: seq<Option<Peer>>, decode: KeyDecoder) returns (error: Option<IpcError>)
    requires b.Valid()
    modifies b
    ensures b.Valid()
    ensures match AllPeerEntries(peers, decode)
      case Failure(e) => error == Some(e)
      case Success(entries) => error.None? && b.entries == old(b.entries) + entries
  {
    hide PeerEntries;
    var i := 0;
    ghost var all := AllPeerEntries(peers, decode);
    assert peers[0..] == peers;
    while i < |peers|
      invariant i <= |peers| && b.Valid()
      invariant var rest := AllPeerEntries(peers[i..], decode);
        if all.Failure? then rest == all
        else rest.Success? && b.entries + rest.value == old(b.entries) + all.value
    {
      assert peers[i..][0] == peers[i] && peers[i..][1..] == peers[i + 1..];
      if peers[i].None? {
        return Some(MissingPeer);
      }
      var publicKey := decode(peers[i].value.publicKey);
      if publicKey.None? {
        return Some(InvalidPublicKey);
      }
      b.WriteAll(PeerEntries(peers[i].value, publicKey.value, decode));
      i := i + 1;
    }
    return None;
  }

  /** The text is complete or absent: an error in any setting or peer yields no text at all. */
  method BuildIpcConfig(s: Settings, decode: KeyDecoder) returns (r: Result<string, IpcError>)
    ensures r == Build(s, decode)
  {
    hide SettingEntries, AllPeerEntries;
    var privateKey := decode(s.secretKey);
    if privateKey.None? {
      return Failure(InvalidSecretKey);
    }
    var b := new Builder();
    b.Write(Entry(true, Line("private_key", privateKey.value)));
    var error := WriteSettings(b, s, decode);
    if error.Some? {
      return Failure(error.value);
    }
    error := WritePeers(b, s.peers, decode);
    if error.Some? {
      return Failure(error.value);
    }
    Prepend(Entry(true, Line("private_key", privateKey.value)), SettingEntries(s, decode));
    return Success(b.text);
  }

  lemma Prepend<T>(first: T, rest: seq<T>)
    ensures [] + [first] + rest == [first] + rest
  {
  }

  // ---------- Reading ----------

  datatype PeerView = PeerView(
    publicKey: string, presharedKey: Option<string>, endpoint: Option<string>,
    allowedIPs: seq<string>, keepAlive: Option<string>)

  /** The interface section as written, and the peers in order. */
  datatype Config = Config(interface: seq<Line>, peers: seq<PeerView>)

  function SplitLines(text: string): seq<string>
    decreases |text|
  {
    if text == "" then []
    else
      match Index(text, "\n")
      case None => [text]
      case Some(i) => [text[..i]] + SplitLines(text[i + 1..])
  }

  function ParseLine(line: string): Option<Line> {
    match Index(line, "=")
    case None => None
    case Some(i) => Some(Line(line[..i], line[i + 1..]))
  }

  function ParseLines(lines: seq<string>): Option<seq<Line>> {
    if lines == [] then Some([])
    else
      var first, rest := ParseLine(lines[0]), ParseLines(lines[1..]);
      if first.None? || rest.None? then None else Some([first.value] + rest.value)
  }

  /** A public_key starts a peer; before the first one every line belongs to the interface. */
  function Feed(c: Config, l: Line): Option<Config> {
    if l.key == PUBLIC_KEY then Some(c.(peers := c.peers + [PeerView(l.value, None, None, [], None)]))
    else if c.peers == [] then Some(c.(interface := c.interface + [l]))
    else
      var p := c.peers[|c.peers| - 1];
      var q := if l.key == PRESHARED_KEY then Some(p.(presharedKey := Some(l.value)))
               else if l.key == ENDPOINT then Some(p.(endpoint := Some(l.value)))
               else if l.key == ALLOWED_IP then Some(p.(allowedIPs := p.allowedIPs + [l.value]))
               else if l.key == KEEPALIVE then Some(p.(keepAlive := Some(l.value)))
               else None;
      if q.None? then None else Some(WithLast(c, q.value))
  }

  /** The configuration with its last peer replaced. */
  function WithLast(c: Config, p: PeerView): Config
    requires c.peers != []
  {
    c.(peers := c.peers[|c.peers| - 1 := p])
  }

  function FeedAll(c: Config, lines: seq<Line>): Option<Config>
    decreases |lines|
  {
    if lines == [] then Some(c)
    else
      match Feed(c, lines[0])
      case None => None
      case Some(next) => FeedAll(next, lines[1..])
  }

  function ReadConfig(text: string): Option<Config> {
    match ParseLines(SplitLines(text))
    case None => None
    case Some(lines) => FeedAll(Config([], []), lines)
  }

  // ---------- What the settings mean ----------

  function EffectivePeer(p: Peer, publicKey: string, decode: KeyDecoder): PeerView {
    PeerView(publicKey, Preshared(p, decode), if p.endpoint != "" then Some(p.endpoint) else None,
             Allowed(p), if RangeSet(p.keepAlive) then Some(StringVal(p.keepAlive)) else None)
  }

  function EffectivePeers(peers: seq<Option<Peer>>, decode: KeyDecoder): seq<PeerView>
    requires PeersReadable(peers, decode)
  {
    if peers == [] then []
    else
      var first := EffectivePeer(peers[0].value, decode(peers[0].value.publicKey).value, decode);
      [first] + EffectivePeers(peers[1..], decode)
  }

  function Effective(s: Settings, decode: KeyDecoder): Config
    requires Buildable(s, decode)
  {
    Config([Line("private_key", decode(s.secretKey).value)] + Lines(SettingEntries(s, decode)),
           EffectivePeers(s.peers, decode))
  }

  // ---------- Keys ----------

  predicate PlainChar(c: char) { 'a' <= c <= 'z' || '0' <= c <= '9' || c == '_' }

  /** Keys are plain words, so they hold neither '=' nor a line break. */
  predicate PlainKey(key: string) { key != "" && forall i :: 0 <= i < |key| ==> PlainChar(key[i]) }

  /** No setting of the interface is called like a peer field: none starts with 'p'. */
  predicate SettingKey(key: string) { PlainKey(key) && key[0] != 'p' }

  predicate AllSettingKeys(entries: seq<Entry>) { forall e :: e in entries ==> SettingKey(e.line.key) }

  lemma ShortKeysArePlain()
    ensures SettingKey("jc") && SettingKey("jmin") && SettingKey("jmax")
    ensures SettingKey("s1") && SettingKey("s2") && SettingKey("s3") && SettingKey("s4")
    ensures SettingKey("h1") && SettingKey("h2") && SettingKey("h3") && SettingKey("h4")
    ensures SettingKey("i1") && SettingKey("i2") && SettingKey("i3") && SettingKey("i4") && SettingKey("i5")
  {
  }

  lemma LongKeysArePlain()
    ensures SettingKey("header_protection_key") && SettingKey("content_padding_addition")
    ensures SettingKey("rekey_after_time") && SettingKey("rekey_timeout") && SettingKey("reject_after_time")
  {
  }

  lemma MoreLongKeysArePlain()
    ensures SettingKey("keepalive_timeout") && SettingKey("max_handshake_attempts")
    ensures SettingKey("random_trailers") && SettingKey("disable_cookies")
  {
  }

  lemma PeerKeysArePlain()
    ensures PlainKey("private_key") && PlainKey(PUBLIC_KEY) && PlainKey(PRESHARED_KEY)
    ensures PlainKey(ENDPOINT) && PlainKey(ALLOWED_IP) && PlainKey(KEEPALIVE)
  {
  }

  lemma NumberKeysArePlain(s: Settings)
    ensures AllSettingKeys(Sizes(s)) && AllSettingKeys(Headers(s)) && AllSettingKeys(Specs(s))
  {
    hide SettingKey, SpecSet, HeaderSet, StringVal, TrimSpace, FormatInt;
    ShortKeysArePlain();
  }

  lemma RangeKeysArePlain(s: Settings, decode: KeyDecoder)
    ensures AllSettingKeys(Protection(s, decode)) && AllSettingKeys(Ranges(s)) && AllSettingKeys(Flags(s))
  {
    hide SettingKey, SpecSet, RangeSet, ParseFlag, StringVal, TrimSpace, FormatBool;
    LongKeysArePlain();
    MoreLongKeysArePlain();
  }

  // ---------- Reading gives the settings back ----------

  /** No value of a line holds a line break. */
  ghost predicate Unbroken(lines: seq<Line>) { forall l :: l in lines ==> '\n' !in l.value }

  ghost predicate PlainLines(lines: seq<Line>) { forall l :: l in lines ==> PlainKey(l.key) }

  lemma ParseRendered(l: Line)
    requires PlainKey(l.key)
    ensures ParseLine(l.key + "=" + l.value) == Some(l)
  {
    var t := l.key + "=" + l.value;
    assert OccursAt(t, "=", |l.key|);
    forall j | 0 <= j < |l.key| ensures !OccursAt(t, "=", j) {
      assert t[j..j + 1][0] == l.key[j];
    }
    IndexUnique(t, "=", |l.key|);
    assert t[..|l.key|] == l.key && t[|l.key| + 1..] == l.value;
  }

  lemma FirstLineOf(line: string, rest: string)
    requires '\n' !in line
    ensures SplitLines(line + "\n" + rest) == [line] + SplitLines(rest)
  {
    var t := line + "\n" + rest;
    assert OccursAt(t, "\n", |line|);
    forall j | 0 <= j < |line| ensures !OccursAt(t, "\n", j) {
      assert t[j..j + 1][0] == line[j];
    }
    IndexUnique(t, "\n", |line|);
    assert t[..|line|] == line && t[|line| + 1..] == rest;
  }

  /** Lines with plain keys and unbroken values are read back as they were written. */
  lemma {:induction false} ReadRendered(lines: seq<Line>)
    requires PlainLines(lines) && Unbroken(lines)
    ensures ParseLines(SplitLines(Render(lines))) == Some(lines)
  {
    if lines != [] {
      var l := lines[0];
      var line := l.key + "=" + l.value;
      ReadRendered(lines[1..]);
      FirstLineOf(line, Render(lines[1..]));
      ParseRendered(l);
      var all := SplitLines(Render(lines));
      assert all[0] == line && all[1..] == SplitLines(Render(lines[1..]));
      assert lines == [l] + lines[1..];
    }
  }

  lemma {:induction false} FeedConcat(c: Config, a: seq<Line>, b: seq<Line>)
    requires FeedAll(c, a).Some?
    ensures FeedAll(c, a + b) == FeedAll(FeedAll(c, a).value, b)
    decreases |a|
  {
    if a == [] {
      assert a + b == b;
    } else {
      assert (a + b)[1..] == a[1..] + b;
      FeedConcat(Feed(c, a[0]).value, a[1..], b);
    }
  }

  lemma {:induction false} FeedSettings(c: Config, lines: seq<Line>)
    requires c.peers == [] && forall l :: l in lines ==> l.key != PUBLIC_KEY
    ensures FeedAll(c, lines) == Some(c.(interface := c.interface + lines))
    decreases |lines|
  {
    if lines == [] {
      assert c.interface + lines == c.interface;
    } else {
      FeedSettings(c.(interface := c.interface + [lines[0]]), lines[1..]);
      assert c.interface + [lines[0]] + lines[1..] == c.interface + lines;
    }
  }

  lemma PeerKeysDiffer()
    ensures PUBLIC_KEY != PRESHARED_KEY && PUBLIC_KEY != ENDPOINT && PUBLIC_KEY != ALLOWED_IP && PUBLIC_KEY != KEEPALIVE
    ensures PRESHARED_KEY != ENDPOINT && PRESHARED_KEY != ALLOWED_IP && PRESHARED_KEY != KEEPALIVE
    ensures ENDPOINT != ALLOWED_IP && ENDPOINT != KEEPALIVE && ALLOWED_IP != KEEPALIVE
  {
    assert PUBLIC_KEY[0] != ALLOWED_IP[0];
  }

  function FeedEntry(c: Config, e: Entry): Option<Config> {
    if e.configured then Feed(c, e.line) else Some(c)
  }

  lemma FeedFront(c: Config, e: Entry, rest: seq<Entry>)
    requires FeedEntry(c, e).Some?
    ensures FeedAll(c, Lines([e] + rest)) == FeedAll(FeedEntry(c, e).value, Lines(rest))
  {
    assert ([e] + rest)[1..] == rest;
    if e.configured {
      assert Lines([e] + rest) == [e.line] + Lines(rest);
      assert ([e.line] + Lines(rest))[1..] == Lines(rest);
    } else {
      assert Lines([e] + rest) == [] + Lines(rest) == Lines(rest);
    }
  }

  lemma {:induction false} FeedAllowed(c: Config, ips: seq<string>, rest: seq<Entry>)
    requires c.peers != []
    ensures var p := c.peers[|c.peers| - 1];
      FeedAll(c, Lines(AllowedEntries(ips) + rest))
      == FeedAll(WithLast(c, p.(allowedIPs := p.allowedIPs + ips)), Lines(rest))
    decreases |ips|
  {
    var p := c.peers[|c.peers| - 1];
    if ips == [] {
      assert p.allowedIPs + ips == p.allowedIPs;
      assert WithLast(c, p) == c;
      assert AllowedEntries(ips) + rest == rest;
    } else {
      PeerKeysDiffer();
      var e := Entry(true, Line(ALLOWED_IP, ips[0]));
      var next := WithLast(c, p.(allowedIPs := p.allowedIPs + [ips[0]]));
      var final := p.(allowedIPs := p.allowedIPs + ips);
      assert WithLast(next, final) == WithLast(c, final);
      assert AllowedEntries(ips) + rest == [e] + (AllowedEntries(ips[1..]) + rest);
      FeedFront(c, e, AllowedEntries(ips[1..]) + rest);
      FeedAllowed(next, ips[1..], rest);
      assert p.allowedIPs + [ips[0]] + ips[1..] == p.allowedIPs + ips;
    }
  }

  /** Feeding the lines of one peer adds that peer as the settings mean it. */
  lemma FeedPeer(c: Config, p: Peer, publicKey: string, decode: KeyDecoder)
    ensures FeedAll(c, Lines(PeerEntries(p, publicKey, decode)))
         == Some(c.(peers := c.peers + [EffectivePeer(p, publicKey, decode)]))
  {
    hide Preshared, RangeSet, StringVal, Allowed, Lines, FeedAll, AllowedEntries;
    PeerKeysDiffer();
    var psk, allowed := Preshared(p, decode), Allowed(p);
    var keepAlive := if RangeSet(p.keepAlive) then Some(StringVal(p.keepAlive)) else None;
    var endpoint := if p.endpoint != "" then Some(p.endpoint) else None;
    var e1 := Entry(true, Line(PUBLIC_KEY, publicKey));
    var e2 := Entry(psk.Some?, Line(PRESHARED_KEY, if psk.Some? then psk.value else ""));
    var e3 := Entry(p.endpoint != "", Line(ENDPOINT, p.endpoint));
    var e4 := Entry(RangeSet(p.keepAlive), Line(KEEPALIVE, StringVal(p.keepAlive)));
    var tail := AllowedEntries(allowed) + [e4];
    assert PeerEntries(p, publicKey, decode) == [e1] + ([e2] + ([e3] + tail));
    var c1 := AddPeer(c, PeerView(publicKey, None, None, [], None));
    var c2 := AddPeer(c, PeerView(publicKey, psk, None, [], None));
    var c3 := AddPeer(c, PeerView(publicKey, psk, endpoint, [], None));
    var c4 := AddPeer(c, PeerView(publicKey, psk, endpoint, allowed, None));
    var c5 := AddPeer(c, PeerView(publicKey, psk, endpoint, allowed, keepAlive));
    AddedPeerIsLast(c);
    FeedFront(c, e1, [e2] + ([e3] + tail));
    assert FeedEntry(c1, e2) == Some(c2);
    FeedFront(c1, e2, [e3] + tail);
    assert FeedEntry(c2, e3) == Some(c3);
    FeedFront(c2, e3, tail);
    assert [] + allowed == allowed;
    assert WithLast(c3, PeerView(publicKey, psk, endpoint, allowed, None)) == c4;
    FeedAllowed(c3, allowed, [e4]);
    assert FeedEntry(c4, e4) == Some(c5);
    assert [e4] + [] == [e4];
    FeedFront(c4, e4, []);
    FeedNothing(c5);
  }

  lemma AddedPeerIsLast(c: Config)
    ensures forall p, q {:trigger WithLast(AddPeer(c, p), q)} :: WithLast(AddPeer(c, p), q) == AddPeer(c, q)
  {
    forall p, q ensures WithLast(AddPeer(c, p), q) == AddPeer(c, q) {
      assert (c.peers + [p])[|c.peers| := q] == c.peers + [q];
    }
  }

  function AddPeer(c: Config, p: PeerView): Config { c.(peers := c.peers + [p]) }

  lemma FeedNothing(c: Config)
    ensures FeedAll(c, Lines([])) == Some(c)
  {
  }

  lemma FeedPeerThen(c: Config, p: Peer, publicKey: string, decode: KeyDecoder, rest: seq<Entry>)
    ensures FeedAll(c, Lines(PeerEntries(p, publicKey, decode) + rest))
         == FeedAll(AddPeer(c, EffectivePeer(p, publicKey, decode)), Lines(rest))
  {
    hide PeerEntries, EffectivePeer, FeedAll, Lines, Feed;
    var first := PeerEntries(p, publicKey, decode);
    FeedPeer(c, p, publicKey, decode);
    LinesConcat(first, rest);
    FeedConcat(c, Lines(first), Lines(rest));
  }

  lemma {:induction false} FeedPeers(c: Config, peers: seq<Option<Peer>>, decode: KeyDecoder)
    requires PeersReadable(peers, decode)
    ensures FeedAll(c, Lines(AllPeerEntries(peers, decode).value))
         == Some(c.(peers := c.peers + EffectivePeers(peers, decode)))
    decreases |peers|
  {
    hide PeerEntries, EffectivePeer, FeedAll, Lines, Feed;
    if peers == [] {
      FeedNothing(c);
      assert c.peers + [] == c.peers;
    } else {
      var p := peers[0].value;
      var publicKey := decode(p.publicKey).value;
      var first, rest := PeerEntries(p, publicKey, decode), AllPeerEntries(peers[1..], decode).value;
      var next := AddPeer(c, EffectivePeer(p, publicKey, decode));
      FeedPeerThen(c, p, publicKey, decode, rest);
      FeedPeers(next, peers[1..], decode);
      assert next.peers + EffectivePeers(peers[1..], decode) == c.peers + EffectivePeers(peers, decode);
    }
  }

  lemma LinesFromEntries(entries: seq<Entry>)
    ensures forall l :: l in Lines(entries) ==> Entry(true, l) in entries
  {
  }

  lemma PeerEntriesArePlain(p: Peer, publicKey: string, decode: KeyDecoder)
    ensures PlainLines(Lines(PeerEntries(p, publicKey, decode)))
  {
    hide PlainKey, Preshared, RangeSet, StringVal, Allowed;
    PeerKeysArePlain();
    LinesFromEntries(PeerEntries(p, publicKey, decode));
  }

  lemma {:induction false} PeersArePlain(peers: seq<Option<Peer>>, decode: KeyDecoder)
    requires PeersReadable(peers, decode)
    ensures PlainLines(Lines(AllPeerEntries(peers, decode).value))
    decreases |peers|
  {
    hide PlainKey, PeerEntries;
    if peers != [] {
      var p := peers[0].value;
      var publicKey := decode(p.publicKey).value;
      PeerEntriesArePlain(p, publicKey, decode);
      PeersArePlain(peers[1..], decode);
      LinesConcat(PeerEntries(p, publicKey, decode), AllPeerEntries(peers[1..], decode).value);
    }
  }

  lemma SettingLinesArePlain(s: Settings, decode: KeyDecoder)
    ensures PlainLines(Lines(SettingEntries(s, decode)))
    ensures forall l :: l in Lines(SettingEntries(s, decode)) ==> l.key != PUBLIC_KEY && l.key[0] != 'p'
  {
    assert AllSettingKeys(SettingEntries(s, decode)) by {
      hide SettingKey, Sizes, Headers, Specs, Protection, Ranges, Flags;
      NumberKeysArePlain(s);
      RangeKeysArePlain(s, decode);
    }
    hide SettingEntries;
    LinesFromEntries(SettingEntries(s, decode));
    assert PUBLIC_KEY[0] == 'p';
  }

  /** The lines that `Build` renders. */
  function BuildLines(s: Settings, decode: KeyDecoder): seq<Line>
    requires Buildable(s, decode)
  {
    Lines(AllEntries(s, decode).value)
  }

  lemma SplitLinesOf(key: Entry, settings: seq<Entry>, peers: seq<Entry>)
    requires key.configured
    ensures Lines([key] + settings + peers) == [key.line] + Lines(settings) + Lines(peers)
  {
    LinesConcat([key] + settings, peers);
    LinesConcat([key], settings);
    assert [key][1..] == [];
    assert Lines([key]) == [key.line];
  }

  // ---------- A line break in any value makes the text unreadable ----------

  ghost predicate UnbrokenPeer(p: PeerView) {
    && '\n' !in p.publicKey
    && (p.presharedKey.Some? ==> '\n' !in p.presharedKey.value)
    && (p.endpoint.Some? ==> '\n' !in p.endpoint.value)
    && (forall ip :: ip in p.allowedIPs ==> '\n' !in ip)
    && (p.keepAlive.Some? ==> '\n' !in p.keepAlive.value)
  }

  ghost predicate UnbrokenConfig(c: Config) {
    Unbroken(c.interface) && forall p :: p in c.peers ==> UnbrokenPeer(p)
  }

  lemma {:induction false} LinesAreUnbroken(text: string)
    ensures forall l :: l in SplitLines(text) ==> '\n' !in l
    decreases |text|
  {
    match Index(text, "\n")
    case None =>
      assert forall i :: 0 <= i < |text| && text[i] == '\n' ==> OccursAt(text, "\n", i);
    case Some(i) =>
      LinesAreUnbroken(text[i + 1..]);
      assert forall j :: 0 <= j < i && text[j] == '\n' ==> OccursAt(text, "\n", j);
  }

  lemma {:induction false} ParsedLinesAreUnbroken(lines: seq<string>)
    requires (forall l :: l in lines ==> '\n' !in l) && ParseLines(lines).Some?
    ensures Unbroken(ParseLines(lines).value)
  {
    if lines != [] {
      ParsedLinesAreUnbroken(lines[1..]);
      var i := Index(lines[0], "=").value;
      assert forall c :: c in lines[0][i + 1..] ==> c in lines[0];
      assert lines[0] in lines;
    }
  }

  lemma ReplacedPeerIsUnbroken(c: Config, p: PeerView)
    requires UnbrokenConfig(c) && c.peers != [] && UnbrokenPeer(p)
    ensures UnbrokenConfig(WithLast(c, p))
  {
    hide UnbrokenPeer;
    assert forall q :: q in WithLast(c, p).peers ==> q in c.peers || q == p;
  }

  lemma FedLineIsUnbroken(c: Config, l: Line)
    requires UnbrokenConfig(c) && '\n' !in l.value && Feed(c, l).Some?
    ensures UnbrokenConfig(Feed(c, l).value)
  {
    var next := Feed(c, l).value;
    if l.key == PUBLIC_KEY {
      assert UnbrokenPeer(PeerView(l.value, None, None, [], None));
    } else if c.peers != [] {
      var p := c.peers[|c.peers| - 1];
      assert p in c.peers && UnbrokenPeer(p);
      ReplacedPeerIsUnbroken(c, next.peers[|c.peers| - 1]);
      assert next == WithLast(c, next.peers[|c.peers| - 1]);
    }
  }

  lemma {:induction false} FeedKeepsUnbroken(c: Config, lines: seq<Line>)
    requires UnbrokenConfig(c) && Unbroken(lines) && FeedAll(c, lines).Some?
    ensures UnbrokenConfig(FeedAll(c, lines).value)
    decreases |lines|
  {
    hide Feed, UnbrokenConfig;
    if lines != [] {
      assert lines[0] in lines;
      FedLineIsUnbroken(c, lines[0]);
      FeedKeepsUnbroken(Feed(c, lines[0]).value, lines[1..]);
    }
  }

  lemma ReadConfigIsUnbroken(text: string)
    requires ReadConfig(text).Some?
    ensures UnbrokenConfig(ReadConfig(text).value)
  {
    LinesAreUnbroken(text);
    ParsedLinesAreUnbroken(SplitLines(text));
    FeedKeepsUnbroken(Config([], []), ParseLines(SplitLines(text)).value);
  }

  lemma PeerLinesAreUnbroken(p: Peer, publicKey: string, decode: KeyDecoder)
    requires UnbrokenPeer(EffectivePeer(p, publicKey, decode))
    ensures Unbroken(Lines(PeerEntries(p, publicKey, decode)))
  {
    hide Preshared, RangeSet, StringVal, Allowed;
    LinesFromEntries(PeerEntries(p, publicKey, decode));
  }

  lemma {:induction false} PeersLinesAreUnbroken(peers: seq<Option<Peer>>, decode: KeyDecoder)
    requires PeersReadable(peers, decode)
    requires forall p :: p in EffectivePeers(peers, decode) ==> UnbrokenPeer(p)
    ensures Unbroken(Lines(AllPeerEntries(peers, decode).value))
    decreases |peers|
  {
    hide PeerEntries, EffectivePeer, UnbrokenPeer;
    if peers != [] {
      var p := peers[0].value;
      var publicKey := decode(p.publicKey).value;
      PeerLinesAreUnbroken(p, publicKey, decode);
      PeersLinesAreUnbroken(peers[1..], decode);
      LinesConcat(PeerEntries(p, publicKey, decode), AllPeerEntries(peers[1..], decode).value);
    }
  }

  /** The text reads back as the effective settings and peers exactly when no line it is made of is broken. */
  lemma {:induction false} ReadsBackExactlyWhenLinesUnbroken(s: Settings, decode: KeyDecoder)
    requires Buildable(s, decode)
    ensures ReadConfig(Build(s, decode).value) == Some(Effective(s, decode)) <==> Unbroken(BuildLines(s, decode))
  {
    hide SettingEntries, PeerEntries, EffectivePeer, UnbrokenPeer, Feed, PlainKey;
    var text, key := Build(s, decode).value, Line("private_key", decode(s.secretKey).value);
    var settings, peers := Lines(SettingEntries(s, decode)), Lines(AllPeerEntries(s.peers, decode).value);
    var lines := [key] + settings + peers;
    SplitLinesOf(Entry(true, key), SettingEntries(s, decode), AllPeerEntries(s.peers, decode).value);
    SettingLinesArePlain(s, decode);
    PeersArePlain(s.peers, decode);
    PeerKeysArePlain();
    assert "private_key" != PUBLIC_KEY;
    if Unbroken(BuildLines(s, decode)) {
      ReadRendered(lines);
      FeedSettings(Config([], []), [key] + settings);
      FeedConcat(Config([], []), [key] + settings, peers);
      FeedPeers(Config([key] + settings, []), s.peers, decode);
      assert [] + ([key] + settings) == [key] + settings;
      assert [] + EffectivePeers(s.peers, decode) == EffectivePeers(s.peers, decode);
    }
    if ReadConfig(text) == Some(Effective(s, decode)) {
      ReadConfigIsUnbroken(text);
      PeersLinesAreUnbroken(s.peers, decode);
    }
  }

  // ---------- The same, read off the settings ----------

  predicate OneLine(text: string) { '\n' !in text }

  predicate ChainsOnOneLine(s: Settings) {
    OneLine(TrimSpace(s.i1)) && OneLine(TrimSpace(s.i2)) && OneLine(TrimSpace(s.i3))
    && OneLine(TrimSpace(s.i4)) && OneLine(TrimSpace(s.i5))
  }

  predicate HeadersOnOneLine(s: Settings) {
    OneLine(StringVal(s.h1)) && OneLine(StringVal(s.h2)) && OneLine(StringVal(s.h3)) && OneLine(StringVal(s.h4))
  }

  predicate RangesOnOneLine(s: Settings) {
    && OneLine(StringVal(s.contentPaddingAddition)) && OneLine(StringVal(s.rekeyAfterTime))
    && OneLine(StringVal(s.rekeyTimeout)) && OneLine(StringVal(s.rejectAfterTime))
    && OneLine(StringVal(s.keepaliveTimeout)) && OneLine(StringVal(s.maxHandshakeAttempts))
  }

  /** A key that is absent or unreadable is not written. */
  predicate KeyOnOneLine(key: Option<string>) { key.Some? ==> OneLine(key.value) }

  predicate ProtectionOnOneLine(s: Settings, decode: KeyDecoder) {
    SpecSet(s.headerProtectionKey) ==> KeyOnOneLine(decode(TrimSpace(s.headerProtectionKey)))
  }

  /** The endpoint and the allowed IPs of a peer are single lines. */
  predicate AddressesOnOneLine(p: Peer) { OneLine(p.endpoint) && forall ip :: ip in p.allowedIPs ==> OneLine(ip) }

  predicate PeerOnOneLine(p: Peer, decode: KeyDecoder) {
    && KeyOnOneLine(decode(p.publicKey)) && KeyOnOneLine(Preshared(p, decode))
    && AddressesOnOneLine(p) && OneLine(StringVal(p.keepAlive))
  }

  predicate PeersOnOneLine(peers: seq<Option<Peer>>, decode: KeyDecoder) {
    forall i :: 0 <= i < |peers| && peers[i].Some? ==> PeerOnOneLine(peers[i].value, decode)
  }

  /** No chain, header, range, decoded key, endpoint, allowed IP or keepalive holds a line break. */
  predicate SettingsOnOneLine(s: Settings, decode: KeyDecoder) {
    && KeyOnOneLine(decode(s.secretKey)) && ChainsOnOneLine(s) && HeadersOnOneLine(s) && RangesOnOneLine(s)
    && ProtectionOnOneLine(s, decode) && PeersOnOneLine(s.peers, decode)
  }

  /** Every entry that is written is a single line. */
  ghost predicate EntriesOnOneLine(entries: seq<Entry>) {
    forall i :: 0 <= i < |entries| && entries[i].configured ==> OneLine(entries[i].line.value)
  }

  lemma {:induction false} UnbrokenExactlyWhenEntriesAre(entries: seq<Entry>)
    ensures Unbroken(Lines(entries)) <==> EntriesOnOneLine(entries)
  {
    if entries != [] {
      var first, rest := entries[0], entries[1..];
      UnbrokenExactlyWhenEntriesAre(rest);
      assert forall i :: 0 < i < |entries| ==> entries[i] == rest[i - 1];
      assert forall l :: l in Lines(entries) <==> (first.configured && l == first.line) || l in Lines(rest);
      assert EntriesOnOneLine(entries) ==> EntriesOnOneLine(rest) by {
        forall i | EntriesOnOneLine(entries) && 0 <= i < |rest| && rest[i].configured
          ensures OneLine(rest[i].line.value)
        {
          assert rest[i] == entries[i + 1];
        }
      }
    }
  }

  lemma EntriesConcat(a: seq<Entry>, b: seq<Entry>)
    ensures EntriesOnOneLine(a + b) <==> EntriesOnOneLine(a) && EntriesOnOneLine(b)
  {
    var c := a + b;
    assert forall i :: 0 <= i < |a| ==> c[i] == a[i];
    assert forall i :: 0 <= i < |b| ==> b[i] == c[|a| + i];
  }

  lemma SizesAndFlagsAreOnOneLine(s: Settings)
    ensures EntriesOnOneLine(Sizes(s)) && EntriesOnOneLine(Flags(s))
  {
    hide ParseFlag;
    assert OneLine(FormatBool(true)) && OneLine(FormatBool(false));
  }

  lemma HeaderOnOneLine(key: string, v: Json)
    ensures Header(key, v).configured ==> Header(key, v).line.value == StringVal(v)
    ensures !Header(key, v).configured ==> OneLine(StringVal(v))
  {
  }

  lemma HeadersWritten(s: Settings)
    ensures EntriesOnOneLine(Headers(s)) <==> HeadersOnOneLine(s)
  {
    hide Header, StringVal, OneLine;
    var e := Headers(s);
    HeaderOnOneLine("h1", s.h1);
    HeaderOnOneLine("h2", s.h2);
    HeaderOnOneLine("h3", s.h3);
    HeaderOnOneLine("h4", s.h4);
    assert e[0] == Header("h1", s.h1) && e[1] == Header("h2", s.h2);
    assert e[2] == Header("h3", s.h3) && e[3] == Header("h4", s.h4);
  }

  lemma SpecOnOneLine(key: string, spec: string)
    ensures Spec(key, spec).configured ==> Spec(key, spec).line.value == TrimSpace(spec)
    ensures !Spec(key, spec).configured ==> OneLine(TrimSpace(spec))
  {
    hide TrimSpace;
  }

  lemma ChainsWritten(s: Settings)
    ensures EntriesOnOneLine(Specs(s)) <==> ChainsOnOneLine(s)
  {
    hide Spec, TrimSpace, OneLine;
    var e := Specs(s);
    SpecOnOneLine("i1", s.i1);
    SpecOnOneLine("i2", s.i2);
    SpecOnOneLine("i3", s.i3);
    SpecOnOneLine("i4", s.i4);
    SpecOnOneLine("i5", s.i5);
    assert e[0] == Spec("i1", s.i1) && e[1] == Spec("i2", s.i2) && e[2] == Spec("i3", s.i3);
    assert e[3] == Spec("i4", s.i4) && e[4] == Spec("i5", s.i5);
  }

  lemma OffIsOneLine(text: string)
    requires ToLower(text) == "off"
    ensures OneLine(text)
  {
    forall i | 0 <= i < |text| ensures text[i] != '\n' {
      assert ToLower(text)[i] == ToLowerChar(text[i]);
    }
  }

  lemma RangeOnOneLine(key: string, v: Json)
    ensures Range(key, v).configured ==> Range(key, v).line.value == StringVal(v)
    ensures !Range(key, v).configured ==> OneLine(StringVal(v))
  {
    hide ToLower;
    if ToLower(StringVal(v)) == "off" {
      OffIsOneLine(StringVal(v));
    }
  }

  lemma RangesWritten(s: Settings)
    ensures EntriesOnOneLine(Ranges(s)) <==> RangesOnOneLine(s)
  {
    hide Range, StringVal, OneLine;
    var e := Ranges(s);
    RangeOnOneLine("content_padding_addition", s.contentPaddingAddition);
    RangeOnOneLine("rekey_after_time", s.rekeyAfterTime);
    RangeOnOneLine("rekey_timeout", s.rekeyTimeout);
    RangeOnOneLine("reject_after_time", s.rejectAfterTime);
    RangeOnOneLine("keepalive_timeout", s.keepaliveTimeout);
    RangeOnOneLine("max_handshake_attempts", s.maxHandshakeAttempts);
    assert e[0] == Range("content_padding_addition", s.contentPaddingAddition);
    assert e[1] == Range("rekey_after_time", s.rekeyAfterTime);
    assert e[2] == Range("rekey_timeout", s.rekeyTimeout);
    assert e[3] == Range("reject_after_time", s.rejectAfterTime);
    assert e[4] == Range("keepalive_timeout", s.keepaliveTimeout);
    assert e[5] == Range("max_handshake_attempts", s.maxHandshakeAttempts);
  }

  lemma ProtectionWritten(s: Settings, decode: KeyDecoder)
    ensures EntriesOnOneLine(Protection(s, decode)) <==> ProtectionOnOneLine(s, decode)
  {
    hide TrimSpace, SpecSet, OneLine;
    var e := Protection(s, decode);
    assert e[0].configured <==> SpecSet(s.headerProtectionKey) && decode(TrimSpace(s.headerProtectionKey)).Some?;
  }

  lemma SettingsWritten(s: Settings, decode: KeyDecoder)
    ensures EntriesOnOneLine(SettingEntries(s, decode)) <==>
      ChainsOnOneLine(s) && HeadersOnOneLine(s) && RangesOnOneLine(s) && ProtectionOnOneLine(s, decode)
  {
    hide EntriesOnOneLine, Sizes, Headers, Specs, Protection, Ranges, Flags;
    hide ChainsOnOneLine, HeadersOnOneLine, RangesOnOneLine, ProtectionOnOneLine;
    SizesAndFlagsAreOnOneLine(s);
    HeadersWritten(s);
    ChainsWritten(s);
    ProtectionWritten(s, decode);
    RangesWritten(s);
    EntriesConcat(Sizes(s), Headers(s));
    EntriesConcat(Sizes(s) + Headers(s), Specs(s));
    EntriesConcat(Sizes(s) + Headers(s) + Specs(s), Protection(s, decode));
    EntriesConcat(Sizes(s) + Headers(s) + Specs(s) + Protection(s, decode), Ranges(s));
    EntriesConcat(Sizes(s) + Headers(s) + Specs(s) + Protection(s, decode) + Ranges(s), Flags(s));
  }

  lemma AllowedWritten(p: Peer)
    ensures EntriesOnOneLine(AllowedEntries(Allowed(p))) <==> forall ip :: ip in p.allowedIPs ==> OneLine(ip)
  {
    var allowed := Allowed(p);
    var e := AllowedEntries(allowed);
    assert forall i :: 0 <= i < |e| ==> e[i].configured && e[i].line.value == allowed[i];
    if p.allowedIPs == [] {
      assert OneLine("0.0.0.0/0") && OneLine("::/0");
    } else {
      if EntriesOnOneLine(e) {
        forall ip | ip in p.allowedIPs ensures OneLine(ip) {
          var i :| 0 <= i < |allowed| && allowed[i] == ip;
          assert OneLine(e[i].line.value);
        }
      }
    }
  }

  lemma PeerWritten(p: Peer, publicKey: string, decode: KeyDecoder)
    requires decode(p.publicKey) == Some(publicKey)
    ensures EntriesOnOneLine(PeerEntries(p, publicKey, decode)) <==> PeerOnOneLine(p, decode)
  {
    hide AllowedEntries, Allowed, StringVal, RangeSet, OneLine, Preshared;
    var psk := Preshared(p, decode);
    var front := [Entry(true, Line(PUBLIC_KEY, publicKey)),
                  Entry(psk.Some?, Line(PRESHARED_KEY, if psk.Some? then psk.value else "")),
                  Entry(p.endpoint != "", Line(ENDPOINT, p.endpoint))];
    var allowed := AllowedEntries(Allowed(p));
    var back := [Range(KEEPALIVE, p.keepAlive)];
    FrontWritten(front[0], front[1], front[2]);
    BackWritten(back[0]);
    EndpointOnOneLine(p.endpoint);
    RangeOnOneLine(KEEPALIVE, p.keepAlive);
    AllowedWritten(p);
    EntriesConcat(front, allowed);
    EntriesConcat(front + allowed, back);
    assert PeerEntries(p, publicKey, decode) == front + allowed + back;
  }

  lemma EndpointOnOneLine(endpoint: string)
    ensures endpoint == "" ==> OneLine(endpoint)
  {
  }

  lemma FrontWritten(a: Entry, b: Entry, c: Entry)
    ensures EntriesOnOneLine([a, b, c]) <==>
      (a.configured ==> OneLine(a.line.value)) && (b.configured ==> OneLine(b.line.value))
      && (c.configured ==> OneLine(c.line.value))
  {
    hide OneLine;
    var e := [a, b, c];
    assert e[0] == a && e[1] == b && e[2] == c;
  }

  lemma BackWritten(a: Entry)
    ensures EntriesOnOneLine([a]) <==> (a.configured ==> OneLine(a.line.value))
  {
    hide OneLine;
    assert [a][0] == a;
  }

  lemma {:induction false} PeersWritten(peers: seq<Option<Peer>>, decode: KeyDecoder)
    requires PeersReadable(peers, decode)
    ensures EntriesOnOneLine(AllPeerEntries(peers, decode).value) <==> PeersOnOneLine(peers, decode)
    decreases |peers|
  {
    hide PeerEntries, PeerOnOneLine;
    if peers != [] {
      var p, rest := peers[0].value, peers[1..];
      hide EntriesOnOneLine;
      PeerWritten(p, decode(p.publicKey).value, decode);
      PeersWritten(rest, decode);
      EntriesConcat(PeerEntries(p, decode(p.publicKey).value, decode), AllPeerEntries(rest, decode).value);
      assert forall i :: 0 < i < |peers| ==> peers[i] == rest[i - 1];
      assert forall i :: 0 <= i < |rest| ==> rest[i] == peers[i + 1];
    }
  }

  /** The lines are unbroken exactly when the settings hold no line break where it would be written. */
  lemma {:induction false} LinesUnbrokenExactlyWhenSettingsAre(s: Settings, decode: KeyDecoder)
    requires Buildable(s, decode)
    ensures Unbroken(BuildLines(s, decode)) <==> SettingsOnOneLine(s, decode)
  {
    hide SettingEntries, EntriesOnOneLine, AllPeerEntries, OneLine, Lines, Unbroken, SpecSet, ParseFlag;
    hide ChainsOnOneLine, HeadersOnOneLine, RangesOnOneLine, ProtectionOnOneLine, PeersOnOneLine;
    var key := Entry(true, Line("private_key", decode(s.secretKey).value));
    var settings, peers := SettingEntries(s, decode), AllPeerEntries(s.peers, decode).value;
    UnbrokenExactlyWhenEntriesAre([key] + settings + peers);
    EntriesConcat([key] + settings, peers);
    EntriesConcat([key], settings);
    BackWritten(key);
    SettingsWritten(s, decode);
    PeersWritten(s.peers, decode);
  }

  /**
   The text reads back as the effective settings and peers exactly when no chain, header, range,
   decoded key, endpoint, allowed IP or keepalive of the settings holds a line break.
   */
  lemma {:induction false} ReadsBackExactlyWhenOnOneLine(s: Settings, decode: KeyDecoder)
    requires Buildable(s, decode)
    ensures ReadConfig(Build(s, decode).value) == Some(Effective(s, decode)) <==> SettingsOnOneLine(s, decode)
  {
    hide SettingsOnOneLine, Unbroken, BuildLines, ReadConfig, Effective, Build, Buildable;
    ReadsBackExactlyWhenLinesUnbroken(s, decode);
    LinesUnbrokenExactlyWhenSettingsAre(s, decode);
  }

  /** A chain with a line break in it breaks the text of every settings value. */
  lemma {:induction false} LineBreakInAChainBreaksTheText(s: Settings, decode: KeyDecoder)
    requires Buildable(s, decode) && !ChainsOnOneLine(s)
    ensures ReadConfig(Build(s, decode).value) != Some(Effective(s, decode))
  {
    hide ReadConfig, Effective, Build, Buildable, ChainsOnOneLine;
    ReadsBackExactlyWhenOnOneLine(s, decode);
  }

  // ---------- HasAmneziaParams agrees with what is written ----------

  lemma {:induction false} SomeLineExactlyWhenConfigured(entries: seq<Entry>)
    ensures Lines(entries) != [] <==> exists i :: 0 <= i < |entries| && entries[i].configured
  {
    if entries != [] {
      SomeLineExactlyWhenConfigured(entries[1..]);
      assert forall i :: 0 < i < |entries| ==> entries[i] == entries[1..][i - 1];
    }
  }

  lemma SizesConfigured(s: Settings)
    ensures Lines(Sizes(s)) != [] <==>
      s.jc > 0 || s.jmin > 0 || s.jmax > 0 || s.s1 > 0 || s.s2 > 0 || s.s3 > 0 || s.s4 > 0
  {
    hide FormatInt;
    var e := Sizes(s);
    SomeLineExactlyWhenConfigured(e);
    assert e[0].configured == (s.jc > 0) && e[1].configured == (s.jmin > 0) && e[2].configured == (s.jmax > 0);
    assert e[3].configured == (s.s1 > 0) && e[4].configured == (s.s2 > 0)
        && e[5].configured == (s.s3 > 0) && e[6].configured == (s.s4 > 0);
  }

  lemma HeadersConfigured(s: Settings)
    ensures Lines(Headers(s)) != [] <==> HeaderSet(s.h1) || HeaderSet(s.h2) || HeaderSet(s.h3) || HeaderSet(s.h4)
  {
    hide HeaderSet, StringVal;
    var e := Headers(s);
    SomeLineExactlyWhenConfigured(e);
    assert e[0].configured == HeaderSet(s.h1) && e[1].configured == HeaderSet(s.h2)
        && e[2].configured == HeaderSet(s.h3) && e[3].configured == HeaderSet(s.h4);
  }

  lemma SpecsConfigured(s: Settings)
    ensures Lines(Specs(s)) != [] <==>
      SpecSet(s.i1) || SpecSet(s.i2) || SpecSet(s.i3) || SpecSet(s.i4) || SpecSet(s.i5)
  {
    hide SpecSet, TrimSpace;
    var e := Specs(s);
    SomeLineExactlyWhenConfigured(e);
    assert e[0].configured == SpecSet(s.i1) && e[1].configured == SpecSet(s.i2) && e[2].configured == SpecSet(s.i3)
        && e[3].configured == SpecSet(s.i4) && e[4].configured == SpecSet(s.i5);
  }

  lemma RangesConfigured(s: Settings)
    ensures Lines(Ranges(s)) != [] <==>
      RangeSet(s.contentPaddingAddition) || RangeSet(s.rekeyAfterTime) || RangeSet(s.rekeyTimeout)
      || RangeSet(s.rejectAfterTime) || RangeSet(s.keepaliveTimeout) || RangeSet(s.maxHandshakeAttempts)
  {
    hide RangeSet, StringVal;
    var e := Ranges(s);
    SomeLineExactlyWhenConfigured(e);
    assert e[0].configured == RangeSet(s.contentPaddingAddition) && e[1].configured == RangeSet(s.rekeyAfterTime)
        && e[2].configured == RangeSet(s.rekeyTimeout) && e[3].configured == RangeSet(s.rejectAfterTime)
        && e[4].configured == RangeSet(s.keepaliveTimeout) && e[5].configured == RangeSet(s.maxHandshakeAttempts);
  }

  lemma FlagsConfigured(s: Settings)
    ensures Lines(Flags(s)) != [] <==> ParseFlag(s.randomTrailers).On? || ParseFlag(s.disableCookies).On?
  {
    hide ParseFlag, FormatBool;
    var e := Flags(s);
    SomeLineExactlyWhenConfigured(e);
    assert e[0].configured == ParseFlag(s.randomTrailers).On? && e[1].configured == ParseFlag(s.disableCookies).On?;
  }

  lemma ProtectionConfigured(s: Settings, decode: KeyDecoder)
    requires SettingsError(s, decode).None?
    ensures Lines(Protection(s, decode)) != [] <==> SpecSet(s.headerProtectionKey)
  {
    hide SpecSet, ParseFlag;
    SomeLineExactlyWhenConfigured(Protection(s, decode));
    assert Protection(s, decode)[0].configured == SpecSet(s.headerProtectionKey);
  }

  /** A setting line is written exactly when HasAmneziaParams says so. */
  lemma {:induction false} SettingsConfigured(s: Settings, decode: KeyDecoder)
    requires SettingsError(s, decode).None?
    ensures Lines(SettingEntries(s, decode)) != [] <==> HasAmneziaParams(s)
  {
    hide Sizes, Headers, Specs, Protection, Ranges, Flags, HeaderSet, SpecSet, RangeSet, ParseFlag;
    SizesConfigured(s);
    HeadersConfigured(s);
    SpecsConfigured(s);
    ProtectionConfigured(s, decode);
    RangesConfigured(s);
    FlagsConfigured(s);
    LinesConcat(Sizes(s), Headers(s));
    LinesConcat(Sizes(s) + Headers(s), Specs(s));
    LinesConcat(Sizes(s) + Headers(s) + Specs(s), Protection(s, decode));
    LinesConcat(Sizes(s) + Headers(s) + Specs(s) + Protection(s, decode), Ranges(s));
    LinesConcat(Sizes(s) + Headers(s) + Specs(s) + Protection(s, decode) + Ranges(s), Flags(s));
  }

  predicate StartsWith(text: string, prefix: string) { |prefix| <= |text| && text[..|prefix|] == prefix }

  /** What follows the first line of a text. */
  function AfterFirstLine(text: string): string {
    match Index(text, "\n")
    case None => ""
    case Some(i) => text[i + 1..]
  }

  /**
   HasAmneziaParams is true exactly when the text goes on after its first line with something other
   than a peer, whatever the values contain.
   */
  lemma {:induction false} HasAmneziaParamsExactlyWhenWritten(s: Settings, decode: KeyDecoder)
    requires Buildable(s, decode) && '\n' !in decode(s.secretKey).value
    ensures var rest := AfterFirstLine(Build(s, decode).value);
      HasAmneziaParams(s) <==> rest != "" && !StartsWith(rest, PUBLIC_KEY + "=")
  {
    hide SettingEntries, AllPeerEntries, HasAmneziaParams, PlainKey, Lines, ParseFlag, SpecSet, TrimSpace, Index;
    var key := Line("private_key", decode(s.secretKey).value);
    var settings, peers := Lines(SettingEntries(s, decode)), Lines(AllPeerEntries(s.peers, decode).value);
    SettingsConfigured(s, decode);
    SplitLinesOf(Entry(true, key), SettingEntries(s, decode), AllPeerEntries(s.peers, decode).value);
    assert [key] + settings + peers == [key] + (settings + peers);
    assert ([key] + (settings + peers))[1..] == settings + peers;
    FirstLineEnds(key.key + "=" + key.value, Render(settings + peers));
    if settings != [] {
      SettingLinesArePlain(s, decode);
      SettingTextIsNoPeer(settings, peers);
    } else {
      assert settings + peers == peers;
      PeersStartWithPublicKey(s.peers, decode);
    }
  }

  lemma SettingTextIsNoPeer(settings: seq<Line>, peers: seq<Line>)
    requires settings != [] && PlainKey(settings[0].key) && settings[0].key[0] != 'p'
    ensures Render(settings + peers) != "" && !StartsWith(Render(settings + peers), PUBLIC_KEY + "=")
  {
    var text := Render(settings + peers);
    assert (settings + peers)[0] == settings[0];
    assert text[0] == settings[0].key[0];
    assert (PUBLIC_KEY + "=")[0] == 'p';
  }

  lemma FirstLineEnds(line: string, rest: string)
    requires '\n' !in line
    ensures AfterFirstLine(line + "\n" + rest) == rest
  {
    var t := line + "\n" + rest;
    assert OccursAt(t, "\n", |line|);
    forall j | 0 <= j < |line| ensures !OccursAt(t, "\n", j) {
      assert t[j..j + 1][0] == line[j];
    }
    IndexUnique(t, "\n", |line|);
    assert t[|line| + 1..] == rest;
  }

  lemma PeersStartWithPublicKey(peers: seq<Option<Peer>>, decode: KeyDecoder)
    requires PeersReadable(peers, decode)
    ensures var text := Render(Lines(AllPeerEntries(peers, decode).value));
      text == "" || StartsWith(text, PUBLIC_KEY + "=")
  {
    if peers != [] {
      var publicKey := decode(peers[0].value.publicKey).value;
      var entries := AllPeerEntries(peers, decode).value;
      assert entries[0] == Entry(true, Line(PUBLIC_KEY, publicKey));
      var lines := Lines(entries);
      assert lines[0] == entries[0].line;
      var text := Render(lines);
      assert text == PUBLIC_KEY + "=" + (publicKey + "\n" + Render(lines[1..]));
    }
  }
}
