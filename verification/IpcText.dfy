/** What a reader finds in a configuration text, key by key, with the keys and values written out. */
module IpcText {
  import opened Wrappers
  import opened Text
  import opened IpcConfig
  import TextMeaning

  /** All values that stand under a key, in order. */
  function Values(lines: seq<Line>, key: string): seq<string> {
    if lines == [] then []
    else Values(lines[..|lines| - 1], key) + (if lines[|lines| - 1].key == key then [lines[|lines| - 1].value] else [])
  }

  /** The one value, if the setting is configured. */
  function Only(configured: bool, value: string): seq<string> { if configured then [value] else [] }

  // ---------- The keys differ ----------

  const KEYS: seq<string> := [
    "private_key", "jc", "jmin", "jmax", "s1", "s2", "s3", "s4", "h1", "h2", "h3", "h4",
    "i1", "i2", "i3", "i4", "i5", "header_protection_key",
    "content_padding_addition", "rekey_after_time", "rekey_timeout", "reject_after_time",
    "keepalive_timeout", "max_handshake_attempts", "random_trailers", "disable_cookies"]

  /** Length, first and last character of a key; they tell all keys apart. */
  function Code(key: string): int {
    if key == "" then 0 else 0x1_0000_0000 * |key| + 0x1_0000 * (key[0] as int) + key[|key| - 1] as int
  }

  function CodeOf(length: nat, first: char, last: char): int {
    0x1_0000_0000 * length + 0x1_0000 * (first as int) + last as int
  }

  lemma ShortCodes()
    ensures Code("jc") == CodeOf(2, 'j', 'c')
    ensures Code("jmin") == CodeOf(4, 'j', 'n') && Code("jmax") == CodeOf(4, 'j', 'x')
    ensures Code("s1") == CodeOf(2, 's', '1') && Code("s2") == CodeOf(2, 's', '2')
    ensures Code("s3") == CodeOf(2, 's', '3') && Code("s4") == CodeOf(2, 's', '4')
    ensures Code("h1") == CodeOf(2, 'h', '1') && Code("h2") == CodeOf(2, 'h', '2')
    ensures Code("h3") == CodeOf(2, 'h', '3') && Code("h4") == CodeOf(2, 'h', '4')
    ensures Code("i1") == CodeOf(2, 'i', '1') && Code("i2") == CodeOf(2, 'i', '2') && Code("i3") == CodeOf(2, 'i', '3')
    ensures Code("i4") == CodeOf(2, 'i', '4') && Code("i5") == CodeOf(2, 'i', '5')
  {
  }

  lemma LongCodes()
    ensures Code("private_key") == CodeOf(11, 'p', 'y') && Code("header_protection_key") == CodeOf(21, 'h', 'y')
    ensures Code("content_padding_addition") == CodeOf(24, 'c', 'n') && Code("rekey_after_time") == CodeOf(16, 'r', 'e')
    ensures Code("rekey_timeout") == CodeOf(13, 'r', 't') && Code("reject_after_time") == CodeOf(17, 'r', 'e')
    ensures Code("keepalive_timeout") == CodeOf(17, 'k', 't') && Code("max_handshake_attempts") == CodeOf(22, 'm', 's')
    ensures Code("random_trailers") == CodeOf(15, 'r', 's') && Code("disable_cookies") == CodeOf(15, 'd', 's')
  {
  }

  /** The position of a key in the list, read off its code. */
  function Position(code: int): nat {
    if code == CodeOf(11, 'p', 'y') then 0
    else if code == CodeOf(2, 'j', 'c') then 1
    else if code == CodeOf(4, 'j', 'n') then 2
    else if code == CodeOf(4, 'j', 'x') then 3
    else if code == CodeOf(2, 's', '1') then 4
    else if code == CodeOf(2, 's', '2') then 5
    else if code == CodeOf(2, 's', '3') then 6
    else if code == CodeOf(2, 's', '4') then 7
    else if code == CodeOf(2, 'h', '1') then 8
    else if code == CodeOf(2, 'h', '2') then 9
    else if code == CodeOf(2, 'h', '3') then 10
    else if code == CodeOf(2, 'h', '4') then 11
    else if code == CodeOf(2, 'i', '1') then 12
    else if code == CodeOf(2, 'i', '2') then 13
    else if code == CodeOf(2, 'i', '3') then 14
    else if code == CodeOf(2, 'i', '4') then 15
    else if code == CodeOf(2, 'i', '5') then 16
    else if code == CodeOf(21, 'h', 'y') then 17
    else if code == CodeOf(24, 'c', 'n') then 18
    else if code == CodeOf(16, 'r', 'e') then 19
    else if code == CodeOf(13, 'r', 't') then 20
    else if code == CodeOf(17, 'r', 'e') then 21
    else if code == CodeOf(17, 'k', 't') then 22
    else if code == CodeOf(22, 'm', 's') then 23
    else if code == CodeOf(15, 'r', 's') then 24
    else 25
  }

  lemma PositionsOfKeys()
    ensures |KEYS| == 26 && forall i :: 0 <= i < 26 ==> Position(Code(KEYS[i])) == i
  {
    hide Code;
    ShortCodes();
    LongCodes();
  }

  lemma KeysDiffer()
    ensures Distinct(KEYS)
  {
    hide Code, Position;
    PositionsOfKeys();
  }

  ghost predicate Distinct(keys: seq<string>) {
    forall i, j :: 0 <= i < j < |keys| ==> keys[i] != keys[j]
  }

  // ---------- One entry, one value ----------

  lemma {:induction false} ValuesConcat(a: seq<Line>, b: seq<Line>, key: string)
    ensures Values(a + b, key) == Values(a, key) + Values(b, key)
    decreases |b|
  {
    if b == [] {
      assert a + b == a;
    } else {
      var n := |b| - 1;
      ValuesConcat(a, b[..n], key);
      assert (a + b)[..|a + b| - 1] == a + b[..n];
    }
  }

  lemma {:induction false} NoValues(entries: seq<Entry>, key: string)
    requires forall i :: 0 <= i < |entries| ==> entries[i].line.key != key
    ensures Values(Lines(entries), key) == []
  {
    if entries != [] {
      NoValues(entries[1..], key);
      var first := if entries[0].configured then [entries[0].line] else [];
      ValuesConcat(first, Lines(entries[1..]), key);
      assert first != [] ==> first[..0] == [];
    }
  }

  /** A key that only one entry has stands for the value of that entry, once, if it is configured. */
  lemma {:induction false} OneValue(entries: seq<Entry>, i: nat)
    requires i < |entries| && forall j :: 0 <= j < |entries| && j != i ==> entries[j].line.key != entries[i].line.key
    ensures Values(Lines(entries), entries[i].line.key) == Only(entries[i].configured, entries[i].line.value)
  {
    var e, before, after := entries[i], entries[..i], entries[i + 1..];
    NoValues(before, e.line.key);
    NoValues(after, e.line.key);
    LinesConcat(before, [e]);
    LinesConcat(before + [e], after);
    ValuesConcat(Lines(before), Lines([e]), e.line.key);
    ValuesConcat(Lines(before + [e]), Lines(after), e.line.key);
    assert entries == before + [e] + after;
    OneEntry(e);
  }

  lemma OneEntry(e: Entry)
    ensures Values(Lines([e]), e.line.key) == Only(e.configured, e.line.value)
  {
    assert [e][1..] == [] && [e.line][..0] == [];
  }

  // ---------- The interface section ----------

  function Interface(s: Settings, decode: KeyDecoder): seq<Entry>
    requires Buildable(s, decode)
  {
    [Entry(true, Line("private_key", decode(s.secretKey).value))] + SettingEntries(s, decode)
  }

  /** The keys of the entries are those of the list from `from` on. */
  ghost predicate HasKeys(keys: seq<string>, entries: seq<Entry>, from: nat) {
    from + |entries| <= |keys| && forall i :: 0 <= i < |entries| ==> entries[i].line.key == keys[from + i]
  }

  lemma GroupSizes(s: Settings, decode: KeyDecoder)
    ensures |Sizes(s)| == 7 && |Headers(s)| == 4 && |Specs(s)| == 5
    ensures |Protection(s, decode)| == 1 && |Ranges(s)| == 6 && |Flags(s)| == 2
  {
  }

  lemma GroupKeys(s: Settings, decode: KeyDecoder)
    ensures HasKeys(KEYS, Sizes(s), 1) && HasKeys(KEYS, Headers(s), 8) && HasKeys(KEYS, Specs(s), 12)
    ensures HasKeys(KEYS, Protection(s, decode), 17) && HasKeys(KEYS, Ranges(s), 18) && HasKeys(KEYS, Flags(s), 24)
  {
    hide FormatInt, StringVal, TrimSpace, ParseFlag, HeaderSet, RangeSet, SpecSet;
  }

  lemma KeysConcat(keys: seq<string>, a: seq<Entry>, b: seq<Entry>, from: nat)
    requires HasKeys(keys, a, from) && HasKeys(keys, b, from + |a|)
    ensures HasKeys(keys, a + b, from)
  {
    var c := a + b;
    forall i | 0 <= i < |c| ensures c[i].line.key == keys[from + i] {
      if i >= |a| {
        assert c[i] == b[i - |a|];
        assert keys[from + |a| + (i - |a|)] == keys[from + i];
      }
    }
  }

  lemma InterfaceKeys(s: Settings, decode: KeyDecoder)
    requires Buildable(s, decode)
    ensures HasKeys(KEYS, Interface(s, decode), 0) && |Interface(s, decode)| == |KEYS|
  {
    hide Sizes, Headers, Specs, Protection, Ranges, Flags;
    GroupKeys(s, decode);
    GroupSizes(s, decode);
    var key := [Entry(true, Line("private_key", decode(s.secretKey).value))];
    assert HasKeys(KEYS, key, 0) && |KEYS| == 26;
    hide HasKeys, KEYS;
    KeysConcat(KEYS, Sizes(s), Headers(s), 1);
    KeysConcat(KEYS, Sizes(s) + Headers(s), Specs(s), 1);
    KeysConcat(KEYS, Sizes(s) + Headers(s) + Specs(s), Protection(s, decode), 1);
    KeysConcat(KEYS, Sizes(s) + Headers(s) + Specs(s) + Protection(s, decode), Ranges(s), 1);
    KeysConcat(KEYS, Sizes(s) + Headers(s) + Specs(s) + Protection(s, decode) + Ranges(s), Flags(s), 1);
    KeysConcat(KEYS, key, SettingEntries(s, decode), 0);
  }

  // ---------- What stands under each key ----------

  /** Each entry's key stands for the value of that entry alone. */
  ghost predicate EachStands(lines: seq<Line>, entries: seq<Entry>) {
    forall k :: 0 <= k < |entries| ==>
      Values(lines, entries[k].line.key) == Only(entries[k].configured, entries[k].line.value)
  }

  lemma EntriesStand(keys: seq<string>, entries: seq<Entry>)
    requires Distinct(keys) && HasKeys(keys, entries, 0)
    ensures EachStands(Lines(entries), entries)
  {
    hide Lines, Values;
    forall k | 0 <= k < |entries|
      ensures Values(Lines(entries), entries[k].line.key) == Only(entries[k].configured, entries[k].line.value)
    {
      OneValue(entries, k);
    }
  }

  lemma NothingElseStands(keys: seq<string>, entries: seq<Entry>)
    requires HasKeys(keys, entries, 0)
    ensures forall key :: key !in keys ==> Values(Lines(entries), key) == []
  {
    forall key | key !in keys ensures Values(Lines(entries), key) == [] {
      assert forall i :: 0 <= i < |entries| ==> entries[i].line.key == keys[0 + i];
      NoValues(entries, key);
    }
  }

  lemma HalvesStand(lines: seq<Line>, a: seq<Entry>, b: seq<Entry>)
    requires EachStands(lines, a + b)
    ensures EachStands(lines, a) && EachStands(lines, b)
  {
    assert forall k :: 0 <= k < |a| ==> a[k] == (a + b)[k];
    assert forall k :: 0 <= k < |b| ==> b[k] == (a + b)[|a| + k];
  }

  lemma InterfaceLines(s: Settings, decode: KeyDecoder)
    requires Buildable(s, decode)
    ensures Effective(s, decode).interface == Lines(Interface(s, decode))
  {
    hide SettingEntries;
    var key := Entry(true, Line("private_key", decode(s.secretKey).value));
    LinesConcat([key], SettingEntries(s, decode));
    assert Lines([key]) == [key.line];
  }

  /** The sizes, in decimal, each under its own key if it is positive. */
  ghost predicate SizesStand(f: seq<Line>, s: Settings) {
    && Values(f, "jc") == Only(s.jc > 0, FormatInt(s.jc))
    && Values(f, "jmin") == Only(s.jmin > 0, FormatInt(s.jmin))
    && Values(f, "jmax") == Only(s.jmax > 0, FormatInt(s.jmax))
    && Values(f, "s1") == Only(s.s1 > 0, FormatInt(s.s1))
    && Values(f, "s2") == Only(s.s2 > 0, FormatInt(s.s2))
    && Values(f, "s3") == Only(s.s3 > 0, FormatInt(s.s3))
    && Values(f, "s4") == Only(s.s4 > 0, FormatInt(s.s4))
  }

  lemma SizesAreRead(f: seq<Line>, s: Settings)
    requires EachStands(f, Sizes(s))
    ensures SizesStand(f, s)
  {
    hide FormatInt, Values;
    var g := Sizes(s);
    assert g[0] == Number("jc", s.jc);
    assert g[1] == Number("jmin", s.jmin);
    assert g[2] == Number("jmax", s.jmax);
    assert g[3] == Number("s1", s.s1);
    assert g[4] == Number("s2", s.s2);
    assert g[5] == Number("s3", s.s3);
    assert g[6] == Number("s4", s.s4);
  }

  /** The text of a header, unless it is empty or "0". */
  function HeaderText(v: Json): seq<string> { Only(StringVal(v) != "" && StringVal(v) != "0", StringVal(v)) }

  /** The headers, each under its own key. */
  ghost predicate HeadersStand(f: seq<Line>, s: Settings) {
    && Values(f, "h1") == HeaderText(s.h1)
    && Values(f, "h2") == HeaderText(s.h2)
    && Values(f, "h3") == HeaderText(s.h3)
    && Values(f, "h4") == HeaderText(s.h4)
  }

  lemma HeadersAreRead(f: seq<Line>, s: Settings)
    requires EachStands(f, Headers(s))
    ensures HeadersStand(f, s)
  {
    hide StringVal, Values;
    var g := Headers(s);
    assert g[0] == Header("h1", s.h1);
    assert g[1] == Header("h2", s.h2);
    assert g[2] == Header("h3", s.h3);
    assert g[3] == Header("h4", s.h4);
  }

  /** The trimmed chains, each under its own key unless it is empty. */
  ghost predicate ChainsStand(f: seq<Line>, s: Settings) {
    && Values(f, "i1") == Only(TrimSpace(s.i1) != "", TrimSpace(s.i1))
    && Values(f, "i2") == Only(TrimSpace(s.i2) != "", TrimSpace(s.i2))
    && Values(f, "i3") == Only(TrimSpace(s.i3) != "", TrimSpace(s.i3))
    && Values(f, "i4") == Only(TrimSpace(s.i4) != "", TrimSpace(s.i4))
    && Values(f, "i5") == Only(TrimSpace(s.i5) != "", TrimSpace(s.i5))
  }

  lemma ChainsAreRead(f: seq<Line>, s: Settings)
    requires EachStands(f, Specs(s))
    ensures ChainsStand(f, s)
  {
    hide TrimSpace, Values;
    var g := Specs(s);
    assert g[0] == Spec("i1", s.i1);
    assert g[1] == Spec("i2", s.i2);
    assert g[2] == Spec("i3", s.i3);
    assert g[3] == Spec("i4", s.i4);
    assert g[4] == Spec("i5", s.i5);
  }

  /** The text of a range, unless it is empty, "0", or "off" in any letter case. */
  function RangeText(v: Json): seq<string> {
    Only(StringVal(v) != "" && StringVal(v) != "0" && ToLower(StringVal(v)) != "off", StringVal(v))
  }

  /** The ranges, each under its own key. */
  ghost predicate RangesStand(f: seq<Line>, s: Settings) {
    && Values(f, "content_padding_addition") == RangeText(s.contentPaddingAddition)
    && Values(f, "rekey_after_time") == RangeText(s.rekeyAfterTime)
    && Values(f, "rekey_timeout") == RangeText(s.rekeyTimeout)
    && Values(f, "reject_after_time") == RangeText(s.rejectAfterTime)
    && Values(f, "keepalive_timeout") == RangeText(s.keepaliveTimeout)
    && Values(f, "max_handshake_attempts") == RangeText(s.maxHandshakeAttempts)
  }

  lemma RangesAreRead(f: seq<Line>, s: Settings)
    requires EachStands(f, Ranges(s))
    ensures RangesStand(f, s)
  {
    hide StringVal, ToLower, Values;
    var g := Ranges(s);
    assert g[0] == Range("content_padding_addition", s.contentPaddingAddition);
    assert g[1] == Range("rekey_after_time", s.rekeyAfterTime);
    assert g[2] == Range("rekey_timeout", s.rekeyTimeout);
    assert g[3] == Range("reject_after_time", s.rejectAfterTime);
    assert g[4] == Range("keepalive_timeout", s.keepaliveTimeout);
    assert g[5] == Range("max_handshake_attempts", s.maxHandshakeAttempts);
  }

  predicate SaysTrue(v: Json) {
    v == Bool(true) || (!v.Null? && !v.Bool? && ToLower(StringVal(v)) in ["on", "true", "1"])
  }

  predicate SaysFalse(v: Json) {
    v == Bool(false) || (!v.Null? && !v.Bool? && ToLower(StringVal(v)) in ["off", "false", "0"])
  }

  function FlagText(v: Json): seq<string> {
    if SaysTrue(v) then ["true"] else if SaysFalse(v) then ["false"] else []
  }

  lemma FlagIsItsText(key: string, v: Json)
    ensures FlagEntry(key, v).line.key == key
    ensures Only(FlagEntry(key, v).configured, FlagEntry(key, v).line.value) == FlagText(v)
  {
    hide StringVal, ToLower;
  }

  /** A flag cannot be read exactly when it says neither and is not empty. */
  lemma FlagIsBadExactlyWhen(v: Json)
    ensures ParseFlag(v).BadFlag? <==>
      !SaysTrue(v) && !SaysFalse(v) && !v.Null? && !v.Bool? && ToLower(StringVal(v)) != ""
  {
    hide StringVal, ToLower;
  }

  /** The flags: "true" for true, on and 1, "false" for false, off and 0. */
  ghost predicate FlagsStand(f: seq<Line>, s: Settings) {
    Values(f, "random_trailers") == FlagText(s.randomTrailers)
    && Values(f, "disable_cookies") == FlagText(s.disableCookies)
  }

  lemma FlagsAreRead(f: seq<Line>, s: Settings)
    requires EachStands(f, Flags(s))
    ensures FlagsStand(f, s)
  {
    hide FlagEntry, FlagText, Values;
    var g := Flags(s);
    assert g[0] == FlagEntry("random_trailers", s.randomTrailers);
    assert g[1] == FlagEntry("disable_cookies", s.disableCookies);
    FlagIsItsText("random_trailers", s.randomTrailers);
    FlagIsItsText("disable_cookies", s.disableCookies);
  }

  /** The private key, and the header protection key if one is set. */
  ghost predicate KeysStand(f: seq<Line>, s: Settings, decode: KeyDecoder) {
    && decode(s.secretKey).Some? && Values(f, "private_key") == [decode(s.secretKey).value]
    && Values(f, "header_protection_key") == (
         if TrimSpace(s.headerProtectionKey) != "" && decode(TrimSpace(s.headerProtectionKey)).Some?
         then [decode(TrimSpace(s.headerProtectionKey)).value] else [])
  }

  lemma KeysAreRead(f: seq<Line>, s: Settings, decode: KeyDecoder)
    requires decode(s.secretKey).Some?
    requires EachStands(f, [Entry(true, Line("private_key", decode(s.secretKey).value))])
    requires EachStands(f, Protection(s, decode))
    ensures KeysStand(f, s, decode)
  {
    hide TrimSpace, Values;
    var g, key := Protection(s, decode), [Entry(true, Line("private_key", decode(s.secretKey).value))];
    assert g[0].line.key == "header_protection_key" && key[0].line.key == "private_key";
  }

  /** Every setting stands under its own key, once, and no other key stands in the interface section. */
  lemma InterfaceWrittenOut(s: Settings, decode: KeyDecoder)
    requires Buildable(s, decode)
    ensures var f := Effective(s, decode).interface;
      && SizesStand(f, s) && HeadersStand(f, s) && ChainsStand(f, s)
      && KeysStand(f, s, decode) && RangesStand(f, s) && FlagsStand(f, s)
      && forall key :: key !in KEYS ==> Values(f, key) == []
  {
    InterfaceLines(s, decode);
    InterfaceKeys(s, decode);
    KeysDiffer();
    hide Effective, EachStands, SizesStand, HeadersStand, ChainsStand, KeysStand, RangesStand, FlagsStand, KEYS, Values;
    hide Lines, HasKeys, Sizes, Headers, Specs, Protection, Ranges, Flags;
    EntriesStand(KEYS, Interface(s, decode));
    NothingElseStands(KEYS, Interface(s, decode));
    var f, key := Effective(s, decode).interface, [Entry(true, Line("private_key", decode(s.secretKey).value))];
    HalvesStand(f, key, SettingEntries(s, decode));
    HalvesStand(f, Sizes(s) + Headers(s) + Specs(s) + Protection(s, decode) + Ranges(s), Flags(s));
    HalvesStand(f, Sizes(s) + Headers(s) + Specs(s) + Protection(s, decode), Ranges(s));
    HalvesStand(f, Sizes(s) + Headers(s) + Specs(s), Protection(s, decode));
    HalvesStand(f, Sizes(s) + Headers(s), Specs(s));
    HalvesStand(f, Sizes(s), Headers(s));
    SizesAreRead(f, s);
    HeadersAreRead(f, s);
    ChainsAreRead(f, s);
    KeysAreRead(f, s, decode);
    RangesAreRead(f, s);
    FlagsAreRead(f, s);
  }

  // ---------- The peers ----------

  lemma PeerKeysWrittenOut()
    ensures PUBLIC_KEY == "public_key" && PRESHARED_KEY == "preshared_key" && ENDPOINT == "endpoint"
    ensures ALLOWED_IP == "allowed_ip" && KEEPALIVE == "persistent_keepalive_interval"
  {
  }

  /**
   A peer as it is read: its decoded key; its preshared key if it is set, can be decoded and is not
   empty; its endpoint if it has one; all addresses allowed if none is listed; and its keepalive.
   */
  ghost predicate PeerStands(v: PeerView, p: Peer, decode: KeyDecoder) {
    && decode(p.publicKey) == Some(v.publicKey)
    && v.presharedKey == (
         if p.preSharedKey == "" || decode(p.preSharedKey).None? || decode(p.preSharedKey).value == "" then None
         else decode(p.preSharedKey))
    && v.endpoint == (if p.endpoint == "" then None else Some(p.endpoint))
    && v.allowedIPs == (if p.allowedIPs == [] then ["0.0.0.0/0", "::/0"] else p.allowedIPs)
    && RangeText(p.keepAlive) == (if v.keepAlive.Some? then [v.keepAlive.value] else [])
  }

  lemma PeerIsRead(p: Peer, publicKey: string, decode: KeyDecoder)
    requires decode(p.publicKey) == Some(publicKey)
    ensures PeerStands(EffectivePeer(p, publicKey, decode), p, decode)
  {
    hide StringVal, ToLower;
  }

  lemma {:induction false} PeersWrittenOut(peers: seq<Option<Peer>>, decode: KeyDecoder)
    requires PeersReadable(peers, decode)
    ensures |EffectivePeers(peers, decode)| == |peers|
    ensures forall i :: 0 <= i < |peers| ==> PeerStands(EffectivePeers(peers, decode)[i], peers[i].value, decode)
    decreases |peers|
  {
    hide EffectivePeer, PeerStands;
    if peers != [] {
      PeerIsRead(peers[0].value, decode(peers[0].value.publicKey).value, decode);
      PeersWrittenOut(peers[1..], decode);
      assert forall i :: 0 < i < |peers| ==> peers[i] == peers[1..][i - 1];
    }
  }

  // ---------- What a reader finds ----------

  /**
   A reader of the text of settings without line breaks finds every setting under its own key, in the
   form it is meant to have, nothing else in the interface section, and every peer in order.
   */
  lemma ReaderFinds(s: Settings, decode: KeyDecoder)
    requires Buildable(s, decode) && SettingsOnOneLine(s, decode)
    ensures ReadConfig(Build(s, decode).value).Some?
    ensures var c := ReadConfig(Build(s, decode).value).value;
      && SizesStand(c.interface, s) && HeadersStand(c.interface, s) && ChainsStand(c.interface, s)
      && KeysStand(c.interface, s, decode) && RangesStand(c.interface, s) && FlagsStand(c.interface, s)
      && (forall key :: key !in KEYS ==> Values(c.interface, key) == [])
      && |c.peers| == |s.peers|
      && (forall i :: 0 <= i < |s.peers| ==> PeerStands(c.peers[i], s.peers[i].value, decode))
  {
    ReadsBackExactlyWhenOnOneLine(s, decode);
    InterfaceWrittenOut(s, decode);
    PeersWrittenOut(s.peers, decode);
    hide ReadConfig, Build, SettingsOnOneLine, SettingsError, Values, KEYS, PeerStands, Lines, SettingEntries;
    hide SizesStand, HeadersStand, ChainsStand, KeysStand, RangesStand, FlagsStand;
  }

  // ---------- Which settings can be built ----------

  /** A flag that says true, false or nothing. */
  ghost predicate Readable(v: Json) {
    v.Null? || SaysTrue(v) || SaysFalse(v) || ToLower(StringVal(v)) == ""
  }

  ghost predicate GoodPeer(p: Option<Peer>, decode: KeyDecoder) { p.Some? && decode(p.value.publicKey).Some? }

  /** All that must be right for a text to be built. */
  ghost predicate AllGood(s: Settings, decode: KeyDecoder) {
    && decode(s.secretKey).Some?
    && (TrimSpace(s.headerProtectionKey) != "" ==> decode(TrimSpace(s.headerProtectionKey)).Some?)
    && Readable(s.randomTrailers) && Readable(s.disableCookies)
    && forall i :: 0 <= i < |s.peers| ==> GoodPeer(s.peers[i], decode)
  }

  lemma FlagIsReadable(v: Json)
    ensures !ParseFlag(v).BadFlag? <==> Readable(v)
  {
    hide StringVal, ToLower;
  }

  /** A text is built exactly when all is right; otherwise the first thing that is wrong is named. */
  lemma BuildAnswers(s: Settings, decode: KeyDecoder)
    ensures var r, key := Build(s, decode), TrimSpace(s.headerProtectionKey);
      && (r.Success? <==> AllGood(s, decode))
      && (decode(s.secretKey).None? ==> r == Failure(InvalidSecretKey))
      && (decode(s.secretKey).Some? && key != "" && decode(key).None? ==> r == Failure(InvalidHeaderProtectionKey))
      && (decode(s.secretKey).Some? && (key != "" ==> decode(key).Some?) ==>
            !(Readable(s.randomTrailers) && Readable(s.disableCookies)) ==> r == Failure(InvalidFlag))
  {
    hide TrimSpace, ParseFlag, Readable, AllPeerEntries, SettingEntries, Lines;
    FlagIsReadable(s.randomTrailers);
    FlagIsReadable(s.disableCookies);
  }

  /** Of several bad peers the first decides: it is missing, or its public key cannot be decoded. */
  lemma {:induction false} FirstBadPeerIsNamed(peers: seq<Option<Peer>>, decode: KeyDecoder, i: nat)
    requires i < |peers| && !GoodPeer(peers[i], decode)
    requires forall j :: 0 <= j < i ==> GoodPeer(peers[j], decode)
    ensures AllPeerEntries(peers, decode) == Failure(if peers[i].None? then MissingPeer else InvalidPublicKey)
    decreases i
  {
    hide PeerEntries;
    if i > 0 {
      var rest := peers[1..];
      assert GoodPeer(peers[0], decode) && rest[i - 1] == peers[i];
      assert forall j :: 0 <= j < i - 1 ==> rest[j] == peers[j + 1];
      FirstBadPeerIsNamed(rest, decode, i - 1);
    }
  }

  lemma PeerErrorIsBuildError(s: Settings, decode: KeyDecoder)
    requires SettingsError(s, decode).None? && AllPeerEntries(s.peers, decode).Failure?
    ensures Build(s, decode) == Failure(AllPeerEntries(s.peers, decode).error)
  {
    hide AllPeerEntries, SettingEntries;
  }

  // ---------- Values as texts ----------

  /** The whole number that `r` is cut to: the fraction is dropped towards zero. */
  ghost predicate IsCut(r: real, n: int) {
    if r >= 0.0 then n as real <= r < (n + 1) as real else (n - 1) as real < r <= n as real
  }

  /** The text of a loosely typed value. */
  lemma StringValMeans(v: Json)
    ensures v.Null? ==> StringVal(v) == ""
    ensures v.Str? ==> TextMeaning.IsTrimmed(v.text, StringVal(v))
    ensures v.Num? ==> exists n :: IsCut(v.value, n) && StringVal(v) == FormatInt(n)
    ensures v.Bool? ==> StringVal(v) == if v.b then "true" else "false"
    ensures v.Other? ==> StringVal(v) == v.text
  {
    if v.Str? {
      TextMeaning.TrimSpaceExactlyWhen(v.text, StringVal(v));
    }
    if v.Num? {
      assert IsCut(v.value, Truncate(v.value));
    }
  }
}
