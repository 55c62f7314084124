/**
 What a native AmneziaWG runner accepts. Settings are validated before the configuration text is
 built from them, so the validators decide which texts can come out.
 */
module RunnerSettings {
  import opened Wrappers
  import opened Text
  import opened IpcConfig
  import opened RangeValidators
  import TagScanner
  import ObfuscationChain

  const MAX_JUNK_COUNT := 128
  const MAX_SIZE := 1280
  const MIN_PADDING := 12

  // ---------- What is accepted ----------

  ghost predicate SizesInRange(s: Settings) {
    && 0 <= s.jmin <= 1280 && 0 <= s.jmax <= 1280
    && 0 <= s.s1 <= 1280 && 0 <= s.s2 <= 1280 && 0 <= s.s3 <= 1280 && 0 <= s.s4 <= 1280
  }

  ghost predicate SizesFit(s: Settings) {
    0 <= s.jc <= 128 && SizesInRange(s) && (s.jmin > 0 && s.jmax > 0 ==> s.jmin <= s.jmax)
  }

  ghost predicate ValidHeader(v: Json) { StringVal(v) == "" || IsRange(StringVal(v), 0xFFFF_FFFF) }

  ghost predicate ValidChain(spec: string) { ObfuscationChain.InLanguage(TrimSpace(spec)) }

  ghost predicate ValidRange(v: Json) { RangeSet(v) ==> IsRange(StringVal(v), 0xFFFF) }

  ghost predicate ValidHeaders(s: Settings) {
    ValidHeader(s.h1) && ValidHeader(s.h2) && ValidHeader(s.h3) && ValidHeader(s.h4)
  }

  ghost predicate ValidChains(s: Settings) {
    ValidChain(s.i1) && ValidChain(s.i2) && ValidChain(s.i3) && ValidChain(s.i4) && ValidChain(s.i5)
  }

  ghost predicate ValidRanges(s: Settings) {
    && ValidRange(s.contentPaddingAddition) && ValidRange(s.rekeyAfterTime) && ValidRange(s.rekeyTimeout)
    && ValidRange(s.rejectAfterTime) && ValidRange(s.keepaliveTimeout) && ValidRange(s.maxHandshakeAttempts)
  }

  /** Header protection needs a readable key and room for its nonce in every padding. */
  ghost predicate ValidProtection(s: Settings, decode: KeyDecoder) {
    SpecSet(s.headerProtectionKey) ==>
      && decode(TrimSpace(s.headerProtectionKey)).Some?
      && s.s1 >= 12 && s.s2 >= 12 && s.s3 >= 12 && s.s4 >= 12
  }

  ghost predicate ValidFlags(s: Settings) {
    !ParseFlag(s.randomTrailers).BadFlag? && !ParseFlag(s.disableCookies).BadFlag?
  }

  ghost predicate ValidPeers(peers: seq<Option<Peer>>) {
    peers != [] && forall i :: 0 <= i < |peers| ==> peers[i].Some? && ValidRange(peers[i].value.keepAlive)
  }

  ghost predicate Compatible(s: Settings, decode: KeyDecoder) {
    && SizesFit(s) && ValidHeaders(s) && ValidChains(s) && ValidProtection(s, decode)
    && ValidRanges(s) && ValidFlags(s) && ValidPeers(s.peers)
  }

  // ---------- The validation ----------

  datatype Refusal =
    | JunkCount
    | BadSize
    | JunkOrder
    | BadHeader(reason: RangeError)
    | BadChain(why: TagScanner.ChainError)
    | BadProtectionKey
    | NoRoomForNonce
    | BadRange(reason: RangeError)
    | UnreadableFlag
    | NoPeer
    | PeerMissing

  method CheckSizes(sizes: seq<int>) returns (ok: bool)
    ensures ok <==> forall i :: 0 <= i < |sizes| ==> 0 <= sizes[i] <= MAX_SIZE
  {
    for i := 0 to |sizes|
      invariant forall k :: 0 <= k < i ==> 0 <= sizes[k] <= MAX_SIZE
    {
      if sizes[i] < 0 || sizes[i] > MAX_SIZE {
        return false;
      }
    }
    return true;
  }

  method CheckHeaders(values: seq<Json>) returns (error: Option<RangeError>)
    ensures error.None? <==> forall i :: 0 <= i < |values| ==> ValidHeader(values[i])
  {
    hide StringVal, IsRange;
    for i := 0 to |values|
      invariant forall k :: 0 <= k < i ==> ValidHeader(values[k])
    {
      error := ValidateHeaderRange(StringVal(values[i]));
      if error.Some? {
        assert !ValidHeader(values[i]);
        return;
      }
    }
    return None;
  }

  lemma ChainIsValidExactlyWhenAccepted(spec: string)
    ensures ObfuscationChain.Validate(spec).None? <==> ValidChain(spec)
  {
    hide ObfuscationChain.Validate, ObfuscationChain.InLanguage, TrimSpace;
    ObfuscationChain.ValidateExactlyTheLanguage(spec);
  }

  method CheckChains(specs: seq<string>) returns (error: Option<TagScanner.ChainError>)
    ensures error.None? <==> forall i :: 0 <= i < |specs| ==> ValidChain(specs[i])
  {
    hide ObfuscationChain.Validate, ObfuscationChain.SumsOf, ValidChain;
    for i := 0 to |specs|
      invariant forall k :: 0 <= k < i ==> ValidChain(specs[k])
    {
      ghost var sums;
      error, sums := ObfuscationChain.ValidateChain(specs[i]);
      ChainIsValidExactlyWhenAccepted(specs[i]);
      if error.Some? {
        return;
      }
    }
    return None;
  }

  method CheckRanges(values: seq<Json>) returns (error: Option<RangeError>)
    ensures error.None? <==> forall i :: 0 <= i < |values| ==> ValidRange(values[i])
  {
    hide StringVal, IsRange, RangeSet;
    for i := 0 to |values|
      invariant forall k :: 0 <= k < i ==> ValidRange(values[k])
    {
      if RangeSet(values[i]) {
        error := ValidateU16Range(StringVal(values[i]));
        if error.Some? {
          assert !ValidRange(values[i]);
          return;
        }
      }
    }
    return None;
  }

  ghost predicate GoodPeer(p: Option<Peer>) { p.Some? && ValidRange(p.value.keepAlive) }

  /** Why peers are refused: there is none, or the first bad one is missing or has a bad keepalive. */
  ghost predicate PeersRefusedAs(peers: seq<Option<Peer>>, why: Refusal) {
    if peers == [] then why == NoPeer
    else
      exists i :: 0 <= i < |peers| && !GoodPeer(peers[i]) && (forall j :: 0 <= j < i ==> GoodPeer(peers[j]))
        && if peers[i].None? then why == PeerMissing else why.BadRange?
  }

  method CheckPeers(peers: seq<Option<Peer>>) returns (error: Option<Refusal>)
    ensures error.None? <==> ValidPeers(peers)
    ensures error.Some? ==> PeersRefusedAs(peers, error.value)
  {
    hide StringVal, IsRange, RangeSet;
    if |peers| == 0 {
      return Some(NoPeer);
    }
    for i := 0 to |peers|
      invariant forall k :: 0 <= k < i ==> GoodPeer(peers[k])
    {
      if peers[i].None? {
        return Some(PeerMissing);
      }
      var keepAlive := peers[i].value.keepAlive;
      if RangeSet(keepAlive) {
        var refused := ValidateU16Range(StringVal(keepAlive));
        if refused.Some? {
          assert !ValidRange(keepAlive);
          return Some(BadRange(refused.value));
        }
      }
    }
    return None;
  }

  method CheckProtection(s: Settings, decode: KeyDecoder) returns (error: Option<Refusal>)
    ensures error.None? <==> ValidProtection(s, decode)
    ensures error.Some? ==>
      error.value == if decode(TrimSpace(s.headerProtectionKey)).None? then BadProtectionKey else NoRoomForNonce
  {
    hide TrimSpace;
    var key := TrimSpace(s.headerProtectionKey);
    if key != "" {
      if decode(key).None? {
        return Some(BadProtectionKey);
      }
      if s.s1 < MIN_PADDING || s.s2 < MIN_PADDING || s.s3 < MIN_PADDING || s.s4 < MIN_PADDING {
        return Some(NoRoomForNonce);
      }
    }
    return None;
  }

  /** What `why` must be when settings are refused: the first check that fails decides. */
  ghost predicate RefusedAs(s: Settings, decode: KeyDecoder, why: Refusal) {
    if s.jc < 0 || s.jc > 128 then why == JunkCount
    else if !SizesInRange(s) then why == BadSize
    else if !SizesFit(s) then why == JunkOrder
    else if !ValidHeaders(s) then why.BadHeader?
    else if !ValidChains(s) then why.BadChain?
    else if !ValidProtection(s, decode) then
      why == if decode(TrimSpace(s.headerProtectionKey)).None? then BadProtectionKey else NoRoomForNonce
    else if !ValidRanges(s) then why.BadRange?
    else if !ValidFlags(s) then why == UnreadableFlag
    else PeersRefusedAs(s.peers, why)
  }

  /** The settings are accepted exactly when all of them are valid; otherwise the first fault is named. */
  method ValidateNativeRunnerCompatibility(s: Settings, decode: KeyDecoder) returns (error: Option<Refusal>)
    ensures error.None? <==> Compatible(s, decode)
    ensures error.Some? ==> RefusedAs(s, decode, error.value)
  {
    hide ValidHeader, ValidChain, ValidRange, ValidProtection, ValidPeers, PeersRefusedAs, ParseFlag, TrimSpace;
    if s.jc < 0 || s.jc > MAX_JUNK_COUNT {
      return Some(JunkCount);
    }
    var sizes := [s.jmin, s.jmax, s.s1, s.s2, s.s3, s.s4];
    assert sizes[0] == s.jmin && sizes[1] == s.jmax && sizes[2] == s.s1;
    assert sizes[3] == s.s2 && sizes[4] == s.s3 && sizes[5] == s.s4;
    var fit := CheckSizes(sizes);
    if !fit {
      return Some(BadSize);
    }
    if s.jmin > 0 && s.jmax > 0 && s.jmin > s.jmax {
      return Some(JunkOrder);
    }
    var headers := [s.h1, s.h2, s.h3, s.h4];
    var refused := CheckHeaders(headers);
    assert headers[0] == s.h1 && headers[1] == s.h2 && headers[2] == s.h3 && headers[3] == s.h4;
    if refused.Some? {
      return Some(BadHeader(refused.value));
    }
    var specs := [s.i1, s.i2, s.i3, s.i4, s.i5];
    var broken := CheckChains(specs);
    assert specs[0] == s.i1 && specs[1] == s.i2 && specs[2] == s.i3 && specs[3] == s.i4 && specs[4] == s.i5;
    if broken.Some? {
      return Some(BadChain(broken.value));
    }
    error := CheckProtection(s, decode);
    if error.Some? {
      return;
    }
    var ranges := [s.contentPaddingAddition, s.rekeyAfterTime, s.rekeyTimeout,
                   s.rejectAfterTime, s.keepaliveTimeout, s.maxHandshakeAttempts];
    refused := CheckRanges(ranges);
    assert ranges[0] == s.contentPaddingAddition && ranges[1] == s.rekeyAfterTime && ranges[2] == s.rekeyTimeout;
    assert ranges[3] == s.rejectAfterTime && ranges[4] == s.keepaliveTimeout && ranges[5] == s.maxHandshakeAttempts;
    if refused.Some? {
      return Some(BadRange(refused.value));
    }
    if ParseFlag(s.randomTrailers).BadFlag? || ParseFlag(s.disableCookies).BadFlag? {
      return Some(UnreadableFlag);
    }
    error := CheckPeers(s.peers);
  }

  // ---------- What can be built from accepted settings ----------

  /** Every key the decoder accepts comes out as 64 lower-case hexadecimal digits. */
  ghost predicate DecodesToHex(decode: KeyDecoder) {
    forall key :: decode(key).Some? ==> IsHexKey(decode(key).value)
  }

  predicate IsHexKey(text: string) {
    |text| == 64 && forall i :: 0 <= i < |text| ==> '0' <= text[i] <= '9' || 'a' <= text[i] <= 'f'
  }

  /** The public keys and the private key are all that can still fail after validation. */
  lemma AcceptedSettingsBuildExactlyWhenKeysDecode(s: Settings, decode: KeyDecoder)
    requires Compatible(s, decode)
    ensures Build(s, decode).Success? <==>
      decode(s.secretKey).Some? && forall p :: Some(p) in s.peers ==> decode(p.publicKey).Some?
  {
    hide SizesFit, ValidHeader, ValidChain, ValidRange, SpecSet, ParseFlag;
    var peers := s.peers;
    assert forall i :: 0 <= i < |peers| ==> peers[i].Some? && Some(peers[i].value) in peers;
  }

  lemma HexKeysAreOnOneLine(text: string)
    requires IsHexKey(text)
    ensures OneLine(text)
  {
    assert forall i :: 0 <= i < |text| ==> text[i] != '\n';
  }

  lemma NumbersAreOnOneLine(text: string, limit: nat, n: nat)
    requires IsNumber(text, limit, n)
    ensures OneLine(text)
  {
    assert forall i :: 0 <= i < |text| ==> IsDigit(text[i]) && text[i] != '\n';
  }

  lemma RangesAreOnOneLine(text: string, limit: nat)
    requires IsRange(text, limit)
    ensures OneLine(text)
  {
    hide IsNumber;
    if n: nat :| IsNumber(text, limit, n) {
      NumbersAreOnOneLine(text, limit, n);
    } else {
      var low, high :| text == low + "-" + high && IsAscending(low, high, limit);
      var n: nat, m: nat :| IsNumber(low, limit, n) && IsNumber(high, limit, m) && n <= m;
      NumbersAreOnOneLine(low, limit, n);
      NumbersAreOnOneLine(high, limit, m);
    }
  }

  lemma ValidHeaderIsOnOneLine(v: Json)
    requires ValidHeader(v)
    ensures OneLine(StringVal(v))
  {
    hide StringVal, IsRange;
    if StringVal(v) != "" {
      RangesAreOnOneLine(StringVal(v), MAX_U32);
    }
  }

  lemma ValidRangeIsOnOneLine(v: Json)
    requires ValidRange(v)
    ensures OneLine(StringVal(v))
  {
    hide StringVal, IsRange, RangeSet;
    if RangeSet(v) {
      RangesAreOnOneLine(StringVal(v), MAX_U16);
    } else {
      RangeOnOneLine("", v);
    }
  }

  ghost predicate AddressesAreOnOneLine(peers: seq<Option<Peer>>) {
    forall i :: 0 <= i < |peers| && peers[i].Some? ==> AddressesOnOneLine(peers[i].value)
  }

  lemma KeyIsOnOneLine(key: Option<string>)
    requires key.Some? ==> IsHexKey(key.value)
    ensures KeyOnOneLine(key)
  {
    hide IsHexKey, OneLine;
    if key.Some? {
      HexKeysAreOnOneLine(key.value);
    }
  }

  lemma ValidPeerIsOnOneLineExactlyWhen(p: Peer, decode: KeyDecoder)
    requires DecodesToHex(decode) && ValidRange(p.keepAlive)
    ensures PeerOnOneLine(p, decode) <==> AddressesOnOneLine(p)
  {
    hide AddressesOnOneLine, KeyOnOneLine, OneLine, IsHexKey, StringVal, ValidRange;
    KeyIsOnOneLine(decode(p.publicKey));
    assert Preshared(p, decode).Some? ==> Preshared(p, decode) == decode(p.preSharedKey);
    KeyIsOnOneLine(Preshared(p, decode));
    ValidRangeIsOnOneLine(p.keepAlive);
  }

  lemma ValidPeersAreOnOneLineExactlyWhen(peers: seq<Option<Peer>>, decode: KeyDecoder)
    requires DecodesToHex(decode) && ValidPeers(peers)
    ensures PeersOnOneLine(peers, decode) <==> AddressesAreOnOneLine(peers)
  {
    hide PeerOnOneLine, AddressesOnOneLine, ValidRange, DecodesToHex;
    forall i | 0 <= i < |peers|
      ensures PeerOnOneLine(peers[i].value, decode) <==> AddressesOnOneLine(peers[i].value)
    {
      ValidPeerIsOnOneLineExactlyWhen(peers[i].value, decode);
    }
  }

  /**
   The text built from accepted settings reads back exactly when no chain, endpoint or allowed IP
   holds a line break; all other values are kept on one line by the validators.
   */
  lemma {:induction false} AcceptedSettingsReadBackExactlyWhen(s: Settings, decode: KeyDecoder)
    requires DecodesToHex(decode) && Compatible(s, decode) && Buildable(s, decode)
    ensures ReadConfig(Build(s, decode).value) == Some(Effective(s, decode)) <==>
      ChainsOnOneLine(s) && AddressesAreOnOneLine(s.peers)
  {
    hide ReadConfig, Effective, Build, Buildable;
    hide ChainsOnOneLine, AddressesAreOnOneLine, PeersOnOneLine, ValidPeers, OneLine, StringVal, KeyOnOneLine;
    hide ValidHeader, ValidRange, ValidChain, ValidFlags, SizesFit, IsHexKey, SpecSet, TrimSpace;
    KeyIsOnOneLine(decode(s.secretKey));
    KeyIsOnOneLine(decode(TrimSpace(s.headerProtectionKey)));
    ValidPeersAreOnOneLineExactlyWhen(s.peers, decode);
    ValidHeaderIsOnOneLine(s.h1);
    ValidHeaderIsOnOneLine(s.h2);
    ValidHeaderIsOnOneLine(s.h3);
    ValidHeaderIsOnOneLine(s.h4);
    ValidRangeIsOnOneLine(s.contentPaddingAddition);
    ValidRangeIsOnOneLine(s.rekeyAfterTime);
    ValidRangeIsOnOneLine(s.rekeyTimeout);
    ValidRangeIsOnOneLine(s.rejectAfterTime);
    ValidRangeIsOnOneLine(s.keepaliveTimeout);
    ValidRangeIsOnOneLine(s.maxHandshakeAttempts);
    ReadsBackExactlyWhenOnOneLine(s, decode);
  }

  // ---------- Accepted settings whose text does not read back ----------

  const SOME_PEER := Peer("k", "", "", Null, [])

  function OnlyChain(chain: string): Settings {
    Settings(
      "k", 0, 0, 0, 0, 0, 0, 0, Null, Null, Null, Null, chain, "", "", "", "", "",
      Null, Null, Null, Null, Null, Null, Null, Null, [Some(SOME_PEER)])
  }

  function AnyKey(key: string): Option<string> { Some(seq(64, _ => '0')) }

  lemma EmptyChainIsValid()
    ensures TrimSpace("") == "" && ValidChain("")
  {
  }

  lemma OnlyChainIsAccepted(chain: string)
    requires ObfuscationChain.Validate(chain).None?
    ensures Compatible(OnlyChain(chain), AnyKey) && Buildable(OnlyChain(chain), AnyKey) && DecodesToHex(AnyKey)
  {
    hide ObfuscationChain.Validate, ObfuscationChain.InLanguage, TrimSpace;
    EmptyChainIsValid();
    ChainIsValidExactlyWhenAccepted(chain);
    assert IsHexKey(seq(64, _ => '0'));
  }

  /**
   A chain that the validator accepts breaks the text of every settings value it is put in, and
   there are settings with it that the whole validation accepts and that can be built.
   */
  lemma AcceptedChainCanBreakTheText()
    ensures exists chain ::
      && ObfuscationChain.Validate(chain).None?
      && (forall s: Settings, decode: KeyDecoder | s.i1 == chain && Buildable(s, decode) ::
            ReadConfig(Build(s, decode).value) != Some(Effective(s, decode)))
      && (exists s: Settings, decode: KeyDecoder ::
            s.i1 == chain && DecodesToHex(decode) && Compatible(s, decode) && Buildable(s, decode))
  {
    hide Build, ReadConfig, Effective, TrimSpace, Compatible, Buildable, DecodesToHex, ObfuscationChain.Validate;
    ObfuscationChain.LineBreakInsideATagIsAccepted();
    var chain :| '\n' in TrimSpace(chain) && ObfuscationChain.Validate(chain).None?;
    forall s: Settings, decode: KeyDecoder | s.i1 == chain && Buildable(s, decode)
      ensures ReadConfig(Build(s, decode).value) != Some(Effective(s, decode))
    {
      LineBreakInAChainBreaksTheText(s, decode);
    }
    OnlyChainIsAccepted(chain);
    assert OnlyChain(chain).i1 == chain;
  }
}
