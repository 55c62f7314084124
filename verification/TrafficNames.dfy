/**
 The names under which the core counts traffic.

 A name has four parts joined by ">>>": inbound or outbound, the tag, the word "traffic", and uplink
 or downlink, as in "inbound>>>tag>>>traffic>>>uplink". Names are composed when a counter is looked
 up and read back when all counters are listed. A tag may contain any character, and not every tag
 survives this; which ones do is stated below.
 */
module TrafficNames {
  import opened Wrappers
  import opened Text

  const SEP := ">>>"

  datatype Kind = Inbound | Outbound
  datatype Direction = Uplink | Downlink
  datatype Traffic = Traffic(kind: Kind, tag: string, direction: Direction)

  function KindText(kind: Kind): string {
    match kind
    case Inbound => "inbound"
    case Outbound => "outbound"
  }

  function DirectionText(direction: Direction): string {
    match direction
    case Uplink => "uplink"
    case Downlink => "downlink"
  }

  function ReadKind(s: string): Option<Kind> {
    if s == "inbound" then Some(Inbound) else if s == "outbound" then Some(Outbound) else None
  }

  function ReadDirection(s: string): Option<Direction> {
    if s == "uplink" then Some(Uplink) else if s == "downlink" then Some(Downlink) else None
  }

  function ReadParts(parts: seq<string>): Option<Traffic> {
    if |parts| != 4 || ReadKind(parts[0]).None? || parts[2] != "traffic" then None
    else if parts[1] == "" || ReadDirection(parts[3]).None? then None
    else Some(Traffic(ReadKind(parts[0]).value, parts[1], ReadDirection(parts[3]).value))
  }

  /** What a counter name counts, if it is a traffic counter. */
  function Parse(name: string): Option<Traffic> { ReadParts(Split(name, SEP)) }

  function Parts(t: Traffic): seq<string> {
    [KindText(t.kind), t.tag, "traffic", DirectionText(t.direction)]
  }

  /** The name of the counter for `t`. */
  function Compose(t: Traffic): string { Join(Parts(t), SEP) }

  // ---------- Splitting at the separator ----------

  predicate ArrowAt(s: string, i: int) {
    0 <= i && i + 3 <= |s| && s[i] == '>' && s[i + 1] == '>' && s[i + 2] == '>'
  }

  /** No separator inside the part. */
  predicate Arrowless(s: string) { forall i :: 0 <= i < |s| ==> !ArrowAt(s, i) }

  /** A part that a separator can follow without being found too early. */
  predicate Plain(s: string) { Arrowless(s) && (s == "" || s[|s| - 1] != '>') }

  lemma SeparatorIsAnArrow(s: string, i: int)
    ensures OccursAt(s, SEP, i) <==> ArrowAt(s, i)
  {
    if ArrowAt(s, i) {
      assert s[i..i + 3] == SEP;
    }
    if OccursAt(s, SEP, i) {
      assert s[i] == s[i..i + 3][0] && s[i + 1] == s[i..i + 3][1] && s[i + 2] == s[i..i + 3][2];
    }
  }

  lemma LastPart(s: string)
    ensures Index(s, SEP).None? <==> Arrowless(s)
  {
    forall i ensures OccursAt(s, SEP, i) <==> ArrowAt(s, i) {
      SeparatorIsAnArrow(s, i);
    }
    if Index(s, SEP).Some? {
      assert OccursAt(s, SEP, Index(s, SEP).value);
    }
  }

  lemma PlainPartIsCut(part: string, rest: string)
    requires Plain(part)
    ensures Index(part + SEP + rest, SEP) == Some(|part|)
  {
    var s := part + SEP + rest;
    assert ArrowAt(s, |part|);
    SeparatorIsAnArrow(s, |part|);
    forall j | 0 <= j < |part| ensures !OccursAt(s, SEP, j) {
      SeparatorIsAnArrow(s, j);
      assert !ArrowAt(part, j);
    }
    IndexUnique(s, SEP, |part|);
  }

  lemma CutPartIsPlain(s: string, i: nat)
    requires Index(s, SEP) == Some(i)
    ensures Plain(s[..i])
  {
    SeparatorIsAnArrow(s, i);
    forall j | 0 <= j < i ensures !ArrowAt(s, j) && !ArrowAt(s[..i], j) {
      SeparatorIsAnArrow(s, j);
      assert ArrowAt(s[..i], j) ==> ArrowAt(s, j);
    }
    if i > 0 {
      assert !ArrowAt(s, i - 1);
    }
  }

  /** Parts that are plain, the last of them at least without a separator. */
  predicate Separable(parts: seq<string>) {
    |parts| >= 1 && Arrowless(parts[|parts| - 1]) && forall i :: 0 <= i < |parts| - 1 ==> Plain(parts[i])
  }

  lemma {:induction false} SplitIsSeparable(s: string)
    ensures Separable(Split(s, SEP))
    decreases |s|
  {
    match Index(s, SEP)
    case None => LastPart(s);
    case Some(i) =>
      CutPartIsPlain(s, i);
      SplitIsSeparable(s[i + |SEP|..]);
  }

  lemma SplitAfterPlain(part: string, rest: string)
    requires Plain(part)
    ensures Split(part + SEP + rest, SEP) == [part] + Split(rest, SEP)
  {
    hide Index, Plain;
    PlainPartIsCut(part, rest);
    var s := part + SEP + rest;
    assert s[|part| + |SEP|..] == rest && s[..|part|] == part;
  }

  lemma {:induction false} SeparablePartsSplit(parts: seq<string>)
    requires Separable(parts)
    ensures Split(Join(parts, SEP), SEP) == parts
    decreases |parts|
  {
    if |parts| == 1 {
      LastPart(parts[0]);
    } else {
      hide Split, Plain, Arrowless;
      SplitAfterPlain(parts[0], Join(parts[1..], SEP));
      SeparablePartsSplit(parts[1..]);
      assert [parts[0]] + parts[1..] == parts;
    }
  }

  // ---------- Names ----------

  /** A tag that survives in a counter name. */
  predicate CleanTag(tag: string) { tag != "" && Plain(tag) }

  lemma WordsArePlain(kind: Kind, direction: Direction)
    ensures Plain(KindText(kind)) && Plain("traffic") && Arrowless(DirectionText(direction))
  {
  }

  lemma PartsReadBack(t: Traffic)
    requires t.tag != ""
    ensures ReadParts(Parts(t)) == Some(t)
  {
  }

  lemma ReadPartsAreTheParts(parts: seq<string>)
    requires ReadParts(parts).Some?
    ensures Parts(ReadParts(parts).value) == parts && parts[1] != ""
  {
  }

  /** Rejoining what was read from a name gives the name back, and its tag is clean. */
  lemma ParsedNameIsRecomposed(name: string)
    requires Parse(name).Some?
    ensures Compose(Parse(name).value) == name && CleanTag(Parse(name).value.tag)
  {
    hide ReadParts, Parts;
    JoinSplit(name, SEP);
    SplitIsSeparable(name);
    ReadPartsAreTheParts(Split(name, SEP));
    TagPart(Parse(name).value);
  }

  lemma TagPart(t: Traffic)
    ensures |Parts(t)| == 4 && Parts(t)[1] == t.tag
  {
  }

  /** Two accepted names that count the same traffic are the same name. */
  lemma ParseIsInjective(a: string, b: string)
    requires Parse(a).Some? && Parse(a) == Parse(b)
    ensures a == b
  {
    hide Parse, Compose;
    ParsedNameIsRecomposed(a);
    ParsedNameIsRecomposed(b);
  }

  lemma CleanPartsAreSeparable(t: Traffic)
    requires Plain(t.tag)
    ensures Separable(Parts(t))
  {
    hide Plain, Arrowless, KindText, DirectionText;
    WordsArePlain(t.kind, t.direction);
    var parts := Parts(t);
    assert forall i :: 0 <= i < 3 ==> parts[i] == KindText(t.kind) || parts[i] == t.tag || parts[i] == "traffic";
  }

  lemma CleanNameIsRead(t: Traffic)
    requires CleanTag(t.tag)
    ensures Parse(Compose(t)) == Some(t)
  {
    hide ReadParts, Parts, Plain;
    CleanPartsAreSeparable(t);
    SeparablePartsSplit(Parts(t));
    PartsReadBack(t);
  }

  /** The first character tells the kind, the sixth from the end the direction, the length the tag. */
  lemma ComposeIsInjective(t: Traffic, u: Traffic)
    requires Compose(t) == Compose(u)
    ensures t == u
  {
    ComposeShape(t);
    ComposeShape(u);
    var s := Compose(t);
    assert s[0] == KindText(t.kind)[0] == KindText(u.kind)[0];
    assert s[|s| - 6] == DirectionText(t.direction)[|DirectionText(t.direction)| - 6];
    assert s[|s| - 6] == DirectionText(u.direction)[|DirectionText(u.direction)| - 6];
    assert t.kind == u.kind && t.direction == u.direction;
    var from := |KindText(t.kind)| + 3;
    assert t.tag == s[from..from + |t.tag|] == u.tag;
  }

  lemma ComposeShape(t: Traffic)
    ensures Compose(t) == KindText(t.kind) + SEP + t.tag + SEP + "traffic" + SEP + DirectionText(t.direction)
  {
    hide KindText, DirectionText;
    var kind, word, direction := KindText(t.kind), "traffic", DirectionText(t.direction);
    JoinCons(word, [direction], SEP);
    JoinCons(t.tag, [word] + [direction], SEP);
    JoinCons(kind, [t.tag] + ([word] + [direction]), SEP);
    assert Parts(t) == [kind] + ([t.tag] + ([word] + [direction]));
  }

  /**
   A counter's name is read back exactly when its tag is not empty, holds no separator and does
   not end with '>'. The traffic of any other tag is not accounted.
   */
  lemma NameIsReadExactlyWhenItsTagIsClean(t: Traffic)
    ensures Parse(Compose(t)) == Some(t) <==> CleanTag(t.tag)
    ensures Parse(Compose(t)).Some? <==> CleanTag(t.tag)
  {
    hide Compose, Parse;
    if CleanTag(t.tag) {
      CleanNameIsRead(t);
    }
    if Parse(Compose(t)).Some? {
      ParsedNameIsRecomposed(Compose(t));
      ComposeIsInjective(Parse(Compose(t)).value, t);
    }
  }

  lemma Regroup(kind: string, sep: string, tag: string, word: string, direction: string)
    ensures kind + sep + tag + sep + word + sep + direction == (kind + sep) + tag + (sep + word + sep + direction)
  {
  }

  lemma Ends()
    ensures KindText(Inbound) + SEP == "inbound>>>" && KindText(Outbound) + SEP == "outbound>>>"
    ensures SEP + "traffic" + SEP + DirectionText(Uplink) == ">>>traffic>>>uplink"
    ensures SEP + "traffic" + SEP + DirectionText(Downlink) == ">>>traffic>>>downlink"
  {
  }

  lemma NameGrouped(t: Traffic)
    ensures Compose(t) == (KindText(t.kind) + SEP) + t.tag + (SEP + "traffic" + SEP + DirectionText(t.direction))
  {
    hide Compose, KindText, DirectionText;
    ComposeShape(t);
    Regroup(KindText(t.kind), SEP, t.tag, "traffic", DirectionText(t.direction));
  }

  /** The names, written out. */
  lemma NamesWrittenOut(tag: string)
    ensures Compose(Traffic(Inbound, tag, Uplink)) == "inbound>>>" + tag + ">>>traffic>>>uplink"
    ensures Compose(Traffic(Inbound, tag, Downlink)) == "inbound>>>" + tag + ">>>traffic>>>downlink"
    ensures Compose(Traffic(Outbound, tag, Uplink)) == "outbound>>>" + tag + ">>>traffic>>>uplink"
    ensures Compose(Traffic(Outbound, tag, Downlink)) == "outbound>>>" + tag + ">>>traffic>>>downlink"
  {
    hide Compose, KindText, DirectionText;
    Ends();
    NameGrouped(Traffic(Inbound, tag, Uplink));
    NameGrouped(Traffic(Inbound, tag, Downlink));
    NameGrouped(Traffic(Outbound, tag, Uplink));
    NameGrouped(Traffic(Outbound, tag, Downlink));
  }
}
