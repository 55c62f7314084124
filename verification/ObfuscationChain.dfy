/**
 The recogniser for AmneziaWG obfuscation chains (settings I1..I5): a sequence of tags such as
 "<b 0x0102><r 16><t>" whose fixed bytes stay within a budget.
 */
module ObfuscationChain {
  import opened Wrappers
  import opened Text
  import opened TagScanner

  const MAX_CHAIN_BYTES := 4096

  // ---------- The language ----------

  /** Hexadecimal digits, by their codes. */
  ghost predicate IsHex(s: string) {
    forall i :: 0 <= i < |s| ==>
      48 <= s[i] as int <= 57 || 65 <= s[i] as int <= 70 || 97 <= s[i] as int <= 102
  }

  ghost predicate DenotesBytes(argument: string, n: nat) {
    exists hex :: (argument == hex || argument == ['0', 'x'] + hex) && IsHex(hex) && |hex| == 2 * n > 0
  }

  ghost predicate DenotesLength(argument: string, n: nat) {
    argument != "" && AllDigits(argument) && DigitsValue(argument) == n <= 4096
  }

  /** The words of a tag denote `n` fixed bytes. */
  ghost predicate Denotes(words: seq<string>, n: nat) {
    || (|words| == 2 && words[0] == "b" && DenotesBytes(words[1], n))
    || (|words| == 2 && words[0] in ["r", "rc", "rd", "dz"] && DenotesLength(words[1], n))
    || (|words| == 1 && words[0] in ["t", "d", "ds"] && n == 0)
  }

  ghost predicate Means(body: string, n: nat) { Denotes(Fields(body), n) }

  /** A chain: tags that all denote bytes, `total` of them together. */
  ghost predicate IsChain(s: string, tags: seq<(string, nat)>, total: nat) {
    IsTagList(Means, s, tags, total)
  }

  ghost predicate InLanguage(s: string) {
    || s == ""
    || (&& |s| <= 4096
        && exists tags, total: nat :: IsChain(s, tags, total) && total <= 4096)
  }

  // ---------- One tag ----------

  datatype Kind = BytesKind | LengthKind | MarkKind | UnknownKind

  /** b is bytes; r, rc, rd and dz have a length; t, d and ds stand alone. */
  function KindOf(word: string): Kind {
    if |word| == 1 then
      if word[0] == 'b' then BytesKind
      else if word[0] == 'r' then LengthKind
      else if word[0] == 't' || word[0] == 'd' then MarkKind
      else UnknownKind
    else if |word| == 2 then
      if word[0] == 'r' && (word[1] == 'c' || word[1] == 'd') then LengthKind
      else if word[0] == 'd' && word[1] == 'z' then LengthKind
      else if word[0] == 'd' && word[1] == 's' then MarkKind
      else UnknownKind
    else UnknownKind
  }

  lemma OneCharWord(word: string, c: char)
    ensures word == [c] <==> |word| == 1 && word[0] == c
  {
  }

  lemma TwoCharWord(word: string, c: char, d: char)
    ensures word == [c, d] <==> |word| == 2 && word[0] == c && word[1] == d
  {
  }

  lemma KindsOfWords(word: string)
    ensures KindOf(word).BytesKind? <==> word == "b"
    ensures KindOf(word).LengthKind? <==> word in ["r", "rc", "rd", "dz"]
    ensures KindOf(word).MarkKind? <==> word in ["t", "d", "ds"]
  {
    OneCharWord(word, 'b');
    OneCharWord(word, 'r');
    OneCharWord(word, 't');
    OneCharWord(word, 'd');
    TwoCharWord(word, 'r', 'c');
    TwoCharWord(word, 'r', 'd');
    TwoCharWord(word, 'd', 'z');
    TwoCharWord(word, 'd', 's');
  }

  predicate IsHexDigit(c: char) { '0' <= c <= '9' || 'a' <= c <= 'f' || 'A' <= c <= 'F' }

  /** A non-empty run of whole bytes in hexadecimal. */
  predicate HexBytes(s: string) {
    s != "" && |s| % 2 == 0 && forall i :: 0 <= i < |s| ==> IsHexDigit(s[i])
  }

  lemma HexBytesExactlyWhen(s: string)
    ensures HexBytes(s) <==> s != "" && |s| % 2 == 0 && IsHex(s)
  {
  }

  function TrimHexPrefix(s: string): string {
    if |s| >= 2 && s[0] == '0' && s[1] == 'x' then s[2..] else s
  }

  function ByteTag(argument: string): Result<nat, ChainError> {
    var text := TrimHexPrefix(argument);
    if argument == "" || !HexBytes(text) then Failure(InvalidByteTag) else Success(|text| / 2)
  }

  function LengthTag(argument: string): Result<nat, ChainError> {
    var length := ParseUint(argument, 0xFFFF);
    if length.None? || length.value > MAX_CHAIN_BYTES then Failure(InvalidLength) else Success(length.value)
  }

  function WordsBytes(words: seq<string>): Result<nat, ChainError> {
    if |words| == 0 || |words| > 2 then Failure(InvalidTag)
    else
      var argument := if |words| == 2 then words[1] else "";
      match KindOf(words[0])
      case BytesKind => ByteTag(argument)
      case LengthKind => LengthTag(argument)
      case MarkKind => if argument != "" then Failure(UnexpectedArgument) else Success(0)
      case UnknownKind => Failure(UnsupportedTag)
  }

  function TagBytes(body: string): Result<nat, ChainError> { WordsBytes(Fields(body)) }

  lemma ByteTagDenotes(argument: string, n: nat)
    ensures ByteTag(argument) == Success(n) <==> DenotesBytes(argument, n)
  {
    hide HexBytes, IsHex;
    HexBytesExactlyWhen(TrimHexPrefix(argument));
    if ByteTag(argument) == Success(n) {
      var hex := TrimHexPrefix(argument);
      if argument != hex {
        assert argument == ['0', 'x'] + hex;
      }
    }
    if DenotesBytes(argument, n) {
      var hex :| (argument == hex || argument == ['0', 'x'] + hex) && IsHex(hex) && |hex| == 2 * n > 0;
      if argument == hex {
        HexIsNoPrefix(hex);
      } else {
        assert argument[2..] == hex;
      }
    }
  }

  lemma HexIsNoPrefix(hex: string)
    requires IsHex(hex) && |hex| >= 2
    ensures hex[1] != 'x'
  {
  }

  lemma LengthTagDenotes(argument: string, n: nat)
    ensures LengthTag(argument) == Success(n) <==> DenotesLength(argument, n)
  {
  }

  lemma NoArgument()
    ensures ByteTag("").Failure? && LengthTag("").Failure?
  {
  }

  lemma WordsBytesDenote(words: seq<string>, n: nat)
    requires forall w :: w in words ==> w != ""
    ensures WordsBytes(words) == Success(n) <==> Denotes(words, n)
  {
    hide KindOf, ByteTag, LengthTag, DenotesBytes, DenotesLength;
    NoArgument();
    if words != [] {
      KindsOfWords(words[0]);
    }
    if |words| == 2 {
      assert words[1] in words;
      ByteTagDenotes(words[1], n);
      LengthTagDenotes(words[1], n);
    }
  }

  /** Every tag is read exactly as its words denote. */
  lemma {:induction false} TagsAreReadAsMeant()
    ensures ReadsAs(TagBytes, Means)
  {
    forall body, n: nat ensures TagBytes(body) == Success(n) <==> Means(body, n) {
      WordsBytesDenote(Fields(body), n);
    }
  }

  lemma {:induction false} FieldsBounded(s: string)
    ensures forall i :: 0 <= i < |Fields(s)| ==> |Fields(s)[i]| <= |s|
    decreases |s|
  {
    var t := TrimLeft(s);
    if t != "" {
      FieldsBounded(t[WordLength(t)..]);
    }
  }

  /** One tag cannot spend more than the whole budget. */
  lemma TagBytesBounded(body: string)
    requires |body| <= MAX_CHAIN_BYTES
    ensures TagBytes(body).Success? ==> TagBytes(body).value <= MAX_CHAIN_BYTES
  {
    FieldsBounded(body);
  }

  // ---------- The validator ----------

  function Validate(spec: string): Option<ChainError> {
    var s := TrimSpace(spec);
    if |s| > MAX_CHAIN_BYTES then Some(TooLarge) else Scan(TagBytes, MAX_CHAIN_BYTES, s, 0)
  }

  /** The values of the validator's sum. */
  function SumsOf(spec: string): seq<nat> {
    var s := TrimSpace(spec);
    if |s| > MAX_CHAIN_BYTES then [] else Sums(TagBytes, MAX_CHAIN_BYTES, s, 0)
  }

  lemma NothingToScan(total: nat)
    ensures Scan(TagBytes, MAX_CHAIN_BYTES, "", total) == None && Sums(TagBytes, MAX_CHAIN_BYTES, "", total) == []
  {
  }

  /** The sum never exceeds twice the budget on the way, so it fits every width of int. */
  method ValidateChain(spec: string) returns (error: Option<ChainError>, ghost sums: seq<nat>)
    ensures error == Validate(spec)
    ensures sums == SumsOf(spec) && forall sum :: sum in sums ==> sum <= 2 * MAX_CHAIN_BYTES
  {
    hide TagBytes, TagEnd, Scan, Sums, TrimSpace;
    sums := [];
    NothingToScan(0);
    var s := TrimSpace(spec);
    if s == "" {
      return None, [];
    }
    if |s| > MAX_CHAIN_BYTES {
      return Some(TooLarge), [];
    }
    var remaining := s;
    var totalFixedBytes := 0;
    while remaining != ""
      invariant |remaining| <= |s| && 0 <= totalFixedBytes <= MAX_CHAIN_BYTES
      invariant Scan(TagBytes, MAX_CHAIN_BYTES, s, 0) == Scan(TagBytes, MAX_CHAIN_BYTES, remaining, totalFixedBytes)
      invariant SumsOf(spec) == sums + Sums(TagBytes, MAX_CHAIN_BYTES, remaining, totalFixedBytes)
      invariant forall sum :: sum in sums ==> sum <= 2 * MAX_CHAIN_BYTES
      decreases |remaining|
    {
      var end := TagEnd(remaining);
      if end.Failure? {
        ScanStops(TagBytes, MAX_CHAIN_BYTES, remaining, totalFixedBytes);
        return Some(end.error), sums;
      }
      var length := TagBytes(remaining[1..end.value]);
      if length.Failure? {
        ScanStops(TagBytes, MAX_CHAIN_BYTES, remaining, totalFixedBytes);
        return Some(length.error), sums;
      }
      ScanOnce(TagBytes, MAX_CHAIN_BYTES, remaining, totalFixedBytes, end.value, length.value);
      TagBytesBounded(remaining[1..end.value]);
      totalFixedBytes := totalFixedBytes + length.value;
      sums := sums + [totalFixedBytes];
      if totalFixedBytes > MAX_CHAIN_BYTES {
        return Some(TooLarge), sums;
      }
      remaining := remaining[end.value + 1..];
    }
    NothingToScan(totalFixedBytes);
    return None, sums;
  }

  /** Why the words of a tag are refused. */
  lemma RefusedWords(words: seq<string>)
    requires forall w :: w in words ==> w != ""
    ensures |words| == 0 || |words| > 2 ==> WordsBytes(words) == Failure(InvalidTag)
    ensures 1 <= |words| <= 2 ==>
      && (words[0] == "b" && (|words| == 1 || forall n: nat :: !DenotesBytes(words[1], n)) ==>
            WordsBytes(words) == Failure(InvalidByteTag))
      && (words[0] in ["r", "rc", "rd", "dz"] && (|words| == 1 || forall n: nat :: !DenotesLength(words[1], n)) ==>
            WordsBytes(words) == Failure(InvalidLength))
      && (words[0] in ["t", "d", "ds"] && |words| == 2 ==> WordsBytes(words) == Failure(UnexpectedArgument))
      && (words[0] !in ["b", "r", "rc", "rd", "dz", "t", "d", "ds"] ==> WordsBytes(words) == Failure(UnsupportedTag))
  {
    hide KindOf, ByteTag, LengthTag, DenotesBytes, DenotesLength;
    if 1 <= |words| <= 2 {
      KindsOfWords(words[0]);
      var argument := if |words| == 2 then words[1] else "";
      assert |words| == 2 ==> words[1] in words;
      RefusedArgument(argument);
      NoArgumentDenotes();
    }
  }

  lemma NoArgumentDenotes()
    ensures forall n: nat :: !DenotesBytes("", n) && !DenotesLength("", n)
  {
  }

  lemma RefusedArgument(argument: string)
    ensures (forall n: nat :: !DenotesBytes(argument, n)) ==> ByteTag(argument) == Failure(InvalidByteTag)
    ensures (forall n: nat :: !DenotesLength(argument, n)) ==> LengthTag(argument) == Failure(InvalidLength)
  {
    hide DenotesBytes, DenotesLength;
    if ByteTag(argument).Success? {
      ByteTagDenotes(argument, ByteTag(argument).value);
    }
    if LengthTag(argument).Success? {
      LengthTagDenotes(argument, LengthTag(argument).value);
    }
  }

  /**
   Of a text whose front is a chain within the budget, what follows the front decides the answer: the
   end, no tag, a tag that is refused, or one that takes the sum beyond the budget.
   */
  lemma FirstFaultIsNamed(front: string, tags: seq<(string, nat)>, total: nat, rest: string)
    requires IsChain(front, tags, total) && total <= 4096 && |front + rest| <= 4096
    requires TrimSpace(front + rest) == front + rest
    ensures rest == "" ==> Validate(front + rest) == None
    ensures rest != "" && TagEnd(rest).Failure? ==> Validate(front + rest) == Some(TagEnd(rest).error)
    ensures rest != "" && TagEnd(rest).Success? ==>
      var bytes := TagBytes(rest[1..TagEnd(rest).value]);
      && (bytes.Failure? ==> Validate(front + rest) == Some(bytes.error))
      && (bytes.Success? && total + bytes.value > 4096 ==> Validate(front + rest) == Some(TooLarge))
  {
    hide TagEnd, TagBytes, TrimSpace, IsTagList;
    TagsAreReadAsMeant();
    ScanSkipsGoodTags(TagBytes, Means, MAX_CHAIN_BYTES, front, 0, tags, total, rest);
  }

  lemma TooLongIsNamed(spec: string)
    requires |TrimSpace(spec)| > 4096
    ensures Validate(spec) == Some(TooLarge)
  {
  }

  /** The validator accepts a text exactly when, trimmed, it is a chain within the budget. */
  lemma {:induction false} ValidateExactlyTheLanguage(spec: string)
    ensures Validate(spec).None? <==> InLanguage(TrimSpace(spec))
  {
    var s := TrimSpace(spec);
    TagsAreReadAsMeant();
    if Validate(spec).None? {
      var tags, sum := ScanSound(TagBytes, Means, MAX_CHAIN_BYTES, s, 0);
      assert IsChain(s, tags, sum);
    }
    if InLanguage(s) && s != "" {
      var tags, total: nat :| IsChain(s, tags, total) && total <= MAX_CHAIN_BYTES;
      ScanComplete(TagBytes, Means, MAX_CHAIN_BYTES, s, 0, tags, total);
    }
  }

  lemma BlankHasNoWords(blank: string)
    requires |blank| == 1 && IsSpace(blank[0])
    ensures Fields(blank) == []
  {
    assert TrimLeft(blank[1..]) == "";
  }

  lemma WordThenBlank(body: string)
    requires |body| == 2 && !IsSpace(body[0]) && IsSpace(body[1])
    ensures Fields(body) == [body[..1]]
  {
    BlankHasNoWords(body[1..]);
    assert WordLength(body) == 1;
  }

  lemma BreakIsABlank(body: string)
    requires body == ['t', '\n']
    ensures Means(body, 0)
  {
    hide Fields;
    WordThenBlank(body);
    assert body[..1] == "t";
  }

  /** A single tag within the budget is in the language. */
  lemma OneTagIsAccepted(body: string, n: nat)
    requires Means(body, n) && '>' !in body && |body| + 2 <= MAX_CHAIN_BYTES && n <= MAX_CHAIN_BYTES
    ensures InLanguage("<" + body + ">")
  {
    hide Denotes, IsTag;
    EnclosedIsTag(Means, body, n);
    var tag := "<" + body + ">";
    var tags := [(tag, n)];
    assert tags[1..] == [] && tag[|tag|..] == "" && tag[..|tag|] == tag;
    assert IsTagList(Means, tag[|tag|..], tags[1..], 0);
    assert IsChain(tag, tags, n);
  }

  lemma BracketsAreKept(body: string)
    ensures TrimSpace("<" + body + ">") == "<" + body + ">"
  {
    var tag := "<" + body + ">";
    assert TrimLeft(tag) == tag && TrimRight(tag) == tag;
  }

  /** A tag may hold a line break, since any whitespace separates its words. */
  lemma LineBreakInsideATagIsAccepted()
    ensures exists spec :: '\n' in TrimSpace(spec) && Validate(spec).None?
  {
    hide Means, InLanguage, TrimSpace, Validate;
    var body := ['t', '\n'];
    BreakIsABlank(body);
    OneTagIsAccepted(body, 0);
    var spec := "<" + body + ">";
    assert spec[2] == '\n';
    BracketsAreKept(body);
    ValidateExactlyTheLanguage(spec);
  }
}

/** Cutting a text into tags "<...>", whatever a tag may contain, and adding up their sizes. */
module TagScanner {
  import opened Wrappers
  import opened Text

  datatype ChainError =
    | TooLarge
    | TextOutsideTag
    | UnterminatedTag
    | InvalidTag
    | InvalidByteTag
    | InvalidLength
    | UnexpectedArgument
    | UnsupportedTag

  /** The size of a tag by the text between its brackets, or why it is refused. */
  type TagReader = string -> Result<nat, ChainError>

  /** What the text between the brackets of a tag means: the tag has size `n`. */
  type TagMeaning = (string, nat) -> bool

  ghost predicate ReadsAs(read: TagReader, means: TagMeaning) {
    forall body, n: nat :: read(body) == Success(n) <==> means(body, n)
  }

  /** `tag` is one tag of size `n`; '>' only ends it. */
  ghost predicate IsTag(means: TagMeaning, tag: string, n: nat) {
    |tag| >= 2 && tag[0] == '<' && tag[|tag| - 1] == '>'
    && (forall i :: 1 <= i < |tag| - 1 ==> tag[i] != '>')
    && means(tag[1..|tag| - 1], n)
  }

  /** `s` is the concatenation of tags, and `total` the sum of their sizes. */
  ghost predicate IsTagList(means: TagMeaning, s: string, tags: seq<(string, nat)>, total: nat)
    decreases |tags|
  {
    if tags == [] then s == "" && total == 0
    else
      var (tag, n) := tags[0];
      IsTag(means, tag, n) && n <= total && |tag| <= |s| && s[..|tag|] == tag
      && IsTagList(means, s[|tag|..], tags[1..], total - n)
  }

  /** The index of the bracket that ends a tag at the front of `s`. */
  function TagEnd(s: string): (r: Result<nat, ChainError>)
    ensures r.Success? ==> 0 < r.value < |s| && s[0] == '<' && s[r.value] == '>'
    ensures r.Success? ==> forall i :: 0 <= i < r.value ==> s[i] != '>'
  {
    if s == "" || s[0] != '<' then Failure(TextOutsideTag)
    else
      var end := Index(s, ">");
      if end.None? then Failure(UnterminatedTag)
      else
        assert s[end.value] == s[end.value..end.value + 1][0];
        assert forall i :: 0 <= i < end.value && s[i] == '>' ==> OccursAt(s, ">", i);
        Success(end.value)
  }

  lemma EnclosedIsTag(means: TagMeaning, body: string, n: nat)
    requires means(body, n) && '>' !in body
    ensures IsTag(means, "<" + body + ">", n)
  {
    var tag := "<" + body + ">";
    assert tag[1..|tag| - 1] == body;
  }

  /** What a scan returns when `remaining` is left and `total` is counted so far. */
  function Scan(read: TagReader, budget: nat, remaining: string, total: nat): Option<ChainError>
    decreases |remaining|
  {
    if remaining == "" then None
    else
      var end := TagEnd(remaining);
      if end.Failure? then Some(end.error)
      else
        var size := read(remaining[1..end.value]);
        if size.Failure? then Some(size.error)
        else if total + size.value > budget then Some(TooLarge)
        else Scan(read, budget, remaining[end.value + 1..], total + size.value)
  }

  /** The values that the count takes during a scan, the one that ends it included. */
  function Sums(read: TagReader, budget: nat, remaining: string, total: nat): seq<nat>
    decreases |remaining|
  {
    if remaining == "" then []
    else
      var end := TagEnd(remaining);
      if end.Failure? then []
      else
        var size := read(remaining[1..end.value]);
        if size.Failure? then []
        else if total + size.value > budget then [total + size.value]
        else [total + size.value] + Sums(read, budget, remaining[end.value + 1..], total + size.value)
  }

  /** One round of a scan at a tag that can be read. */
  lemma ScanOnce(read: TagReader, budget: nat, remaining: string, total: nat, end: nat, size: nat)
    requires remaining != "" && TagEnd(remaining) == Success(end) && read(remaining[1..end]) == Success(size)
    ensures var next := total + size;
      if next > budget
      then Scan(read, budget, remaining, total) == Some(TooLarge) && Sums(read, budget, remaining, total) == [next]
      else
        && Scan(read, budget, remaining, total) == Scan(read, budget, remaining[end + 1..], next)
        && Sums(read, budget, remaining, total) == [next] + Sums(read, budget, remaining[end + 1..], next)
  {
  }

  /** One round of a scan at text that is no tag, or at a tag that is refused. */
  lemma ScanStops(read: TagReader, budget: nat, remaining: string, total: nat)
    requires remaining != ""
    requires TagEnd(remaining).Success? ==> read(remaining[1..TagEnd(remaining).value]).Failure?
    ensures var end := TagEnd(remaining);
      Scan(read, budget, remaining, total)
        == Some(if end.Failure? then end.error else read(remaining[1..end.value]).error)
    ensures Sums(read, budget, remaining, total) == []
  {
  }

  /** What stands where a tag should be: no opening bracket, or one without an end. */
  lemma NoTagIsNamed(s: string)
    ensures TagEnd(s) == Failure(TextOutsideTag) <==> s == "" || s[0] != '<'
    ensures TagEnd(s) == Failure(UnterminatedTag) <==> s != "" && s[0] == '<' && '>' !in s
    ensures TagEnd(s).Failure? ==> TagEnd(s).error == TextOutsideTag || TagEnd(s).error == UnterminatedTag
  {
    if s != "" && s[0] == '<' && '>' in s {
      var i :| 0 <= i < |s| && s[i] == '>';
      assert s[i..i + 1] == ">" && OccursAt(s, ">", i);
    }
  }

  /** The first '>' ends the first tag, so the first tag is determined by the text. */
  lemma FirstTagIsDetermined(means: TagMeaning, s: string, tag: string, n: nat)
    requires IsTag(means, tag, n) && |tag| <= |s| && s[..|tag|] == tag
    ensures TagEnd(s) == Success(|tag| - 1) && s[1..|tag| - 1] == tag[1..|tag| - 1]
  {
    var end := |tag| - 1;
    assert forall i :: 0 <= i < |tag| ==> s[i] == s[..|tag|][i];
    assert OccursAt(s, ">", end);
    forall j | 0 <= j < end ensures !OccursAt(s, ">", j) {
      assert s[j..j + 1][0] == s[j];
    }
    IndexUnique(s, ">", end);
  }

  lemma FirstTagIsRead(read: TagReader, means: TagMeaning, s: string, tag: string, n: nat)
    requires ReadsAs(read, means) && IsTag(means, tag, n) && |tag| <= |s| && s[..|tag|] == tag
    ensures TagEnd(s) == Success(|tag| - 1) && read(s[1..|tag| - 1]) == Success(n)
  {
    FirstTagIsDetermined(means, s, tag, n);
  }

  /** A scan that succeeds has found a tag list that fits into what is left of the budget. */
  lemma {:induction false} ScanSound(read: TagReader, means: TagMeaning, budget: nat, s: string, total: nat)
    returns (tags: seq<(string, nat)>, sum: nat)
    requires ReadsAs(read, means)
    requires Scan(read, budget, s, total).None? && total <= budget
    ensures IsTagList(means, s, tags, sum) && total + sum <= budget
    decreases |s|
  {
    hide TagEnd;
    if s == "" {
      tags, sum := [], 0;
    } else {
      var end := TagEnd(s).value;
      var tag, n := s[..end + 1], read(s[1..end]).value;
      var rest, restSum := ScanSound(read, means, budget, s[end + 1..], total + n);
      tags, sum := [(tag, n)] + rest, n + restSum;
      assert tag[1..|tag| - 1] == s[1..end];
      assert tags[1..] == rest;
    }
  }

  lemma TagHasBrackets(means: TagMeaning, tag: string, n: nat)
    requires IsTag(means, tag, n)
    ensures |tag| >= 2
  {
  }

  /** Good tags at the front do not matter but for their sizes: what follows them decides. */
  lemma {:induction false} ScanSkipsGoodTags(
    read: TagReader, means: TagMeaning, budget: nat, s: string, total: nat, tags: seq<(string, nat)>, sum: nat,
    rest: string)
    requires ReadsAs(read, means)
    requires IsTagList(means, s, tags, sum) && total + sum <= budget
    ensures Scan(read, budget, s + rest, total) == Scan(read, budget, rest, total + sum)
    decreases |tags|
  {
    hide TagEnd, Scan, IsTag;
    if tags == [] {
      assert s + rest == rest;
    } else {
      var (tag, n) := tags[0];
      var whole := s + rest;
      assert whole[..|tag|] == s[..|tag|] == tag && whole[|tag|..] == s[|tag|..] + rest;
      FirstTagIsRead(read, means, whole, tag, n);
      TagHasBrackets(means, tag, n);
      ScanOnce(read, budget, whole, total, |tag| - 1, n);
      ScanSkipsGoodTags(read, means, budget, s[|tag|..], total + n, tags[1..], sum - n, rest);
    }
  }

  /** A tag list that fits into what is left of the budget is scanned to its end. */
  lemma {:induction false} ScanComplete(
    read: TagReader, means: TagMeaning, budget: nat, s: string, total: nat, tags: seq<(string, nat)>, sum: nat)
    requires ReadsAs(read, means)
    requires IsTagList(means, s, tags, sum) && total + sum <= budget
    ensures Scan(read, budget, s, total).None?
    decreases |tags|
  {
    hide TagEnd;
    if tags == [] {
      assert s == "";
    } else {
      var (tag, n) := tags[0];
      FirstTagIsRead(read, means, s, tag, n);
      ScanComplete(read, means, budget, s[|tag|..], total + n, tags[1..], sum - n);
    }
  }
}
