/**
 The few string operations of Go's `strings` and `strconv` packages that the core relies on,
 over ASCII text: leftmost splitting and joining, trimming, whitespace fields and decimal numbers.
 */
module Text {
  import opened Wrappers

  // ---------- Searching ----------

  /** `sep` occurs in `s` at index `i`. */
  ghost predicate OccursAt(s: string, sep: string, i: int) {
    0 <= i && i + |sep| <= |s| && s[i..i + |sep|] == sep
  }

  /** The index of the leftmost occurrence of `sep`, as strings.Index returns it. */
  function Index(s: string, sep: string): (r: Option<nat>)
    ensures r.Some? ==> OccursAt(s, sep, r.value)
    ensures forall i :: OccursAt(s, sep, i) ==> r.Some? && r.value <= i
  {
    if |s| < |sep| then None
    else if s[..|sep|] == sep then Some(0)
    else
      assert forall i {:trigger OccursAt(s, sep, i)} ::
        OccursAt(s, sep, i) ==> i > 0 && OccursAt(s[1..], sep, i - 1)
      by {
        forall i | OccursAt(s, sep, i) ensures i > 0 && OccursAt(s[1..], sep, i - 1) {
          assert i > 0;
          assert s[1..][i - 1..i - 1 + |sep|] == s[i..i + |sep|];
        }
      }
      var tail := Index(s[1..], sep);
      if tail.None? then None
      else
        assert s[1..][tail.value..tail.value + |sep|] == s[tail.value + 1..tail.value + 1 + |sep|];
        Some(tail.value + 1)
  }

  lemma IndexUnique(s: string, sep: string, i: nat)
    requires OccursAt(s, sep, i)
    requires forall j :: 0 <= j < i ==> !OccursAt(s, sep, j)
    ensures Index(s, sep) == Some(i)
  {
  }

  // ---------- Splitting and joining ----------

  /** strings.Split for a non-empty separator: cut at leftmost, non-overlapping occurrences. */
  function Split(s: string, sep: string): (parts: seq<string>)
    requires sep != ""
    ensures |parts| >= 1
    decreases |s|
  {
    match Index(s, sep)
    case None => [s]
    case Some(i) => [s[..i]] + Split(s[i + |sep|..], sep)
  }

  /** strings.Join. */
  function Join(parts: seq<string>, sep: string): string {
    if parts == [] then ""
    else if |parts| == 1 then parts[0]
    else parts[0] + sep + Join(parts[1..], sep)
  }

  lemma JoinCons(first: string, rest: seq<string>, sep: string)
    requires rest != []
    ensures Join([first] + rest, sep) == first + sep + Join(rest, sep)
  {
    assert ([first] + rest)[1..] == rest;
  }

  lemma CutAt(s: string, sep: string, i: nat)
    requires OccursAt(s, sep, i)
    ensures s == s[..i] + sep + s[i + |sep|..]
  {
  }

  /** Splitting loses nothing: joining the parts gives the text back. */
  lemma {:induction false} JoinSplit(s: string, sep: string)
    requires sep != ""
    ensures Join(Split(s, sep), sep) == s
    decreases |s|
  {
    match Index(s, sep)
    case None =>
    case Some(i) =>
      JoinSplit(s[i + |sep|..], sep);
      JoinCons(s[..i], Split(s[i + |sep|..], sep), sep);
      CutAt(s, sep, i);
  }

  // ---------- Trimming and fields ----------

  /** The ASCII characters of unicode.IsSpace. */
  predicate IsSpace(c: char) {
    c == ' ' || c == '\t' || c == '\n' || c == '\U{0B}' || c == '\U{0C}' || c == '\r'
  }

  function TrimLeft(s: string): (r: string)
    ensures r == "" || !IsSpace(r[0])
    ensures |r| <= |s| && r == s[|s| - |r|..]
  {
    if s != "" && IsSpace(s[0]) then TrimLeft(s[1..]) else s
  }

  function TrimRight(s: string): (r: string)
    ensures r == "" || !IsSpace(r[|r| - 1])
    ensures |r| <= |s| && r == s[..|r|]
  {
    if s != "" && IsSpace(s[|s| - 1]) then TrimRight(s[..|s| - 1]) else s
  }

  /** strings.TrimSpace. */
  function TrimSpace(s: string): (r: string)
    ensures r == "" || (!IsSpace(r[0]) && !IsSpace(r[|r| - 1]))
  {
    TrimRight(TrimLeft(s))
  }

  /** The length of the longest prefix of `s` without whitespace. */
  function WordLength(s: string): (n: nat)
    ensures n <= |s|
    ensures forall i :: 0 <= i < n ==> !IsSpace(s[i])
    ensures n < |s| ==> IsSpace(s[n])
  {
    if s == "" || IsSpace(s[0]) then 0 else 1 + WordLength(s[1..])
  }

  /** strings.Fields: the maximal runs of non-space characters. */
  function Fields(s: string): (words: seq<string>)
    ensures forall w :: w in words ==> w != ""
    decreases |s|
  {
    var t := TrimLeft(s);
    if t == "" then []
    else
      var n := WordLength(t);
      [t[..n]] + Fields(t[n..])
  }

  // ---------- Decimal numbers ----------

  predicate IsDigit(c: char) { '0' <= c <= '9' }

  predicate AllDigits(s: string) { forall i :: 0 <= i < |s| ==> IsDigit(s[i]) }

  function DigitValue(c: char): (d: nat)
    requires IsDigit(c)
    ensures d < 10
  {
    c as int - '0' as int
  }

  function DigitChar(d: nat): (c: char)
    requires d < 10
    ensures IsDigit(c) && DigitValue(c) == d
  {
    '0' + d as char
  }

  function DigitsValue(s: string): nat
    requires AllDigits(s)
  {
    if s == "" then 0 else 10 * DigitsValue(s[..|s| - 1]) + DigitValue(s[|s| - 1])
  }

  /** strconv.ParseUint in base 10 with an inclusive upper limit. */
  function ParseUint(s: string, limit: nat): Option<nat> {
    if s != "" && AllDigits(s) && DigitsValue(s) <= limit then Some(DigitsValue(s)) else None
  }

  /** strconv.FormatUint in base 10. */
  function FormatNat(n: nat): (s: string)
    ensures s != "" && AllDigits(s)
    ensures DigitsValue(s) == n
  {
    if n < 10 then [DigitChar(n)]
    else
      var front := FormatNat(n / 10);
      var s := front + [DigitChar(n % 10)];
      assert s[..|s| - 1] == front;
      s
  }

  /** strconv.Itoa. */
  function FormatInt(n: int): (s: string)
    ensures s != "" && '\n' !in s
    ensures n >= 0 ==> AllDigits(s) && DigitsValue(s) == n
  {
    if n >= 0 then FormatNat(n) else "-" + FormatNat(-n)
  }

  /** strconv.Atoi on text within the range of int: an optional sign, then digits. */
  function ParseInt(s: string): Option<int> {
    var digits := if s != "" && (s[0] == '-' || s[0] == '+') then s[1..] else s;
    if digits == "" || !AllDigits(digits) then None
    else
      var magnitude: int := DigitsValue(digits);
      Some(if s[0] == '-' then -magnitude else magnitude)
  }

  /** strings.ToLower on ASCII. */
  function ToLowerChar(c: char): char {
    if 'A' <= c <= 'Z' then c - 'A' + 'a' else c
  }

  function ToLower(s: string): (r: string)
    ensures |r| == |s|
    ensures forall i :: 0 <= i < |s| ==> r[i] == ToLowerChar(s[i])
  {
    if s == "" then "" else [ToLowerChar(s[0])] + ToLower(s[1..])
  }
}

/** What trimming and splitting into fields mean, apart from how they are computed. */
module TextMeaning {
  import opened Wrappers
  import opened Text

  predicate AllSpace(s: string) { forall i :: 0 <= i < |s| ==> IsSpace(s[i]) }

  predicate NoSpace(s: string) { forall i :: 0 <= i < |s| ==> !IsSpace(s[i]) }

  /** No space at either end. */
  predicate Bare(s: string) { s == "" || (!IsSpace(s[0]) && !IsSpace(s[|s| - 1])) }

  // ---------- Trimming ----------

  lemma {:induction false} TrimLeftGap(s: string) returns (gap: string)
    ensures AllSpace(gap) && s == gap + TrimLeft(s)
  {
    hide TrimLeft, IsSpace;
    var n := |s| - |TrimLeft(s)|;
    gap := s[..n];
    SpacesBefore(s);
    assert s == s[..n] + s[n..];
  }

  lemma {:induction false} SpacesBefore(s: string)
    ensures forall i :: 0 <= i < |s| - |TrimLeft(s)| ==> IsSpace(s[i])
  {
    hide IsSpace;
    if s != "" && IsSpace(s[0]) {
      SpacesBefore(s[1..]);
      assert forall i :: 0 < i < |s| ==> s[i] == s[1..][i - 1];
    }
  }

  lemma {:induction false} TrimRightGap(s: string) returns (gap: string)
    ensures AllSpace(gap) && s == TrimRight(s) + gap
  {
    gap := "";
    if s != "" && IsSpace(s[|s| - 1]) {
      var rest := TrimRightGap(s[..|s| - 1]);
      gap := rest + [s[|s| - 1]];
      assert s == TrimRight(s) + rest + [s[|s| - 1]];
    }
  }

  lemma {:induction false} TrimLeftOfGap(gap: string, rest: string)
    requires AllSpace(gap) && (rest == "" || !IsSpace(rest[0]))
    ensures TrimLeft(gap + rest) == rest
  {
    if gap == "" {
      assert gap + rest == rest;
    } else {
      assert (gap + rest)[1..] == gap[1..] + rest;
      TrimLeftOfGap(gap[1..], rest);
    }
  }

  lemma {:induction false} TrimRightOfGap(s: string, gap: string)
    requires AllSpace(gap) && (s == "" || !IsSpace(s[|s| - 1]))
    ensures TrimRight(s + gap) == s
    decreases |gap|
  {
    if gap == "" {
      assert s + gap == s;
    } else {
      var front := gap[..|gap| - 1];
      assert (s + gap)[..|s + gap| - 1] == s + front;
      TrimRightOfGap(s, front);
    }
  }

  /** `t` is `s` without spaces at its ends. */
  ghost predicate IsTrimmed(s: string, t: string) {
    Bare(t) && exists before, after :: AllSpace(before) && AllSpace(after) && s == before + t + after
  }

  lemma TrimOfGaps(before: string, t: string, after: string)
    requires AllSpace(before) && AllSpace(after) && Bare(t)
    ensures TrimSpace(before + t + after) == t
  {
    hide TrimLeft, TrimRight, IsSpace;
    if t == "" {
      assert before + t + after == (before + after) + "";
      TrimLeftOfGap(before + after, "");
      TrimRightOfGap("", "");
    } else {
      assert before + t + after == before + (t + after);
      TrimLeftOfGap(before, t + after);
      TrimRightOfGap(t, after);
    }
  }

  /** Trimming takes away the spaces at both ends, all of them and nothing else. */
  lemma TrimSpaceExactlyWhen(s: string, t: string)
    ensures t == TrimSpace(s) <==> IsTrimmed(s, t)
  {
    hide TrimLeft, TrimRight, IsSpace;
    var before := TrimLeftGap(s);
    var after := TrimRightGap(TrimLeft(s));
    assert s == before + (TrimSpace(s) + after) == before + TrimSpace(s) + after;
    if IsTrimmed(s, t) {
      var x, y :| AllSpace(x) && AllSpace(y) && s == x + t + y;
      TrimOfGaps(x, t, y);
    }
  }

  // ---------- Fields ----------

  /** `s` is spaces, then `word`, which is a maximal run of non-spaces, then `rest`. */
  ghost predicate BeginsWithRun(s: string, gap: string, word: string, rest: string) {
    && s == gap + word + rest && AllSpace(gap)
    && word != "" && NoSpace(word) && (rest == "" || IsSpace(rest[0]))
  }

  /** `words` are the maximal runs of non-space characters of `s`, all of them and in order. */
  ghost predicate AreRuns(s: string, words: seq<string>)
    decreases |words|
  {
    if words == [] then AllSpace(s)
    else exists gap, rest :: BeginsWithRun(s, gap, words[0], rest) && AreRuns(rest, words[1..])
  }

  lemma {:induction false} WordLengthOfRun(word: string, rest: string)
    requires NoSpace(word) && (rest == "" || IsSpace(rest[0]))
    ensures WordLength(word + rest) == |word|
  {
    if word == "" {
      assert word + rest == rest;
    } else {
      assert (word + rest)[1..] == word[1..] + rest;
      WordLengthOfRun(word[1..], rest);
    }
  }

  lemma FirstField(s: string, gap: string, word: string, rest: string)
    requires BeginsWithRun(s, gap, word, rest)
    ensures Fields(s) == [word] + Fields(rest)
  {
    hide TrimLeft, WordLength, IsSpace;
    var t := word + rest;
    assert s == gap + t && t[0] == word[0];
    TrimLeftOfGap(gap, t);
    WordLengthOfRun(word, rest);
    assert t[..|word|] == word && t[|word|..] == rest;
  }

  lemma NoFields(s: string)
    ensures AllSpace(s) <==> Fields(s) == []
  {
    hide TrimLeft, IsSpace;
    var gap := TrimLeftGap(s);
    if AllSpace(s) {
      assert s == s + "";
      TrimLeftOfGap(s, "");
    }
    if TrimLeft(s) == "" {
      assert s == gap;
    }
  }

  /** A text that is not all space begins with the run that is its first field. */
  lemma FirstRun(s: string) returns (gap: string, rest: string)
    requires !AllSpace(s)
    ensures Fields(s) != [] && BeginsWithRun(s, gap, Fields(s)[0], rest)
    ensures Fields(s)[1..] == Fields(rest) && |rest| < |s|
  {
    hide TrimLeft, WordLength, IsSpace;
    NoFields(s);
    gap := TrimLeftGap(s);
    var t := TrimLeft(s);
    var n := WordLength(t);
    rest := t[n..];
    assert t == t[..n] + rest;
    assert s == gap + (t[..n] + rest) == gap + t[..n] + rest;
  }

  /** The fields of a text are its maximal runs of non-space characters, and it has no others. */
  lemma {:induction false} FieldsExactlyTheRuns(s: string, words: seq<string>)
    ensures words == Fields(s) <==> AreRuns(s, words)
    decreases |s|
  {
    hide Fields, BeginsWithRun, AllSpace;
    NoFields(s);
    if words != [] {
      if words == Fields(s) {
        var gap, rest := FirstRun(s);
        FieldsExactlyTheRuns(rest, words[1..]);
      }
      if AreRuns(s, words) {
        var gap, rest :| BeginsWithRun(s, gap, words[0], rest) && AreRuns(rest, words[1..]);
        FirstField(s, gap, words[0], rest);
        ShorterRest(s, gap, words[0], rest);
        FieldsExactlyTheRuns(rest, words[1..]);
        assert words == [words[0]] + words[1..];
      }
    }
  }

  lemma ShorterRest(s: string, gap: string, word: string, rest: string)
    requires BeginsWithRun(s, gap, word, rest)
    ensures |rest| < |s|
  {
  }

  // ---------- Numbers ----------

  /** A decimal number without leading zeros. */
  lemma {:induction false} NumbersAreDecimal(n: nat)
    ensures AllDigits(FormatNat(n)) && DigitsValue(FormatNat(n)) == n
    ensures |FormatNat(n)| == 1 || FormatNat(n)[0] != '0'
  {
    if n >= 10 {
      NumbersAreDecimal(n / 10);
      assert |FormatNat(n)| == |FormatNat(n / 10)| + 1 && FormatNat(n)[0] == FormatNat(n / 10)[0];
      if |FormatNat(n / 10)| == 1 {
        OneDigit(n / 10);
      }
    }
  }

  lemma OneDigit(n: nat)
    requires n > 0 && |FormatNat(n)| == 1
    ensures FormatNat(n)[0] != '0'
  {
  }

  lemma SignsAreWritten(n: int)
    ensures FormatInt(n) == if n < 0 then "-" + FormatNat(-n) else FormatNat(n)
  {
  }

  lemma TenIsOneZero()
    ensures FormatNat(10) == "10" && ToLower("AZaz09[") == "azaz09["
  {
  }

  /** The spaces, by their codes. */
  lemma SpacesWrittenOut(c: char)
    ensures IsSpace(c) <==> 9 <= c as int <= 13 || c as int == 32
  {
  }
}
