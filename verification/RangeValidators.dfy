/**
 The validators of range settings.

 A range is a number "N" or two ascending numbers "N-M", in decimal. Times, paddings and counts are
 16-bit ranges; a header is a 32-bit range or empty. Each validator splits its text at the dashes and
 names what is wrong with it; the predicates say what a range is without splitting the text, and the
 theorems that a text is accepted exactly when it is one.
 */
module RangeValidators {
  import opened Wrappers
  import opened Text

  const MAX_U16 := 0xFFFF
  const MAX_U32 := 0xFFFF_FFFF

  /** `s` is a decimal number up to `limit`, of value `n`. */
  ghost predicate IsNumber(s: string, limit: nat, n: nat) {
    s != "" && AllDigits(s) && DigitsValue(s) == n <= limit
  }

  /** `s` is a number, or two ascending numbers joined by a dash. */
  ghost predicate IsRange(s: string, limit: nat) {
    || (exists n: nat :: IsNumber(s, limit, n))
    || (exists low, high :: s == low + "-" + high && IsAscending(low, high, limit))
  }

  ghost predicate IsAscending(low: string, high: string, limit: nat) {
    exists n: nat, m: nat :: IsNumber(low, limit, n) && IsNumber(high, limit, m) && n <= m
  }

  datatype RangeError = NotARange | OutOfBounds | Descending

  // ---------- Ranges and their parts ----------

  lemma TrimmedAlready(s: string)
    requires s != "" && !IsSpace(s[0]) && !IsSpace(s[|s| - 1])
    ensures TrimSpace(s) == s
  {
  }

  lemma NoDashNoSplit(s: string)
    requires '-' !in s
    ensures Split(s, "-") == [s]
  {
    forall j | 0 <= j < |s| ensures !OccursAt(s, "-", j) {
      assert s[j..j + 1][0] == s[j];
    }
  }

  lemma SplitAtDash(low: string, high: string)
    requires '-' !in low && '-' !in high
    ensures Split(low + "-" + high, "-") == [low, high]
  {
    var s := low + "-" + high;
    assert OccursAt(s, "-", |low|);
    forall j | 0 <= j < |low| ensures !OccursAt(s, "-", j) {
      assert s[j..j + 1][0] == low[j];
    }
    IndexUnique(s, "-", |low|);
    assert s[..|low|] == low && s[|low| + 1..] == high;
    NoDashNoSplit(high);
  }

  lemma NumbersHaveNoDash(s: string, limit: nat, n: nat)
    requires IsNumber(s, limit, n)
    ensures '-' !in s && TrimSpace(s) == s && s[0] != '+' && !IsSpace(s[0]) && !IsSpace(s[|s| - 1])
  {
    assert IsDigit(s[0]) && IsDigit(s[|s| - 1]);
    TrimmedAlready(s);
  }

  ghost predicate IsRangeOf(parts: seq<string>, limit: nat) {
    || (|parts| == 1 && exists n: nat :: IsNumber(parts[0], limit, n))
    || (|parts| == 2 && IsAscending(parts[0], parts[1], limit))
  }

  /** Whether a text is a range can be read off its parts between dashes. */
  lemma RangeOfParts(s: string, limit: nat)
    ensures IsRange(s, limit) <==> IsRangeOf(Split(s, "-"), limit)
  {
    var parts := Split(s, "-");
    JoinSplit(s, "-");
    if |parts| == 2 {
      JoinCons(parts[0], parts[1..], "-");
      assert parts == [parts[0]] + parts[1..];
      assert s == parts[0] + "-" + parts[1];
    }
    if n: nat :| IsNumber(s, limit, n) {
      NumbersHaveNoDash(s, limit, n);
      NoDashNoSplit(s);
    }
    if low, high :| s == low + "-" + high && IsAscending(low, high, limit) {
      var n: nat, m: nat :| IsNumber(low, limit, n) && IsNumber(high, limit, m) && n <= m;
      NumbersHaveNoDash(low, limit, n);
      NumbersHaveNoDash(high, limit, m);
      SplitAtDash(low, high);
    }
  }

  lemma RangesHaveNoBlanks(s: string, limit: nat)
    requires IsRange(s, limit)
    ensures TrimSpace(s) == s
  {
    if n: nat :| IsNumber(s, limit, n) {
      NumbersHaveNoDash(s, limit, n);
    } else {
      var low, high :| s == low + "-" + high && IsAscending(low, high, limit);
      var n: nat, m: nat :| IsNumber(low, limit, n) && IsNumber(high, limit, m) && n <= m;
      NumbersHaveNoDash(low, limit, n);
      NumbersHaveNoDash(high, limit, m);
      TrimmedAlready(s);
    }
  }

  /** A part that is trimmed away, signed or no number within the limit spoils the range. */
  lemma BadPart(s: string, limit: nat, i: nat)
    requires i < |Split(s, "-")|
    requires var part := Split(s, "-")[i];
      part == "" || TrimSpace(part) != part || part[0] == '+' || ParseUint(part, limit).None?
    ensures !IsRange(s, limit)
  {
    RangeOfParts(s, limit);
    var parts := Split(s, "-");
    if IsRangeOf(parts, limit) {
      var n: nat :| IsNumber(parts[i], limit, n);
      NumbersHaveNoDash(parts[i], limit, n);
    }
  }

  /** When every part is a number, only their number and order matter. */
  lemma NumberParts(s: string, limit: nat, bounds: seq<nat>)
    requires |bounds| == |Split(s, "-")|
    requires forall k :: 0 <= k < |bounds| ==> ParseUint(Split(s, "-")[k], limit) == Some(bounds[k])
    ensures IsRange(s, limit) <==> |bounds| == 1 || (|bounds| == 2 && bounds[0] <= bounds[1])
  {
    RangeOfParts(s, limit);
    var parts := Split(s, "-");
    if |bounds| == 1 {
      assert IsNumber(parts[0], limit, bounds[0]);
    } else if |bounds| == 2 {
      assert IsNumber(parts[0], limit, bounds[0]) && IsNumber(parts[1], limit, bounds[1]);
      assert IsAscending(parts[0], parts[1], limit) <==> bounds[0] <= bounds[1];
    }
  }

  lemma ZeroIsARange()
    ensures IsRange("0", MAX_U32)
  {
    var s := ['0'];
    assert s[..0] == "";
    assert IsNumber(s, MAX_U32, 0);
  }

  // ---------- Why a text is refused ----------

  /** Two numbers within the limit, the larger one first. */
  ghost predicate IsDescending(s: string, limit: nat) {
    exists low, high :: s == low + "-" + high && AreDescending(low, high, limit)
  }

  ghost predicate AreDescending(low: string, high: string, limit: nat) {
    exists n: nat, m: nat :: IsNumber(low, limit, n) && IsNumber(high, limit, m) && n > m
  }

  predicate Malformed(part: string) { part == "" || TrimSpace(part) != part || part[0] == '+' }

  /** The i-th part is the first that is malformed or no number within the limit. */
  ghost predicate FirstBad(parts: seq<string>, limit: nat, i: nat) {
    && i < |parts| && (Malformed(parts[i]) || ParseUint(parts[i], limit).None?)
    && forall j :: 0 <= j < i ==> !Malformed(parts[j]) && ParseUint(parts[j], limit).Some?
  }

  lemma DescendingParts(s: string, limit: nat, n: nat, m: nat)
    requires |Split(s, "-")| == 2
    requires ParseUint(Split(s, "-")[0], limit) == Some(n) && ParseUint(Split(s, "-")[1], limit) == Some(m)
    requires n > m
    ensures IsDescending(s, limit)
  {
    var parts := Split(s, "-");
    JoinSplit(s, "-");
    JoinCons(parts[0], parts[1..], "-");
    assert parts == [parts[0]] + parts[1..];
    assert s == parts[0] + "-" + parts[1];
    assert IsNumber(parts[0], limit, n) && IsNumber(parts[1], limit, m);
  }

  // ---------- The validators ----------

  /** "N" or "N-M" with 0 <= N <= M <= 65535; blanks and signs are refused. */
  method ValidateU16Range(value: string) returns (error: Option<RangeError>)
    ensures error.None? <==> IsRange(value, 65535)
    ensures error == Some(Descending) ==> IsDescending(value, 65535)
    ensures |Split(value, "-")| > 2 ==> error == Some(NotARange)
    ensures error.Some? && error != Some(Descending) && |Split(value, "-")| <= 2 ==>
      exists i: nat :: FirstBad(Split(value, "-"), 65535, i)
        && error == Some(if Malformed(Split(value, "-")[i]) then NotARange else OutOfBounds)
  {
    hide IsRange, ParseUint, TrimSpace;
    var parts := Split(value, "-");
    if |parts| > 2 {
      RangeOfParts(value, MAX_U16);
      return Some(NotARange);
    }
    var bounds: seq<nat> := [];
    var i := 0;
    while i < |parts|
      invariant i <= |parts| && |bounds| == i
      invariant forall k :: 0 <= k < i ==> !Malformed(parts[k]) && ParseUint(parts[k], MAX_U16) == Some(bounds[k])
    {
      var part := parts[i];
      if part == "" || TrimSpace(part) != part || part[0] == '+' {
        BadPart(value, MAX_U16, i);
        assert FirstBad(parts, MAX_U16, i);
        return Some(NotARange);
      }
      var n := ParseUint(part, MAX_U16);
      if n.None? {
        BadPart(value, MAX_U16, i);
        assert FirstBad(parts, MAX_U16, i);
        return Some(OutOfBounds);
      }
      bounds := bounds + [n.value];
      i := i + 1;
    }
    NumberParts(value, MAX_U16, bounds);
    if bounds[0] > bounds[|bounds| - 1] {
      DescendingParts(value, MAX_U16, bounds[0], bounds[1]);
      return Some(Descending);
    }
    return None;
  }

  /** Unset ("" or "0"), or a range of 32-bit header values. */
  method ValidateHeaderRange(value: string) returns (error: Option<RangeError>)
    ensures error.None? <==> value == "" || IsRange(value, 4294967295)
    ensures error == Some(Descending) ==> IsDescending(value, 4294967295)
    ensures error == Some(NotARange) <==>
      value != "" && (TrimSpace(value) != value || |Split(value, "-")| > 2 || "" in Split(value, "-"))
    ensures error == Some(OutOfBounds) ==>
      exists i :: 0 <= i < |Split(value, "-")| && ParseUint(Split(value, "-")[i], 4294967295).None?
  {
    hide IsRange, ParseUint, TrimSpace;
    if value == "" {
      return None;
    }
    if value == "0" {
      ZeroIsARange();
      RangesHaveNoBlanks(value, MAX_U32);
      NoDashNoSplit(value);
      return None;
    }
    if TrimSpace(value) != value {
      if IsRange(value, MAX_U32) {
        RangesHaveNoBlanks(value, MAX_U32);
      }
      return Some(NotARange);
    }
    var parts := Split(value, "-");
    if |parts| > 2 || parts[0] == "" || (|parts| == 2 && parts[1] == "") {
      if |parts| > 2 {
        RangeOfParts(value, MAX_U32);
      } else {
        BadPart(value, MAX_U32, if parts[0] == "" then 0 else 1);
      }
      return Some(NotARange);
    }
    var lower := ParseUint(parts[0], MAX_U32);
    if lower.None? {
      BadPart(value, MAX_U32, 0);
      return Some(OutOfBounds);
    }
    if |parts| == 1 {
      NumberParts(value, MAX_U32, [lower.value]);
      return None;
    }
    var upper := ParseUint(parts[1], MAX_U32);
    if upper.None? {
      BadPart(value, MAX_U32, 1);
      return Some(OutOfBounds);
    }
    NumberParts(value, MAX_U32, [lower.value, upper.value]);
    if upper.value < lower.value {
      DescendingParts(value, MAX_U32, lower.value, upper.value);
      return Some(Descending);
    }
    return None;
  }
}
