/** The compact text of the legacy traffic query: "tag,direction,value;" for every positive value, by tag. */
module TrafficReport {
  import opened Text

  // ---------- Sorted tags ----------

  /** sort.Strings order. */
  predicate Before(a: string, b: string) {
    b != "" && (a == "" || a[0] < b[0] || (a[0] == b[0] && Before(a[1..], b[1..])))
  }

  lemma {:induction false} BeforeIsTotal(a: string, b: string)
    ensures a == b || Before(a, b) || Before(b, a)
    ensures !(Before(a, b) && Before(b, a))
    ensures !Before(a, a)
    decreases |a| + |b|
  {
    if a != "" && b != "" && a[0] == b[0] {
      BeforeIsTotal(a[1..], b[1..]);
      assert a == [a[0]] + a[1..] && b == [b[0]] + b[1..];
    }
    if a != "" {
      BeforeItself(a);
    }
  }

  lemma {:induction false} BeforeItself(a: string)
    ensures !Before(a, a)
  {
    if a != "" {
      BeforeItself(a[1..]);
    }
  }

  lemma {:induction false} BeforeIsTransitive(a: string, b: string, c: string)
    requires Before(a, b) && Before(b, c)
    ensures Before(a, c)
  {
    if a != "" && a[0] == b[0] && b[0] == c[0] {
      BeforeIsTransitive(a[1..], b[1..], c[1..]);
    }
  }

  /** After a common start `a` ends, or goes on with the smaller character. */
  ghost predicate SmallerAt(a: string, b: string, k: nat) {
    k <= |a| && k < |b| && a[..k] == b[..k] && (k == |a| || a[k] < b[k])
  }

  ghost predicate InByteOrder(a: string, b: string) { exists k: nat :: SmallerAt(a, b, k) }

  /** The order is that of bytes from the left, a shorter text first. */
  lemma {:induction false} BeforeExactlyWhen(a: string, b: string)
    ensures Before(a, b) <==> InByteOrder(a, b)
  {
    if b != "" && (a == "" || a[0] < b[0]) {
      assert SmallerAt(a, b, 0);
    } else if a != "" && b != "" && a[0] == b[0] {
      BeforeExactlyWhen(a[1..], b[1..]);
      if k: nat :| SmallerAt(a[1..], b[1..], k) {
        assert a[..k + 1] == [a[0]] + a[1..][..k] && b[..k + 1] == [b[0]] + b[1..][..k];
        assert SmallerAt(a, b, k + 1);
      }
      if k: nat :| SmallerAt(a, b, k) {
        assert k > 0;
        assert a[1..][..k - 1] == a[..k][1..] && b[1..][..k - 1] == b[..k][1..];
        assert SmallerAt(a[1..], b[1..], k - 1);
      }
    } else {
      forall k: nat ensures !SmallerAt(a, b, k) {
        if a != "" && b != "" && 0 < k <= |a| && k < |b| {
          assert a[..k][0] == a[0] && b[..k][0] == b[0];
        }
      }
    }
  }

  /** Ascending, without repeats. */
  ghost predicate Ascending(tags: seq<string>) {
    forall i, j :: 0 <= i < j < |tags| ==> Before(tags[i], tags[j])
  }

  /** `tags` lists `keys` in order. */
  ghost predicate Lists(tags: seq<string>, keys: set<string>) {
    Ascending(tags) && forall t :: t in tags <==> t in keys
  }

  function Insert(tags: seq<string>, t: string): seq<string> {
    if tags == [] || Before(t, tags[0]) then [t] + tags else [tags[0]] + Insert(tags[1..], t)
  }

  lemma {:induction false} InsertKeepsOrder(tags: seq<string>, t: string)
    requires Ascending(tags) && t !in tags
    ensures Ascending(Insert(tags, t))
    ensures forall x :: x in Insert(tags, t) <==> x == t || x in tags
  {
    hide Before;
    if tags != [] {
      var first, rest := tags[0], tags[1..];
      assert tags == [first] + rest;
      if Before(t, first) {
        forall j | 0 <= j < |tags| ensures Before(t, tags[j]) {
          if j > 0 {
            BeforeIsTransitive(t, first, tags[j]);
          }
        }
      } else {
        BeforeIsTotal(t, first);
        assert Ascending(rest) by {
          assert forall j :: 0 <= j < |rest| ==> rest[j] == tags[j + 1];
        }
        InsertKeepsOrder(rest, t);
        AscendingCons(first, Insert(rest, t), tags);
      }
    }
  }

  lemma AscendingCons(first: string, rest: seq<string>, tags: seq<string>)
    requires Ascending(rest) && forall x :: x in rest ==> Before(first, x)
    ensures Ascending([first] + rest)
  {
    hide Before;
    var all := [first] + rest;
    forall i, j | 0 <= i < j < |all| ensures Before(all[i], all[j]) {
      assert all[j] == rest[j - 1] && rest[j - 1] in rest;
      assert i > 0 ==> all[i] == rest[i - 1];
    }
  }

  /** A set has one listing. */
  lemma {:induction false} ListingIsDetermined(a: seq<string>, b: seq<string>, keys: set<string>)
    requires Lists(a, keys) && Lists(b, keys)
    ensures a == b
    decreases |a|
  {
    hide Before;
    assert a != [] ==> a[0] in a;
    assert b != [] ==> b[0] in b;
    if a != [] {
      assert a[0] in b && b[0] in a;
      SameFirst(a, b);
      WithoutFirst(a, keys);
      WithoutFirst(b, keys);
      ListingIsDetermined(a[1..], b[1..], keys - {a[0]});
      assert a == [a[0]] + a[1..] && b == [b[0]] + b[1..];
    }
  }

  lemma SameFirst(a: seq<string>, b: seq<string>)
    requires Ascending(a) && Ascending(b) && a != [] && b != [] && a[0] in b && b[0] in a
    ensures a[0] == b[0]
  {
    hide Before;
    var i :| 0 <= i < |b| && b[i] == a[0];
    var j :| 0 <= j < |a| && a[j] == b[0];
    BeforeIsTotal(a[0], b[0]);
  }

  lemma WithoutFirst(tags: seq<string>, keys: set<string>)
    requires Lists(tags, keys) && tags != []
    ensures Lists(tags[1..], keys - {tags[0]})
  {
    hide Before;
    var first, rest := tags[0], tags[1..];
    assert forall j :: 0 <= j < |rest| ==> rest[j] == tags[j + 1];
    forall t ensures t in rest <==> t in keys && t != first {
      if t in rest {
        var j :| 0 <= j < |rest| && rest[j] == t;
        assert tags[j + 1] in tags && Before(first, tags[j + 1]);
        BeforeItself(first);
      }
    }
  }

  method SortTags(keys: set<string>) returns (tags: seq<string>)
    ensures Lists(tags, keys)
  {
    hide Before, Insert;
    tags := [];
    var remaining := keys;
    while remaining != {}
      invariant remaining <= keys && Lists(tags, keys - remaining)
    {
      var t :| t in remaining;
      InsertKeepsOrder(tags, t);
      tags := Insert(tags, t);
      remaining := remaining - {t};
    }
    assert keys - remaining == keys;
  }

  // ---------- The text ----------

  datatype Row = Row(tag: string, uplink: int, downlink: int)

  function Part(tag: string, direction: string, value: int): string {
    if value <= 0 then "" else tag + "," + direction + "," + FormatInt(value) + ";"
  }

  /** The text of rows: both directions of each, the uplink first, positive values only. */
  function Print(rows: seq<Row>): string {
    if rows == [] then ""
    else
      var last := rows[|rows| - 1];
      Print(rows[..|rows| - 1]) + Part(last.tag, "uplink", last.uplink) + Part(last.tag, "downlink", last.downlink)
  }

  lemma PrintOneMore(rows: seq<Row>, i: nat)
    requires i < |rows|
    ensures Print(rows[..i + 1]) ==
      Print(rows[..i]) + Part(rows[i].tag, "uplink", rows[i].uplink) + Part(rows[i].tag, "downlink", rows[i].downlink)
  {
    hide Part;
    assert rows[..i + 1][..i] == rows[..i];
  }
}
