/**
 Redis sorted sets: members ordered by score and then by their bytes. The member is the
 encoded message, which contains its score, so an entry is determined by its member.
 */
module SortedSets {

  datatype Entry = Entry(score: int, member: string)

  /** Byte order of two members from position `i` on. */
  predicate LexLess(a: string, b: string, i: nat)
    requires i <= |a| && i <= |b|
    decreases |a| - i
  {
    if i == |b| then false
    else if i == |a| then true
    else if a[i] != b[i] then a[i] < b[i]
    else LexLess(a, b, i + 1)
  }

  predicate Less(a: Entry, b: Entry) {
    a.score < b.score || (a.score == b.score && LexLess(a.member, b.member, 0))
  }

  lemma {:induction false} LexTotal(a: string, b: string, i: nat)
    requires i <= |a| && i <= |b| && a[..i] == b[..i]
    ensures LexLess(a, b, i) || LexLess(b, a, i) || a == b
    decreases |a| - i
  {
    if i == |a| && i == |b| {
      assert a == a[..i] && b == b[..i];
    } else if i < |a| && i < |b| && a[i] == b[i] {
      assert a[..i + 1] == a[..i] + [a[i]] && b[..i + 1] == b[..i] + [b[i]];
      LexTotal(a, b, i + 1);
    }
  }

  lemma {:induction false} LexAsymmetric(a: string, b: string, i: nat)
    requires i <= |a| && i <= |b| && LexLess(a, b, i)
    ensures !LexLess(b, a, i) && a != b
    decreases |a| - i
  {
    if i < |a| && a[i] == b[i] {
      LexAsymmetric(a, b, i + 1);
    }
  }

  lemma {:induction false} LexTransitive(a: string, b: string, c: string, i: nat)
    requires i <= |a| && i <= |b| && i <= |c| && LexLess(a, b, i) && LexLess(b, c, i)
    ensures LexLess(a, c, i)
    decreases |a| - i
  {
    if i < |a| && a[i] == b[i] && b[i] == c[i] {
      LexTransitive(a, b, c, i + 1);
    }
  }

  lemma LessTotal(a: Entry, b: Entry)
    ensures Less(a, b) || Less(b, a) || a == b
  {
    LexTotal(a.member, b.member, 0);
  }

  lemma LessAsymmetric(a: Entry, b: Entry)
    requires Less(a, b)
    ensures !Less(b, a) && a != b
  {
    if a.score == b.score {
      LexAsymmetric(a.member, b.member, 0);
    }
  }

  lemma LessTransitive(a: Entry, b: Entry, c: Entry)
    requires Less(a, b) && Less(b, c)
    ensures Less(a, c)
  {
    if a.score == b.score == c.score {
      LexTransitive(a.member, b.member, c.member, 0);
    }
  }

  ghost predicate Sorted(z: seq<Entry>) {
    forall i, j :: 0 <= i < j < |z| ==> Less(z[i], z[j])
  }

  /** Sorted sets with the same members are the same sequence. */
  lemma {:induction false} SortedUnique(x: seq<Entry>, y: seq<Entry>)
    requires Sorted(x) && Sorted(y) && forall e :: e in x <==> e in y
    ensures x == y
    decreases |x|
  {
    if x == [] {
      if y != [] {
        HasMember(y);
        assert false;
      }
    } else {
      assert x[0] in y;
      assert y[0] in x;
      FirstIsLeast(x, y[0]);
      FirstIsLeast(y, x[0]);
      if x[0] != y[0] { LessAsymmetric(x[0], y[0]); }
      forall e ensures e in x[1..] <==> e in y[1..] {
        InTail(x, e);
        InTail(y, e);
      }
      SortedUnique(x[1..], y[1..]);
      assert x == [x[0]] + x[1..] && y == [y[0]] + y[1..];
    }
  }

  lemma HasMember(y: seq<Entry>)
    requires y != []
    ensures exists e :: e in y
  {
    assert y[0] in y;
  }

  lemma FirstIsLeast(x: seq<Entry>, e: Entry)
    requires Sorted(x) && e in x
    ensures e == x[0] || Less(x[0], e)
  {
  }

  lemma InTail(x: seq<Entry>, e: Entry)
    requires Sorted(x) && x != []
    ensures e in x[1..] <==> e in x && e != x[0]
  {
    forall i | 0 < i < |x| ensures x[i] != x[0] {
      LessAsymmetric(x[0], x[i]);
    }
    if e in x && e != x[0] {
      var i :| 0 <= i < |x| && x[i] == e;
      assert x[1..][i - 1] == e;
    }
  }

  // ---------- the operations ----------

  /** How many entries are below `e`, from position `i` on. */
  function Rank(z: seq<Entry>, e: Entry, i: nat): (r: nat)
    requires i <= |z|
    ensures i <= r <= |z|
    decreases |z| - i
  {
    if i < |z| && Less(z[i], e) then Rank(z, e, i + 1) else i
  }

  function Inserted(z: seq<Entry>, e: Entry): seq<Entry> {
    var r := Rank(z, e, 0);
    if r < |z| && z[r] == e then z else z[..r] + [e] + z[r..]
  }

  /** The first `n` entries less those of `member`. */
  function Without(z: seq<Entry>, member: string, n: nat): seq<Entry>
    requires n <= |z|
  {
    if n == 0 then []
    else if z[n - 1].member == member then Without(z, member, n - 1)
    else Without(z, member, n - 1) + [z[n - 1]]
  }

  /** A member has one score: adding it again moves it. */
  function Added(z: seq<Entry>, e: Entry): seq<Entry> {
    Inserted(Without(z, e.member, |z|), e)
  }

  /** Without the entries whose score is at most `cutoff`. */
  function Trimmed(z: seq<Entry>, cutoff: int): seq<Entry> {
    z[Below(z, cutoff + 1, 0)..]
  }

  /** The entries whose score is at least `since`. */
  function From(z: seq<Entry>, since: int): seq<Entry> {
    z[Below(z, since, 0)..]
  }

  /** The first position from `i` on whose score is at least `score`. */
  function Below(z: seq<Entry>, score: int, i: nat): (r: nat)
    requires i <= |z|
    ensures i <= r <= |z|
    decreases |z| - i
  {
    if i < |z| && z[i].score < score then Below(z, score, i + 1) else i
  }

  /** The `count` greatest entries. */
  function Top(z: seq<Entry>, count: nat): seq<Entry> {
    if |z| <= count then z else z[|z| - count..]
  }

  lemma {:induction false} RankSplits(z: seq<Entry>, e: Entry, i: nat)
    requires Sorted(z) && i <= |z| && forall k :: 0 <= k < i ==> Less(z[k], e)
    ensures var r := Rank(z, e, i);
            && (forall k :: 0 <= k < r ==> Less(z[k], e))
            && (forall k :: r <= k < |z| ==> z[k] == e || Less(e, z[k]))
    decreases |z| - i
  {
    if i < |z| && Less(z[i], e) {
      RankSplits(z, e, i + 1);
    } else if i < |z| {
      LessTotal(z[i], e);
      forall k | i < k < |z| ensures Less(e, z[k]) {
        if z[i] != e { LessTransitive(e, z[i], z[k]); }
      }
    }
  }

  /** The rank is the only split of `z` into entries below `e` and the others. */
  lemma {:induction false} RankIs(z: seq<Entry>, e: Entry, i: nat, r: nat)
    requires i <= r <= |z| && (forall k :: i <= k < r ==> Less(z[k], e)) && (r < |z| ==> !Less(z[r], e))
    ensures Rank(z, e, i) == r
    decreases r - i
  {
    if i < r {
      RankIs(z, e, i + 1, r);
    }
  }

  lemma InsertedSorted(z: seq<Entry>, e: Entry)
    requires Sorted(z)
    ensures Sorted(Inserted(z, e)) && forall x :: x in Inserted(z, e) <==> x in z || x == e
  {
    RankSplits(z, e, 0);
    hide Less, Rank;
    var r := Rank(z, e, 0);
    if r < |z| && z[r] == e {
    } else {
      forall k | r <= k < |z| ensures Less(e, z[k]) {
        if z[k] == e { LessAsymmetric(z[r], z[k]); }
      }
      BetweenSorted(z, e, r);
      InsertedMembers(z, e, r);
    }
  }

  lemma BetweenSorted(z: seq<Entry>, e: Entry, r: nat)
    requires Sorted(z) && r <= |z|
    requires (forall k :: 0 <= k < r ==> Less(z[k], e)) && (forall k :: r <= k < |z| ==> Less(e, z[k]))
    ensures Sorted(z[..r] + [e] + z[r..])
  {
    hide Less;
  }

  lemma InsertedMembers(z: seq<Entry>, e: Entry, r: nat)
    requires r <= |z|
    ensures forall x :: x in z[..r] + [e] + z[r..] <==> x in z || x == e
  {
    assert z == z[..r] + z[r..];
  }

  lemma {:induction false} WithoutSorted(z: seq<Entry>, member: string, n: nat)
    requires Sorted(z) && n <= |z|
    ensures Sorted(Without(z, member, n))
    ensures forall x :: x in Without(z, member, n) <==> x in z[..n] && x.member != member
  {
    hide Less;
    if n > 0 {
      WithoutSorted(z, member, n - 1);
      assert z[..n] == z[..n - 1] + [z[n - 1]];
      var before := Without(z, member, n - 1);
      forall i | 0 <= i < |before| ensures Less(before[i], z[n - 1]) {
        assert before[i] in before;
        var k :| 0 <= k < n - 1 && z[k] == before[i];
      }
    }
  }

  /** Adding keeps the set sorted; it holds the entry, and of the others those of other members. */
  lemma AddedSorted(z: seq<Entry>, e: Entry)
    requires Sorted(z)
    ensures Sorted(Added(z, e)) && forall x :: x in Added(z, e) <==> x == e || (x in z && x.member != e.member)
  {
    hide Inserted, Sorted;
    WithoutSorted(z, e.member, |z|);
    InsertedSorted(Without(z, e.member, |z|), e);
    assert z[..|z|] == z;
  }

  /** The set does not hold the entry's member under another score. */
  ghost predicate Agrees(z: seq<Entry>, e: Entry) {
    forall x :: x in z && x.member == e.member ==> x == e
  }

  /** Where a member fixes its score, adding is inserting. */
  lemma AddedIsInserted(z: seq<Entry>, e: Entry)
    requires Sorted(z) && Agrees(z, e)
    ensures Added(z, e) == Inserted(z, e)
  {
    hide Inserted, Added, Sorted;
    AddedSorted(z, e);
    InsertedSorted(z, e);
    SortedUnique(Added(z, e), Inserted(z, e));
  }

  ghost predicate OneScoreEach(z: seq<Entry>) {
    forall x, y :: x in z && y in z && x.member == y.member ==> x == y
  }

  /** No member is ever there twice. */
  lemma AddedOnce(z: seq<Entry>, e: Entry)
    requires Sorted(z) && OneScoreEach(z)
    ensures OneScoreEach(Added(z, e))
  {
    hide Added, Sorted;
    AddedSorted(z, e);
  }

  lemma {:induction false} BelowSplits(z: seq<Entry>, score: int, i: nat)
    requires Sorted(z) && i <= |z| && forall k :: 0 <= k < i ==> z[k].score < score
    ensures var r := Below(z, score, i);
            && (forall k :: 0 <= k < r ==> z[k].score < score)
            && (forall k :: r <= k < |z| ==> z[k].score >= score)
    decreases |z| - i
  {
    if i < |z| && z[i].score < score {
      BelowSplits(z, score, i + 1);
    } else {
      assert forall k :: i < k < |z| ==> Less(z[i], z[k]);
    }
  }

  lemma FromSorted(z: seq<Entry>, since: int)
    requires Sorted(z)
    ensures Sorted(From(z, since)) && forall x :: x in From(z, since) <==> x in z && x.score >= since
  {
    BelowSplits(z, since, 0);
    var r := Below(z, since, 0);
    forall x | x in z && x.score >= since ensures x in From(z, since) {
      var k :| 0 <= k < |z| && z[k] == x;
      assert From(z, since)[k - r] == x;
    }
  }

  lemma TrimmedSorted(z: seq<Entry>, cutoff: int)
    requires Sorted(z)
    ensures Sorted(Trimmed(z, cutoff)) && forall x :: x in Trimmed(z, cutoff) <==> x in z && x.score > cutoff
  {
    FromSorted(z, cutoff + 1);
  }

  lemma NotBelow(z: seq<Entry>, e: Entry, k: nat)
    requires k < |z| && (z[k] == e || Less(e, z[k]))
    ensures !Less(z[k], e)
  {
    if Less(z[k], e) {
      LessAsymmetric(z[k], e);
    }
  }

  /** An entry below all of the greatest `count` does not enter them. */
  lemma TopInsertedLow(z: seq<Entry>, e: Entry, m: nat)
    requires Sorted(z) && m < |z| && Rank(z, e, 0) < m
    ensures Inserted(z[m..], e) == [e] + z[m..]
  {
    var r, top := Rank(z, e, 0), z[m..];
    RankSplits(z, e, 0);
    NotBelow(z, e, m);
    RankIs(top, e, 0, 0);
    assert top[0] == z[m];
    if z[r] == e {
      LessAsymmetric(e, z[m]);
    } else {
      LessTransitive(e, z[r], z[m]);
      LessAsymmetric(e, z[m]);
    }
  }

  lemma TopOfLonger(front: seq<Entry>, top: seq<Entry>)
    ensures Top(front + top, |top|) == top
  {
    assert (front + top)[|front|..] == top;
  }

  lemma TopOfAppended(x: seq<Entry>, y: seq<Entry>, count: nat)
    requires |y| >= count
    ensures Top(x + y, count) == Top(y, count)
  {
    assert (x + y)[|x| + (|y| - count)..] == y[|y| - count..];
  }

  lemma SortedAppend(x: seq<Entry>, y: seq<Entry>)
    requires Sorted(x) && Sorted(y) && forall a, b :: a in x && b in y ==> Less(a, b)
    ensures Sorted(x + y)
  {
    forall i, j | 0 <= i < j < |x + y| ensures Less((x + y)[i], (x + y)[j]) {
      if i < |x| <= j {
        assert x[i] in x && y[j - |x|] in y;
      }
    }
  }

  lemma LowBelow(low: seq<Entry>, top: seq<Entry>, e: Entry)
    requires Sorted(low + top) && |low| <= Rank(low + top, e, 0)
    ensures Sorted(low) && Sorted(top)
    ensures forall a, b :: a in low && (b in top || b == e) ==> Less(a, b)
  {
    var z := low + top;
    RankSplits(z, e, 0);
    assert forall i :: 0 <= i < |low| ==> z[i] == low[i];
    assert forall j :: 0 <= j < |top| ==> z[|low| + j] == top[j];
  }

  /** An entry that is not below the first `|low|` is inserted among the rest. */
  lemma InsertedAfter(low: seq<Entry>, top: seq<Entry>, e: Entry)
    requires Sorted(low + top) && |low| <= Rank(low + top, e, 0)
    ensures Inserted(low + top, e) == low + Inserted(top, e)
  {
    LowBelow(low, top, e);
    InsertedSorted(low + top, e);
    InsertedSorted(top, e);
    SortedAppend(low, Inserted(top, e));
    SortedUnique(Inserted(low + top, e), low + Inserted(top, e));
  }

  lemma TopInsertedBoth(z: seq<Entry>, e: Entry, m: nat, count: nat)
    requires Sorted(z) && m <= Rank(z, e, 0) && m + count == |z|
    ensures Top(Inserted(z[m..], e), count) == Top(Inserted(z, e), count)
  {
    assert z == z[..m] + z[m..];
    InsertedAfter(z[..m], z[m..], e);
    TopOfAppended(z[..m], Inserted(z[m..], e), count);
  }

  lemma TopUnchanged(z: seq<Entry>, e: Entry, m: nat, count: nat)
    requires Rank(z, e, 0) < m && m + count == |z|
    ensures Top(Inserted(z, e), count) == z[m..]
  {
    var r := Rank(z, e, 0);
    if z[r] != e {
      var front := z[..r] + [e] + z[r..m];
      assert z[r..] == z[r..m] + z[m..];
      assert Inserted(z, e) == front + z[m..];
      TopOfLonger(front, z[m..]);
    }
  }

  lemma TopDropsLow(z: seq<Entry>, e: Entry, m: nat, count: nat)
    requires Sorted(z) && Rank(z, e, 0) < m && m + count == |z|
    ensures Top(Inserted(z[m..], e), count) == z[m..]
  {
    var top := z[m..];
    if m < |z| {
      TopInsertedLow(z, e, m);
    } else {
      assert Inserted(top, e) == [e] + top;
    }
    TopOfLonger([e], top);
  }

  lemma TopInsertedLong(z: seq<Entry>, e: Entry, m: nat, count: nat)
    requires Sorted(z) && m + count == |z|
    ensures Top(Inserted(z[m..], e), count) == Top(Inserted(z, e), count)
  {
    if m <= Rank(z, e, 0) {
      TopInsertedBoth(z, e, m, count);
    } else {
      TopUnchanged(z, e, m, count);
      TopDropsLow(z, e, m, count);
    }
  }

  /** Trimming to the greatest `count` before or after an insertion keeps the same entries. */
  lemma TopInserted(z: seq<Entry>, e: Entry, count: nat)
    requires Sorted(z)
    ensures Top(Inserted(Top(z, count), e), count) == Top(Inserted(z, e), count)
  {
    hide Rank, Inserted, Sorted;
    if |z| > count {
      assert Top(z, count) == z[|z| - count..];
      TopInsertedLong(z, e, |z| - count, count);
    }
  }

  // ---------- the imperative code ----------

  /** One sorted-set key and the commands on it. */
  class SortedSet {
    var entries: seq<Entry>

    constructor ()
      ensures entries == []
    {
      entries := [];
    }

    method ZAdd(e: Entry)
      modifies this
      ensures entries == Added(old(entries), e)
    {
      Remove(e.member);
      Insert(e);
    }

    method Remove(member: string)
      modifies this
      ensures entries == Without(old(entries), member, |old(entries)|)
    {
      var kept: seq<Entry> := [];
      for k := 0 to |entries|
        invariant entries == old(entries) && kept == Without(entries, member, k)
      {
        if entries[k].member != member {
          kept := kept + [entries[k]];
        }
      }
      entries := kept;
    }

    method Insert(e: Entry)
      modifies this
      ensures entries == Inserted(old(entries), e)
    {
      var r := 0;
      while r < |entries| && Less(entries[r], e)
        invariant 0 <= r <= |entries| && entries == old(entries)
        invariant Rank(entries, e, 0) == Rank(entries, e, r)
      {
        r := r + 1;
      }
      if r == |entries| || entries[r] != e {
        entries := entries[..r] + [e] + entries[r..];
      }
    }

    method CountBelow(score: int) returns (r: nat)
      ensures r == Below(entries, score, 0)
    {
      r := 0;
      while r < |entries| && entries[r].score < score
        invariant 0 <= r <= |entries|
        invariant Below(entries, score, 0) == Below(entries, score, r)
      {
        r := r + 1;
      }
    }

    method ZRemRangeByScore(max: int)
      modifies this
      ensures entries == Trimmed(old(entries), max)
    {
      var r := CountBelow(max + 1);
      entries := entries[r..];
    }

    method ZRangeByScore(min: int) returns (found: seq<Entry>)
      ensures found == From(entries, min)
    {
      var r := CountBelow(min);
      return entries[r..];
    }

    /** Remove by rank from 0 to -count-1, that is all but the last `count`. */
    method ZRemRangeByRank(count: nat)
      modifies this
      ensures entries == Top(old(entries), count)
    {
      if |entries| > count {
        entries := entries[|entries| - count..];
      }
    }

    /** The greatest `count` entries, greatest first. */
    method ZRevRange(count: nat) returns (found: seq<Entry>)
      ensures found == Reversed(Top(entries, count))
    {
      found := [];
      var i := 0;
      while i < count && i < |entries|
        invariant 0 <= i <= |entries| && i <= count && |found| == i
        invariant forall k :: 0 <= k < i ==> found[k] == entries[|entries| - 1 - k]
      {
        found := found + [entries[|entries| - 1 - i]];
        i := i + 1;
      }
    }
  }

  function Reversed(z: seq<Entry>): (r: seq<Entry>)
    ensures |r| == |z| && forall k :: 0 <= k < |z| ==> r[k] == z[|z| - 1 - k]
  {
    seq(|z|, k requires 0 <= k < |z| => z[|z| - 1 - k])
  }
}
