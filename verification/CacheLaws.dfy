/** What a read of the newest feedback returns, said of the events alone. */
module CacheLaws {
  import opened SortedSets
  import opened RedisCache

  /** `a` and `b` agree before position `k`, and there `a` ends or has the smaller byte. */
  predicate SmallerAt(a: string, b: string, k: nat) {
    && k <= |a| && k < |b| && a[..k] == b[..k]
    && (k == |a| || a[k] < b[k])
  }

  /** Members compare at the first byte where they differ; a member comes before its continuations. */
  lemma {:induction false} LexIff(a: string, b: string, i: nat)
    requires i <= |a| && i <= |b| && a[..i] == b[..i]
    ensures LexLess(a, b, i) <==> exists k: nat :: i <= k && SmallerAt(a, b, k)
    decreases |a| - i
  {
    if i < |a| && i < |b| && a[i] == b[i] {
      assert a[..i + 1] == a[..i] + [a[i]] && b[..i + 1] == b[..i] + [b[i]];
      LexIff(a, b, i + 1);
      assert !SmallerAt(a, b, i);
    } else if LexLess(a, b, i) {
      assert SmallerAt(a, b, i);
    } else if k: nat :| i <= k && SmallerAt(a, b, k) {
      if i < k {
        AgreeBelow(a, b, k, i);
      }
    }
  }

  lemma AgreeBelow(a: string, b: string, k: nat, i: nat)
    requires SmallerAt(a, b, k) && i < k
    ensures a[i] == b[i]
  {
    assert a[i] == a[..k][i] && b[i] == b[..k][i];
  }

  function AsSet(events: seq<Entry>): set<Entry> {
    set e | e in events
  }

  lemma {:induction false} SortedSize(z: seq<Entry>)
    requires Sorted(z)
    ensures |AsSet(z)| == |z|
  {
    hide Less;
    if z != [] {
      var last := z[|z| - 1];
      SortedSize(z[..|z| - 1]);
      LastIsNew(z);
      assert AsSet(z) == AsSet(z[..|z| - 1]) + {last};
    }
  }

  lemma LastIsNew(z: seq<Entry>)
    requires Sorted(z) && z != []
    ensures z[|z| - 1] !in z[..|z| - 1]
  {
    forall i | 0 <= i < |z| - 1 ensures z[i] != z[|z| - 1] {
      assert Less(z[i], z[|z| - 1]);
      LessIsStrict(z[i], z[|z| - 1]);
    }
  }

  lemma LessIsStrict(a: Entry, b: Entry)
    requires Less(a, b)
    ensures a != b
  {
    if a == b {
      NotBeforeItself(a.member, 0);
    }
  }

  lemma {:induction false} NotBeforeItself(a: string, i: nat)
    requires i <= |a|
    ensures !LexLess(a, a, i)
    decreases |a| - i
  {
    if i < |a| {
      NotBeforeItself(a, i + 1);
    }
  }

  function Fewer(a: nat, b: nat): nat {
    if a < b then a else b
  }

  /**
   The newest feedback, said of the events: after any run of stores, with repeats and in any order, a read of
   up to ten returns `count` of the distinct events, or all when there are fewer, from the greatest
   down, and every event that it leaves out comes before every one that it returns.
   */
  lemma NewestAreGreatest(events: seq<Entry>, count: nat)
    requires count <= 10 && EventScoresFixed(events)
    ensures var read := Reversed(Top(RecentFeedback(events, |events|, 10), count));
            && |read| == Fewer(count, |AsSet(events)|)
            && (forall i :: 0 <= i < |read| ==> read[i] in events)
            && (forall i, j :: 0 <= i < j < |read| ==> Less(read[j], read[i]))
            && (forall e, i :: e in events && e !in read && 0 <= i < |read| ==> Less(e, read[i]))
  {
    NewestFeedbackIsExact(events, count);
    hide RecentFeedback, Less;
    var all := AllFeedback(events, |events|);
    SortedSize(all);
    assert AsSet(all) == AsSet(events);
    hide AllFeedback, AsSet;
    TopIsGreatest(all, count);
  }

  lemma TopIsGreatest(z: seq<Entry>, count: nat)
    requires Sorted(z)
    ensures var read := Reversed(Top(z, count));
            && |read| == Fewer(count, |z|)
            && (forall i :: 0 <= i < |read| ==> read[i] in z)
            && (forall i, j :: 0 <= i < j < |read| ==> Less(read[j], read[i]))
            && (forall e, i :: e in z && e !in read && 0 <= i < |read| ==> Less(e, read[i]))
  {
    hide Less;
    var read := Reversed(Top(z, count));
    var n := |z|;
    assert forall i :: 0 <= i < |read| ==> read[i] == z[n - 1 - i];
    forall k | n - |read| <= k < n ensures z[k] in read {
      assert read[n - 1 - k] == z[k];
    }
    forall e, i | e in z && e !in read && 0 <= i < |read| ensures Less(e, read[i]) {
      var k :| 0 <= k < n && z[k] == e;
      assert k < n - |read|;
    }
  }
}
