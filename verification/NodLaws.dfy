/** What a turn, a nod and the score are, on the head pitches themselves. */
module NodLaws {
  import opened Numeric
  import opened Nods

  /** The pitch goes up by 0.005 or more into sample `i`. */
  predicate Up(s: seq<Sample>, i: int) {
    0 < i < |s| && s[i].pitch - s[i - 1].pitch >= 0.005
  }

  predicate Down(s: seq<Sample>, i: int) {
    0 < i < |s| && s[i].pitch - s[i - 1].pitch <= -0.005
  }

  /** Between samples `j` and `i` every step is smaller than 0.005. */
  ghost predicate Still(s: seq<Sample>, j: int, i: int) {
    forall k :: j < k < i ==> !Up(s, k) && !Down(s, k)
  }

  lemma StepIs(s: seq<Sample>, i: nat)
    requires 0 < i < |s|
    ensures (Step(s, i) == 1 <==> Up(s, i)) && (Step(s, i) == -1 <==> Down(s, i))
    ensures -1 <= Step(s, i) <= 1
  {
  }

  /** The last direction before sample `n` is that of the last step of 0.005 or more. */
  lemma {:induction false} LastIs(s: seq<Sample>, n: nat)
    requires 0 < n <= |s|
    ensures -1 <= Last(s, n) <= 1
    ensures Last(s, n) == 1 <==> exists j :: 0 < j < n && Up(s, j) && Still(s, j, n)
    ensures Last(s, n) == -1 <==> exists j :: 0 < j < n && Down(s, j) && Still(s, j, n)
  {
    if n > 1 {
      hide Step, Up, Down;
      LastIs(s, n - 1);
      StepIs(s, n - 1);
      StillSnoc(s, n);
    }
  }

  lemma StillSnoc(s: seq<Sample>, n: nat)
    requires 1 < n <= |s|
    ensures forall j :: 0 < j < n - 1 ==> (Still(s, j, n) <==> Still(s, j, n - 1) && !Up(s, n - 1) && !Down(s, n - 1))
    ensures Still(s, n - 1, n) && !(Up(s, n - 1) && Down(s, n - 1))
  {
  }

  /** The head turns at sample `i`: an upward and a downward step, in either order, with only small ones between. */
  ghost predicate TurnsAt(s: seq<Sample>, i: int) {
    exists j :: 0 < j < i && Still(s, j, i) && ((Up(s, j) && Down(s, i)) || (Down(s, j) && Up(s, i)))
  }

  lemma IsTurnIff(s: seq<Sample>, i: nat)
    ensures IsTurn(s, i) <==> i < |s| && TurnsAt(s, i)
  {
    if 0 < i < |s| {
      LastIs(s, i);
      StepIs(s, i);
      hide Step, Last, Up, Down, Still;
      if TurnsAt(s, i) {
        var j :| 0 < j < i && Still(s, j, i) && ((Up(s, j) && Down(s, i)) || (Down(s, j) && Up(s, i)));
        assert Last(s, i) == if Up(s, j) then 1 else -1;
      }
    }
  }

  /** Between samples `p` and `q` the pitch covers a range of 0.04 or more, over 120 ms or more. */
  ghost predicate Swing(s: seq<Sample>, p: int, q: int) {
    && 0 <= p <= q < |s| && s[q].t - s[p].t >= 120
    && exists a, b :: p <= a <= q && p <= b <= q && s[a].pitch - s[b].pitch >= 0.04
  }

  lemma IsNodIff(s: seq<Sample>, turns: seq<nat>, i: nat)
    requires Ascending(s, turns) && 0 < i < |turns|
    ensures IsNod(s, turns, i) <==> Swing(s, turns[i - 1], turns[i])
  {
    var p, q := turns[i - 1], turns[i];
    RangeIsAttained(s, p, q);
    var a :| p <= a <= q && s[a].pitch == Highest(s, p, q);
    var b :| p <= b <= q && s[b].pitch == Lowest(s, p, q);
    hide Highest, Lowest;
    assert s[a].pitch - s[b].pitch == Amplitude(s, turns, i);
  }

  /** Two turns with no other between them, and a swing from one to the other. */
  ghost predicate NodBetween(s: seq<Sample>, p: int, q: int) {
    && TurnsAt(s, p) && TurnsAt(s, q) && Swing(s, p, q)
    && forall k :: p < k < q ==> !TurnsAt(s, k)
  }

  lemma {:induction false} CountedIff(s: seq<Sample>, turns: seq<nat>, i: nat, reached: real)
    requires Ascending(s, turns) && 0 < i
    ensures Counted(s, turns, i, reached).0 > 0 <==> exists k :: i <= k < |turns| && IsNod(s, turns, k)
    decreases |turns| - i
  {
    hide IsNod, Amplitude;
    if i < |turns| && !IsNod(s, turns, i) {
      CountedIff(s, turns, i + 1, reached);
    }
  }

  lemma ConsecutiveTurns(s: seq<Sample>, turns: seq<nat>, p: nat, q: nat)
    requires Ascending(s, turns) && p < q && p in turns && q in turns
    requires forall k :: p < k < q ==> k !in turns
    ensures exists i :: 0 < i < |turns| && turns[i - 1] == p && turns[i] == q
  {
    var i :| 0 <= i < |turns| && turns[i] == q;
    var j :| 0 <= j < |turns| && turns[j] == p;
    assert j < i;
    assert turns[i - 1] >= turns[j];
    assert turns[i - 1] in turns;
  }

  lemma TurnsAreTurns(s: seq<Sample>, k: nat)
    requires s != []
    ensures k in Turns(s, |s|) <==> k < |s| && TurnsAt(s, k)
  {
    TurnsAreAll(s, |s|, k);
    IsTurnIff(s, k);
  }

  ghost predicate AreTheTurns(s: seq<Sample>, turns: seq<nat>) {
    Ascending(s, turns) && forall k: nat :: k in turns <==> k < |s| && TurnsAt(s, k)
  }

  lemma NeighboursMakeNod(s: seq<Sample>, turns: seq<nat>, i: nat)
    requires AreTheTurns(s, turns) && 0 < i < |turns| && IsNod(s, turns, i)
    ensures turns[i - 1] < turns[i] && NodBetween(s, turns[i - 1], turns[i])
  {
    IsNodIff(s, turns, i);
    NeighboursHaveNoneBetween(s, turns, i);
    hide IsNod, TurnsAt, Swing;
    assert turns[i - 1] in turns && turns[i] in turns;
  }

  lemma NodIsOfNeighbours(s: seq<Sample>, turns: seq<nat>, p: nat, q: nat)
    requires AreTheTurns(s, turns) && p < q < |s| && NodBetween(s, p, q)
    ensures exists i :: 1 <= i < |turns| && IsNod(s, turns, i)
  {
    hide IsNod, TurnsAt, Swing;
    ConsecutiveTurns(s, turns, p, q);
    var i :| 0 < i < |turns| && turns[i - 1] == p && turns[i] == q;
    IsNodIff(s, turns, i);
  }

  /** A nod is counted if and only if two neighbouring turns of the smoothed curve make a swing. */
  lemma NodsIffSwing(history: seq<Sample>)
    ensures GestureOf(history).count > 0 <==>
            |history| >= 5 && exists p: nat, q: nat :: p < q < |history| && NodBetween(Smoothed(history), p, q)
  {
    if |history| >= 5 {
      var s := Smoothed(history);
      var turns := Turns(s, |s|);
      TurnsAscend(s, |s|);
      CountedIff(s, turns, 1, 0.0);
      forall k: nat ensures k in turns <==> k < |s| && TurnsAt(s, k) {
        TurnsAreTurns(s, k);
      }
      assert AreTheTurns(s, turns);
      hide AreTheTurns, Smoothed, Turns, Counted, IsNod, NodBetween;
      if k :| 1 <= k < |turns| && IsNod(s, turns, k) {
        NeighboursMakeNod(s, turns, k);
      }
      if p: nat, q: nat :| p < q < |history| && NodBetween(s, p, q) {
        NodIsOfNeighbours(s, turns, p, q);
      }
    }
  }

  lemma NeighboursHaveNoneBetween(s: seq<Sample>, turns: seq<nat>, i: nat)
    requires Ascending(s, turns) && 0 < i < |turns|
    ensures turns[i - 1] < turns[i] && forall k :: turns[i - 1] < k < turns[i] ==> k !in turns
  {
  }

  /** The score is ten times the amplitude to three decimals, up to 1. */
  lemma ScoreIs(amplitude: real)
    requires amplitude >= 0.0
    ensures amplitude >= 0.1 ==> Score(amplitude) == 1.0
    ensures amplitude <= 0.1 ==> -0.0005 <= Score(amplitude) - 10.0 * amplitude <= 0.0005
  {
    if amplitude >= 0.1 {
      assert Clamp(amplitude / FULL_SCORE_AMPLITUDE, 0.0, 1.0) == 1.0;
      assert Round3(1.0) == 1.0;
    }
  }
}
