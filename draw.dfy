/** The winner draw of the `endEvent` handler and the single pick of
    `/rerollwinner`. Both choose uniformly from the participant listing and
    ignore the persisted weights. `Math.random()` is an input: a real in
    [0, 1) per pick. */
module Draw {
  import opened Events

  /** `Math.floor(Math.random() * len)`: an index into a listing of `len`
      entries. */
  function PickIndex(rand: real, len: nat): (idx: nat)
    requires 0.0 <= rand < 1.0
    requires len > 0
    ensures idx < len
    ensures idx as real <= rand * len as real < idx as real + 1.0
  {
    var scaled := rand * len as real;
    assert 0.0 <= scaled < len as real by {
      assert len as real - scaled == (1.0 - rand) * len as real;
    }
    scaled.Floor
  }

  function Min(a: int, b: int): (m: int)
  {
    if a < b then a else b
  }

  /** The guard of the draw loop in round `i`: `i < Math.min(winnersCount,
      pool.length)`, where the pool has lost one entrant per earlier round. */
  predicate Continues(i: int, winnersCount: int, n: int)
  {
    i < winnersCount && i < n - i
  }

  /** How many rounds the draw loop runs for `n` entrants: the guard holds in
      every earlier round and fails in this one. Since the pool shrinks while
      the bound is re-read, this is max(0, min(winnersCount, ceil(n/2))), not
      max(0, min(winnersCount, n)). */
  function DrawCount(winnersCount: int, n: nat): (k: nat)
    ensures forall i :: 0 <= i < k ==> Continues(i, winnersCount, n)
    ensures !Continues(k, winnersCount, n)
  {
    if winnersCount <= 0 then 0 else Min(winnersCount, (n + 1) / 2)
  }

  /** The winners the draw loop of `endEvent` picks from `pool` in round
      `i` and after, one random value per round: while `i < Math.min(
      winnersCount, pool.length)` it takes the entrant at the random index and
      goes on with that entrant spliced out. DrawnDistinct shows the winners
      are distinct entrants; DrawnCount counts them. */
  function Drawn(pool: seq<UserId>, winnersCount: int, rands: seq<real>, i: nat): (d: seq<UserId>)
    requires |rands| >= i + |pool|
    requires forall j :: 0 <= j < |rands| ==> 0.0 <= rands[j] < 1.0
    ensures |d| <= |pool|
    decreases |pool|
  {
    if !(i < Min(winnersCount, |pool|)) then []
    else
      var idx := PickIndex(rands[i], |pool|);
      [pool[idx]] + Drawn(pool[..idx] + pool[idx + 1..], winnersCount, rands, i + 1)
  }

  /** From a pool without repetitions, the draw picks distinct entrants of
      that pool. */
  lemma {:induction false} DrawnDistinct(pool: seq<UserId>, winnersCount: int, rands: seq<real>, i: nat)
    requires Distinct(pool)
    requires |rands| >= i + |pool|
    requires forall j :: 0 <= j < |rands| ==> 0.0 <= rands[j] < 1.0
    ensures Distinct(Drawn(pool, winnersCount, rands, i))
    ensures Members(Drawn(pool, winnersCount, rands, i)) <= Members(pool)
    decreases |pool|
  {
    if i < Min(winnersCount, |pool|) {
      var idx := PickIndex(rands[i], |pool|);
      var rest := pool[..idx] + pool[idx + 1..];
      SpliceMembers(pool, idx);
      DrawnDistinct(rest, winnersCount, rands, i + 1);
      var later := Drawn(rest, winnersCount, rands, i + 1);
      assert pool[idx] !in Members(later);
      assert Members([pool[idx]] + later) == {pool[idx]} + Members(later);
    }
  }

  /** Counted from the first round, the draw picks exactly DrawCount
      winners: round `i` has been reached after `i` picks, and the rounds
      still to come are those whose guard holds. */
  lemma {:induction false} DrawnCount(pool: seq<UserId>, winnersCount: int, rands: seq<real>, i: nat, n: nat)
    requires n == i + |pool| && |rands| >= n
    requires forall j :: 0 <= j < |rands| ==> 0.0 <= rands[j] < 1.0
    requires forall j :: 0 <= j < i ==> Continues(j, winnersCount, n)
    ensures i + |Drawn(pool, winnersCount, rands, i)| == DrawCount(winnersCount, n)
    decreases |pool|
  {
    if i < Min(winnersCount, |pool|) {
      var idx := PickIndex(rands[i], |pool|);
      DrawnCount(pool[..idx] + pool[idx + 1..], winnersCount, rands, i + 1, n);
    } else {
      assert !Continues(i, winnersCount, n);
    }
  }

  /** One turn of the draw loop keeps its invariant: the winners so far,
      followed by those still to be drawn, are the whole draw. */
  lemma DrawnAdvance(picked: seq<UserId>, pool: seq<UserId>, winnersCount: int, rands: seq<real>, i: nat,
                     whole: seq<UserId>)
    requires |rands| >= i + |pool|
    requires forall j :: 0 <= j < |rands| ==> 0.0 <= rands[j] < 1.0
    requires i < Min(winnersCount, |pool|)
    requires picked + Drawn(pool, winnersCount, rands, i) == whole
    ensures var idx := PickIndex(rands[i], |pool|);
      (picked + [pool[idx]]) + Drawn(pool[..idx] + pool[idx + 1..], winnersCount, rands, i + 1) == whole
  {
    var idx := PickIndex(rands[i], |pool|);
    var later := Drawn(pool[..idx] + pool[idx + 1..], winnersCount, rands, i + 1);
    assert Drawn(pool, winnersCount, rands, i) == [pool[idx]] + later;
  }

  /** The draw loop of `endEvent`: repeatedly splice a random entrant out of
      the pool and push it onto the winners. The winners are the ones Drawn
      names for these random values: distinct entrants, exactly DrawCount of
      them. */
  method DrawWinners(entrants: seq<UserId>, winnersCount: int, rands: seq<real>)
    returns (picked: seq<UserId>)
    requires Distinct(entrants)
    requires |rands| >= |entrants|
    requires forall i :: 0 <= i < |rands| ==> 0.0 <= rands[i] < 1.0
    ensures picked == Drawn(entrants, winnersCount, rands, 0)
    ensures |picked| == DrawCount(winnersCount, |entrants|)
    ensures Distinct(picked)
    ensures Members(picked) <= Members(entrants)
  {
    var pool := entrants;
    picked := [];
    var i := 0;
    while i < Min(winnersCount, |pool|)
      invariant |pool| == |entrants| - i
      invariant picked + Drawn(pool, winnersCount, rands, i) == Drawn(entrants, winnersCount, rands, 0)
      decreases |pool|
    {
      var idx := PickIndex(rands[i], |pool|);
      DrawnAdvance(picked, pool, winnersCount, rands, i, Drawn(entrants, winnersCount, rands, 0));
      picked := picked + [pool[idx]];
      pool := pool[..idx] + pool[idx + 1..];
      i := i + 1;
    }
    DrawnCount(entrants, winnersCount, rands, 0, |entrants|);
    DrawnDistinct(entrants, winnersCount, rands, 0);
  }

  /** Splicing one entry out of a listing without repetitions removes exactly
      that member. */
  lemma SpliceMembers(s: seq<UserId>, idx: nat)
    requires Distinct(s)
    requires idx < |s|
    ensures Distinct(s[..idx] + s[idx + 1..])
    ensures Members(s[..idx] + s[idx + 1..]) == Members(s) - {s[idx]}
  {
  }

  /** With at least two entrants and a winner count that covers them all,
      the draw still leaves some entrants out. */
  lemma DrawShortfall(winnersCount: int, n: nat)
    requires 2 <= n <= winnersCount
    ensures DrawCount(winnersCount, n) < n
    ensures 2 * DrawCount(winnersCount, n) >= n
  {
  }

  /** Every entrant wins only when there is exactly one of them. */
  lemma AllWinOnlyWithOneEntrant(winnersCount: int, n: nat)
    requires n > 0
    ensures DrawCount(winnersCount, n) == n <==> n == 1 && winnersCount >= 1
  {
  }

  /** Exactly `winnersCount` entrants win when, and only when, the winner
      count is at most half the entrants, rounded up. */
  lemma FewWinnersAllDrawn(winnersCount: int, n: nat)
    requires 0 <= winnersCount
    ensures DrawCount(winnersCount, n) == winnersCount <==> winnersCount <= (n + 1) / 2
  {
  }
}
