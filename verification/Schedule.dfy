// The witness schedule: who produces blocks in a round, and the virtual time by
// which witnesses outside the top voted take turns.

module Schedule {
  import opened Arith
  import opened Common

  const LIMIT := 0x1_0000_0000_0000_0000_0000_0000_0000_0000   // virtual time is an unsigned 128-bit number
  const LAP := LIMIT - 1                                       // HIVE_VIRTUAL_SCHEDULE_LAP_LENGTH2

  datatype Kind = Unscheduled | Elected | Miner | Timeshare

  datatype Witness = Witness(votes: nat, position: nat, lastUpdate: nat, scheduled: nat, disabled: bool, pow: nat,
                             kind: Kind)

  ghost predicate Within(s: seq<nat>, n: nat) {
    forall i: nat :: i < |s| ==> s[i] < n
  }

  /** An index over all `n` witnesses. */
  ghost predicate Covers(order: seq<nat>, n: nat) {
    Distinct(order) && Within(order, n) && (forall x: nat :: x < n ==> x in order)
  }

  ghost predicate ByVotes(ws: seq<Witness>, order: seq<nat>) {
    Covers(order, |ws|) && forall i: nat, j: nat :: i < j < |order| ==> ws[order[i]].votes >= ws[order[j]].votes
  }

  ghost predicate ByTime(ws: seq<Witness>, order: seq<nat>) {
    Covers(order, |ws|) && forall i: nat, j: nat :: i < j < |order| ==> ws[order[i]].scheduled <= ws[order[j]].scheduled
  }

  predicate Able(ws: seq<Witness>, w: nat) {
    w < |ws| && !ws[w].disabled
  }

  ghost function AbleSet(ws: seq<Witness>): set<nat> {
    set w: nat | w < |ws| && Able(ws, w)
  }

  /** Witnesses picked for a round: distinct, and all able to sign blocks. */
  ghost predicate Picked(ws: seq<Witness>, s: seq<nat>) {
    Distinct(s) && forall x :: x in s ==> Able(ws, x)
  }

  /** Virtual time has reached `now`: nobody is scheduled in the past. */
  ghost predicate TimesOk(ws: seq<Witness>, now: nat) {
    now < LIMIT && forall i: nat {:trigger ws[i]} :: i < |ws| ==>
      ws[i].lastUpdate <= now <= ws[i].scheduled < LIMIT && ws[i].position < LIMIT
  }

  // ---- picking ----

  /** The top voted: nobody left out has more votes than one picked. */
  method PickElected(ws: seq<Witness>, order: seq<nat>, max: nat) returns (r: seq<nat>)
    requires ByVotes(ws, order)
    ensures Picked(ws, r) && |r| <= max && (|r| < max ==> forall w: nat :: Able(ws, w) ==> w in r)
    ensures forall x: nat, w: nat :: x in r && Able(ws, w) && w !in r ==> ws[w].votes <= ws[x].votes
  {
    r := [];
    var i := 0;
    while i < |order| && |r| < max
      invariant 0 <= i <= |order| && |r| <= max && Picked(ws, r)
      invariant forall x :: x in r ==> x in order[..i]
      invariant forall x :: x in order[..i] && Able(ws, x) ==> x in r
    {
      assert order[..i + 1] == order[..i] + [order[i]];
      assert order[i] !in order[..i];
      if !ws[order[i]].disabled {
        r := r + [order[i]];
      }
      i := i + 1;
    }
    assert i == |order| ==> order[..i] == order;
    forall x: nat, w: nat | x in r && Able(ws, w) && w !in r ensures ws[w].votes <= ws[x].votes {
      var k: nat :| k < i && order[k] == x;
      assert w in order;
      var m: nat :| m < |order| && order[m] == w;
      assert m >= i;
    }
  }

  /** Exactly the witnesses among the first `done` that can sign and are not chosen yet. */
  ghost predicate FromFront(ws: seq<Witness>, order: seq<nat>, done: nat, chosen: seq<nat>, r: seq<nat>) {
    done <= |order| && forall x: nat :: x in r <==> x in order[..done] && Able(ws, x) && x !in chosen
  }

  /** Miners from the front of the work queue, which leave it. */
  method PickMiners(ws: seq<Witness>, queue: seq<nat>, elected: seq<nat>, max: nat) returns (r: seq<nat>, done: nat)
    requires Picked(ws, elected) && Distinct(queue) && Within(queue, |ws|)
    ensures Picked(ws, elected + r) && FromFront(ws, queue, done, elected, r) && |r| <= max &&
            (done < |queue| ==> |r| == max)
  {
    r, done := [], 0;
    assert elected + [] == elected;
    while done < |queue| && |r| < max
      invariant 0 <= done <= |queue| && |r| <= max && Picked(ws, elected + r) && FromFront(ws, queue, done, elected, r)
    {
      var m := queue[done];
      assert queue[..done + 1] == queue[..done] + [m];
      assert m !in queue[..done];
      if m !in elected && !ws[m].disabled {
        assert elected + (r + [m]) == elected + r + [m];
        r := r + [m];
      }
      done := done + 1;
    }
  }

  /** Fills the round in the order of scheduled times; everyone passed over is processed too. */
  method PickTimeshare(ws: seq<Witness>, order: seq<nat>, chosen: seq<nat>, max: nat, now: nat)
    returns (r: seq<nat>, done: nat, time: nat)
    requires ByTime(ws, order) && Picked(ws, chosen)
    ensures Picked(ws, chosen + r) && (|chosen| <= max ==> |chosen| + |r| <= max)
    ensures |chosen| + |r| < max ==> forall w: nat :: Able(ws, w) ==> w in chosen + r
    ensures FromFront(ws, order, done, chosen, r) && (done < |order| ==> |chosen| + |r| >= max)
    ensures forall x: nat, w: nat :: x in r && Able(ws, w) && w !in chosen + r ==> ws[x].scheduled <= ws[w].scheduled
    ensures done <= |order| && time == if done == 0 then now else ws[order[done - 1]].scheduled
  {
    r, done, time := [], 0, now;
    assert chosen + [] == chosen;
    while done < |order| && |chosen| + |r| < max
      invariant 0 <= done <= |order| && Picked(ws, chosen + r) && (|chosen| <= max ==> |chosen| + |r| <= max)
      invariant time == if done == 0 then now else ws[order[done - 1]].scheduled
      invariant FromFront(ws, order, done, chosen, r)
    {
      var w := order[done];
      assert order[..done + 1] == order[..done] + [w];
      assert w !in order[..done];
      time := ws[w].scheduled;
      if !ws[w].disabled && w !in chosen {
        assert chosen + (r + [w]) == chosen + r + [w];
        r := r + [w];
      }
      done := done + 1;
    }
    assert done == |order| ==> order[..done] == order;
    EarliestFirst(ws, order, done, chosen, r);
  }

  lemma EarliestFirst(ws: seq<Witness>, order: seq<nat>, done: nat, chosen: seq<nat>, r: seq<nat>)
    requires ByTime(ws, order) && FromFront(ws, order, done, chosen, r)
    ensures forall x: nat, w: nat :: x in r && Able(ws, w) && w !in chosen + r ==> ws[x].scheduled <= ws[w].scheduled
  {
    forall x: nat, w: nat | x in r && Able(ws, w) && w !in chosen + r ensures ws[x].scheduled <= ws[w].scheduled {
      var k: nat :| k < done && order[k] == x;
      assert w in order;
      var m: nat :| m < |order| && order[m] == w;
      assert m >= done;
    }
  }

  /** A full round, or everybody: the number of witnesses picked. */
  lemma RoundSize(ws: seq<Witness>, s: seq<nat>, max: nat)
    requires Picked(ws, s) && |s| <= max && (|s| < max ==> forall w: nat :: Able(ws, w) ==> w in s)
    ensures |s| == if |AbleSet(ws)| < max then |AbleSet(ws)| else max
  {
    var members := Members(s);
    DistinctSize(s);
    assert members <= AbleSet(ws);
    SubsetSize(members, AbleSet(ws));
    if |s| < max {
      assert members == AbleSet(ws);
    }
  }

  lemma {:induction false} DistinctSize(s: seq<nat>)
    requires Distinct(s)
    ensures |Members(s)| == |s|
    decreases |s|
  {
    if s != [] {
      var init, last := s[..|s| - 1], s[|s| - 1];
      DistinctSize(init);
      assert last !in init && s == init + [last];
      assert Members(s) == Members(init) + {last};
    }
  }

  lemma AbleBound(ws: seq<Witness>)
    ensures |AbleSet(ws)| <= |ws|
  {
    SubsetSize(AbleSet(ws), UpTo(|ws|));
  }

  ghost function UpTo(n: nat): (r: set<nat>)
    ensures |r| == n && forall w: nat :: w in r <==> w < n
  {
    if n == 0 then {} else UpTo(n - 1) + {n - 1}
  }

  // ---- virtual time ----

  /** The time of the next turn, as far as it can be expressed in 128 bits. */
  function NextTurn(time: nat, w: Witness): nat {
    (time + LAP / (w.votes + 1)) % LIMIT
  }

  /** An overflow shows as a turn in the past, and as nothing else does. */
  lemma OverflowSeen(time: nat, q: nat)
    requires time < LIMIT && q < LIMIT
    ensures (time + q) % LIMIT < time <==> time + q >= LIMIT
    ensures time + q < LIMIT ==> (time + q) % LIMIT == time + q
  {
    if time + q >= LIMIT {
      assert (time + q) % LIMIT == time + q - LIMIT;
    }
  }

  lemma QuotientSmall(a: nat, d: nat)
    requires d >= 1
    ensures a / d <= a
  {
    MulMono(a + 1, a + 1, 1, d);
    DivBound(a, d, a + 1);
  }

  /** A witness at the beginning of a new lap. */
  function Lapped(w: Witness, time: nat): Witness {
    w.(position := 0, lastUpdate := time, scheduled := time + LAP / (w.votes + 1))
  }

  /** The lap ends at a time that can be expressed in 128 bits. */
  ghost predicate Fits(w: Witness, time: nat) {
    time + LAP / (w.votes + 1) < LIMIT
  }

  /** A lap takes the whole distance at a speed of one more than the votes, rounded down, and starts at `time`. */
  lemma LappedIs(w: Witness, time: nat)
    ensures var r := Lapped(w, time);
            && Quotient(r.scheduled - time, LAP, w.votes + 1) && r == w.(position := 0, lastUpdate := time,
                                                                         scheduled := r.scheduled)
            && (Fits(w, time) <==> r.scheduled < LIMIT)
  {
    QuotientIs(LAP, w.votes + 1);
  }

  lemma LapChecked(w: Witness, time: nat)
    requires time < LIMIT
    ensures NextTurn(time, w) < time <==> !Fits(w, time)
    ensures Fits(w, time) ==> w.(position := 0, lastUpdate := time, scheduled := NextTurn(time, w)) == Lapped(w, time)
    ensures Lapped(w, time).position == 0 && Lapped(w, time).lastUpdate == time <= Lapped(w, time).scheduled
    ensures Fits(w, time) ==> Lapped(w, time).scheduled < LIMIT
    ensures Same(Lapped(w, time), w)
  {
    QuotientSmall(LAP, w.votes + 1);
    OverflowSeen(time, LAP / (w.votes + 1));
  }

  /** Nothing but virtual times may differ. */
  ghost predicate Same(a: Witness, b: Witness) {
    a.votes == b.votes && a.disabled == b.disabled && a.pow == b.pow && a.kind == b.kind
  }

  /** Moves the processed witnesses on by one lap each; stops at an overflow. */
  method AdvanceTimes(ws: seq<Witness>, order: seq<nat>, done: nat, now: nat, time: nat)
    returns (r: seq<Witness>, overflow: bool)
    requires ByTime(ws, order) && TimesOk(ws, now) && done <= |order| && time == if done ==
               0 then now else ws[order[done - 1]].scheduled
    ensures |r| == |ws| && now <= time < LIMIT && forall w: nat :: w < |ws| ==> Same(r[w], ws[w])
    ensures overflow <==> exists i: nat :: i < done && !Fits(ws[order[i]], time)
    ensures !overflow ==> TimesOk(r, time)
    ensures !overflow ==> forall w: nat :: w < |ws| ==> r[w] == if w in order[..done] then Lapped(ws[w], time)
                                                                else ws[w]
  {
    TimeMovesOn(ws, order, done, now, time);
    hide Fits, Lapped, NextTurn, TimesOk, ByTime, Covers, Same;
    r, overflow := ws, false;
    for i := 0 to done
      invariant |r| == |ws| && !overflow
      invariant forall j: nat :: j < i ==> Fits(ws[order[j]], time)
      invariant forall w: nat :: w < |ws| ==> r[w] == if w in order[..i] then Lapped(ws[w], time) else ws[w]
    {
      InOrder(ws, order, i);
      var w := order[i];
      LapChecked(ws[w], time);
      var next := NextTurn(time, r[w]);
      if next < time {
        LapsSame(ws, r, order[..i], time);
        return r, true;
      }
      r := r[w := r[w].(position := 0, lastUpdate := time, scheduled := next)];
    }
    LapsSame(ws, r, order[..done], time);
    LapsOk(ws, r, order, done, time);
  }

  lemma InOrder(ws: seq<Witness>, order: seq<nat>, i: nat)
    requires ByTime(ws, order) && i < |order|
    ensures order[i] < |ws| && order[i] !in order[..i] && order[..i + 1] == order[..i] + [order[i]]
  {
  }

  lemma LapsSame(ws: seq<Witness>, r: seq<Witness>, moved: seq<nat>, time: nat)
    requires |r| == |ws| && time < LIMIT && forall w: nat :: w < |ws| ==>
                                                               r[w] == if w in moved then Lapped(ws[w], time) else ws[w]
    ensures forall w: nat :: w < |ws| ==> Same(r[w], ws[w])
  {
    forall w: nat | w < |ws| ensures Same(r[w], ws[w]) {
      LapChecked(ws[w], time);
    }
  }

  lemma LapsOk(ws: seq<Witness>, r: seq<Witness>, order: seq<nat>, done: nat, time: nat)
    requires |r| == |ws| && time < LIMIT && done <= |order| && Within(order, |ws|)
    requires forall w: nat :: w < |ws| ==> r[w] == if w in order[..done] then Lapped(ws[w], time) else ws[w]
    requires forall j: nat :: j < done ==> Fits(ws[order[j]], time)
    requires forall w: nat :: w < |ws| && w !in order[..done] ==>
                                ws[w].lastUpdate <= time <= ws[w].scheduled < LIMIT && ws[w].position < LIMIT
    ensures TimesOk(r, time)
  {
    hide Fits, Lapped;
    forall w: nat | w < |ws| ensures r[w].lastUpdate <= time <= r[w].scheduled < LIMIT && r[w].position < LIMIT {
      if w in order[..done] {
        var j: nat :| j < done && order[j] == w;
        LapChecked(ws[w], time);
      }
    }
  }

  /** The new time is not before the old one, and nobody left waiting is scheduled before it. */
  lemma TimeMovesOn(ws: seq<Witness>, order: seq<nat>, done: nat, now: nat, time: nat)
    requires ByTime(ws, order) && TimesOk(ws, now) && done <= |order| && time == if done ==
               0 then now else ws[order[done - 1]].scheduled
    ensures now <= time < LIMIT
    ensures forall w: nat :: w < |ws| && w !in order[..done] ==> ws[w].lastUpdate <= time <= ws[w].scheduled < LIMIT &&
                                                                 ws[w].position < LIMIT
  {
    if done > 0 {
      assert order[done - 1] in order;
    }
    forall w: nat | w < |ws| && w !in order[..done]
      ensures ws[w].lastUpdate <= time <= ws[w].scheduled < LIMIT &&
              ws[w].position < LIMIT
    {
      assert w in order;
      var m: nat :| m < |order| && order[m] == w;
      assert m >= done;
    }
  }

  /** Everybody starts over at time zero. */
  method ResetTimes(ws: seq<Witness>) returns (r: seq<Witness>)
    ensures |r| == |ws| && TimesOk(r, 0)
    ensures forall w: nat :: w < |ws| ==> r[w] == Lapped(ws[w], 0)
  {
    r := [];
    for i := 0 to |ws|
      invariant |r| == i && TimesOk(r, 0)
      invariant forall w: nat :: w < i ==> r[w] == Lapped(ws[w], 0)
    {
      QuotientSmall(LAP, ws[i].votes + 1);
      r := r + [ws[i].(position := 0, lastUpdate := 0, scheduled := LAP / (ws[i].votes + 1))];
    }
  }

  // ---- the shuffle ----

  const MULTIPLIER: bv64 := 2685821657736338717

  /** The xorshift generator, seeded with the block time and the position. */
  function Random(nowHigh: bv64, i: nat): bv64
    requires i < 256
  {
    Mixed(nowHigh + (i as bv64) * MULTIPLIER)
  }

  function Mixed(k: bv64): bv64 {
    var k := k ^ (k >> 12);
    var k := k ^ (k << 25);
    var k := k ^ (k >> 27);
    k * MULTIPLIER
  }

  /** Numbers of the generator for places 0, 1 and 20, at times 1, 0 and 2021-01-14 08:25:36. */
  lemma RandomNumbers()
    ensures Random(0x1_0000_0000, 0) == 0x3d04_7b0f_73df_a3a0
    ensures Random(0, 1) == 0xad5d_b60b_4c5d_45d4
    ensures Random(0x6000_0000_0000_0000, 20) == 0x7f7_1574_a483_6064
  {
  }

  /** The place swapped with place `i`, at random among those from `i` on. */
  function Partner(nowHigh: bv64, i: nat, n: nat): (j: nat)
    requires i < n < 256
    ensures i <= j < n
  {
    i + Random(nowHigh, i) as nat % (n - i)
  }

  /** Its distance is what is left of the random number after `q` whole rounds through the places there are. */
  lemma PartnerIs(nowHigh: bv64, i: nat, n: nat) returns (q: nat)
    requires i < n < 256
    ensures Random(nowHigh, i) as nat == q * (n - i) + (Partner(nowHigh, i, n) - i)
  {
    hide Random;
    q := LeftOver(Random(nowHigh, i) as nat, n - i);
  }

  lemma LeftOver(r: nat, d: nat) returns (q: nat)
    requires d >= 1
    ensures r == q * d + r % d
  {
    DivBound(r, d, 0);
    q := r / d;
  }

  /** The first `i` steps of the shuffle of the first `n` places. */
  ghost function Shuffled<T>(s: seq<T>, i: nat, n: nat, nowHigh: bv64): (r: seq<T>)
    requires i <= n <= |s| && n < 256
    ensures |r| == |s|
  {
    if i == 0 then s
    else
      var t, j := Shuffled(s, i - 1, n, nowHigh), Partner(nowHigh, i - 1, n);
      t[i - 1 := t[j]][j := t[i - 1]]
  }

  /** Shuffling puts the same witnesses in another order, and touches the first `n` places only. */
  lemma {:induction false} ShufflePermutes<T>(s: seq<T>, i: nat, n: nat, nowHigh: bv64)
    requires i <= n <= |s| && n < 256
    ensures multiset(Shuffled(s, i, n, nowHigh)[..n]) == multiset(s[..n]) && Shuffled(s, i, n, nowHigh)[n..] == s[n..]
    decreases i
  {
    hide Random, Partner;
    if i > 0 {
      ShufflePermutes(s, i - 1, n, nowHigh);
      var t, j := Shuffled(s, i - 1, n, nowHigh), Partner(nowHigh, i - 1, n);
      Swapped(t[..n], i - 1, j);
      assert Shuffled(s, i, n, nowHigh)[..n] == t[..n][i - 1 := t[..n][j]][j := t[..n][i - 1]];
    }
  }

  /** Shuffles the first `n` places: the same witnesses, in another order. */
  method Shuffle(a: array<Option<nat>>, n: nat, nowHigh: bv64)
    requires n <= a.Length && n < 256
    modifies a
    ensures a[..] == Shuffled(old(a[..]), n, n, nowHigh)
    ensures multiset(a[..n]) == multiset(old(a[..n])) && a[n..] == old(a[n..])
  {
    hide Random, Partner;
    for i := 0 to n
      invariant a[..] == Shuffled(old(a[..]), i, n, nowHigh)
    {
      var j := Partner(nowHigh, i, n);
      ghost var t := a[..];
      a[i], a[j] := a[j], a[i];
      assert a[..] == t[i := t[j]][j := t[i]];
    }
    ShufflePermutes(old(a[..]), n, n, nowHigh);
    assert a[..][..n] == a[..n] && a[..][n..] == a[n..];
    assert old(a[..])[..n] == old(a[..n]) && old(a[..])[n..] == old(a[n..]);
  }

  lemma Swapped<T>(s: seq<T>, i: nat, j: nat)
    requires i < |s| && j < |s|
    ensures multiset(s[i := s[j]][j := s[i]]) == multiset(s)
  {
  }

  // ---- the schedule as a whole ----

  function Named(s: seq<nat>): (r: seq<Option<nat>>)
    ensures |r| == |s|
  {
    seq(|s|, (i: nat) requires i < |s| => Some(s[i]))
  }

  method Mark(ws: seq<Witness>, chosen: seq<nat>, kind: Kind) returns (r: seq<Witness>)
    requires Within(chosen, |ws|)
    ensures |r| == |ws| && forall w: nat :: w < |ws| ==> r[w] == if w in chosen then ws[w].(kind := kind) else ws[w]
  {
    r := ws;
    for i := 0 to |chosen|
      invariant |r| == |ws| && forall w: nat :: w < |ws| ==> r[w] == if w in chosen[..i] then ws[w].(kind := kind)
                                                                     else ws[w]
    {
      assert chosen[..i + 1] == chosen[..i] + [chosen[i]];
      r := r[chosen[i] := r[chosen[i]].(kind := kind)];
    }
    assert chosen[..|chosen|] == chosen;
  }

  method Unqueue(ws: seq<Witness>, gone: seq<nat>) returns (r: seq<Witness>)
    requires Within(gone, |ws|)
    ensures |r| == |ws| && forall w: nat :: w < |ws| ==> r[w] == if w in gone then ws[w].(pow := 0) else ws[w]
  {
    r := ws;
    for i := 0 to |gone|
      invariant |r| == |ws| && forall w: nat :: w < |ws| ==> r[w] == if w in gone[..i] then ws[w].(pow := 0) else ws[w]
    {
      assert gone[..i + 1] == gone[..i] + [gone[i]];
      r := r[gone[i] := r[gone[i]].(pow := 0)];
    }
    assert gone[..|gone|] == gone;
  }

  /**
   * What a round is drawn from: the top voted, miners from the queue's first `gone`, and more from
   * the first `done` in the order of scheduled times, up to time `time`.
   */
  datatype Draw = Draw(elected: seq<nat>, miners: seq<nat>, more: seq<nat>, gone: nat, done: nat, time: nat) {
    function All(): seq<nat> {
      elected + miners + more
    }
  }

  ghost predicate Drawn(ws: seq<Witness>, queue: seq<nat>, byTime: seq<nat>, now: nat, maxVoted: nat, maxMiners: nat,
                        max: nat, d: Draw) {
    && Picked(ws, d.All())
    && |d.elected| <= maxVoted && TopVoted(ws, d.elected) &&
       (|d.elected| < maxVoted ==> forall w: nat :: Able(ws, w) ==> w in d.elected)
    && |d.miners| <= maxMiners && FromFront(ws, queue, d.gone, d.elected, d.miners) &&
       (d.gone < |queue| ==> |d.miners| == maxMiners)
    && FromFront(ws, byTime, d.done, d.elected + d.miners, d.more) && (d.done < |byTime| ==> |d.All()| >= max)
    && d.time == if d.done == 0 then now else if byTime[d.done - 1] < |ws| then ws[byTime[d.done - 1]].scheduled
                                              else now
  }

  /** Who is picked, and up to where virtual time moves. */
  method Pick(ws: seq<Witness>, byVotes: seq<nat>, queue: seq<nat>, byTime: seq<nat>, now: nat, maxVoted: nat,
              maxMiners: nat, max: nat)
    returns (d: Draw)
    requires ByVotes(ws, byVotes) && ByTime(ws, byTime) && Distinct(queue) && Within(queue, |ws|)
    ensures Drawn(ws, queue, byTime, now, maxVoted, maxMiners, max, d)
    ensures maxVoted + maxMiners <= max ==> |d.All()| == if |AbleSet(ws)| < max then |AbleSet(ws)| else max
    ensures d.done <= |byTime| && d.time == if d.done == 0 then now else ws[byTime[d.done - 1]].scheduled
  {
    var elected := PickElected(ws, byVotes, maxVoted);
    var miners, gone := PickMiners(ws, queue, elected, maxMiners);
    var more, done, time := PickTimeshare(ws, byTime, elected + miners, max, now);
    d := Draw(elected, miners, more, gone, done, time);
    assert d.All() == elected + miners + more;
    if maxVoted + maxMiners <= max {
      RoundSize(ws, d.All(), max);
    }
  }

  /** Votes, keys and the like are as before, and nobody is scheduled before `now`. */
  ghost predicate Rescheduled(ws: seq<Witness>, r: seq<Witness>, now: nat) {
    |r| == |ws| && TimesOk(r, now) && forall w: nat :: w < |ws| ==> r[w].votes == ws[w].votes && r[w].disabled ==
                                                                      ws[w].disabled
  }

  /** What a witness is recorded as after a draw. */
  ghost function Entered(x: Witness, w: nat, d: Draw, gone: seq<nat>): Witness {
    x.(kind := if w in d.more then Timeshare else if w in d.miners then Miner
                                                  else if w in d.elected then Elected else x.kind,
       pow := if w in gone then 0 else x.pow)
  }

  /** All are as in `a`, except for what the draw records. */
  ghost predicate Recorded(a: seq<Witness>, b: seq<Witness>, d: Draw, gone: seq<nat>) {
    |b| == |a| && forall w: nat :: w < |a| ==> b[w] == Entered(a[w], w, d, gone)
  }

  lemma Marked(ws: seq<Witness>, a: seq<Witness>, b: seq<Witness>, d: Draw, gone: seq<nat>, now: nat)
    requires Rescheduled(ws, a, now) && Recorded(a, b, d, gone)
    ensures Rescheduled(ws, b, now)
  {
    forall w: nat | w < |b| ensures b[w].lastUpdate <= now <= b[w].scheduled < LIMIT && b[w].position < LIMIT {
      assert a[w].lastUpdate <= now;
    }
  }

  /**
   * The times after a draw: everyone processed has run one more lap from the new time and nobody
   * else has moved; on an overflow everyone starts over at time zero.
   */
  ghost predicate Turned(ws: seq<Witness>, r: seq<Witness>, byTime: seq<nat>, d: Draw, gone: seq<nat>, now: nat,
                         reset: bool) {
    && |r| == |ws| && d.done <= |byTime| && now == (if reset then 0 else d.time)
    && forall w: nat :: w < |ws| ==>
         r[w] == Entered(if reset then Lapped(ws[w], 0) else if w in byTime[..d.done] then Lapped(ws[w], d.time)
                                                             else ws[w], w, d, gone)
  }

  lemma TurnedFrom(ws: seq<Witness>, next: seq<Witness>, r: seq<Witness>, byTime: seq<nat>, d: Draw, gone: seq<nat>,
                   reset: bool)
    requires Recorded(next, r, d, gone) && |next| == |ws| && d.done <= |byTime|
    requires forall w: nat :: w < |ws| ==> next[w] == if reset then Lapped(ws[w], 0)
                                                      else if w in byTime[..d.done] then Lapped(ws[w], d.time)
                                                           else ws[w]
    ensures Turned(ws, r, byTime, d, gone, if reset then 0 else d.time, reset)
  {
  }

  /** Places from `n` on are empty. */
  ghost predicate EmptyFrom(s: seq<Option<nat>>, n: nat) {
    forall i: nat :: n <= i < |s| ==> s[i] == None
  }

  lemma {:induction false} ShuffleEmpty(s: seq<Option<nat>>, n: nat, count: nat, nowHigh: bv64)
    requires n <= count <= |s| && count < 256 && EmptyFrom(s, n) && (count == n || (n == 0 && count == 1))
    ensures multiset(Shuffled(s, count, count, nowHigh)[..n]) == multiset(s[..n]) &&
            EmptyFrom(Shuffled(s, count, count, nowHigh), n)
  {
    hide Shuffled;
    ShufflePermutes(s, count, count, nowHigh);
    var r := Shuffled(s, count, count, nowHigh);
    if n == 0 && count == 1 {
      OneLeft(r[..1], s[..1]);
    }
    forall i: nat | n <= i < |r| ensures r[i] == None {
      if i >= count {
        assert r[i] == r[count..][i - count] == s[count..][i - count];
      } else {
        assert r[i] == r[..1][0];
      }
    }
  }

  lemma OneLeft<T>(a: seq<T>, b: seq<T>)
    requires |a| == 1 && |b| == 1 && multiset(a) == multiset(b)
    ensures a[0] == b[0]
  {
    assert a == [a[0]] && b == [b[0]];
    assert a[0] in multiset(a);
  }

  /** The places of a round, those not filled left empty. */
  ghost function Padded(all: seq<nat>, max: nat): (r: seq<Option<nat>>)
    requires |all| <= max
  {
    seq(max, i requires 0 <= i < max => if i < |all| then Some(all[i]) else None)
  }

  /** The places of a round as published: a shuffle of those drawn, in front, and nobody behind. */
  ghost predicate Published(places: seq<Option<nat>>, count: nat, all: seq<nat>, nowHigh: bv64) {
    && |all| <= |places| && count == (if |all| == 0 then 1 else |all|) && count <= |places| && count < 256
    && places == Shuffled(Padded(all, |places|), count, count, nowHigh)
    && multiset(places[..|all|]) == multiset(Named(all)) && EmptyFrom(places, |all|)
  }

  class Roster {
    const maxWitnesses: nat
    const maxVoted: nat
    const maxMiners: nat
    const shuffled: array<Option<nat>>     // current_shuffled_witnesses
    var witnesses: seq<Witness>
    var now: nat                           // current_virtual_time
    var count: nat                         // num_scheduled_witnesses

    ghost predicate Valid()
      reads this
    {
      TimesOk(witnesses, now) && 1 <= maxWitnesses < 256 && shuffled.Length == maxWitnesses
    }

    constructor (maxWitnesses: nat, maxVoted: nat, maxMiners: nat)
      requires 1 <= maxWitnesses < 256
      ensures Valid() && fresh(shuffled) && witnesses == [] && now == 0
      ensures this.maxWitnesses == maxWitnesses && this.maxVoted == maxVoted && this.maxMiners == maxMiners
    {
      this.maxWitnesses, this.maxVoted, this.maxMiners := maxWitnesses, maxVoted, maxMiners;
      shuffled := new Option<nat>[maxWitnesses](_ => None);
      witnesses, now, count := [], 0, 1;
    }

    method NewWitness(disabled: bool)
      requires Valid()
      modifies this`witnesses
      ensures Valid() && witnesses == old(witnesses) + [Witness(0, 0, 0, LAP, disabled, 0, Unscheduled)]
    {
      witnesses := witnesses + [Witness(0, 0, 0, LAP, disabled, 0, Unscheduled)];
    }

    /**
     * A change of votes: progress made so far counts, the rest of the lap is run at the new speed,
     * and a turn that 128 bits cannot express is put at the end of time.
     */
    method AdjustVote(w: nat, delta: int, totalVests: nat) returns (ok: bool)
      requires Valid() && w < |witnesses| && witnesses[w].votes + delta >= 0
      modifies this`witnesses
      ensures Valid() && (ok <==> old(witnesses)[w].votes + delta <= totalVests)
      ensures !ok ==> witnesses == old(witnesses)
      ensures ok ==> Revoted(old(witnesses), witnesses, w, delta, now)
    {
      hide Revoted, TimesOk, Reached, TurnAt;
      TimeOf(witnesses, now, w);
      var o := witnesses[w];
      MulMono(0, o.votes, 0, now - o.lastUpdate);
      if o.votes + delta > totalVests {
        return false;
      }
      var position := Progress(o.position, o.votes * (now - o.lastUpdate));
      var turn := RestOfLap(now, position, o.votes + delta);
      var n := o.(votes := o.votes + delta, position := position, lastUpdate := now, scheduled := turn);
      RevotedIs(witnesses, w, delta, now, n);
      witnesses := witnesses[w := n];
      return true;
    }

    /**
     * A new round. It completes exactly when all places can be filled: either there are enough
     * witnesses able to sign, or there are few witnesses and all are able. Virtual time moves on,
     * unless some lap would end past what 128 bits can express: then, and only then, it starts over.
     */
    method Update(byVotes: seq<nat>, queue: seq<nat>, byTime: seq<nat>, nowHigh: bv64)
      returns (ok: bool, reset: bool, ghost d: Draw)
      requires Valid() && ByVotes(witnesses, byVotes) && ByTime(witnesses, byTime) && Distinct(queue) &&
               Within(queue, |witnesses|)
      modifies this`witnesses, this`now, this`count, shuffled
      ensures Valid() && |witnesses| == |old(witnesses)|
      ensures !ok ==> witnesses == old(witnesses) && now == old(now) && shuffled[..] == old(shuffled[..]) &&
                      count == old(count)
      ensures maxVoted + maxMiners <= maxWitnesses ==>
                (ok <==> |AbleSet(old(witnesses))| >= maxWitnesses || |AbleSet(old(witnesses))| == |witnesses|)
      ensures Drawn(old(witnesses), queue, byTime, old(now), maxVoted, maxMiners, maxWitnesses, d) &&
              d.gone <= |queue| && d.done <= |byTime|
      ensures ok <==> |d.All()| == (if |witnesses| < maxWitnesses then |witnesses| else maxWitnesses)
      ensures ok ==> (reset <==> exists i: nat :: i < d.done && !Fits(old(witnesses)[byTime[i]], d.time))
      ensures ok ==> Turned(old(witnesses), witnesses, byTime, d, queue[..d.gone], now, reset) &&
                     (!reset ==> now >= old(now))
      ensures ok ==> Published(shuffled[..], count, d.All(), nowHigh)
    {
      hide Drawn, Turned, Recorded, Picked, Fits, Shuffled, Published;
      var draw := Pick(witnesses, byVotes, queue, byTime, now, maxVoted, maxMiners, maxWitnesses);
      d, reset := draw, false;
      DrawnWithin(witnesses, queue, byTime, now, maxVoted, maxMiners, maxWitnesses, draw);
      AbleBound(witnesses);
      var expected := if |witnesses| < maxWitnesses then |witnesses| else maxWitnesses;
      if |draw.All()| != expected {
        return false, false, d;
      }
      var time := draw.time;
      var next, overflow := AdvanceTimes(witnesses, byTime, draw.done, now, time);
      if overflow {
        ghost var dirty := next;
        next := ResetTimes(next);
        ResetLaps(witnesses, dirty, next);
        time, reset := 0, true;
      }
      Commit(next, draw, queue[..draw.gone], time);
      TurnedFrom(old(witnesses), next, witnesses, byTime, draw, queue[..draw.gone], reset);
      Publish(draw.All(), nowHigh);
      ok := true;
    }

    function Now(reset: bool): Moment
      reads this, shuffled
    {
      Moment(now, reset, witnesses, shuffled[..], count)
    }

    /** A round with the indices the database keeps; true when virtual time starts over. */
    method NextRound(nowHigh: bv64, ghost was: bool) returns (started: bool)
      requires Valid()
      modifies this`witnesses, this`now, this`count, shuffled
      ensures Valid() && (if started then now == 0 && Overflows(old(witnesses)) else now >= old(now))
      ensures Rounded(old(Now(was)), Now(started), maxVoted, maxMiners, maxWitnesses, nowHigh)
    {
      hide TimesOk, Drawn, Turned, Fits, Published, Queued;
      var ws := witnesses;
      var votes := seq(|ws|, (i: nat) requires i < |ws| => -(ws[i].votes as int));
      var times := seq(|ws|, (i: nat) requires i < |ws| => ws[i].scheduled as int);
      var byVotes := IndexBy(votes);
      var byTime := IndexBy(times);
      var queue := Queue(ws);
      var ok, reset, d := Update(byVotes, queue, byTime, nowHigh);
      started := ok && reset;
      if ok {
        TurnedNow(ws, witnesses, byTime, d, queue[..d.gone], now, reset);
      }
      if started {
        DrawOverflows(ws, queue, byTime, old(now), maxVoted, maxMiners, maxWitnesses, d);
      }
      assert RoundHeld(old(Now(was)), Now(started), byTime, queue, d, maxVoted, maxMiners, maxWitnesses, nowHigh);
    }

    /** One event. */
    method Take(e: Event, ghost was: bool) returns (started: bool)
      requires Valid()
      modifies this`witnesses, this`now, this`count, shuffled
      ensures Valid() && (if started then now == 0 && Overflows(old(witnesses)) else now >= old(now))
      ensures Happens(e, old(Now(was)), Now(started), maxVoted, maxMiners, maxWitnesses)
    {
      hide TimesOk, Overflows, Rounded, Revoted;
      started := false;
      match e {
        case Join(disabled) =>
          NewWitness(disabled);
        case Ballot(w, delta, total) =>
          if w < |witnesses| && witnesses[w].votes + delta >= 0 {
            var ok := AdjustVote(w, delta, total);
          }
        case Round(time) =>
          started := NextRound(time, was);
      }
    }

    method Commit(next: seq<Witness>, d: Draw, gone: seq<nat>, time: nat)
      requires Rescheduled(witnesses, next, time)
      requires Within(d.elected, |next|) && Within(d.miners, |next|) && Within(d.more, |next|) && Within(gone, |next|)
      modifies this`witnesses, this`now
      ensures Rescheduled(old(witnesses), witnesses, time) && now == time && Recorded(next, witnesses, d, gone)
    {
      hide Rescheduled;
      var a := Mark(next, d.elected, Elected);
      var b := Mark(a, d.miners, Miner);
      var c := Mark(b, d.more, Timeshare);
      var r := Unqueue(c, gone);
      assert Recorded(next, r, d, gone);
      Marked(witnesses, next, r, d, gone, time);
      witnesses, now := r, time;
    }

    method Publish(all: seq<nat>, nowHigh: bv64)
      requires |all| <= shuffled.Length == maxWitnesses < 256 && maxWitnesses >= 1
      modifies this`count, shuffled
      ensures Published(shuffled[..], count, all, nowHigh)
    {
      hide Shuffled;
      for i := 0 to maxWitnesses
        invariant forall j: nat :: j < i ==> shuffled[j] == if j < |all| then Some(all[j]) else None
      {
        shuffled[i] := if i < |all| then Some(all[i]) else None;
      }
      ghost var filled := shuffled[..];
      assert filled[..|all|] == Named(all);
      count := if |all| == 0 then 1 else |all|;
      ShuffleEmpty(filled, |all|, count, nowHigh);
      Shuffle(shuffled, count, nowHigh);
      assert filled == Padded(all, maxWitnesses) && shuffled[..][..|all|] == shuffled[..|all|];
    }
  }

  lemma TurnedNow(ws: seq<Witness>, r: seq<Witness>, byTime: seq<nat>, d: Draw, gone: seq<nat>, now: nat, reset: bool)
    requires Turned(ws, r, byTime, d, gone, now, reset)
    ensures reset ==> now == 0
  {
  }

  lemma DrawOverflows(ws: seq<Witness>, queue: seq<nat>, byTime: seq<nat>, now: nat, maxVoted: nat, maxMiners: nat,
                      max: nat, d: Draw)
    requires Drawn(ws, queue, byTime, now, maxVoted, maxMiners, max, d) && ByTime(ws, byTime)
    requires d.done <= |byTime| && exists i: nat :: i < d.done && !Fits(ws[byTime[i]], d.time)
    ensures Overflows(ws)
  {
    var i: nat :| i < d.done && !Fits(ws[byTime[i]], d.time);
    assert d.time == ws[byTime[d.done - 1]].scheduled;
  }

  lemma ResetLaps(ws: seq<Witness>, dirty: seq<Witness>, r: seq<Witness>)
    requires |dirty| == |ws| == |r| && (forall w: nat :: w < |ws| ==> Same(dirty[w], ws[w])) && forall w: nat ::
               w < |ws| ==> r[w] == Lapped(dirty[w], 0)
    ensures forall w: nat :: w < |ws| ==> r[w] == Lapped(ws[w], 0)
  {
  }

  lemma DrawnWithin(ws: seq<Witness>, queue: seq<nat>, byTime: seq<nat>, now: nat, maxVoted: nat, maxMiners: nat,
                    max: nat, d: Draw)
    requires Drawn(ws, queue, byTime, now, maxVoted, maxMiners, max, d) && Within(queue, |ws|)
    ensures Within(d.elected, |ws|) && Within(d.miners, |ws|) && Within(d.more, |ws|) && d.gone <= |queue| &&
            Within(queue[..d.gone], |ws|)
  {
    PickedWithin(ws, d.elected, d.miners, d.more);
  }

  ghost predicate TopVoted(ws: seq<Witness>, elected: seq<nat>) {
    forall x: nat, w: nat :: x in elected && x < |ws| && Able(ws, w) && w !in elected ==> ws[w].votes <= ws[x].votes
  }

  lemma PickedWithin(ws: seq<Witness>, a: seq<nat>, b: seq<nat>, c: seq<nat>)
    requires Picked(ws, a + b + c)
    ensures Within(a, |ws|) && Within(b, |ws|) && Within(c, |ws|)
  {
    var all := a + b + c;
    forall i: nat | i < |a| ensures a[i] < |ws| {
      assert all[i] in all;
    }
    forall i: nat | i < |b| ensures b[i] < |ws| {
      assert all[|a| + i] in all;
    }
    forall i: nat | i < |c| ensures c[i] < |ws| {
      assert all[|a| + |b| + i] in all;
    }
  }

  lemma ProgressAdds(a: nat, b: nat)
    ensures (a + b % LIMIT) % LIMIT == (a + b) % LIMIT
  {
    DivBound(b, LIMIT, 0);
    var q := b / LIMIT;
    assert a + b == (a + b % LIMIT) + LIMIT * q;
    ModShift(a + b % LIMIT, q);
  }

  lemma {:induction false} ModShift(x: nat, q: nat)
    ensures (x + LIMIT * q) % LIMIT == x % LIMIT
    decreases q
  {
    if q > 0 {
      ModShift(x, q - 1);
      assert x + LIMIT * q == x + LIMIT * (q - 1) + LIMIT;
    }
  }

  // ---- whole runs ----

  /** All witnesses in ascending order of a key, as the database's ordered indices give them. */
  method IndexBy(keys: seq<int>) returns (r: seq<nat>)
    ensures Covers(r, |keys|) && forall i: nat, j: nat :: i < j < |r| ==> keys[r[i]] <= keys[r[j]]
  {
    r := [];
    for n := 0 to |keys|
      invariant Covers(r, n) && forall i: nat, j: nat :: i < j < |r| ==> keys[r[i]] <= keys[r[j]]
    {
      var k := |r|;
      while k > 0 && keys[r[k - 1]] > keys[n]
        invariant 0 <= k <= |r| && forall i: nat :: k <= i < |r| ==> keys[r[i]] > keys[n]
      {
        k := k - 1;
      }
      InsertCovers(keys, r, n, k);
      r := r[..k] + [n] + r[k..];
    }
  }

  lemma InsertCovers(keys: seq<int>, r: seq<nat>, n: nat, k: nat)
    requires n < |keys| && Covers(r, n) && (forall i: nat, j: nat :: i < j < |r| ==> keys[r[i]] <= keys[r[j]])
    requires k <= |r| && (k > 0 ==> keys[r[k - 1]] <= keys[n]) && forall i: nat :: k <= i < |r| ==> keys[r[i]] > keys[n]
    ensures var s := r[..k] + [n] + r[k..]; Covers(s, n + 1) && forall i: nat, j: nat ::
                                              i < j < |s| ==> keys[s[i]] <= keys[s[j]]
  {
    var s := r[..k] + [n] + r[k..];
    forall x: nat | x < n + 1 ensures x in s {
      InsertKeeps(r, n, k, x);
    }
    forall i: nat, j: nat | i < j < |s| ensures s[i] != s[j] && keys[s[i]] <= keys[s[j]] {
      InsertPair(keys, r, n, k, i, j);
    }
  }

  lemma InsertPair(keys: seq<int>, r: seq<nat>, n: nat, k: nat, i: nat, j: nat)
    requires n < |keys| && Distinct(r) && Within(r, n) &&
             (forall i: nat, j: nat :: i < j < |r| ==> keys[r[i]] <= keys[r[j]])
    requires k <= |r| && (k > 0 ==> keys[r[k - 1]] <= keys[n]) && forall i: nat :: k <= i < |r| ==> keys[r[i]] > keys[n]
    requires i < j <= |r|
    ensures var s := r[..k] + [n] + r[k..]; s[i] != s[j] && s[i] < |keys| && s[j] < |keys| && keys[s[i]] <= keys[s[j]]
  {
    if i == k {
      assert r[j - 1] < n;
    } else if j == k {
      assert r[i] < n;
      if i < k - 1 {
        assert keys[r[i]] <= keys[r[k - 1]];
      }
    } else {
      var a, b := if i < k then i else i - 1, if j < k then j else j - 1;
      assert r[a] != r[b] && keys[r[a]] <= keys[r[b]];
    }
  }

  lemma InsertKeeps(r: seq<nat>, n: nat, k: nat, x: nat)
    requires k <= |r| && (x == n || x in r)
    ensures x in r[..k] + [n] + r[k..]
  {
    if x != n {
      assert r == r[..k] + r[k..];
    }
  }

  datatype Event = Join(disabled: bool) | Ballot(who: nat, delta: int, totalVests: nat) | Round(time: bv64)

  /** The state after an event: virtual time, whether the event started it over, the witnesses and the places. */
  datatype Moment = Moment(time: nat, reset: bool, witnesses: seq<Witness>, shuffled: seq<Option<nat>>, count: nat)

  /** The work queue: exactly the witnesses with a place in it, by that place. */
  ghost predicate Queued(ws: seq<Witness>, queue: seq<nat>) {
    && Distinct(queue) && Within(queue, |ws|) && (forall w: nat :: w < |ws| ==> (w in queue <==> ws[w].pow > 0))
    && (forall i: nat, j: nat :: i < j < |queue| ==> ws[queue[i]].pow <= ws[queue[j]].pow)
  }

  /** What a round does: nothing when not all places can be filled, and otherwise what the draw says. */
  ghost predicate RoundHeld(m: Moment, m': Moment, byTime: seq<nat>, queue: seq<nat>, d: Draw, maxVoted: nat,
                            maxMiners: nat, max: nat, nowHigh: bv64) {
    && ByTime(m.witnesses, byTime) && Queued(m.witnesses, queue) && d.gone <= |queue| && d.done <= |byTime|
    && Drawn(m.witnesses, queue, byTime, m.time, maxVoted, maxMiners, max, d)
    && if |d.All()| != (if |m.witnesses| < max then |m.witnesses| else max) then m' == m.(reset := false)
       else
         && (m'.reset <==> exists i: nat :: i < d.done && !Fits(m.witnesses[byTime[i]], d.time))
         && Turned(m.witnesses, m'.witnesses, byTime, d, queue[..d.gone], m'.time, m'.reset)
         && Published(m'.shuffled, m'.count, d.All(), nowHigh)
  }

  ghost predicate Rounded(m: Moment, m': Moment, maxVoted: nat, maxMiners: nat, max: nat, nowHigh: bv64) {
    exists byTime, queue, d :: RoundHeld(m, m', byTime, queue, d, maxVoted, maxMiners, max, nowHigh)
  }

  /** A change of votes moves the one witness and nobody else. */
  ghost predicate Revoted(ws: seq<Witness>, r: seq<Witness>, w: nat, delta: int, now: nat) {
    && w < |ws| == |r| && ws[w].votes + delta >= 0 && ws[w].lastUpdate <= now
    && var o, n := ws[w], r[w];
       && r == ws[w := n]
       && n == o.(votes := o.votes + delta, position := n.position, lastUpdate := now, scheduled := n.scheduled)
       && Reached(n.position, o.position, o.votes * (now - o.lastUpdate)) &&
          TurnAt(n.scheduled, now, n.position, n.votes)
  }

  /** The position after `run` more, in 128 bits. */
  ghost predicate Reached(position: nat, from: nat, run: int) {
    position < LIMIT && run >= 0 && position == (from + run) % LIMIT
  }

  /** The turn comes when the rest of the lap is done at the new speed, rounded down; or at the end of time. */
  ghost predicate TurnAt(turn: nat, now: nat, position: nat, votes: nat) {
    if turn < LAP then turn >= now && Quotient(turn - now, LAP - position, votes + 1)
    else turn == LAP && (LAP - position) >= (LAP - now) * (votes + 1)
  }

  method Progress(from: nat, run: nat) returns (position: nat)
    ensures Reached(position, from, run) && position < LIMIT
  {
    ProgressAdds(from, run);
    position := (from + run % LIMIT) % LIMIT;
  }

  method RestOfLap(now: nat, position: nat, votes: nat) returns (turn: nat)
    requires now < LIMIT && position < LIMIT
    ensures now <= turn < LIMIT && TurnAt(turn, now, position, votes)
  {
    var lap := (LAP - position) / (votes + 1);
    DivBound(LAP - position, votes + 1, LAP - now);
    QuotientSmall(LAP - position, votes + 1);
    QuotientIs(LAP - position, votes + 1);
    OverflowSeen(now, lap);
    turn := (now + lap) % LIMIT;
    if turn < now {
      turn := LAP;
    }
  }

  lemma TimeOf(ws: seq<Witness>, now: nat, w: nat)
    requires TimesOk(ws, now) && w < |ws|
    ensures ws[w].lastUpdate <= now < LIMIT && ws[w].position < LIMIT
  {
  }

  lemma RevotedIs(ws: seq<Witness>, w: nat, delta: int, now: nat, n: Witness)
    requires TimesOk(ws, now) && w < |ws| && ws[w].votes + delta >= 0
    requires n == ws[w].(votes := ws[w].votes + delta, position := n.position, lastUpdate := now,
                         scheduled := n.scheduled)
    requires Reached(n.position, ws[w].position, ws[w].votes * (now - ws[w].lastUpdate))
    requires TurnAt(n.scheduled, now, n.position, n.votes) && now <= n.scheduled < LIMIT && n.position < LIMIT
    ensures Revoted(ws, ws[w := n], w, delta, now) && TimesOk(ws[w := n], now)
  {
    hide Reached, TurnAt;
  }

  /** What one event does. */
  ghost predicate Happens(e: Event, m: Moment, m': Moment, maxVoted: nat, maxMiners: nat, max: nat) {
    match e
    case Join(disabled) =>
      m' == m.(reset := false, witnesses := m.witnesses + [Witness(0, 0, 0, LAP, disabled, 0, Unscheduled)])
    case Ballot(w, delta, total) =>
      && m' == m.(reset := false, witnesses := m'.witnesses)
      && (if w < |m.witnesses| && 0 <= m.witnesses[w].votes + delta <= total
          then Revoted(m.witnesses, m'.witnesses, w, delta, m.time) else m'.witnesses == m.witnesses)
    case Round(nowHigh) => Rounded(m, m', maxVoted, maxMiners, max, nowHigh)
  }

  /** Some witness would end its next lap, from the turn of some witness on, past what can be expressed. */
  ghost predicate Overflows(ws: seq<Witness>) {
    exists w: nat, v: nat :: w < |ws| && v < |ws| && !Fits(ws[w], ws[v].scheduled)
  }

  /**
   * Nobody is scheduled in the past, and time goes on except where a lap would not fit: there it
   * starts over. Every event does what it does.
   */
  ghost predicate Ticks(events: seq<Event>, trace: seq<Moment>, maxVoted: nat, maxMiners: nat, max: nat) {
    && 1 <= |trace| <= |events| + 1
    && (forall i: nat :: i < |trace| ==> TimesOk(trace[i].witnesses, trace[i].time))
    && (forall i: nat :: i + 1 < |trace| ==>
          if trace[i + 1].reset then trace[i + 1].time == 0 && Overflows(trace[i].witnesses)
          else trace[i + 1].time >= trace[i].time)
    && (forall i: nat :: i + 1 < |trace| ==> Happens(events[i], trace[i], trace[i + 1], maxVoted, maxMiners, max))
  }

  lemma TicksOnce(events: seq<Event>, m: Moment, maxVoted: nat, maxMiners: nat, max: nat)
    requires TimesOk(m.witnesses, m.time)
    ensures Ticks(events, [m], maxVoted, maxMiners, max)
  {
  }

  lemma TicksOn(events: seq<Event>, trace: seq<Moment>, m: Moment, maxVoted: nat, maxMiners: nat, max: nat)
    requires Ticks(events, trace, maxVoted, maxMiners, max) && |trace| <= |events| && TimesOk(m.witnesses, m.time)
    requires var last := trace[|trace| - 1];
             if m.reset then m.time == 0 && Overflows(last.witnesses) else m.time >= last.time
    requires Happens(events[|trace| - 1], trace[|trace| - 1], m, maxVoted, maxMiners, max)
    ensures Ticks(events, trace + [m], maxVoted, maxMiners, max)
  {
    hide TimesOk, Overflows, Happens;
  }

  /**
   * Over any run: nobody is ever scheduled in the past, and virtual time never goes back except
   * where a lap would not fit, when it starts over at zero. The trace holds the state at the
   * start and after every event, each event having done to the one before what it does.
   */
  method RunSchedule(max: nat, maxVoted: nat, maxMiners: nat, events: seq<Event>)
    returns (roster: Roster, trace: seq<Moment>)
    requires 1 <= max < 256
    ensures fresh(roster) && roster.Valid() && |trace| == |events| + 1
    ensures trace[0].time == 0 && trace[0].witnesses == []
    ensures trace[|events|] == roster.Now(trace[|events|].reset)
    ensures Ticks(events, trace, maxVoted, maxMiners, max)
  {
    hide TimesOk, Overflows, Ticks, Happens;
    roster := new Roster(max, maxVoted, maxMiners);
    trace := [roster.Now(false)];
    TicksOnce(events, trace[0], maxVoted, maxMiners, max);
    for k := 0 to |events|
      invariant fresh(roster) && fresh(roster.shuffled) && roster.Valid() && |trace| == k + 1
      invariant roster.maxWitnesses == max && roster.maxVoted == maxVoted && roster.maxMiners == maxMiners
      invariant trace[k] == roster.Now(trace[k].reset) && Ticks(events, trace, maxVoted, maxMiners, max)
      invariant trace[0].time == 0 && trace[0].witnesses == []
    {
      var started := roster.Take(events[k], trace[k].reset);
      TicksOn(events, trace, roster.Now(started), maxVoted, maxMiners, max);
      trace := trace + [roster.Now(started)];
    }
  }

  /** The work queue: witnesses with a place in it, by that place. */
  method Queue(ws: seq<Witness>) returns (r: seq<nat>)
    ensures Queued(ws, r)
  {
    var keys := seq(|ws|, (i: nat) requires i < |ws| => ws[i].pow as int);
    var order := IndexBy(keys);
    r := [];
    for i := 0 to |order|
      invariant Distinct(r) && Within(r, |ws|)
      invariant forall w: nat :: w < |ws| ==> (w in r <==> w in order[..i] && ws[w].pow > 0)
      invariant forall k: nat :: k < |r| && i < |order| ==> ws[r[k]].pow <= ws[order[i]].pow
      invariant forall k: nat, l: nat :: k < l < |r| ==> ws[r[k]].pow <= ws[r[l]].pow
    {
      assert order[i] !in order[..i];
      if ws[order[i]].pow > 0 {
        r := r + [order[i]];
      }
    }
    assert order[..|order|] == order;
  }
}
