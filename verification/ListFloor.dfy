/** A list that must be at least as new as a revision waits for the store
    (`list_floor.rs` `await_revision`). Times are in nanoseconds. */
module ListFloor {
  import opened JsonValue

  const FIRST_POLL_PAUSE: nat := 5_000_000
  const MAX_POLL_PAUSE: nat := 50_000_000

  /** The refusal: the revision asked for and where the store stood. */
  datatype TooLarge = TooLarge(requested: nat, current: nat)

  /** What the wait reads: the store's revision at each read, and how long passed between the
      end of a sleep and the clock reading after that read. */
  datatype World = World(revision: nat -> nat, lag: nat -> nat)

  function RevisionAt(w: World, i: nat): nat {
    w.revision(i)
  }

  function LagAt(w: World, i: nat): nat {
    w.lag(i)
  }

  function AheadOf(floor: nat, current: nat): Option<TooLarge> {
    if floor > current then Some(TooLarge(floor, current)) else None
  }

  function Min(a: nat, b: nat): nat {
    if a < b then a else b
  }

  /** The pause planned before the deadline cuts it. */
  function Planned(i: nat): nat {
    if i == 0 then FIRST_POLL_PAUSE else Min(Planned(i - 1) * 2, MAX_POLL_PAUSE)
  }

  function Left(within: nat, elapsed: nat): nat {
    if elapsed < within then within - elapsed else 0
  }

  /** The time since the call at the clock reading after read `i`. */
  function Elapsed(w: World, within: nat, i: nat): nat {
    if i == 0 then LagAt(w, 0)
    else
      var before := Elapsed(w, within, i - 1);
      before + Min(Planned(i - 1), Left(within, before)) + LagAt(w, i)
  }

  /** Read `i` ends the wait: the store is there, or the time is gone. */
  predicate Ends(w: World, floor: nat, within: nat, i: nat) {
    RevisionAt(w, i) >= floor || Elapsed(w, within, i) >= within
  }

  /** The sleep after read `i`: the planned pause, or the time left when that is less. */
  function Pause(w: World, within: nat, i: nat): nat {
    Min(Planned(i), Left(within, Elapsed(w, within, i)))
  }

  /** The sleeps a wait takes before it has ended. */
  predicate Waited(w: World, floor: nat, within: nat, pauses: seq<nat>) {
    pauses == [] ||
    var n := |pauses| - 1;
    Waited(w, floor, within, pauses[..n]) && !Ends(w, floor, within, n) && pauses[n] == Pause(w, within, n)
  }

  lemma NextRead(w: World, within: nat, i: nat)
    ensures Elapsed(w, within, i + 1) == Elapsed(w, within, i) + Pause(w, within, i) + LagAt(w, i + 1)
    ensures Planned(i + 1) == Min(Planned(i) * 2, MAX_POLL_PAUSE)
  {
  }

  lemma WaitedOn(w: World, floor: nat, within: nat, pauses: seq<nat>)
    requires Waited(w, floor, within, pauses) && !Ends(w, floor, within, |pauses|)
    ensures Waited(w, floor, within, pauses + [Pause(w, within, |pauses|)])
  {
    assert (pauses + [Pause(w, within, |pauses|)])[..|pauses|] == pauses;
  }

  lemma {:induction false} WaitedAt(w: World, floor: nat, within: nat, pauses: seq<nat>, i: nat)
    requires Waited(w, floor, within, pauses) && i < |pauses|
    ensures !Ends(w, floor, within, i) && pauses[i] == Pause(w, within, i)
  {
    if i < |pauses| - 1 {
      WaitedAt(w, floor, within, pauses[..|pauses| - 1], i);
    }
  }

  /** Where the loop stands before a read: the next pause is the planned one, the clock is
      what the sleeps so far have made it, and none of the reads before ended the wait. */
  ghost predicate Standing(w: World, floor: nat, within: nat, pauses: seq<nat>, pause: nat, now: nat) {
    && pause == Planned(|pauses|) && 0 < pause
    && now + LagAt(w, |pauses|) == Elapsed(w, within, |pauses|)
    && Waited(w, floor, within, pauses)
  }

  lemma Turns(w: World, floor: nat, within: nat, pauses: seq<nat>, pause: nat, now: nat)
    requires Standing(w, floor, within, pauses, pause, now)
    requires RevisionAt(w, |pauses|) < floor && now + LagAt(w, |pauses|) < within
    ensures var read := now + LagAt(w, |pauses|);
            var slept := Min(pause, Left(within, read));
            && 0 < slept
            && Standing(w, floor, within, pauses + [slept], Min(pause * 2, MAX_POLL_PAUSE), read + slept)
  {
    WaitedOn(w, floor, within, pauses);
    NextRead(w, within, |pauses|);
  }

  /** Waits; `pauses` are the sleeps it took, one between two reads. */
  method AwaitRevision(w: World, floor: nat, within: nat) returns (answer: Result<bool, TooLarge>, pauses: seq<nat>)
    ensures Waited(w, floor, within, pauses) && Ends(w, floor, within, |pauses|)
    ensures answer.Ok? <==> RevisionAt(w, |pauses|) >= floor
    ensures answer.Err? ==>
              && answer.error == TooLarge(floor, RevisionAt(w, |pauses|))
              && Elapsed(w, within, |pauses|) >= within
  {
    pauses := [];
    var pause: nat, now: nat := FIRST_POLL_PAUSE, 0;
    while true
      invariant Standing(w, floor, within, pauses, pause, now)
      decreases Left(within, now)
    {
      var refusal := AheadOf(floor, RevisionAt(w, |pauses|));
      if refusal.None? {
        return Ok(true), pauses;
      }
      var read := now + LagAt(w, |pauses|);
      var left := Left(within, read);
      if left == 0 {
        return Err(refusal.value), pauses;
      }
      Turns(w, floor, within, pauses, pause, now);
      pauses, now := pauses + [Min(pause, left)], read + Min(pause, left);
      pause := Min(pause * 2, MAX_POLL_PAUSE);
    }
  }

  /** What is read and when decides the wait: any two that have ended are the same. */
  lemma {:induction false} OneAnswer(w: World, floor: nat, within: nat, a: seq<nat>, b: seq<nat>)
    requires Waited(w, floor, within, a) && Ends(w, floor, within, |a|)
    requires Waited(w, floor, within, b) && Ends(w, floor, within, |b|)
    ensures a == b
  {
    if |a| < |b| {
      WaitedAt(w, floor, within, b, |a|);
    } else if |b| < |a| {
      WaitedAt(w, floor, within, a, |b|);
    }
    forall i | 0 <= i < |a| ensures a[i] == b[i] {
      WaitedAt(w, floor, within, a, i);
      WaitedAt(w, floor, within, b, i);
    }
  }

  // ---- bounds ------------------------------------------------------------------------------

  function Total(pauses: seq<nat>): nat {
    if pauses == [] then 0 else Total(pauses[..|pauses| - 1]) + pauses[|pauses| - 1]
  }

  lemma {:induction false} PlannedIsBounded(i: nat)
    ensures FIRST_POLL_PAUSE <= Planned(i) <= MAX_POLL_PAUSE
    ensures i >= 4 ==> Planned(i) == MAX_POLL_PAUSE
  {
    if i > 0 {
      PlannedIsBounded(i - 1);
      if i == 4 {
        assert Planned(1) == 10_000_000 && Planned(2) == 20_000_000 && Planned(3) == 40_000_000;
      }
    }
  }

  lemma {:induction false} SleptByNow(w: World, floor: nat, within: nat, pauses: seq<nat>)
    requires Waited(w, floor, within, pauses)
    ensures Total(pauses) + LagAt(w, |pauses|) <= Elapsed(w, within, |pauses|)
    ensures Total(pauses) <= within
  {
    if pauses != [] {
      var n := |pauses| - 1;
      SleptByNow(w, floor, within, pauses[..n]);
    }
  }

  /** Every pause but the last is the planned one. */
  lemma FullPauses(w: World, floor: nat, within: nat, pauses: seq<nat>, i: nat)
    requires Waited(w, floor, within, pauses) && i + 1 < |pauses|
    ensures pauses[i] == Planned(i)
  {
    WaitedAt(w, floor, within, pauses, i);
    WaitedAt(w, floor, within, pauses, i + 1);
  }

  lemma {:induction false} TotalGrows(w: World, floor: nat, within: nat, pauses: seq<nat>, n: nat)
    requires Waited(w, floor, within, pauses) && n < |pauses|
    ensures Total(pauses[..n]) >= FIRST_POLL_PAUSE * n
    ensures n >= 4 ==> Total(pauses[..n]) == 75_000_000 + MAX_POLL_PAUSE * (n - 4)
  {
    if n > 0 {
      TotalGrows(w, floor, within, pauses, n - 1);
      FullPauses(w, floor, within, pauses, n - 1);
      PlannedIsBounded(n - 1);
      assert pauses[..n][..n - 1] == pauses[..n - 1];
      if n == 4 {
        FirstFour(w, floor, within, pauses);
      }
    }
  }

  lemma FirstFour(w: World, floor: nat, within: nat, pauses: seq<nat>)
    requires Waited(w, floor, within, pauses) && 4 < |pauses|
    ensures Total(pauses[..4]) == 75_000_000
  {
    FullPauses(w, floor, within, pauses, 0);
    FullPauses(w, floor, within, pauses, 1);
    FullPauses(w, floor, within, pauses, 2);
    FullPauses(w, floor, within, pauses, 3);
    assert Planned(1) == 10_000_000 && Planned(2) == 20_000_000 && Planned(3) == 40_000_000;
    assert pauses[..1][..0] == [] && pauses[..2][..1] == pauses[..1] && pauses[..3][..2] == pauses[..2]
        && pauses[..4][..3] == pauses[..3];
    assert Total(pauses[..1]) == 5_000_000;
    assert Total(pauses[..2]) == 15_000_000;
    assert Total(pauses[..3]) == 35_000_000;
  }

  /** The wait sleeps no longer than it was given in all, never over 50 ms at once, and reads
      the store at most once per 5 ms of the wait and twice more; a longer wait reads once per
      50 ms after the first five reads. */
  lemma WaitIsBounded(w: World, floor: nat, within: nat, pauses: seq<nat>)
    requires Waited(w, floor, within, pauses)
    ensures Total(pauses) <= within
    ensures forall i | 0 <= i < |pauses| ::
            0 < pauses[i] <= MAX_POLL_PAUSE && pauses[i] <= Left(within, Elapsed(w, within, i))
    ensures |pauses| > 0 ==> FIRST_POLL_PAUSE * (|pauses| - 1) < within
    ensures |pauses| > 4 ==> 75_000_000 + MAX_POLL_PAUSE * (|pauses| - 5) < within
  {
    SleptByNow(w, floor, within, pauses);
    forall i | 0 <= i < |pauses|
      ensures 0 < pauses[i] <= MAX_POLL_PAUSE && pauses[i] <= Left(within, Elapsed(w, within, i))
    {
      PlannedIsBounded(i);
      WaitedAt(w, floor, within, pauses, i);
    }
    if |pauses| > 0 {
      var n := |pauses| - 1;
      TotalGrows(w, floor, within, pauses, n);
      SleptByNow(w, floor, within, pauses[..n]);
      assert !Ends(w, floor, within, n);
    }
  }
}
