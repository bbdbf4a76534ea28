/** Who is asked to write and to judge, and how long a failing lane waits, in terms a caller can read off the lanes. */
module SchedulerLaws {
  import opened Scheduler
  import opened Numbers

  // ----- the wait -----

  /** The wait after so many failures in a row: a minute, doubled with each, and at most half an hour. */
  function WaitAfter(failures: nat): int {
    if failures <= 1 then 60000
    else
      var twice := 2 * WaitAfter(failures - 1);
      if twice <= 1800000 then twice else 1800000
  }

  lemma {:induction false} BackoffIsWait(failures: nat)
    ensures Backoff(failures) == WaitAfter(failures)
  {
    if failures <= 1 {
      assert Power2(0) == 1;
    } else {
      BackoffIsWait(failures - 1);
      assert Power2(failures - 1) == 2 * Power2(failures - 2);
    }
  }

  // ----- the assignment -----

  /** The lane is not cooling down and has calls left. */
  predicate Free(s: Lanes, cfg: Config, at: int, l: Lane) {
    l in s && s[l].cooldownUntil <= at && (cfg.maxCallsPerLane.Some? ==> s[l].calls < cfg.maxCallsPerLane.value)
  }

  function IsWriter(s: Lanes, cfg: Config, at: int): Lane -> bool {
    (l: Lane) => Free(s, cfg, at, l) && (cfg.generators.Some? ==> l in cfg.generators.value)
  }

  function IsJudge(s: Lanes, cfg: Config, at: int, writer: Lane): Lane -> bool {
    (l: Lane) => Free(s, cfg, at, l) && l != writer
  }

  /** How many of the lanes qualify. */
  function Number(lanes: seq<Lane>, p: Lane -> bool): nat {
    if lanes == [] then 0
    else Number(lanes[..|lanes| - 1], p) + if p(lanes[|lanes| - 1]) then 1 else 0
  }

  lemma {:induction false} KeepNumbers(lanes: seq<Lane>, p: Lane -> bool, q: Lane -> bool)
    requires forall l :: p(l) <==> q(l)
    ensures |Keep(lanes, p)| == Number(lanes, q)
  {
    if lanes != [] { KeepNumbers(lanes[..|lanes| - 1], p, q); }
  }

  /** The j-th lane kept is the one with j qualifying lanes before it. */
  lemma {:induction false} KeptPlace(lanes: seq<Lane>, p: Lane -> bool, q: Lane -> bool, j: nat) returns (k: nat)
    requires (forall l :: p(l) <==> q(l)) && j < |Keep(lanes, p)|
    ensures k < |lanes| && lanes[k] == Keep(lanes, p)[j] && q(lanes[k]) && Number(lanes[..k], q) == j
  {
    var n := |lanes| - 1;
    if j < |Keep(lanes[..n], p)| {
      k := KeptPlace(lanes[..n], p, q, j);
      assert lanes[..n][..k] == lanes[..k];
    } else {
      k := n;
      KeepNumbers(lanes[..n], p, q);
    }
  }

  lemma WritersAre(s: Lanes, cfg: Config, at: int)
    ensures forall l :: CanWrite(s, cfg, at)(l) <==> IsWriter(s, cfg, at)(l)
  {
  }

  lemma JudgesAre(s: Lanes, cfg: Config, at: int, writer: Lane)
    ensures forall l :: CanJudge(s, cfg, at, writer)(l) <==> IsJudge(s, cfg, at, writer)(l)
  {
  }

  /** The position of lane `l` is where `before` qualifying lanes come ahead of it. */
  ghost predicate Stands(lanes: seq<Lane>, p: Lane -> bool, l: Lane, before: nat) {
    exists k: nat :: k < |lanes| && lanes[k] == l && p(l) && Number(lanes[..k], p) == before
  }

  /**
   * The writer is the free writers' own index-th, in the lanes' order and round again; the critic and the tie-break
   * are the first and second free lanes after it, in the order that starts at the index; with one such lane alone
   * there is no tie-break, and with none, or no writer, no assignment.
   */
  lemma AssignmentIs(s: Lanes, cfg: Config, index: nat, at: int)
    ensures var writers := Number(cfg.lanes, IsWriter(s, cfg, at));
      match Assign(s, cfg, index, at)
      case Some(a) =>
        && writers > 0 && Stands(cfg.lanes, IsWriter(s, cfg, at), a.generator, index % writers)
        && Stands(Rotated(cfg.lanes, index), IsJudge(s, cfg, at, a.generator), a.critic, 0)
        && (a.tiebreak.Some? ==>
              Stands(Rotated(cfg.lanes, index), IsJudge(s, cfg, at, a.generator), a.tiebreak.value, 1))
        && (a.tiebreak.Some? <==> Number(Rotated(cfg.lanes, index), IsJudge(s, cfg, at, a.generator)) >= 2)
      case None =>
        writers > 0 ==> exists w ::
            && Stands(cfg.lanes, IsWriter(s, cfg, at), w, index % writers)
            && Number(Rotated(cfg.lanes, index), IsJudge(s, cfg, at, w)) == 0
  {
    hide Keep, Number, CanWrite, CanJudge, IsWriter, IsJudge, Stands, Rotated;
    var writers := Writers(s, cfg, at);
    WritersAre(s, cfg, at);
    KeepNumbers(cfg.lanes, CanWrite(s, cfg, at), IsWriter(s, cfg, at));
    if writers != [] {
      var generator := writers[index % |writers|];
      KeptStands(cfg.lanes, CanWrite(s, cfg, at), IsWriter(s, cfg, at), index % |writers|);
      var order, p, q := Rotated(cfg.lanes, index), CanJudge(s, cfg, at, generator), IsJudge(s, cfg, at, generator);
      JudgesAre(s, cfg, at, generator);
      KeepNumbers(order, p, q);
      if |Keep(order, p)| > 0 { KeptStands(order, p, q, 0); }
      if |Keep(order, p)| > 1 { KeptStands(order, p, q, 1); }
    }
  }

  lemma KeptStands(lanes: seq<Lane>, p: Lane -> bool, q: Lane -> bool, j: nat)
    requires (forall l :: p(l) <==> q(l)) && j < |Keep(lanes, p)|
    ensures Stands(lanes, q, Keep(lanes, p)[j], j)
  {
    var k := KeptPlace(lanes, p, q, j);
  }

  /** At most one lane stands there, so the assignment is the only one of its kind. */
  lemma StandsAlone(lanes: seq<Lane>, p: Lane -> bool, l: Lane, m: Lane, before: nat)
    requires Stands(lanes, p, l, before) && Stands(lanes, p, m, before)
    ensures l == m
  {
    var i: nat :| i < |lanes| && lanes[i] == l && p(l) && Number(lanes[..i], p) == before;
    var j: nat :| j < |lanes| && lanes[j] == m && p(m) && Number(lanes[..j], p) == before;
    if i < j { NumberGrows(lanes, p, i, j); }
    if j < i { NumberGrows(lanes, p, j, i); }
  }

  lemma {:induction false} NumberGrows(lanes: seq<Lane>, p: Lane -> bool, i: nat, j: nat)
    requires i < j <= |lanes| && p(lanes[i])
    ensures Number(lanes[..i], p) < Number(lanes[..j], p)
  {
    assert lanes[..j][..j - 1] == lanes[..j - 1];
    if i < j - 1 { NumberGrows(lanes, p, i, j - 1); }
  }
}
