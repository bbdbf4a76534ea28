/** Rotation and pacing across the lanes that run calls. */
module Scheduler {
  import opened Numbers

  type Lane = nat

  datatype Config = Config(
    lanes: seq<Lane>,
    minGapMs: nat,
    maxCallsPerLane: Option<nat>,
    generators: Option<seq<Lane>>)

  /** The lanes of a run are distinct. */
  ghost predicate Distinct(lanes: seq<Lane>) {
    forall i, j :: 0 <= i < j < |lanes| ==> lanes[i] != lanes[j]
  }

  datatype Snapshot = Snapshot(cooldownUntil: int, failures: nat, calls: nat)

  datatype Assignment = Assignment(generator: Lane, critic: Lane, tiebreak: Option<Lane>)

  const BACKOFF_BASE_MS: nat := 60000
  const BACKOFF_MAX_MS: nat := 30 * 60000

  function Power2(n: nat): (p: nat)
    ensures p >= 1
  {
    if n == 0 then 1 else 2 * Power2(n - 1)
  }

  function Backoff(failures: nat): nat {
    var ms := BACKOFF_BASE_MS * Power2(if failures == 0 then 0 else failures - 1);
    if ms <= BACKOFF_MAX_MS then ms else BACKOFF_MAX_MS
  }

  lemma {:induction false} Power2IsMonotone(m: nat, n: nat)
    requires m <= n
    ensures Power2(m) <= Power2(n)
  {
    if m < n { Power2IsMonotone(m, n - 1); }
  }

  /** Repeated failures never shorten the wait, which stays between a minute and half an hour. */
  lemma BackoffGrows(m: nat, n: nat)
    requires m <= n
    ensures BACKOFF_BASE_MS <= Backoff(m) <= Backoff(n) <= BACKOFF_MAX_MS
  {
    Power2IsMonotone(if m == 0 then 0 else m - 1, if n == 0 then 0 else n - 1);
  }

  // ----- choosing lanes -----

  type Lanes = map<Lane, Snapshot>

  predicate Exhausted(s: Lanes, cfg: Config, lane: Lane)
    requires lane in s
  {
    cfg.maxCallsPerLane.Some? && s[lane].calls >= cfg.maxCallsPerLane.value
  }

  predicate Usable(s: Lanes, cfg: Config, lane: Lane, at: int)
    requires lane in s
  {
    s[lane].cooldownUntil <= at && !Exhausted(s, cfg, lane)
  }

  ghost predicate Covers(s: Lanes, cfg: Config) {
    forall lane :: lane in cfg.lanes ==> lane in s
  }

  predicate Allowed(cfg: Config, lane: Lane) {
    cfg.generators.None? || lane in cfg.generators.value
  }

  function Keep(lanes: seq<Lane>, p: Lane -> bool): (r: seq<Lane>)
    ensures forall l :: l in r <==> l in lanes && p(l)
    ensures Distinct(lanes) ==> Distinct(r)
  {
    if lanes == [] then []
    else
      var n := |lanes| - 1;
      assert lanes == lanes[..n] + [lanes[n]];
      if p(lanes[n]) then Keep(lanes[..n], p) + [lanes[n]] else Keep(lanes[..n], p)
  }

  function CanRun(s: Lanes, cfg: Config, at: int): Lane -> bool {
    (l: Lane) => l in s && Usable(s, cfg, l, at)
  }

  function CanWrite(s: Lanes, cfg: Config, at: int): Lane -> bool {
    (l: Lane) => l in s && Allowed(cfg, l) && Usable(s, cfg, l, at)
  }

  function CanJudge(s: Lanes, cfg: Config, at: int, generator: Lane): Lane -> bool {
    (l: Lane) => l in s && l != generator && Usable(s, cfg, l, at)
  }

  function Writers(s: Lanes, cfg: Config, at: int): seq<Lane> {
    Keep(cfg.lanes, CanWrite(s, cfg, at))
  }

  /** The lanes starting from position `index`, wrapping round. */
  function Rotated(lanes: seq<Lane>, index: nat): (r: seq<Lane>)
    ensures |r| == |lanes|
    ensures forall i :: 0 <= i < |lanes| ==> r[i] == lanes[(index + i) % |lanes|]
  {
    seq(|lanes|, i requires 0 <= i < |lanes| => lanes[(index + i) % |lanes|])
  }

  function Assign(s: Lanes, cfg: Config, index: nat, at: int): Option<Assignment> {
    var writers := Writers(s, cfg, at);
    if writers == [] then None
    else
      var generator := writers[index % |writers|];
      var judges := Keep(Rotated(cfg.lanes, index), CanJudge(s, cfg, at, generator));
      if judges == [] then None
      else Some(Assignment(generator, judges[0], if |judges| > 1 then Some(judges[1]) else None))
  }

  function NextWake(s: Lanes, cfg: Config, at: int): Option<int> {
    EarliestAfter(s, cfg, cfg.lanes, at)
  }

  /** The earliest cool-down end still ahead, among lanes that are not spent. */
  function EarliestAfter(s: Lanes, cfg: Config, lanes: seq<Lane>, at: int): Option<int> {
    if lanes == [] then None
    else
      var rest, lane := EarliestAfter(s, cfg, lanes[..|lanes| - 1], at), lanes[|lanes| - 1];
      if lane in s && !Exhausted(s, cfg, lane) && s[lane].cooldownUntil > at then
        if rest.Some? && rest.value <= s[lane].cooldownUntil then rest else Some(s[lane].cooldownUntil)
      else rest
  }

  // ----- the rotation visits everyone -----

  lemma RotationHits(lanes: seq<Lane>, index: nat, k: nat) returns (i: nat)
    requires k < |lanes|
    ensures i < |lanes| && Rotated(lanes, index)[i] == lanes[k]
  {
    var n := |lanes|;
    var r := index % n;
    i := if k >= r then k - r else k + n - r;
    ModuloShift(index, i, n, k);
  }

  lemma ModuloShift(index: nat, i: nat, n: nat, k: nat)
    requires n > 0 && i < n && k < n
    requires i == if k >= index % n then k - index % n else k + n - index % n
    ensures (index + i) % n == k
  {
    var q := index / n;
    assert index == q * n + index % n;
    if k >= index % n {
      assert index + i == q * n + k;
      ModuloUnique(index + i, n, q, k);
    } else {
      assert index + i == (q + 1) * n + k;
      ModuloUnique(index + i, n, q + 1, k);
    }
  }

  lemma ModuloUnique(x: int, n: nat, q: int, r: nat)
    requires n > 0 && x == q * n + r && r < n
    ensures x % n == r
  {
    assert x / n * n + x % n == q * n + r;
    assert (x / n - q) * n == r - x % n;
    OnlyZeroMultiple(x / n - q, n, r - x % n);
  }

  lemma OnlyZeroMultiple(d: int, n: int, x: int)
    requires n > 0 && d * n == x && -n < x < n
    ensures x == 0
  {
    if d != 0 { MultipleIsFar(d, n); }
  }

  lemma MultipleIsFar(d: int, n: int)
    requires n > 0 && d != 0
    ensures d * n >= n || d * n <= -n
  {
    if d > 0 {
      AtLeastOnce(d, n);
    } else {
      AtLeastOnce(-d, n);
    }
  }

  lemma AtLeastOnce(d: int, n: int)
    requires n > 0 && d > 0
    ensures d * n >= n
  {
  }

  lemma SameResidue(a: nat, b: nat, n: nat)
    requires a <= b < a + n && a % n == b % n
    ensures a == b
  {
    assert (b / n - a / n) * n == b - a;
    OnlyZeroMultiple(b / n - a / n, n, b - a);
  }

  lemma RotatedIsDistinct(lanes: seq<Lane>, index: nat)
    requires Distinct(lanes)
    ensures Distinct(Rotated(lanes, index))
  {
    forall i, j | 0 <= i < j < |lanes| ensures Rotated(lanes, index)[i] != Rotated(lanes, index)[j] {
      RotatedDiffers(lanes, index, i, j);
    }
  }

  lemma RotatedDiffers(lanes: seq<Lane>, index: nat, i: nat, j: nat)
    requires Distinct(lanes) && i < j < |lanes|
    ensures Rotated(lanes, index)[i] != Rotated(lanes, index)[j]
  {
    var a, b := (index + i) % |lanes|, (index + j) % |lanes|;
    if a == b { SameResidue(index + i, index + j, |lanes|); }
    assert lanes[a] != lanes[b] by {
      if a < b { assert lanes[a] != lanes[b]; } else { assert lanes[b] != lanes[a]; }
    }
  }

  lemma RotatedHasTheSameLanes(lanes: seq<Lane>, index: nat)
    ensures forall l :: l in Rotated(lanes, index) <==> l in lanes
  {
    forall l | l in lanes ensures l in Rotated(lanes, index) {
      var k :| 0 <= k < |lanes| && lanes[k] == l;
      var i := RotationHits(lanes, index, k);
    }
  }

  // ----- what an assignment promises -----

  /** Two different lanes that can run now. */
  ghost predicate TwoUsable(s: Lanes, cfg: Config, at: int) {
    exists k, l :: k in cfg.lanes && l in cfg.lanes && k != l && CanRun(s, cfg, at)(k) && CanRun(s, cfg, at)(l)
  }

  /** No assignment exactly when no allowed writer can run, or fewer than two lanes can. */
  lemma AssignIsNoneIff(s: Lanes, cfg: Config, index: nat, at: int)
    requires Covers(s, cfg)
    ensures Assign(s, cfg, index, at).None? <==>
            (forall l :: l in cfg.lanes ==> !CanWrite(s, cfg, at)(l)) || !TwoUsable(s, cfg, at)
  {
    var writers := Writers(s, cfg, at);
    assert forall l :: l in writers <==> l in cfg.lanes && CanWrite(s, cfg, at)(l);
    if writers != [] {
      var generator := writers[index % |writers|];
      assert generator in writers;
      assert CanRun(s, cfg, at)(generator);
      RotatedHasTheSameLanes(cfg.lanes, index);
      var judges := Keep(Rotated(cfg.lanes, index), CanJudge(s, cfg, at, generator));
      if TwoUsable(s, cfg, at) {
        var other := SecondLane(s, cfg, at, generator);
        assert other in judges;
      }
      if judges != [] {
        assert judges[0] in judges;
        assert CanRun(s, cfg, at)(judges[0]);
      }
    } else {
      assert forall l :: l !in writers;
    }
  }

  lemma SecondLane(s: Lanes, cfg: Config, at: int, first: Lane) returns (other: Lane)
    requires TwoUsable(s, cfg, at)
    ensures other in cfg.lanes && CanJudge(s, cfg, at, first)(other)
  {
    var k, l :| k in cfg.lanes && l in cfg.lanes && k != l && CanRun(s, cfg, at)(k) && CanRun(s, cfg, at)(l);
    other := if k == first then l else k;
  }

  /** The lanes assigned can all run now, are pairwise different, and the writer is allowed to write. */
  lemma AssignedLanesAreDistinctAndUsable(s: Lanes, cfg: Config, index: nat, at: int)
    requires Distinct(cfg.lanes) && Assign(s, cfg, index, at).Some?
    ensures var a := Assign(s, cfg, index, at).value;
      && a.generator in cfg.lanes && CanWrite(s, cfg, at)(a.generator)
      && a.critic in cfg.lanes && CanRun(s, cfg, at)(a.critic) && a.critic != a.generator
      && (a.tiebreak.Some? ==> a.tiebreak.value in cfg.lanes)
      && (a.tiebreak.Some? ==> CanRun(s, cfg, at)(a.tiebreak.value))
      && (a.tiebreak.Some? ==> a.tiebreak.value != a.generator && a.tiebreak.value != a.critic)
  {
    var writers := Writers(s, cfg, at);
    var generator := writers[index % |writers|];
    assert generator in writers;
    var judges := Keep(Rotated(cfg.lanes, index), CanJudge(s, cfg, at, generator));
    RotatedIsDistinct(cfg.lanes, index);
    RotatedHasTheSameLanes(cfg.lanes, index);
    assert judges[0] in judges;
    if |judges| > 1 { assert judges[1] in judges; }
  }

  /** It is w's turn in the rotation. */
  predicate IsTurnOf(writers: seq<Lane>, w: Lane, index: nat)
    requires writers != []
  {
    writers[index % |writers|] == w
  }

  /** How often `w` writes over the `len` pool indices from `from`, while the same writers can run. */
  function TurnsOf(writers: seq<Lane>, w: Lane, from: nat, len: nat): nat
    requires writers != []
  {
    if len == 0 then 0
    else TurnsOf(writers, w, from, len - 1) + if IsTurnOf(writers, w, from + len - 1) then 1 else 0
  }

  lemma {:induction false} TurnsSplit(writers: seq<Lane>, w: Lane, from: nat, a: nat, b: nat)
    requires writers != []
    ensures TurnsOf(writers, w, from, a + b) == TurnsOf(writers, w, from, a) + TurnsOf(writers, w, from + a, b)
  {
    if b > 0 { TurnsSplit(writers, w, from, a, b - 1); }
  }

  lemma {:induction false} FirstRound(writers: seq<Lane>, k: nat, len: nat)
    requires Distinct(writers) && k < |writers| && len <= |writers|
    ensures TurnsOf(writers, writers[k], 0, len) == if k < len then 1 else 0
  {
    if len > 0 {
      FirstRound(writers, k, len - 1);
      ModuloUnique(len - 1, |writers|, 0, len - 1);
    }
  }

  lemma {:induction false} EveryRound(writers: seq<Lane>, k: nat, from: nat)
    requires Distinct(writers) && k < |writers|
    ensures TurnsOf(writers, writers[k], from, |writers|) == 1
  {
    var m, w := |writers|, writers[k];
    if from == 0 {
      FirstRound(writers, k, m);
    } else {
      hide TurnsOf;
      EveryRound(writers, k, from - 1);
      TurnsSplit(writers, w, from - 1, 1, m - 1);
      TurnsSplit(writers, w, from, m - 1, 1);
      OneTurn(writers, w, from - 1);
      OneTurn(writers, w, from + (m - 1));
      SameSlot(from - 1, m);
    }
  }

  /** A whole round later it is the same writer's turn. */
  lemma SameSlot(at: nat, m: nat)
    requires m > 0
    ensures (at + 1 + (m - 1)) % m == at % m
  {
    ModuloUnique(at + m, m, at / m + 1, at % m);
  }

  lemma OneTurn(writers: seq<Lane>, w: Lane, at: nat)
    requires writers != []
    ensures TurnsOf(writers, w, at, 1) == if writers[at % |writers|] == w then 1 else 0
  {
    assert TurnsOf(writers, w, at, 0) == 0;
  }

  lemma WritersCanRun(s: Lanes, cfg: Config, at: int, l: Lane)
    requires CanWrite(s, cfg, at)(l)
    ensures CanRun(s, cfg, at)(l)
  {
  }

  /** Writing rotates evenly: over any whole number of rounds, starting anywhere, each writer writes once a round. */
  lemma {:induction false} WritersRotateEvenly(writers: seq<Lane>, k: nat, from: nat, rounds: nat)
    requires Distinct(writers) && k < |writers|
    ensures TurnsOf(writers, writers[k], from, rounds * |writers|) == rounds
  {
    if rounds > 0 {
      var m := |writers|;
      WritersRotateEvenly(writers, k, from, rounds - 1);
      assert rounds * m == (rounds - 1) * m + m;
      TurnsSplit(writers, writers[k], from, (rounds - 1) * m, m);
      EveryRound(writers, k, from + (rounds - 1) * m);
    }
  }

  predicate IsAssigned(s: Lanes, cfg: Config, at: int, w: Lane, index: nat) {
    Assign(s, cfg, index, at).Some? && Assign(s, cfg, index, at).value.generator == w
  }

  /** How many of the n pools from `from` on the lane writes, the lanes staying as they are. */
  function TurnsAssigned(s: Lanes, cfg: Config, at: int, w: Lane, from: nat, n: nat): nat {
    if n == 0 then 0 else TurnsAssigned(s, cfg, at, w, from, n - 1) + if IsAssigned(s, cfg, at, w, from + n - 1) then 1
        else 0
  }

  lemma {:induction false} AssignedTurns(s: Lanes, cfg: Config, at: int, w: Lane, from: nat, n: nat)
    requires Covers(s, cfg) && TwoUsable(s, cfg, at) && Writers(s, cfg, at) != []
    ensures TurnsAssigned(s, cfg, at, w, from, n) == TurnsOf(Writers(s, cfg, at), w, from, n)
  {
    hide TwoUsable, Covers, Writers, IsAssigned, IsTurnOf;
    if n > 0 {
      AssignedTurns(s, cfg, at, w, from, n - 1);
      WriterIsNext(s, cfg, at, w, from + n - 1);
    }
  }

  lemma WriterIsNext(s: Lanes, cfg: Config, at: int, w: Lane, index: nat)
    requires Covers(s, cfg) && TwoUsable(s, cfg, at) && Writers(s, cfg, at) != []
    ensures IsAssigned(s, cfg, at, w, index) <==> IsTurnOf(Writers(s, cfg, at), w, index)
  {
    hide CanRun, TwoUsable;
    AssignIsNoneIff(s, cfg, index, at);
    assert Writers(s, cfg, at)[0] in Writers(s, cfg, at);
  }

  /** While the lanes stay as they are, every usable writer is assigned once in each round of pools. */
  lemma AssignmentsRotateEvenly(s: Lanes, cfg: Config, at: int, w: Lane, from: nat, rounds: nat)
    requires Covers(s, cfg) && Distinct(cfg.lanes) && TwoUsable(s, cfg, at)
    requires w in cfg.lanes && CanWrite(s, cfg, at)(w)
    ensures TurnsAssigned(s, cfg, at, w, from, rounds * |Writers(s, cfg, at)|) == rounds
  {
    hide CanWrite, TwoUsable, TurnsOf, TurnsAssigned, Assign;
    var writers := Writers(s, cfg, at);
    assert w in writers;
    var k :| 0 <= k < |writers| && writers[k] == w;
    WritersRotateEvenly(writers, k, from, rounds);
    AssignedTurns(s, cfg, at, w, from, rounds * |writers|);
  }

  /** The wake-up time offered is the earliest end of a cool-down that a lane will really come back from. */
  lemma {:induction false} NextWakeIsEarliest(s: Lanes, cfg: Config, lanes: seq<Lane>, at: int)
    ensures var w := EarliestAfter(s, cfg, lanes, at);
      && (w.Some? ==> w.value > at)
      && (w.Some? ==> exists l :: l in lanes && l in s && !Exhausted(s, cfg, l) && s[l].cooldownUntil == w.value)
      && forall l :: l in lanes && l in s && !Exhausted(s, cfg, l) && s[l].cooldownUntil > at
           ==> w.Some? && w.value <= s[l].cooldownUntil
  {
    if lanes != [] {
      var n := |lanes| - 1;
      NextWakeIsEarliest(s, cfg, lanes[..n], at);
      assert lanes == lanes[..n] + [lanes[n]];
    }
  }
}
