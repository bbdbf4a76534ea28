/** What a pool's outcome owes to the lanes' replies themselves: which reply, which entry, for which item. */
module PoolLaws {
  import opened Numbers
  import opened Pipeline
  import S = Scheduler

  // ----- which entry of a reply counts -----

  /** The verdict stands in the reply under the number: no earlier entry carries it. */
  ghost predicate Stands(list: seq<Numbered>, n: nat, v: Verdict) {
    exists i :: StandsAt(list, n, v, i)
  }

  ghost predicate StandsAt(list: seq<Numbered>, n: nat, v: Verdict, i: int) {
    0 <= i < |list| && list[i] == Numbered(n, v) && forall j :: 0 <= j < i ==> !Carries(list[j], n)
  }

  ghost predicate Missing(list: seq<Numbered>, n: nat) { forall i :: 0 <= i < |list| ==> !Carries(list[i], n) }

  lemma {:induction false} VerdictStands(list: seq<Numbered>, n: nat)
    ensures VerdictFor(list, n).None? <==> Missing(list, n)
    ensures forall v: Verdict :: VerdictFor(list, n) == Some(v) <==> Stands(list, n, v)
  {
    if list != [] {
      var m := |list| - 1;
      VerdictStands(list[..m], n);
      forall v: Verdict ensures VerdictFor(list, n) == Some(v) <==> Stands(list, n, v) { StandsOneMore(list, n, v); }
    }
  }

  lemma StandsOneMore(list: seq<Numbered>, n: nat, v: Verdict)
    requires list != []
    ensures var m := |list| - 1;
      Stands(list, n, v) <==> Stands(list[..m], n, v) || (Missing(list[..m], n) && list[m] == Numbered(n, v))
  {
    var m := |list| - 1;
    if i :| StandsAt(list, n, v, i) {
      if i < m { assert StandsAt(list[..m], n, v, i); }
    }
    if i :| StandsAt(list[..m], n, v, i) { assert StandsAt(list, n, v, i); }
    if Missing(list[..m], n) && list[m] == Numbered(n, v) { assert StandsAt(list, n, v, m); }
  }

  // ----- which items are questions, candidates and disputes -----

  /** The questions of a reply are its well-formed items, in order. */
  lemma {:induction false} QuestionsAre(items: seq<Item>)
    ensures Rising(Questions(items))
    ensures forall k: nat, text: Text ::
              Candidate(k, text) in Questions(items) <==> k < |items| && items[k] == Question(text)
  {
    QuestionsRise(items);
    if items != [] {
      var n := |items| - 1;
      QuestionsAre(items[..n]);
      forall k: nat, text: Text
        ensures Candidate(k, text) in Questions(items) <==> k < |items| && items[k] == Question(text)
      {
        assert Candidate(k, text) in Questions(items) <==>
          Candidate(k, text) in Questions(items[..n]) || (k == n && items[n] == Question(text));
      }
    }
  }

  /** Question number q comes through the local checks. */
  predicate Survives(ch: Checks, qs: seq<Candidate>, q: nat)
    requires q < |qs|
  {
    q !in ch.withinBatch(TextsOf(qs)) && ch.lints(qs[q].text) && !ch.duplicate(qs[q].text)
  }

  /** The candidates are the questions that come through, in order. */
  lemma {:induction false} CandidatesAre(ch: Checks, qs: seq<Candidate>, n: nat)
    requires Rising(qs) && n <= |qs|
    ensures Rising(Candidates(ch, qs, n))
    ensures forall c :: c in Candidates(ch, qs, n) <==> exists q :: 0 <= q < n && qs[q] == c && Survives(ch, qs, q)
  {
    CandidatesRise(ch, qs, n);
    if n > 0 {
      hide Survives, LocalStage;
      CandidatesAre(ch, qs, n - 1);
      SurvivorsAre(ch, qs, n - 1);
      forall c ensures c in Candidates(ch, qs, n) <==> exists q :: 0 <= q < n && qs[q] == c && Survives(ch, qs, q) {
        assert c in Candidates(ch, qs, n) <==>
          c in Candidates(ch, qs, n - 1) || (qs[n - 1] == c && Survives(ch, qs, n - 1));
      }
    }
  }

  lemma SurvivorsAre(ch: Checks, qs: seq<Candidate>, q: nat)
    requires q < |qs|
    ensures LocalStage(ch, qs, q).None? <==> Survives(ch, qs, q)
  {
  }

  /** Candidate number c was failed by the critic's own verdict for reasons of the critic alone. */
  ghost predicate FailsOnCritic(ch: Checks, cs: seq<Candidate>, critic: seq<Numbered>, c: nat)
    requires c < |cs|
  {
    exists v :: Stands(critic, c + 1, v) && ch.gate(v, cs[c].text).fails && ch.gate(v, cs[c].text).criticOnly
  }

  /** The disputes are those candidates, in order, and none when no tie-break is possible. */
  lemma {:induction false} DisputesAre(ch: Checks, cs: seq<Candidate>, critic: seq<Numbered>, mayBreak: bool, n: nat)
    requires Rising(cs) && n <= |cs|
    ensures Rising(Disputed(ch, cs, critic, mayBreak, n))
    ensures forall c :: c in Disputed(ch, cs, critic, mayBreak, n) <==>
              mayBreak && exists i :: 0 <= i < n && cs[i] == c && FailsOnCritic(ch, cs, critic, i)
  {
    DisputedRise(ch, cs, critic, mayBreak, n);
    if n > 0 {
      hide FailsOnCritic, IsDisputed, VerdictFor;
      DisputesAre(ch, cs, critic, mayBreak, n - 1);
      DisputeIs(ch, cs, critic, mayBreak, n - 1);
      forall c
        ensures c in Disputed(ch, cs, critic, mayBreak, n) <==>
                mayBreak && exists i :: 0 <= i < n && cs[i] == c && FailsOnCritic(ch, cs, critic, i)
      {
        assert c in Disputed(ch, cs, critic, mayBreak, n) <==>
          c in Disputed(ch, cs, critic, mayBreak, n - 1)
              || (mayBreak && cs[n - 1] == c && FailsOnCritic(ch, cs, critic, n - 1));
      }
    }
  }

  lemma DisputeIs(ch: Checks, cs: seq<Candidate>, critic: seq<Numbered>, mayBreak: bool, c: nat)
    requires c < |cs|
    ensures IsDisputed(ch, cs[c], VerdictFor(critic, c + 1), mayBreak) <==>
            mayBreak && FailsOnCritic(ch, cs, critic, c)
  {
    hide VerdictFor, Stands;
    VerdictStands(critic, c + 1);
  }

  // ----- the ruling on an item -----

  /** The entries of a lane's reply; none if it did not answer. */
  function EntriesOf(reply: Answer<seq<Numbered>>): seq<Numbered> { if reply.Said? then reply.value else [] }

  function WhenFormatted(ch: Checks, text: Text, critic: Verdict, second: Option<Verdict>): Fate {
    if ch.formats(text, critic, second) then Kept(critic, second) else Dropped(Format)
  }

  /** What the second lane makes of dispute number n. */
  ghost predicate RuledBySecond(ch: Checks, text: Text, critic: Verdict, second: Answer<seq<Numbered>>, n: nat,
                                fate: Fate) {
    && (second.Failed? || Missing(second.value, n) ==> fate == Dropped(Tiebreak))
    && forall v :: second.Said? && Stands(second.value, n, v) ==>
         fate == if ch.gate(v, text).fails then Dropped(Tiebreak) else WhenFormatted(ch, text, critic, Some(v))
  }

  /** A tie-break may be asked for, and there is a lane to ask. */
  predicate MayBreak(lanes: S.Assignment, breakTies: bool) { breakTies && lanes.tiebreak.Some? }

  /** What follows from the critic's verdict on candidate number c. */
  ghost predicate RuledOnVerdict(ch: Checks, cs: seq<Candidate>, c: nat, lanes: S.Assignment, breakTies: bool,
                                 replies: Replies, v: Verdict, fate: Fate)
    requires c < |cs|
  {
    var text := cs[c].text;
    if !ch.gate(v, text).fails then fate == WhenFormatted(ch, text, v, None)
    else if !MayBreak(lanes, breakTies) || !ch.gate(v, text).criticOnly then fate == Dropped(Critic)
    else
      var ds := Disputed(ch, cs, EntriesOf(replies.critic(lanes.critic)), true, |cs|);
      exists d :: 0 <= d < |ds| && ds[d] == cs[c]
          && RuledBySecond(ch, text, v, replies.tiebreak(lanes.tiebreak.value), d + 1, fate)
  }

  /** What the critic's lane, and then the tie-break's, make of candidate number c. */
  ghost predicate RuledByJudges(ch: Checks, cs: seq<Candidate>, c: nat, lanes: S.Assignment, breakTies: bool,
                                replies: Replies, fate: Fate)
    requires c < |cs|
  {
    var critic := EntriesOf(replies.critic(lanes.critic));
    && (Missing(critic, c + 1) ==> fate == Dropped(Critic))
    && forall v: Verdict :: Stands(critic, c + 1, v) ==>
         RuledOnVerdict(ch, cs, c, lanes, breakTies, replies, v, fate)
  }

  /** The first local check that question number q does not pass. */
  function StoppedBy(ch: Checks, qs: seq<Candidate>, q: nat): RejectStage
    requires q < |qs| && !Survives(ch, qs, q)
  {
    if q !in ch.withinBatch(TextsOf(qs)) && !ch.lints(qs[q].text) then Lint else Dedupe
  }

  /** What becomes of item k by the lanes' own replies. */
  ghost predicate Ruled(ch: Checks, items: seq<Item>, lanes: S.Assignment, breakTies: bool, replies: Replies, k: nat,
                        fate: Fate)
    requires k < |items|
  {
    var qs := Questions(items);
    var cs := Candidates(ch, qs, |qs|);
    if !items[k].Question? then fate == Dropped(Parse)
    else
      exists q :: 0 <= q < |qs| && qs[q] == Candidate(k, items[k].text)
        && if !Survives(ch, qs, q) then fate == Dropped(StoppedBy(ch, qs, q))
           else exists c :: 0 <= c < |cs| && cs[c] == qs[q] && RuledByJudges(ch, cs, c, lanes, breakTies, replies, fate)
  }

  lemma FateIsRuled(ch: Checks, items: seq<Item>, lanes: S.Assignment, breakTies: bool, replies: Replies, k: nat)
    requires k < |items|
    ensures Ruled(ch, items, lanes, breakTies, replies, k, FateOf(ch, BatchOf(items, lanes, breakTies, replies), k))
  {
    hide Questions, Candidates, Judged, LocalStage, Survives, RuledByJudges, BatchOf;
    var b, qs := BatchOf(items, lanes, breakTies, replies), Questions(items);
    assert b.items == items by { BatchIs(items, lanes, breakTies, replies); }
    QuestionsAre(items);
    if !items[k].Question? {
      PositionNone(qs, k);
    } else {
      assert Candidate(k, items[k].text) in qs;
      var q :| 0 <= q < |qs| && qs[q] == Candidate(k, items[k].text);
      PositionIs(qs, q);
      if !Survives(ch, qs, q) {
        StageIs(ch, qs, q);
      } else {
        SurvivorsAre(ch, qs, q);
        CandidatesAre(ch, qs, |qs|);
        var cs := Candidates(ch, qs, |qs|);
        assert qs[q] in cs;
        var c :| 0 <= c < |cs| && cs[c] == qs[q];
        PositionIs(cs, c);
        JudgementIsRuled(ch, items, cs, c, lanes, breakTies, replies);
      }
    }
  }

  lemma BatchIs(items: seq<Item>, lanes: S.Assignment, breakTies: bool, replies: Replies)
    ensures var b := BatchOf(items, lanes, breakTies, replies);
      && b.items == items && b.critic == EntriesOf(replies.critic(lanes.critic))
      && b.mayBreak == MayBreak(lanes, breakTies)
      && (lanes.tiebreak.Some? ==> b.ties == replies.tiebreak(lanes.tiebreak.value))
  {
  }

  lemma StageIs(ch: Checks, qs: seq<Candidate>, q: nat)
    requires q < |qs| && !Survives(ch, qs, q)
    ensures LocalStage(ch, qs, q) == Some(StoppedBy(ch, qs, q))
  {
  }

  lemma JudgementIsRuled(ch: Checks, items: seq<Item>, cs: seq<Candidate>, c: nat, lanes: S.Assignment,
                         breakTies: bool, replies: Replies)
    requires Rising(cs) && c < |cs|
    ensures var b := BatchOf(items, lanes, breakTies, replies);
      RuledByJudges(ch, cs, c, lanes, breakTies, replies, Judged(ch, cs, c, b.critic, b.ties, b.mayBreak))
  {
    hide VerdictFor, Stands, Missing, BatchOf, RuledOnVerdict;
    var b := BatchOf(items, lanes, breakTies, replies);
    BatchIs(items, lanes, breakTies, replies);
    VerdictStands(b.critic, c + 1);
    if VerdictFor(b.critic, c + 1).Some? { VerdictIsRuled(ch, cs, c, lanes, breakTies, replies, b); }
  }

  lemma VerdictIsRuled(ch: Checks, cs: seq<Candidate>, c: nat, lanes: S.Assignment, breakTies: bool,
                       replies: Replies, b: Batch)
    requires Rising(cs) && c < |cs| && VerdictFor(b.critic, c + 1).Some?
    requires b.critic == EntriesOf(replies.critic(lanes.critic)) && b.mayBreak == MayBreak(lanes, breakTies)
    requires lanes.tiebreak.Some? ==> b.ties == replies.tiebreak(lanes.tiebreak.value)
    ensures RuledOnVerdict(ch, cs, c, lanes, breakTies, replies, VerdictFor(b.critic, c + 1).value,
              Judged(ch, cs, c, b.critic, b.ties, b.mayBreak))
  {
    hide Disputed, VerdictFor, Position, RuledBySecond, Overturns, AfterFormat, FailsOnCritic;
    var verdict, text := VerdictFor(b.critic, c + 1).value, cs[c].text;
    FormattedIs(ch, text, verdict, None);
    if IsDisputed(ch, cs[c], Some(verdict), b.mayBreak) {
      var d := DisputeNumber(ch, cs, b.critic, b.mayBreak, c);
      SecondIsRuled(ch, text, verdict, b.ties, d);
      assert RuledBySecond(ch, text, verdict, b.ties, d + 1, Judged(ch, cs, c, b.critic, b.ties, b.mayBreak));
    }
  }

  lemma DisputeNumber(ch: Checks, cs: seq<Candidate>, critic: seq<Numbered>, mayBreak: bool, c: nat) returns (d: nat)
    requires Rising(cs) && c < |cs| && IsDisputed(ch, cs[c], VerdictFor(critic, c + 1), mayBreak)
    ensures var ds := Disputed(ch, cs, critic, mayBreak, |cs|);
      && d < |ds| && ds[d] == cs[c] && Position(ds, cs[c].item) == Some(d)
      && forall e :: 0 <= e < |ds| && ds[e] == cs[c] ==> e == d
  {
    hide Disputed, VerdictFor, Position;
    var ds := Disputed(ch, cs, critic, mayBreak, |cs|);
    DisputesAre(ch, cs, critic, mayBreak, |cs|);
    DisputeIs(ch, cs, critic, mayBreak, c);
    assert cs[c] in ds;
    d :| 0 <= d < |ds| && ds[d] == cs[c];
    PositionIs(ds, d);
  }

  lemma FormattedIs(ch: Checks, text: Text, critic: Verdict, second: Option<Verdict>)
    ensures AfterFormat(ch, text, critic, second) == WhenFormatted(ch, text, critic, second)
  {
  }

  lemma SecondIsRuled(ch: Checks, text: Text, critic: Verdict, ties: Answer<seq<Numbered>>, d: nat)
    ensures RuledBySecond(ch, text, critic, ties, d + 1,
              if Overturns(ch, ties, d, text) then AfterFormat(ch, text, critic, Second(ties, d))
              else Dropped(Tiebreak))
  {
    hide VerdictFor, Stands, Missing;
    if ties.Said? { VerdictStands(ties.value, d + 1); }
  }

  /** There is one ruling on an item. */
  lemma RulingIsUnique(ch: Checks, items: seq<Item>, lanes: S.Assignment, breakTies: bool, replies: Replies, k: nat,
                       fate: Fate)
    requires k < |items| && Ruled(ch, items, lanes, breakTies, replies, k, fate)
    ensures fate == FateOf(ch, BatchOf(items, lanes, breakTies, replies), k)
  {
    hide Questions, Candidates, Judged, LocalStage, Survives, RuledByJudges, BatchOf;
    var b, qs := BatchOf(items, lanes, breakTies, replies), Questions(items);
    BatchIs(items, lanes, breakTies, replies);
    QuestionsAre(items);
    if !items[k].Question? {
      PositionNone(qs, k);
    } else {
      var q :| 0 <= q < |qs| && qs[q] == Candidate(k, items[k].text)
        && var cs := Candidates(ch, qs, |qs|);
           if !Survives(ch, qs, q) then fate == Dropped(StoppedBy(ch, qs, q))
           else
             exists c :: 0 <= c < |cs| && cs[c] == qs[q] && RuledByJudges(ch, cs, c, lanes, breakTies, replies, fate);
      PositionIs(qs, q);
      if !Survives(ch, qs, q) {
        StageIs(ch, qs, q);
      } else {
        SurvivorsAre(ch, qs, q);
        CandidatesAre(ch, qs, |qs|);
        var cs := Candidates(ch, qs, |qs|);
        var c :| 0 <= c < |cs| && cs[c] == qs[q] && RuledByJudges(ch, cs, c, lanes, breakTies, replies, fate);
        PositionIs(cs, c);
        JudgementIsUnique(ch, items, cs, c, lanes, breakTies, replies, fate);
      }
    }
  }

  lemma JudgementIsUnique(ch: Checks, items: seq<Item>, cs: seq<Candidate>, c: nat, lanes: S.Assignment,
                          breakTies: bool, replies: Replies, fate: Fate)
    requires Rising(cs) && c < |cs| && RuledByJudges(ch, cs, c, lanes, breakTies, replies, fate)
    ensures var b := BatchOf(items, lanes, breakTies, replies);
      fate == Judged(ch, cs, c, b.critic, b.ties, b.mayBreak)
  {
    hide VerdictFor, Stands, Missing, BatchOf, RuledOnVerdict;
    var b := BatchOf(items, lanes, breakTies, replies);
    BatchIs(items, lanes, breakTies, replies);
    VerdictStands(b.critic, c + 1);
    if VerdictFor(b.critic, c + 1).Some? { VerdictRulesOnce(ch, cs, c, lanes, breakTies, replies, b, fate); }
  }

  lemma VerdictRulesOnce(ch: Checks, cs: seq<Candidate>, c: nat, lanes: S.Assignment, breakTies: bool,
                         replies: Replies, b: Batch, fate: Fate)
    requires Rising(cs) && c < |cs| && VerdictFor(b.critic, c + 1).Some?
    requires b.critic == EntriesOf(replies.critic(lanes.critic)) && b.mayBreak == MayBreak(lanes, breakTies)
    requires lanes.tiebreak.Some? ==> b.ties == replies.tiebreak(lanes.tiebreak.value)
    requires RuledOnVerdict(ch, cs, c, lanes, breakTies, replies, VerdictFor(b.critic, c + 1).value, fate)
    ensures fate == Judged(ch, cs, c, b.critic, b.ties, b.mayBreak)
  {
    hide Disputed, VerdictFor, Position, RuledBySecond, Overturns, AfterFormat, FailsOnCritic;
    var verdict, text := VerdictFor(b.critic, c + 1).value, cs[c].text;
    FormattedIs(ch, text, verdict, None);
    if IsDisputed(ch, cs[c], Some(verdict), b.mayBreak) {
      var d := DisputeNumber(ch, cs, b.critic, b.mayBreak, c);
      assert RuledBySecond(ch, text, verdict, b.ties, d + 1, fate);
      SecondIsUnique(ch, text, verdict, b.ties, d, fate);
    }
  }

  lemma SecondIsUnique(ch: Checks, text: Text, critic: Verdict, ties: Answer<seq<Numbered>>, d: nat, fate: Fate)
    requires RuledBySecond(ch, text, critic, ties, d + 1, fate)
    ensures fate == if Overturns(ch, ties, d, text) then AfterFormat(ch, text, critic, Second(ties, d))
                    else Dropped(Tiebreak)
  {
    hide VerdictFor, Stands, Missing;
    if ties.Said? { VerdictStands(ties.value, d + 1); }
  }

  // ----- the pool -----

  /** Every item of the reply ends as one record or one rejection, the one the lanes' replies rule. */
  ghost predicate AllRuled(ch: Checks, items: seq<Item>, lanes: S.Assignment, breakTies: bool, replies: Replies,
                           accepted: seq<Accepted>, rejected: seq<Rejected>) {
    && (forall a :: a in accepted ==>
          && a.lanes == lanes && a.item < |items| && items[a.item] == Question(a.text)
          && Ruled(ch, items, lanes, breakTies, replies, a.item, Kept(a.critic, a.tiebreak)))
    && (forall r :: r in rejected ==>
          && r.item.Some? && r.item.value < |items|
          && Ruled(ch, items, lanes, breakTies, replies, r.item.value, Dropped(r.stage)))
    && (forall k: nat :: k < |items| ==> OfRecords(accepted)[k] + OfRejections(rejected)[k] == 1)
  }

  lemma PoolIsRuled(file: Option<seq<Anchor>>, stored: Option<seq<Anchor>>, ch: Checks, lanes: S.Assignment,
                    breakTies: bool, replies: Replies, result: Result)
    requires PoolEnds(file, stored, ch, lanes, breakTies, replies, result) && result.PoolResult?
    ensures replies.questions(lanes.generator).Said?
    ensures var reply := replies.questions(lanes.generator).value;
      if reply.None? then result.accepted == [] && result.rejected == [Rejected(Parse, None)]
      else AllRuled(ch, reply.value, lanes, breakTies, replies, result.accepted, result.rejected)
  {
    hide Accounted, EnsureAnchors, BatchOf, AllRuled, Ruled;
    var reply := replies.questions(lanes.generator).value;
    if reply.Some? {
      AccountedIsRuled(ch, reply.value, lanes, breakTies, replies, result.accepted, result.rejected);
    }
  }

  lemma AccountedIsRuled(ch: Checks, items: seq<Item>, lanes: S.Assignment, breakTies: bool, replies: Replies,
                         accepted: seq<Accepted>, rejected: seq<Rejected>)
    requires Accounted(ch, BatchOf(items, lanes, breakTies, replies), accepted, rejected)
    requires forall a :: a in accepted ==> a.lanes == lanes
    ensures AllRuled(ch, items, lanes, breakTies, replies, accepted, rejected)
  {
    hide BatchOf, Ruled, FateOf, Items;
    var b := BatchOf(items, lanes, breakTies, replies);
    BatchIs(items, lanes, breakTies, replies);
    forall a | a in accepted ensures Ruled(ch, items, lanes, breakTies, replies, a.item, Kept(a.critic, a.tiebreak)) {
      assert Earned(ch, b, a);
      FateIsRuled(ch, items, lanes, breakTies, replies, a.item);
    }
    forall r | r in rejected
      ensures r.item.Some? && r.item.value < |items|
      ensures Ruled(ch, items, lanes, breakTies, replies, r.item.value, Dropped(r.stage))
    {
      assert Settled(ch, b, r);
      RejectedIsAnItem(b, accepted, rejected, r);
      FateIsRuled(ch, items, lanes, breakTies, replies, r.item.value);
    }
    forall k: nat | k < |items| ensures OfRecords(accepted)[k] + OfRejections(rejected)[k] == 1 {
      EachItemEndsOnce(ch, b, accepted, rejected, k);
    }
  }

  lemma RejectedIsAnItem(b: Batch, accepted: seq<Accepted>, rejected: seq<Rejected>, r: Rejected)
    requires Splits(Upto(|b.items|), OfRecords(accepted), OfRejections(rejected)) && r in rejected && r.item.Some?
    ensures r.item.value < |b.items|
  {
    hide Items, Upto;
    var k := r.item.value;
    assert ItemOfRejection(r) == Some(k);
    ItemIsNamed(rejected, ItemOfRejection, k);
    UptoHoldsEachOnce(|b.items|, k);
    assert (OfRecords(accepted) + OfRejections(rejected))[k] == Upto(|b.items|)[k];
  }

  /** The verdict stands in the reply under the candidate's number among the disputes. */
  ghost predicate StandsForDispute(list: seq<Numbered>, ds: seq<Candidate>, c: Candidate, v: Verdict) {
    exists d :: 0 <= d < |ds| && ds[d] == c && Stands(list, d + 1, v)
  }

  /** The critic's verdict is in the critic's reply, and a second one in the reply of the lane assigned for ties. */
  ghost predicate Attested(ch: Checks, items: seq<Item>, lanes: S.Assignment, breakTies: bool, replies: Replies,
                           a: Accepted) {
    var qs := Questions(items);
    var cs := Candidates(ch, qs, |qs|);
    && replies.critic(lanes.critic).Said?
    && exists c :: 0 <= c < |cs| && cs[c] == Candidate(a.item, a.text)
         && Stands(replies.critic(lanes.critic).value, c + 1, a.critic)
         && if a.tiebreak.None? then !ch.gate(a.critic, a.text).fails
            else
              && breakTies && lanes.tiebreak.Some? && replies.tiebreak(lanes.tiebreak.value).Said?
              && ch.gate(a.critic, a.text).fails && ch.gate(a.critic, a.text).criticOnly
              && !ch.gate(a.tiebreak.value, a.text).fails
              && var ds := Disputed(ch, cs, replies.critic(lanes.critic).value, true, |cs|);
                 StandsForDispute(replies.tiebreak(lanes.tiebreak.value).value, ds, cs[c], a.tiebreak.value)
  }

  lemma RecordIsAttested(ch: Checks, items: seq<Item>, lanes: S.Assignment, breakTies: bool, replies: Replies,
                         a: Accepted)
    requires a.item < |items| && items[a.item] == Question(a.text)
    requires Ruled(ch, items, lanes, breakTies, replies, a.item, Kept(a.critic, a.tiebreak))
    ensures Attested(ch, items, lanes, breakTies, replies, a)
  {
    hide Questions, Candidates, Survives, RuledOnVerdict, Stands;
    var qs, fate := Questions(items), Kept(a.critic, a.tiebreak);
    var cs := Candidates(ch, qs, |qs|);
    var q :| 0 <= q < |qs| && qs[q] == Candidate(a.item, a.text) && Survives(ch, qs, q)
      && exists c :: 0 <= c < |cs| && cs[c] == qs[q] && RuledByJudges(ch, cs, c, lanes, breakTies, replies, fate);
    var c :| 0 <= c < |cs| && cs[c] == qs[q] && RuledByJudges(ch, cs, c, lanes, breakTies, replies, fate);
    var critic := EntriesOf(replies.critic(lanes.critic));
    VerdictStands(critic, c + 1);
    var v := VerdictFor(critic, c + 1).value;
    assert Stands(critic, c + 1, v) && RuledOnVerdict(ch, cs, c, lanes, breakTies, replies, v, fate);
    NothingStandsInNothing(critic, c + 1, v);
    KeptOnVerdict(ch, cs, c, lanes, breakTies, replies, v, fate);
  }

  lemma NothingStandsInNothing(list: seq<Numbered>, n: nat, v: Verdict)
    requires Stands(list, n, v)
    ensures list != []
  {
  }

  lemma KeptOnVerdict(ch: Checks, cs: seq<Candidate>, c: nat, lanes: S.Assignment, breakTies: bool, replies: Replies,
                      v: Verdict, fate: Fate)
    requires c < |cs| && RuledOnVerdict(ch, cs, c, lanes, breakTies, replies, v, fate) && fate.Kept?
    ensures fate.critic == v && (fate.tiebreak.None? <==> !ch.gate(v, cs[c].text).fails)
    ensures fate.tiebreak.Some? ==>
              && breakTies && lanes.tiebreak.Some? && replies.tiebreak(lanes.tiebreak.value).Said?
              && ch.gate(v, cs[c].text).criticOnly && !ch.gate(fate.tiebreak.value, cs[c].text).fails
              && var ds := Disputed(ch, cs, EntriesOf(replies.critic(lanes.critic)), true, |cs|);
                 StandsForDispute(replies.tiebreak(lanes.tiebreak.value).value, ds, cs[c], fate.tiebreak.value)
  {
    hide Disputed, Stands, Missing, VerdictFor, RuledBySecond;
    var ds, text := Disputed(ch, cs, EntriesOf(replies.critic(lanes.critic)), true, |cs|), cs[c].text;
    if ch.gate(v, text).fails {
      var second := replies.tiebreak(lanes.tiebreak.value);
      var d :| 0 <= d < |ds| && ds[d] == cs[c] && RuledBySecond(ch, text, v, second, d + 1, fate);
      KeptOnSecond(ch, text, v, second, d + 1, fate);
      assert StandsForDispute(second.value, ds, cs[c], fate.tiebreak.value);
    }
  }

  lemma KeptOnSecond(ch: Checks, text: Text, critic: Verdict, second: Answer<seq<Numbered>>, n: nat, fate: Fate)
    requires RuledBySecond(ch, text, critic, second, n, fate) && fate.Kept?
    ensures second.Said? && fate.critic == critic && fate.tiebreak.Some?
    ensures Stands(second.value, n, fate.tiebreak.value) && !ch.gate(fate.tiebreak.value, text).fails
  {
    hide Stands, VerdictFor, Missing;
    if second.Said? {
      VerdictStands(second.value, n);
      assert Stands(second.value, n, VerdictFor(second.value, n).value);
    }
  }

  /**
   * In a pool run on lanes the scheduler assigned, whatever is recorded was approved in the reply of a lane that did
   * not write it: the critic's, or the third lane's where the critic's failed it.
   */
  lemma JudgesAreNotTheWriter(s: S.Lanes, cfg: S.Config, index: nat, at: int, file: Option<seq<Anchor>>,
                              stored: Option<seq<Anchor>>, ch: Checks, lanes: S.Assignment, breakTies: bool,
                              replies: Replies, result: Result, a: Accepted)
    requires S.Distinct(cfg.lanes) && S.Assign(s, cfg, index, at) == Some(lanes)
    requires PoolEnds(file, stored, ch, lanes, breakTies, replies, result) && result.PoolResult?
    requires a in result.accepted
    ensures replies.questions(lanes.generator).Said? && replies.questions(lanes.generator).value.Some?
    ensures Attested(ch, replies.questions(lanes.generator).value.value, lanes, breakTies, replies, a)
    ensures lanes.critic != lanes.generator
    ensures lanes.tiebreak.Some? ==> lanes.tiebreak.value != lanes.generator && lanes.tiebreak.value != lanes.critic
  {
    hide S.Assign, PoolEnds, Attested, Ruled;
    S.AssignedLanesAreDistinctAndUsable(s, cfg, index, at);
    PoolIsRuled(file, stored, ch, lanes, breakTies, replies, result);
    var items := replies.questions(lanes.generator).value.value;
    RecordIsAttested(ch, items, lanes, breakTies, replies, a);
  }

  // ----- nothing another lane says matters -----

  /** The replies agree wherever the assignment asks a lane. */
  predicate AgreeOn(lanes: S.Assignment, replies: Replies, other: Replies) {
    && replies.standard(lanes.generator) == other.standard(lanes.generator)
    && replies.questions(lanes.generator) == other.questions(lanes.generator)
    && replies.critic(lanes.critic) == other.critic(lanes.critic)
    && (lanes.tiebreak.Some? ==> replies.tiebreak(lanes.tiebreak.value) == other.tiebreak(lanes.tiebreak.value))
  }

  /** Records and rejections are the same, whatever their order. */
  ghost predicate SameResult(r: Result, other: Result) {
    match r
    case StageError(limited) => other == r
    case PoolResult(created, accepted, rejected) =>
      && other.PoolResult? && other.created == created
      && (forall a :: a in accepted <==> a in other.accepted)
      && (forall x :: x in rejected <==> x in other.rejected)
  }

  /** Two pools whose assigned lanes answer alike end alike, whatever else the lanes would have answered. */
  lemma OnlyAssignedLanesMatter(file: Option<seq<Anchor>>, stored: Option<seq<Anchor>>, ch: Checks,
                                lanes: S.Assignment, breakTies: bool, replies: Replies, other: Replies, r: Result,
                                q: Result)
    requires AgreeOn(lanes, replies, other)
    requires PoolEnds(file, stored, ch, lanes, breakTies, replies, r)
    requires PoolEnds(file, stored, ch, lanes, breakTies, other, q)
    ensures SameResult(r, q)
  {
    hide Accounted, EnsureAnchors, Questions, Candidates;
    var questions := replies.questions(lanes.generator);
    if r.PoolResult? && questions.value.Some? {
      var items := questions.value.value;
      SameBatch(items, lanes, breakTies, replies, other);
      var b := BatchOf(items, lanes, breakTies, replies);
      SameEnds(ch, b, lanes, r.accepted, r.rejected, q.accepted, q.rejected);
      SameEnds(ch, b, lanes, q.accepted, q.rejected, r.accepted, r.rejected);
    }
  }

  lemma SameBatch(items: seq<Item>, lanes: S.Assignment, breakTies: bool, replies: Replies, other: Replies)
    requires AgreeOn(lanes, replies, other)
    ensures BatchOf(items, lanes, breakTies, replies) == BatchOf(items, lanes, breakTies, other)
  {
  }

  lemma SameEnds(ch: Checks, b: Batch, lanes: S.Assignment, accepted: seq<Accepted>, rejected: seq<Rejected>,
                 otherAccepted: seq<Accepted>, otherRejected: seq<Rejected>)
    requires Accounted(ch, b, accepted, rejected) && Accounted(ch, b, otherAccepted, otherRejected)
    requires forall a :: a in accepted || a in otherAccepted ==> a.lanes == lanes
    ensures forall a :: a in accepted ==> a in otherAccepted
    ensures forall r :: r in rejected ==> r in otherRejected
  {
    hide FateOf, Items;
    forall a | a in accepted ensures a in otherAccepted {
      EachItemEndsOnce(ch, b, otherAccepted, otherRejected, a.item);
      assert Earned(ch, b, a);
      var c :| c in otherAccepted && c.item == a.item;
      assert Earned(ch, b, c);
    }
    forall r | r in rejected ensures r in otherRejected {
      assert Settled(ch, b, r);
      RejectedIsAnItem(b, accepted, rejected, r);
      EndsElsewhere(ch, b, otherAccepted, otherRejected, r);
    }
  }

  lemma EndsElsewhere(ch: Checks, b: Batch, accepted: seq<Accepted>, rejected: seq<Rejected>, r: Rejected)
    requires Accounted(ch, b, accepted, rejected) && Settled(ch, b, r) && r.item.value < |b.items|
    ensures r in rejected
  {
    hide FateOf, Items;
    var k := r.item.value;
    EachItemEndsOnce(ch, b, accepted, rejected, k);
    ItemIsNamed(accepted, ItemOfRecord, k);
    ItemIsNamed(rejected, ItemOfRejection, k);
    var x :| x in rejected && ItemOfRejection(x) == Some(k);
    assert Settled(ch, b, x);
  }

  // ----- the standard, and the pool that fails -----

  /** Neither the file nor the store has a standard that can be used. */
  predicate NeedsNew(file: Option<seq<Anchor>>, stored: Option<seq<Anchor>>) {
    (file.Some? ==> |file.value| < 2) && stored.None?
  }

  /** A pool hands back a standard exactly if it needed one, and it is the one the generator wrote. */
  lemma WrittenStandardIsHandedBack(file: Option<seq<Anchor>>, stored: Option<seq<Anchor>>, ch: Checks,
                                    lanes: S.Assignment, breakTies: bool, replies: Replies, result: Result)
    requires PoolEnds(file, stored, ch, lanes, breakTies, replies, result) && result.PoolResult?
    ensures if NeedsNew(file, stored)
      then result.created.Some? && replies.standard(lanes.generator) == Said(result.created)
      else result.created.None?
  {
    hide Accounted, BatchOf, Candidates;
  }

  /** The anchors a pool works with: the file's, else the stored ones, else those the generator wrote. */
  lemma AnchorsAre(file: Option<seq<Anchor>>, stored: Option<seq<Anchor>>, reply: Answer<Option<seq<Anchor>>>)
    requires EnsureAnchors(file, stored, reply).Said?
    ensures var anchors := EnsureAnchors(file, stored, reply).value.anchors;
      && (file.Some? && |file.value| >= 2 ==> anchors == file.value)
      && (!(file.Some? && |file.value| >= 2) && stored.Some? ==> anchors == stored.value)
      && (NeedsNew(file, stored) ==> reply == Said(Some(anchors)))
  {
  }

  /** Some question of the reply comes through the local checks, so the critic is asked. */
  ghost predicate AsksCritic(ch: Checks, reply: Option<seq<Item>>) {
    reply.Some? && var qs := Questions(reply.value); exists q :: 0 <= q < |qs| && Survives(ch, qs, q)
  }

  /** Where a pool stops before its end: the standard's call or text, the questions' call, or the critic's. */
  ghost predicate StopsWith(file: Option<seq<Anchor>>, stored: Option<seq<Anchor>>, ch: Checks, lanes: S.Assignment,
                            replies: Replies, limited: bool) {
    var standard, questions, critic :=
      replies.standard(lanes.generator), replies.questions(lanes.generator), replies.critic(lanes.critic);
    if NeedsNew(file, stored) && standard.Failed? then limited == standard.laneLimited
    else if NeedsNew(file, stored) && standard.value.None? then !limited
    else if questions.Failed? then limited == questions.laneLimited
    else AsksCritic(ch, questions.value) && critic.Failed? && limited == critic.laneLimited
  }

  /** A pool fails exactly on such a call, never on the tie-break's, and whose fault it is comes from that call. */
  lemma PoolFailsIff(file: Option<seq<Anchor>>, stored: Option<seq<Anchor>>, ch: Checks, lanes: S.Assignment,
                     breakTies: bool, replies: Replies, result: Result, limited: bool)
    requires PoolEnds(file, stored, ch, lanes, breakTies, replies, result)
    ensures result == StageError(limited) <==> StopsWith(file, stored, ch, lanes, replies, limited)
  {
    hide Accounted, BatchOf, Candidates, Questions, AsksCritic;
    var questions := replies.questions(lanes.generator);
    if questions.Said? { CriticIsAsked(ch, questions.value); }
  }

  lemma CriticIsAsked(ch: Checks, reply: Option<seq<Item>>)
    ensures var qs := if reply.Some? then Questions(reply.value) else [];
      Candidates(ch, qs, |qs|) != [] <==> AsksCritic(ch, reply)
  {
    hide Questions, Survives;
    if reply.Some? {
      var qs := Questions(reply.value);
      QuestionsAre(reply.value);
      CandidatesAre(ch, qs, |qs|);
      var cs := Candidates(ch, qs, |qs|);
      if cs != [] { assert cs[0] in cs; }
      if q :| 0 <= q < |qs| && Survives(ch, qs, q) { assert qs[q] in cs; }
    }
  }
}
