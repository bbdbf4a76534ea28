/**
 * One pool through the pipeline: a standard if the family has none, questions, the
 * local checks, the critic, and a tie-break for what the critic alone rejected.
 */
module Pipeline {
  import opened Numbers
  import S = Scheduler

  type Text = nat
  type Verdict = nat
  type Anchor = nat

  /** One item of the questions reply, as far as its schema accepts it. */
  datatype Item = Malformed | FormOther(text: Text) | Question(text: Text)

  /** A question, and the item of the reply it came from. */
  datatype Candidate = Candidate(item: nat, text: Text)

  datatype RejectStage = Parse | Lint | Dedupe | Critic | Tiebreak | Format

  datatype Rejected = Rejected(stage: RejectStage, item: Option<nat>)

  /** A record: the question, its verdicts, and the lanes that wrote and judged it. */
  datatype Accepted = Accepted(item: nat, text: Text, critic: Verdict, tiebreak: Option<Verdict>, lanes: S.Assignment)

  /** An entry of a verdicts reply: malformed, or numbered from 1. */
  datatype Numbered = Bad | Numbered(n: nat, verdict: Verdict)

  datatype Gate = Gate(fails: bool, criticOnly: bool)

  /** The local checks, each a function of the question (and, for the gate, of a verdict). */
  datatype Checks = Checks(
    withinBatch: seq<Text> -> set<nat>,
    lints: Text -> bool,
    duplicate: Text -> bool,
    gate: (Verdict, Text) -> Gate,
    formats: (Text, Verdict, Option<Verdict>) -> bool)

  datatype Answer<T> = Failed(laneLimited: bool) | Said(value: T)

  /** What each lane would answer at each stage; a questions reply may hold no array at all. */
  datatype Replies = Replies(
    standard: S.Lane -> Answer<Option<seq<Anchor>>>,
    questions: S.Lane -> Answer<Option<seq<Item>>>,
    critic: S.Lane -> Answer<seq<Numbered>>,
    tiebreak: S.Lane -> Answer<seq<Numbered>>)

  datatype Result =
    | StageError(laneLimited: bool)
    | PoolResult(created: Option<seq<Anchor>>, accepted: seq<Accepted>, rejected: seq<Rejected>)

  // ----- the standard -----

  datatype Anchors = Anchors(anchors: seq<Anchor>, created: Option<seq<Anchor>>)

  /** The file's standard if it is usable, else the stored one, else a new one from the generator. */
  function EnsureAnchors(file: Option<seq<Anchor>>, stored: Option<seq<Anchor>>,
                         reply: Answer<Option<seq<Anchor>>>): Answer<Anchors> {
    if file.Some? && |file.value| >= 2 then Said(Anchors(file.value, None))
    else if stored.Some? then Said(Anchors(stored.value, None))
    else
      match reply
      case Failed(limited) => Failed(limited)
      case Said(None) => Failed(false)
      case Said(Some(anchors)) => Said(Anchors(anchors, Some(anchors)))
  }

  // ----- verdicts are matched by number -----

  /** The first well-formed verdict carrying the number. */
  function VerdictFor(list: seq<Numbered>, n: nat): Option<Verdict> {
    if list == [] then None
    else
      var before, last := VerdictFor(list[..|list| - 1], n), list[|list| - 1];
      if before.Some? then before
      else if last.Numbered? && last.n == n then Some(last.verdict) else None
  }

  method ParseVerdicts(list: seq<Numbered>, count: nat) returns (verdicts: seq<Option<Verdict>>)
    ensures |verdicts| == count
    ensures forall i :: 0 <= i < count ==> verdicts[i] == VerdictFor(list, i + 1)
  {
    var byNumber: map<nat, Verdict> := map[];
    for i := 0 to |list|
      invariant forall n: nat :: VerdictFor(list[..i], n) == if n in byNumber then Some(byNumber[n]) else None
    {
      assert list[..i + 1][..i] == list[..i];
      if list[i].Numbered? && list[i].n !in byNumber {
        byNumber := byNumber[list[i].n := list[i].verdict];
      }
    }
    assert list[..|list|] == list;
    verdicts := seq(count, i requires 0 <= i < count => if i + 1 in byNumber then Some(byNumber[i + 1]) else None);
  }

  /** Each number is used at most once in the reply. */
  ghost predicate NumberedOnce(list: seq<Numbered>) {
    forall i, j :: 0 <= i < j < |list| && list[i].Numbered? && list[j].Numbered? ==> list[i].n != list[j].n
  }

  predicate Carries(item: Numbered, n: nat) { item.Numbered? && item.n == n }

  /** A number has a verdict exactly if some entry carries it, and it is an entry's. */
  lemma {:induction false} VerdictIsItsOwn(list: seq<Numbered>, n: nat)
    ensures VerdictFor(list, n).Some? <==> exists v :: v in list && Carries(v, n)
    ensures VerdictFor(list, n).Some? ==> Numbered(n, VerdictFor(list, n).value) in list
  {
    if list != [] {
      var m := |list| - 1;
      VerdictIsItsOwn(list[..m], n);
      assert list == list[..m] + [list[m]];
      forall v | v in list && Carries(v, n) ensures VerdictFor(list, n).Some? {
        assert v in list[..m] || v == list[m];
      }
      if VerdictFor(list, n).Some? { assert Carries(Numbered(n, VerdictFor(list, n).value), n); }
    }
  }

  /** A reply in any order means the same: a missing or reordered verdict never lands on another question. */
  lemma OrderDoesNotMatter(list: seq<Numbered>, other: seq<Numbered>, n: nat)
    requires multiset(list) == multiset(other) && NumberedOnce(list) && NumberedOnce(other)
    ensures VerdictFor(list, n) == VerdictFor(other, n)
  {
    VerdictIsItsOwn(list, n);
    VerdictIsItsOwn(other, n);
    if VerdictFor(list, n).Some? {
      var v := Numbered(n, VerdictFor(list, n).value);
      assert v in multiset(list);
      assert v in other;
      assert VerdictFor(other, n).Some?;
      SameNumberSameVerdict(other, v, Numbered(n, VerdictFor(other, n).value));
    }
    if VerdictFor(other, n).Some? {
      var v := Numbered(n, VerdictFor(other, n).value);
      assert v in multiset(other);
      assert v in list;
    }
  }

  lemma SameNumberSameVerdict(list: seq<Numbered>, u: Numbered, v: Numbered)
    requires NumberedOnce(list) && u in list && v in list && u.Numbered? && v.Numbered? && u.n == v.n
    ensures u == v
  {
    var i :| 0 <= i < |list| && list[i] == u;
    var j :| 0 <= j < |list| && list[j] == v;
    DifferentNumbers(list, i, j);
    DifferentNumbers(list, j, i);
  }

  lemma DifferentNumbers(list: seq<Numbered>, i: nat, j: nat)
    requires NumberedOnce(list) && i < |list| && j < |list| && list[i].Numbered? && list[j].Numbered?
    ensures i < j ==> list[i].n != list[j].n
  {
  }

  // ----- each item's fate -----

  function TextsOf(cs: seq<Candidate>): (r: seq<Text>)
    ensures |r| == |cs|
    ensures forall i :: 0 <= i < |cs| ==> r[i] == cs[i].text
  {
    seq(|cs|, i requires 0 <= i < |cs| => cs[i].text)
  }

  /** The questions of a reply, with the items they came from. */
  function Questions(items: seq<Item>): seq<Candidate> {
    if items == [] then []
    else
      var n := |items| - 1;
      Questions(items[..n]) + if items[n].Question? then [Candidate(n, items[n].text)] else []
  }

  /** Where the local checks stop question i, if they do. */
  function LocalStage(ch: Checks, qs: seq<Candidate>, i: nat): Option<RejectStage>
    requires i < |qs|
  {
    if i in ch.withinBatch(TextsOf(qs)) then Some(Dedupe)
    else if !ch.lints(qs[i].text) then Some(Lint)
    else if ch.duplicate(qs[i].text) then Some(Dedupe)
    else None
  }

  /** Those of the first n questions that pass the local checks. */
  function Candidates(ch: Checks, qs: seq<Candidate>, n: nat): seq<Candidate>
    requires n <= |qs|
  {
    if n == 0 then [] else Candidates(ch, qs, n - 1) + if LocalStage(ch, qs, n - 1).None? then [qs[n - 1]] else []
  }

  /** The critic alone rejects it, and a tie-break is allowed and possible. */
  predicate IsDisputed(ch: Checks, c: Candidate, verdict: Option<Verdict>, mayBreak: bool) {
    verdict.Some? && ch.gate(verdict.value, c.text).fails && mayBreak && ch.gate(verdict.value, c.text).criticOnly
  }

  function Disputed(ch: Checks, cs: seq<Candidate>, critic: seq<Numbered>, mayBreak: bool, n: nat): seq<Candidate>
    requires n <= |cs|
  {
    if n == 0 then []
    else
      var before := Disputed(ch, cs, critic, mayBreak, n - 1);
      if IsDisputed(ch, cs[n - 1], VerdictFor(critic, n), mayBreak) then before + [cs[n - 1]] else before
  }

  /** Where an item sits in a list of candidates. */
  function Position(cs: seq<Candidate>, item: nat): (r: Option<nat>)
    ensures r.Some? ==> r.value < |cs| && cs[r.value].item == item
  {
    if cs == [] then None
    else if Position(cs[..|cs| - 1], item).Some? then Position(cs[..|cs| - 1], item)
    else if cs[|cs| - 1].item == item then Some(|cs| - 1) else None
  }

  datatype Fate = Kept(critic: Verdict, tiebreak: Option<Verdict>) | Dropped(stage: RejectStage)

  function AfterFormat(ch: Checks, text: Text, critic: Verdict, tiebreak: Option<Verdict>): Fate {
    if ch.formats(text, critic, tiebreak) then Kept(critic, tiebreak) else Dropped(Format)
  }

  /** The second opinion on dispute d, if its lane answered with one. */
  function Second(ties: Answer<seq<Numbered>>, d: nat): Option<Verdict> {
    if ties.Said? then VerdictFor(ties.value, d + 1) else None
  }

  predicate Overturns(ch: Checks, ties: Answer<seq<Numbered>>, d: nat, text: Text) {
    Second(ties, d).Some? && !ch.gate(Second(ties, d).value, text).fails
  }

  /** What the critic's reply, then the tie-break's, makes of candidate number c. */
  function Judged(ch: Checks, cs: seq<Candidate>, c: nat, critic: seq<Numbered>, ties: Answer<seq<Numbered>>,
                  mayBreak: bool): Fate
    requires c < |cs|
  {
    var verdict := VerdictFor(critic, c + 1);
    if verdict.None? then Dropped(Critic)
    else if !ch.gate(verdict.value, cs[c].text).fails then AfterFormat(ch, cs[c].text, verdict.value, None)
    else if !IsDisputed(ch, cs[c], verdict, mayBreak) then Dropped(Critic)
    else
      match Position(Disputed(ch, cs, critic, mayBreak, |cs|), cs[c].item)
      case None => Dropped(Tiebreak)
      case Some(d) =>
        if Overturns(ch, ties, d, cs[c].text) then AfterFormat(ch, cs[c].text, verdict.value, Second(ties, d))
        else Dropped(Tiebreak)
  }

  /** A questions reply, and what the judges answered about it. */
  datatype Batch = Batch(items: seq<Item>, critic: seq<Numbered>, ties: Answer<seq<Numbered>>, mayBreak: bool)

  /** The fate of item k of a reply. */
  function FateOf(ch: Checks, b: Batch, k: nat): Fate {
    var qs := Questions(b.items);
    match Position(qs, k)
    case None => Dropped(Parse)
    case Some(i) =>
      if LocalStage(ch, qs, i).Some? then Dropped(LocalStage(ch, qs, i).value)
      else
        var cs := Candidates(ch, qs, |qs|);
        match Position(cs, k)
        case None => Dropped(Parse)
        case Some(c) => Judged(ch, cs, c, b.critic, b.ties, b.mayBreak)
  }

  // ----- positions -----

  ghost predicate Rising(cs: seq<Candidate>) {
    forall i, j :: 0 <= i < j < |cs| ==> cs[i].item < cs[j].item
  }

  lemma {:induction false} PositionIs(cs: seq<Candidate>, i: nat)
    requires Rising(cs) && i < |cs|
    ensures Position(cs, cs[i].item) == Some(i)
  {
    var n := |cs| - 1;
    if i < n {
      PositionIs(cs[..n], i);
    } else {
      PositionNone(cs[..n], cs[i].item);
    }
  }

  lemma {:induction false} PositionNone(cs: seq<Candidate>, item: nat)
    requires forall i :: 0 <= i < |cs| ==> cs[i].item != item
    ensures Position(cs, item).None?
  {
    if cs != [] { PositionNone(cs[..|cs| - 1], item); }
  }

  lemma {:induction false} QuestionsRise(items: seq<Item>)
    ensures Rising(Questions(items))
    ensures forall i :: 0 <= i < |Questions(items)| ==>
              Questions(items)[i].item < |items|
                  && items[Questions(items)[i].item] == Question(Questions(items)[i].text)
  {
    if items != [] {
      QuestionsRise(items[..|items| - 1]);
    }
  }

  /** Every candidate is a question that survived. */
  lemma {:induction false} CandidateFrom(ch: Checks, qs: seq<Candidate>, n: nat, c: nat) returns (q: nat)
    requires n <= |qs| && c < |Candidates(ch, qs, n)|
    ensures q < n && qs[q] == Candidates(ch, qs, n)[c] && LocalStage(ch, qs, q).None?
  {
    hide LocalStage;
    if c < |Candidates(ch, qs, n - 1)| {
      q := CandidateFrom(ch, qs, n - 1, c);
    } else {
      q := n - 1;
    }
  }

  lemma {:induction false} CandidatesRise(ch: Checks, qs: seq<Candidate>, n: nat)
    requires Rising(qs) && n <= |qs|
    ensures Rising(Candidates(ch, qs, n))
  {
    hide LocalStage;
    if n > 0 {
      CandidatesRise(ch, qs, n - 1);
      var before, all := Candidates(ch, qs, n - 1), Candidates(ch, qs, n);
      forall i, j | 0 <= i < j < |all| ensures all[i].item < all[j].item {
        var q := CandidateFrom(ch, qs, n - 1, i);
        assert all[i] == qs[q];
      }
    }
  }

  /** Every disputed candidate is one only the critic rejected. */
  lemma {:induction false} DisputeFrom(ch: Checks, cs: seq<Candidate>, critic: seq<Numbered>, mayBreak: bool, n: nat,
                                       d: nat) returns (c: nat)
    requires n <= |cs| && d < |Disputed(ch, cs, critic, mayBreak, n)|
    ensures c < n && cs[c] == Disputed(ch, cs, critic, mayBreak, n)[d]
    ensures IsDisputed(ch, cs[c], VerdictFor(critic, c + 1), mayBreak)
  {
    hide IsDisputed, VerdictFor;
    if d < |Disputed(ch, cs, critic, mayBreak, n - 1)| {
      c := DisputeFrom(ch, cs, critic, mayBreak, n - 1, d);
    } else {
      c := n - 1;
    }
  }

  lemma {:induction false} DisputedRise(ch: Checks, cs: seq<Candidate>, critic: seq<Numbered>, mayBreak: bool, n: nat)
    requires Rising(cs) && n <= |cs|
    ensures Rising(Disputed(ch, cs, critic, mayBreak, n))
  {
    hide IsDisputed, VerdictFor;
    if n > 0 {
      DisputedRise(ch, cs, critic, mayBreak, n - 1);
      var before, all := Disputed(ch, cs, critic, mayBreak, n - 1), Disputed(ch, cs, critic, mayBreak, n);
      forall i, j | 0 <= i < j < |all| ensures all[i].item < all[j].item {
        var c := DisputeFrom(ch, cs, critic, mayBreak, n - 1, i);
        assert all[i] == cs[c];
      }
    }
  }

  function Sifted(ch: Checks, b: Batch): seq<Candidate> {
    Candidates(ch, Questions(b.items), |Questions(b.items)|)
  }

  function Contested(ch: Checks, b: Batch): seq<Candidate> {
    Disputed(ch, Sifted(ch, b), b.critic, b.mayBreak, |Sifted(ch, b)|)
  }

  lemma FateOfStopped(ch: Checks, b: Batch, q: nat)
    requires q < |Questions(b.items)| && LocalStage(ch, Questions(b.items), q).Some?
    ensures FateOf(ch, b, Questions(b.items)[q].item) == Dropped(LocalStage(ch, Questions(b.items), q).value)
  {
    hide Questions, LocalStage, Position, Candidates;
    QuestionsRise(b.items);
    PositionIs(Questions(b.items), q);
  }

  lemma FateOfCandidate(ch: Checks, b: Batch, c: nat)
    requires c < |Sifted(ch, b)|
    ensures FateOf(ch, b, Sifted(ch, b)[c].item) == Judged(ch, Sifted(ch, b), c, b.critic, b.ties, b.mayBreak)
  {
    hide Questions, LocalStage, Position, Candidates, Judged;
    var qs := Questions(b.items);
    QuestionsRise(b.items);
    CandidatesRise(ch, qs, |qs|);
    var q := CandidateFrom(ch, qs, |qs|, c);
    PositionIs(qs, q);
    PositionIs(Sifted(ch, b), c);
  }

  lemma FateOfDisputed(ch: Checks, b: Batch, d: nat) returns (c: nat)
    requires d < |Contested(ch, b)|
    ensures c < |Sifted(ch, b)| && Sifted(ch, b)[c] == Contested(ch, b)[d]
    ensures IsDisputed(ch, Sifted(ch, b)[c], VerdictFor(b.critic, c + 1), b.mayBreak)
    ensures FateOf(ch, b, Contested(ch, b)[d].item) ==
            if Overturns(ch, b.ties, d, Contested(ch, b)[d].text)
            then AfterFormat(ch, Contested(ch, b)[d].text, VerdictFor(b.critic, c + 1).value, Second(b.ties, d))
            else Dropped(Tiebreak)
  {
    hide Questions, Position, Candidates, Disputed, VerdictFor, LocalStage, AfterFormat;
    QuestionsRise(b.items);
    CandidatesRise(ch, Questions(b.items), |Questions(b.items)|);
    DisputedRise(ch, Sifted(ch, b), b.critic, b.mayBreak, |Sifted(ch, b)|);
    c := DisputeFrom(ch, Sifted(ch, b), b.critic, b.mayBreak, |Sifted(ch, b)|, d);
    FateOfCandidate(ch, b, c);
    PositionIs(Contested(ch, b), d);
  }

  // ----- the stages -----

  /** A candidate that has been judged. */
  datatype Judgement = Judgement(candidate: Candidate, critic: Verdict, tiebreak: Option<Verdict>)

  function Held(js: seq<Judgement>): (r: seq<Candidate>)
    ensures |r| == |js|
    ensures forall i :: 0 <= i < |js| ==> r[i] == js[i].candidate
  {
    seq(|js|, i requires 0 <= i < |js| => js[i].candidate)
  }

  function ItemOfCandidate(c: Candidate): Option<nat> { Some(c.item) }
  function ItemOfJudgement(j: Judgement): Option<nat> { Some(j.candidate.item) }
  function ItemOfRecord(a: Accepted): Option<nat> { Some(a.item) }
  function ItemOfRejection(r: Rejected): Option<nat> { r.item }

  function OfCandidates(cs: seq<Candidate>): multiset<nat> { Items(cs, ItemOfCandidate) }
  function OfJudgements(js: seq<Judgement>): multiset<nat> { Items(js, ItemOfJudgement) }
  function OfRecords(rs: seq<Accepted>): multiset<nat> { Items(rs, ItemOfRecord) }
  function OfRejections(rs: seq<Rejected>): multiset<nat> { Items(rs, ItemOfRejection) }

  function Add(bag: multiset<nat>, item: Option<nat>): multiset<nat> {
    if item.Some? then bag + multiset{item.value} else bag
  }

  /** The items named in a list, each as often as it is named. */
  function Items<T>(xs: seq<T>, item: T -> Option<nat>): multiset<nat> {
    if xs == [] then multiset{} else Add(Items(xs[..|xs| - 1], item), item(xs[|xs| - 1]))
  }

  /** The items 0 to n - 1, each once. */
  function Upto(n: nat): multiset<nat> {
    if n == 0 then multiset{} else Add(Upto(n - 1), Some(n - 1))
  }

  lemma {:induction false} UptoHoldsEachOnce(n: nat, k: nat)
    ensures Upto(n)[k] == if k < n then 1 else 0
  {
    if n > 0 { UptoHoldsEachOnce(n - 1, k); }
  }

  lemma ItemsGrow<T>(xs: seq<T>, x: T, item: T -> Option<nat>)
    ensures Items(xs + [x], item) == Add(Items(xs, item), item(x))
  {
    hide Add;
    assert (xs + [x])[..|xs|] == xs;
  }

  lemma ItemsOfNext<T>(xs: seq<T>, n: nat, item: T -> Option<nat>)
    requires n < |xs|
    ensures Items(xs[..n + 1], item) == Add(Items(xs[..n], item), item(xs[n]))
  {
    ItemsGrow(xs[..n], xs[n], item);
    assert xs[..n + 1] == xs[..n] + [xs[n]];
  }

  lemma CandidatesGrow(cs: seq<Candidate>, c: Candidate)
    ensures OfCandidates(cs + [c]) == Add(OfCandidates(cs), Some(c.item))
  {
    ItemsGrow(cs, c, ItemOfCandidate);
  }

  lemma NextCandidate(cs: seq<Candidate>, n: nat)
    requires n < |cs|
    ensures OfCandidates(cs[..n + 1]) == Add(OfCandidates(cs[..n]), Some(cs[n].item))
  {
    ItemsOfNext(cs, n, ItemOfCandidate);
  }

  lemma JudgementsGrow(js: seq<Judgement>, j: Judgement)
    ensures OfJudgements(js + [j]) == Add(OfJudgements(js), Some(j.candidate.item))
  {
    ItemsGrow(js, j, ItemOfJudgement);
  }

  lemma NextJudgement(js: seq<Judgement>, n: nat)
    requires n < |js|
    ensures OfJudgements(js[..n + 1]) == Add(OfJudgements(js[..n]), Some(js[n].candidate.item))
  {
    ItemsOfNext(js, n, ItemOfJudgement);
  }

  lemma RecordsGrow(rs: seq<Accepted>, r: Accepted)
    ensures OfRecords(rs + [r]) == Add(OfRecords(rs), Some(r.item))
  {
    ItemsGrow(rs, r, ItemOfRecord);
  }

  lemma RejectionsGrow(rs: seq<Rejected>, r: Rejected)
    ensures OfRejections(rs + [r]) == Add(OfRejections(rs), r.item)
  {
    ItemsGrow(rs, r, ItemOfRejection);
  }

  lemma AddToSum(a: multiset<nat>, b: multiset<nat>, item: Option<nat>)
    ensures Add(a + b, item) == a + Add(b, item)
  {
  }

  lemma {:induction false} ItemsOfBoth<T>(xs: seq<T>, ys: seq<T>, item: T -> Option<nat>)
    ensures Items(xs + ys, item) == Items(xs, item) + Items(ys, item)
  {
    if ys == [] {
      assert xs + ys == xs;
    } else {
      ItemsOfBoth(xs, ys[..|ys| - 1], item);
      ItemsOfLast(xs, ys, item);
    }
  }

  lemma ItemsOfLast<T>(xs: seq<T>, ys: seq<T>, item: T -> Option<nat>)
    requires ys != [] && Items(xs + ys[..|ys| - 1], item) == Items(xs, item) + Items(ys[..|ys| - 1], item)
    ensures Items(xs + ys, item) == Items(xs, item) + Items(ys, item)
  {
    hide Items, Add;
    var before, last := ys[..|ys| - 1], ys[|ys| - 1];
    assert ys == before + [last];
    assert xs + ys == (xs + before) + [last];
    ItemsGrow(xs + before, last, item);
    ItemsGrow(before, last, item);
    AddToSum(Items(xs, item), Items(before, item), item(last));
  }

  /** Every item of the whole went one way or the other, once. */
  ghost predicate Splits(whole: multiset<nat>, a: multiset<nat>, b: multiset<nat>) { whole == a + b }

  ghost predicate SplitsInThree(whole: multiset<nat>, a: multiset<nat>, b: multiset<nat>,
                                c: multiset<nat>) { whole == a + b + c }

  lemma SplitsStart()
    ensures OfCandidates([]) == OfJudgements([]) == OfRecords([]) == OfRejections([]) == Upto(0) == multiset{}
    ensures Splits(multiset{}, multiset{}, multiset{}) && SplitsInThree(multiset{}, multiset{}, multiset{}, multiset{})
  {
  }

  lemma SplitsGrow(whole: multiset<nat>, a: multiset<nat>, b: multiset<nat>, item: Option<nat>)
    requires Splits(whole, a, b)
    ensures Splits(Add(whole, item), Add(a, item), b) && Splits(Add(whole, item), a, Add(b, item))
  {
  }

  lemma SplitsInThreeGrow(whole: multiset<nat>, a: multiset<nat>, b: multiset<nat>, c: multiset<nat>, item: Option<nat>)
    requires SplitsInThree(whole, a, b, c)
    ensures SplitsInThree(Add(whole, item), Add(a, item), b, c)
    ensures SplitsInThree(Add(whole, item), a, Add(b, item), c)
    ensures SplitsInThree(Add(whole, item), a, b, Add(c, item))
  {
  }

  lemma NextQuestion(items: seq<Item>, i: nat)
    requires i < |items|
    ensures Questions([]) == []
    ensures Questions(items[..i + 1]) ==
            if items[i].Question? then Questions(items[..i]) + [Candidate(i, items[i].text)] else Questions(items[..i])
    ensures Upto(i + 1) == Add(Upto(i), Some(i))
  {
    assert items[..i + 1][..i] == items[..i];
  }

  /** The first i items are split into questions and malformed ones. */
  ghost predicate Parsed(items: seq<Item>, i: nat, questions: seq<Candidate>, dropped: seq<Rejected>)
    requires i <= |items|
  {
    && questions == Questions(items[..i])
    && (forall r :: r in dropped ==> NotAQuestion(items, r))
    && Splits(Upto(i), OfCandidates(questions), OfRejections(dropped))
  }

  method ParseQuestions(reply: Option<seq<Item>>) returns (questions: seq<Candidate>, dropped: seq<Rejected>)
    ensures reply.None? ==> questions == [] && dropped == [Rejected(Parse, None)]
    ensures reply.Some? ==> Parsed(reply.value, |reply.value|, questions, dropped)
  {
    if reply.None? { return [], [Rejected(Parse, None)]; }
    var items := reply.value;
    questions, dropped := [], [];
    SplitsStart();
    for i := 0 to |items|
      invariant Parsed(items, i, questions, dropped)
    {
      hide Parsed;
      ParsesNext(items, i, questions, dropped);
      if items[i].Question? {
        questions := questions + [Candidate(i, items[i].text)];
      } else {
        dropped := dropped + [Rejected(Parse, Some(i))];
      }
    }
  }

  lemma ParsesNext(items: seq<Item>, i: nat, questions: seq<Candidate>, dropped: seq<Rejected>)
    requires i < |items| && Parsed(items, i, questions, dropped)
    ensures items[i].Question? ==> Parsed(items, i + 1, questions + [Candidate(i, items[i].text)], dropped)
    ensures !items[i].Question? ==> Parsed(items, i + 1, questions, dropped + [Rejected(Parse, Some(i))])
  {
    hide Questions, Upto, OfCandidates, OfRejections, Add, Splits;
    NextQuestion(items, i);
    SplitsGrow(Upto(i), OfCandidates(questions), OfRejections(dropped), Some(i));
    if items[i].Question? {
      CandidatesGrow(questions, Candidate(i, items[i].text));
    } else {
      RejectionsGrow(dropped, Rejected(Parse, Some(i)));
    }
  }

  ghost predicate NotAQuestion(items: seq<Item>, r: Rejected) {
    r.stage == Parse && r.item.Some? && r.item.value < |items| && !items[r.item.value].Question?
  }

  ghost predicate StoppedAt(ch: Checks, qs: seq<Candidate>, r: Rejected, q: int) {
    0 <= q < |qs| && Some(qs[q].item) == r.item && LocalStage(ch, qs, q) == Some(r.stage)
  }

  ghost predicate StoppedLocally(ch: Checks, qs: seq<Candidate>, r: Rejected) {
    exists q :: StoppedAt(ch, qs, r, q)
  }

  /** The first i questions are split into candidates and those the local checks stop. */
  ghost predicate Checked(ch: Checks, qs: seq<Candidate>, i: nat, candidates: seq<Candidate>, rejected: seq<Rejected>)
    requires i <= |qs|
  {
    && candidates == Candidates(ch, qs, i)
    && (forall r :: r in rejected ==> StoppedLocally(ch, qs, r))
    && Splits(OfCandidates(qs[..i]), OfCandidates(candidates), OfRejections(rejected))
  }

  method LocalChecks(ch: Checks, questions: seq<Candidate>)
    returns (candidates: seq<Candidate>, rejected: seq<Rejected>)
    ensures Checked(ch, questions, |questions|, candidates, rejected)
  {
    var inBatch := ch.withinBatch(TextsOf(questions));
    candidates, rejected := [], [];
    SplitsStart();
    for i := 0 to |questions|
      invariant Checked(ch, questions, i, candidates, rejected)
    {
      hide Checked;
      var question := questions[i];
      ChecksNext(ch, questions, i, candidates, rejected);
      if i in inBatch {
        rejected := rejected + [Rejected(Dedupe, Some(question.item))];
      } else if !ch.lints(question.text) {
        rejected := rejected + [Rejected(Lint, Some(question.item))];
      } else if ch.duplicate(question.text) {
        rejected := rejected + [Rejected(Dedupe, Some(question.item))];
      } else {
        candidates := candidates + [question];
      }
    }
  }

  lemma ChecksNext(ch: Checks, qs: seq<Candidate>, i: nat, candidates: seq<Candidate>, rejected: seq<Rejected>)
    requires i < |qs| && Checked(ch, qs, i, candidates, rejected)
    ensures match LocalStage(ch, qs, i)
      case None => Checked(ch, qs, i + 1, candidates + [qs[i]], rejected)
      case Some(stage) => Checked(ch, qs, i + 1, candidates, rejected + [Rejected(stage, Some(qs[i].item))])
  {
    hide OfCandidates, OfRejections, Add, Splits, StoppedLocally, LocalStage;
    var stage := LocalStage(ch, qs, i);
    NextCandidate(qs, i);
    SplitsGrow(OfCandidates(qs[..i]), OfCandidates(candidates), OfRejections(rejected), Some(qs[i].item));
    if stage.None? {
      CandidatesGrow(candidates, qs[i]);
    } else {
      StopsAt(ch, qs, Rejected(stage.value, Some(qs[i].item)), i);
      RejectionsGrow(rejected, Rejected(stage.value, Some(qs[i].item)));
    }
  }

  lemma StopsAt(ch: Checks, qs: seq<Candidate>, r: Rejected, q: int)
    requires StoppedAt(ch, qs, r, q)
    ensures StoppedLocally(ch, qs, r)
  {
  }

  ghost predicate JudgedAt(cs: seq<Candidate>, critic: seq<Numbered>, j: Judgement, c: int) {
    0 <= c < |cs| && cs[c] == j.candidate && VerdictFor(critic, c + 1) == Some(j.critic) && j.tiebreak == None
  }

  ghost predicate JudgedSomewhere(cs: seq<Candidate>, critic: seq<Numbered>, j: Judgement) {
    exists c :: JudgedAt(cs, critic, j, c)
  }

  ghost predicate PassedCritic(ch: Checks, cs: seq<Candidate>, critic: seq<Numbered>, j: Judgement) {
    !ch.gate(j.critic, j.candidate.text).fails && JudgedSomewhere(cs, critic, j)
  }

  ghost predicate FailedAt(ch: Checks, cs: seq<Candidate>, critic: seq<Numbered>, mayBreak: bool, r: Rejected, c: int) {
    && 0 <= c < |cs| && Some(cs[c].item) == r.item
    && (VerdictFor(critic, c + 1).Some? ==> ch.gate(VerdictFor(critic, c + 1).value, cs[c].text).fails)
    && !IsDisputed(ch, cs[c], VerdictFor(critic, c + 1), mayBreak)
  }

  ghost predicate FailedCritic(ch: Checks, cs: seq<Candidate>, critic: seq<Numbered>, mayBreak: bool, r: Rejected) {
    r.stage == Critic && exists c :: FailedAt(ch, cs, critic, mayBreak, r, c)
  }

  lemma NextDispute(ch: Checks, cs: seq<Candidate>, critic: seq<Numbered>, mayBreak: bool, i: nat)
    requires i < |cs|
    ensures Disputed(ch, cs, critic, mayBreak, i + 1) ==
            if IsDisputed(ch, cs[i], VerdictFor(critic, i + 1), mayBreak)
                then Disputed(ch, cs, critic, mayBreak, i) + [cs[i]]
            else Disputed(ch, cs, critic, mayBreak, i)
  {
  }

  /** The first i candidates are sorted into the passed, the disputed and the rejected. */
  ghost predicate Sorted(ch: Checks, cs: seq<Candidate>, critic: seq<Numbered>, mayBreak: bool, i: nat,
                         passed: seq<Judgement>, disputed: seq<Judgement>, rejected: seq<Rejected>)
    requires i <= |cs|
  {
    && Held(disputed) == Disputed(ch, cs, critic, mayBreak, i)
    && (forall j :: j in disputed ==> JudgedSomewhere(cs, critic, j))
    && (forall j :: j in passed ==> PassedCritic(ch, cs, critic, j))
    && (forall r :: r in rejected ==> FailedCritic(ch, cs, critic, mayBreak, r))
    && SplitsInThree(OfCandidates(cs[..i]), OfJudgements(passed), OfJudgements(disputed), OfRejections(rejected))
  }

  method SortByCritic(ch: Checks, candidates: seq<Candidate>, critic: seq<Numbered>, mayBreak: bool)
    returns (passed: seq<Judgement>, disputed: seq<Judgement>, rejected: seq<Rejected>)
    ensures Sorted(ch, candidates, critic, mayBreak, |candidates|, passed, disputed, rejected)
  {
    var verdicts := ParseVerdicts(critic, |candidates|);
    passed, disputed, rejected := [], [], [];
    SplitsStart();
    for i := 0 to |candidates|
      invariant Sorted(ch, candidates, critic, mayBreak, i, passed, disputed, rejected)
    {
      hide Sorted, VerdictFor;
      var candidate, verdict := candidates[i], verdicts[i];
      if verdict.None? {
        SortsRejected(ch, candidates, critic, mayBreak, i, passed, disputed, rejected);
        rejected := rejected + [Rejected(Critic, Some(candidate.item))];
      } else {
        var j, gate := Judgement(candidate, verdict.value, None), ch.gate(verdict.value, candidate.text);
        if !gate.fails {
          SortsPassed(ch, candidates, critic, mayBreak, i, passed, disputed, rejected, j);
          passed := passed + [j];
        } else if mayBreak && gate.criticOnly {
          SortsDisputed(ch, candidates, critic, mayBreak, i, passed, disputed, rejected, j);
          disputed := disputed + [j];
        } else {
          SortsRejected(ch, candidates, critic, mayBreak, i, passed, disputed, rejected);
          rejected := rejected + [Rejected(Critic, Some(candidate.item))];
        }
      }
    }
  }

  lemma SortsRejected(ch: Checks, cs: seq<Candidate>, critic: seq<Numbered>, mayBreak: bool, i: nat,
                      passed: seq<Judgement>, disputed: seq<Judgement>, rejected: seq<Rejected>)
    requires i < |cs| && Sorted(ch, cs, critic, mayBreak, i, passed, disputed, rejected)
    requires FailedAt(ch, cs, critic, mayBreak, Rejected(Critic, Some(cs[i].item)), i)
    ensures Sorted(ch, cs, critic, mayBreak, i + 1, passed, disputed, rejected + [Rejected(Critic, Some(cs[i].item))])
  {
    hide VerdictFor, Disputed, OfCandidates, OfJudgements, OfRejections, Add, SplitsInThree, Held, FailedCritic,
      PassedCritic, JudgedSomewhere;
    var r := Rejected(Critic, Some(cs[i].item));
    FailsAt(ch, cs, critic, mayBreak, r, i);
    NextCandidate(cs, i);
    NextDispute(ch, cs, critic, mayBreak, i);
    RejectionsGrow(rejected, r);
    SplitsInThreeGrow(OfCandidates(cs[..i]), OfJudgements(passed), OfJudgements(disputed), OfRejections(rejected),
      r.item);
  }

  lemma SortsPassed(ch: Checks, cs: seq<Candidate>, critic: seq<Numbered>, mayBreak: bool, i: nat,
                    passed: seq<Judgement>, disputed: seq<Judgement>, rejected: seq<Rejected>, j: Judgement)
    requires i < |cs| && Sorted(ch, cs, critic, mayBreak, i, passed, disputed, rejected)
    requires JudgedAt(cs, critic, j, i) && !ch.gate(j.critic, j.candidate.text).fails
    ensures Sorted(ch, cs, critic, mayBreak, i + 1, passed + [j], disputed, rejected)
  {
    hide VerdictFor, Disputed, OfCandidates, OfJudgements, OfRejections, Add, SplitsInThree, Held, FailedCritic,
      PassedCritic, JudgedSomewhere;
    JudgesAt(ch, cs, critic, j, i);
    NextCandidate(cs, i);
    NextDispute(ch, cs, critic, mayBreak, i);
    JudgementsGrow(passed, j);
    SplitsInThreeGrow(OfCandidates(cs[..i]), OfJudgements(passed), OfJudgements(disputed), OfRejections(rejected),
      Some(cs[i].item));
  }

  lemma SortsDisputed(ch: Checks, cs: seq<Candidate>, critic: seq<Numbered>, mayBreak: bool, i: nat,
                      passed: seq<Judgement>, disputed: seq<Judgement>, rejected: seq<Rejected>, j: Judgement)
    requires i < |cs| && Sorted(ch, cs, critic, mayBreak, i, passed, disputed, rejected)
    requires JudgedAt(cs, critic, j, i) && IsDisputed(ch, cs[i], Some(j.critic), mayBreak)
    ensures Sorted(ch, cs, critic, mayBreak, i + 1, passed, disputed + [j], rejected)
  {
    hide VerdictFor, Disputed, OfCandidates, OfJudgements, OfRejections, Add, SplitsInThree, Held, FailedCritic,
      PassedCritic, JudgedSomewhere;
    JudgesAt(ch, cs, critic, j, i);
    NextCandidate(cs, i);
    NextDispute(ch, cs, critic, mayBreak, i);
    JudgementsGrow(disputed, j);
    HeldGrows(disputed, j);
    SplitsInThreeGrow(OfCandidates(cs[..i]), OfJudgements(passed), OfJudgements(disputed), OfRejections(rejected),
      Some(cs[i].item));
  }

  lemma HeldGrows(js: seq<Judgement>, j: Judgement)
    ensures Held(js + [j]) == Held(js) + [j.candidate]
  {
  }

  lemma JudgesAt(ch: Checks, cs: seq<Candidate>, critic: seq<Numbered>, j: Judgement, c: int)
    requires JudgedAt(cs, critic, j, c)
    ensures JudgedSomewhere(cs, critic, j)
    ensures !ch.gate(j.critic, j.candidate.text).fails ==> PassedCritic(ch, cs, critic, j)
  {
  }

  lemma FailsAt(ch: Checks, cs: seq<Candidate>, critic: seq<Numbered>, mayBreak: bool, r: Rejected, c: int)
    requires r.stage == Critic && FailedAt(ch, cs, critic, mayBreak, r, c)
    ensures FailedCritic(ch, cs, critic, mayBreak, r)
  {
  }

  ghost predicate OverturnedAt(ch: Checks, disputed: seq<Judgement>, ties: Answer<seq<Numbered>>, j: Judgement,
                               d: int) {
    && 0 <= d < |disputed| && j == disputed[d].(tiebreak := Second(ties, d))
    && Overturns(ch, ties, d, j.candidate.text)
  }

  ghost predicate Overturned(ch: Checks, disputed: seq<Judgement>, ties: Answer<seq<Numbered>>, j: Judgement) {
    exists d :: OverturnedAt(ch, disputed, ties, j, d)
  }

  ghost predicate Upheld(ch: Checks, disputed: seq<Judgement>, ties: Answer<seq<Numbered>>, r: Rejected) {
    exists d :: UpheldAt(ch, disputed, ties, r, d)
  }

  ghost predicate UpheldAt(ch: Checks, disputed: seq<Judgement>, ties: Answer<seq<Numbered>>, r: Rejected, d: int) {
    && 0 <= d < |disputed| && r == Rejected(Tiebreak, Some(disputed[d].candidate.item))
    && !Overturns(ch, ties, d, disputed[d].candidate.text)
  }

  /** The first i disputes are split into those the second opinion saves and those it does not. */
  ghost predicate Broken(ch: Checks, disputed: seq<Judgement>, ties: Answer<seq<Numbered>>, i: nat,
                         passed: seq<Judgement>, rejected: seq<Rejected>)
    requires i <= |disputed|
  {
    && (forall j :: j in passed ==> Overturned(ch, disputed, ties, j))
    && (forall r :: r in rejected ==> Upheld(ch, disputed, ties, r))
    && Splits(OfJudgements(disputed[..i]), OfJudgements(passed), OfRejections(rejected))
  }

  method BreakTies(ch: Checks, disputed: seq<Judgement>, ties: Answer<seq<Numbered>>)
    returns (passed: seq<Judgement>, rejected: seq<Rejected>)
    ensures Broken(ch, disputed, ties, |disputed|, passed, rejected)
  {
    var seconds: seq<Option<Verdict>> := [];
    if ties.Said? { seconds := ParseVerdicts(ties.value, |disputed|); }
    passed, rejected := [], [];
    SplitsStart();
    for i := 0 to |disputed|
      invariant Broken(ch, disputed, ties, i, passed, rejected)
    {
      hide Broken, VerdictFor;
      var dispute, verdict := disputed[i], if i < |seconds| then seconds[i] else None;
      assert verdict == Second(ties, i);
      BreaksNext(ch, disputed, ties, i, passed, rejected);
      if verdict.Some? && !ch.gate(verdict.value, dispute.candidate.text).fails {
        passed := passed + [Judgement(dispute.candidate, dispute.critic, verdict)];
      } else {
        rejected := rejected + [Rejected(Tiebreak, Some(dispute.candidate.item))];
      }
    }
  }

  lemma BreaksNext(ch: Checks, disputed: seq<Judgement>, ties: Answer<seq<Numbered>>, i: nat, passed: seq<Judgement>,
                   rejected: seq<Rejected>)
    requires i < |disputed| && Broken(ch, disputed, ties, i, passed, rejected)
    ensures var c := disputed[i].candidate;
      if Overturns(ch, ties, i, c.text)
      then Broken(ch, disputed, ties, i + 1, passed + [Judgement(c, disputed[i].critic, Second(ties, i))], rejected)
      else Broken(ch, disputed, ties, i + 1, passed, rejected + [Rejected(Tiebreak, Some(c.item))])
  {
    hide OfJudgements, OfRejections, Add, Splits, Overturned, Upheld, Overturns, Second;
    var dispute := disputed[i];
    NextJudgement(disputed, i);
    SplitsGrow(OfJudgements(disputed[..i]), OfJudgements(passed), OfRejections(rejected), Some(dispute.candidate.item));
    if Overturns(ch, ties, i, dispute.candidate.text) {
      var j := Judgement(dispute.candidate, dispute.critic, Second(ties, i));
      OverturnsAt(ch, disputed, ties, j, i);
      JudgementsGrow(passed, j);
    } else {
      var r := Rejected(Tiebreak, Some(dispute.candidate.item));
      UpholdsAt(ch, disputed, ties, r, i);
      RejectionsGrow(rejected, r);
    }
  }

  lemma OverturnsAt(ch: Checks, disputed: seq<Judgement>, ties: Answer<seq<Numbered>>, j: Judgement, d: nat)
    requires d < |disputed| && j == disputed[d].(tiebreak := Second(ties, d))
    requires Overturns(ch, ties, d, j.candidate.text)
    ensures Overturned(ch, disputed, ties, j)
  {
    assert OverturnedAt(ch, disputed, ties, j, d);
  }

  lemma UpholdsAt(ch: Checks, disputed: seq<Judgement>, ties: Answer<seq<Numbered>>, r: Rejected, d: nat)
    requires d < |disputed| && r == Rejected(Tiebreak, Some(disputed[d].candidate.item))
    requires !Overturns(ch, ties, d, disputed[d].candidate.text)
    ensures Upheld(ch, disputed, ties, r)
  {
    assert UpheldAt(ch, disputed, ties, r, d);
  }

  predicate Formats(ch: Checks, j: Judgement) {
    ch.formats(j.candidate.text, j.critic, j.tiebreak)
  }

  function Record(j: Judgement, lanes: S.Assignment): Accepted {
    Accepted(j.candidate.item, j.candidate.text, j.critic, j.tiebreak, lanes)
  }

  ghost predicate IsRecordOf(ch: Checks, passed: seq<Judgement>, lanes: S.Assignment, a: Accepted) {
    a.lanes == lanes && exists j :: j in passed && Formats(ch, j) && a == Record(j, lanes)
  }

  ghost predicate IsFormatFailure(ch: Checks, passed: seq<Judgement>, r: Rejected) {
    exists j :: j in passed && !Formats(ch, j) && r == Rejected(Format, Some(j.candidate.item))
  }

  /** The first i passed judgements are split into records and format failures. */
  ghost predicate Recorded(ch: Checks, passed: seq<Judgement>, lanes: S.Assignment, i: nat, accepted: seq<Accepted>,
                           rejected: seq<Rejected>)
    requires i <= |passed|
  {
    && (forall a :: a in accepted ==> IsRecordOf(ch, passed, lanes, a))
    && (forall r :: r in rejected ==> IsFormatFailure(ch, passed, r))
    && Splits(OfJudgements(passed[..i]), OfRecords(accepted), OfRejections(rejected))
  }

  method Assemble(ch: Checks, passed: seq<Judgement>, lanes: S.Assignment)
    returns (accepted: seq<Accepted>, rejected: seq<Rejected>)
    ensures Recorded(ch, passed, lanes, |passed|, accepted, rejected)
  {
    accepted, rejected := [], [];
    SplitsStart();
    for i := 0 to |passed|
      invariant Recorded(ch, passed, lanes, i, accepted, rejected)
    {
      hide Recorded, Formats;
      var j := passed[i];
      RecordsNext(ch, passed, lanes, i, accepted, rejected);
      if Formats(ch, j) {
        accepted := accepted + [Record(j, lanes)];
      } else {
        rejected := rejected + [Rejected(Format, Some(j.candidate.item))];
      }
    }
  }

  lemma RecordsNext(ch: Checks, passed: seq<Judgement>, lanes: S.Assignment, i: nat, accepted: seq<Accepted>,
                    rejected: seq<Rejected>)
    requires i < |passed| && Recorded(ch, passed, lanes, i, accepted, rejected)
    ensures if Formats(ch, passed[i])
      then Recorded(ch, passed, lanes, i + 1, accepted + [Record(passed[i], lanes)], rejected)
      else Recorded(ch, passed, lanes, i + 1, accepted, rejected + [Rejected(Format, Some(passed[i].candidate.item))])
  {
    hide OfJudgements, OfRecords, OfRejections, Add, Splits, Formats;
    var j := passed[i];
    NextJudgement(passed, i);
    SplitsGrow(OfJudgements(passed[..i]), OfRecords(accepted), OfRejections(rejected), Some(j.candidate.item));
    if Formats(ch, j) {
      assert IsRecordOf(ch, passed, lanes, Record(j, lanes));
      RecordsGrow(accepted, Record(j, lanes));
    } else {
      assert IsFormatFailure(ch, passed, Rejected(Format, Some(j.candidate.item)));
      RejectionsGrow(rejected, Rejected(Format, Some(j.candidate.item)));
    }
  }

  // ----- the whole pool -----

  ghost predicate Settled(ch: Checks, b: Batch, r: Rejected) {
    r.item.Some? && FateOf(ch, b, r.item.value) == Dropped(r.stage)
  }

  /** Only the record's format still stands between it and acceptance. */
  ghost predicate Cleared(ch: Checks, b: Batch, j: Judgement) {
    && FateOf(ch, b, j.candidate.item) == AfterFormat(ch, j.candidate.text, j.critic, j.tiebreak)
    && j.candidate.item < |b.items| && b.items[j.candidate.item] == Question(j.candidate.text)
  }

  ghost predicate Earned(ch: Checks, b: Batch, a: Accepted) {
    && FateOf(ch, b, a.item) == Kept(a.critic, a.tiebreak)
    && a.item < |b.items| && b.items[a.item] == Question(a.text)
  }

  lemma ParseSettles(ch: Checks, b: Batch, r: Rejected)
    requires NotAQuestion(b.items, r)
    ensures Settled(ch, b, r)
  {
    hide Questions, Position, LocalStage, Candidates, Judged;
    QuestionsRise(b.items);
    PositionNone(Questions(b.items), r.item.value);
  }

  lemma LocalSettles(ch: Checks, b: Batch, r: Rejected)
    requires StoppedLocally(ch, Questions(b.items), r)
    ensures Settled(ch, b, r)
  {
    hide LocalStage, FateOf, Questions;
    var q :| StoppedAt(ch, Questions(b.items), r, q);
    FateOfStopped(ch, b, q);
  }

  lemma CriticSettles(ch: Checks, b: Batch, r: Rejected)
    requires FailedCritic(ch, Sifted(ch, b), b.critic, b.mayBreak, r)
    ensures Settled(ch, b, r)
  {
    hide FateOf, Sifted, VerdictFor, AfterFormat, Position, Disputed;
    var c :| FailedAt(ch, Sifted(ch, b), b.critic, b.mayBreak, r, c);
    FateOfCandidate(ch, b, c);
  }

  lemma CandidateText(ch: Checks, b: Batch, c: nat)
    requires c < |Sifted(ch, b)|
    ensures var k := Sifted(ch, b)[c]; k.item < |b.items| && b.items[k.item] == Question(k.text)
  {
    hide Questions, Candidates;
    var q := CandidateFrom(ch, Questions(b.items), |Questions(b.items)|, c);
    QuestionsRise(b.items);
  }

  lemma CriticClears(ch: Checks, b: Batch, j: Judgement)
    requires PassedCritic(ch, Sifted(ch, b), b.critic, j)
    ensures Cleared(ch, b, j)
  {
    hide FateOf, Sifted, VerdictFor, AfterFormat, Position, Disputed;
    var c :| JudgedAt(Sifted(ch, b), b.critic, j, c);
    FateOfCandidate(ch, b, c);
    CandidateText(ch, b, c);
  }

  /** The disputes, with the critic's verdict on each. */
  ghost predicate AreDisputes(ch: Checks, b: Batch, disputed: seq<Judgement>) {
    && Held(disputed) == Contested(ch, b)
    && forall j :: j in disputed ==> JudgedSomewhere(Sifted(ch, b), b.critic, j)
  }

  /** Two candidates from the same item are one candidate. */
  lemma SameCandidate(ch: Checks, b: Batch, c: nat, e: nat)
    requires c < |Sifted(ch, b)| && e < |Sifted(ch, b)| && Sifted(ch, b)[c].item == Sifted(ch, b)[e].item
    ensures c == e
  {
    hide Questions, Candidates;
    QuestionsRise(b.items);
    CandidatesRise(ch, Questions(b.items), |Questions(b.items)|);
    PositionIs(Sifted(ch, b), c);
    PositionIs(Sifted(ch, b), e);
  }

  lemma TiebreakClears(ch: Checks, b: Batch, disputed: seq<Judgement>, j: Judgement, d: int)
    requires AreDisputes(ch, b, disputed) && OverturnedAt(ch, disputed, b.ties, j, d)
    ensures Cleared(ch, b, j)
  {
    hide FateOf, Sifted, Contested, VerdictFor, AfterFormat;
    assert Contested(ch, b)[d] == disputed[d].candidate;
    var c := FateOfDisputed(ch, b, d);
    assert JudgedSomewhere(Sifted(ch, b), b.critic, disputed[d]);
    var k :| JudgedAt(Sifted(ch, b), b.critic, disputed[d], k);
    SameCandidate(ch, b, c, k);
    CandidateText(ch, b, c);
  }

  lemma TiebreakSettles(ch: Checks, b: Batch, disputed: seq<Judgement>, r: Rejected, d: int)
    requires AreDisputes(ch, b, disputed) && UpheldAt(ch, disputed, b.ties, r, d)
    ensures Settled(ch, b, r)
  {
    hide FateOf, Sifted, Contested, VerdictFor, AfterFormat;
    assert Contested(ch, b)[d] == disputed[d].candidate;
    var c := FateOfDisputed(ch, b, d);
  }

  /** Every record earned its place, every rejection is the item's fate, and no item is lost or doubled. */
  ghost predicate Accounted(ch: Checks, b: Batch, accepted: seq<Accepted>, rejected: seq<Rejected>) {
    && (forall a :: a in accepted ==> Earned(ch, b, a))
    && (forall r :: r in rejected ==> Settled(ch, b, r))
    && Splits(Upto(|b.items|), OfRecords(accepted), OfRejections(rejected))
  }

  /** What the stages leave behind them. */
  datatype Stages = Stages(
    questions: seq<Candidate>, dropped: seq<Rejected>,
    candidates: seq<Candidate>, stopped: seq<Rejected>,
    passed: seq<Judgement>, disputed: seq<Judgement>, failed: seq<Rejected>,
    overturned: seq<Judgement>, upheld: seq<Rejected>,
    accepted: seq<Accepted>, unformatted: seq<Rejected>)

  /** The stages after parsing did their own parts. */
  ghost predicate StagesRan(ch: Checks, b: Batch, x: Stages, lanes: S.Assignment) {
    && Checked(ch, x.questions, |x.questions|, x.candidates, x.stopped)
    && Sorted(ch, x.candidates, b.critic, b.mayBreak, |x.candidates|, x.passed, x.disputed, x.failed)
    && Broken(ch, x.disputed, b.ties, |x.disputed|, x.overturned, x.upheld)
    && Recorded(ch, x.passed + x.overturned, lanes, |x.passed + x.overturned|, x.accepted, x.unformatted)
  }

  ghost predicate FullyParsed(b: Batch, x: Stages) {
    Parsed(b.items, |b.items|, x.questions, x.dropped)
  }

  lemma AllParsed(ch: Checks, b: Batch, x: Stages, lanes: S.Assignment)
    requires FullyParsed(b, x) && StagesRan(ch, b, x, lanes)
    ensures x.questions == Questions(b.items) && x.candidates == Sifted(ch, b)
    ensures AreDisputes(ch, b, x.disputed)
  {
    hide Questions, Candidates, Disputed, Splits, SplitsInThree;
    assert b.items[..|b.items|] == b.items;
  }

  lemma EveryRejectionSettles(ch: Checks, b: Batch, x: Stages, lanes: S.Assignment, r: Rejected)
    requires FullyParsed(b, x) && StagesRan(ch, b, x, lanes)
    requires r in x.dropped || r in x.stopped || r in x.failed || r in x.upheld
    ensures Settled(ch, b, r)
  {
    hide NotAQuestion, StoppedLocally, FailedCritic, PassedCritic, AreDisputes, Settled, UpheldAt, OverturnedAt,
      Questions, Sifted, Splits, SplitsInThree;
    AllParsed(ch, b, x, lanes);
    if r in x.dropped {
      ParseSettles(ch, b, r);
    } else if r in x.stopped {
      LocalSettles(ch, b, r);
    } else if r in x.failed {
      CriticSettles(ch, b, r);
    } else {
      var d :| UpheldAt(ch, x.disputed, b.ties, r, d);
      TiebreakSettles(ch, b, x.disputed, r, d);
    }
  }

  lemma EveryPassClears(ch: Checks, b: Batch, x: Stages, lanes: S.Assignment, j: Judgement)
    requires FullyParsed(b, x) && StagesRan(ch, b, x, lanes) && j in x.passed + x.overturned
    ensures Cleared(ch, b, j)
  {
    hide NotAQuestion, StoppedLocally, FailedCritic, PassedCritic, AreDisputes, Cleared, UpheldAt, OverturnedAt,
      Questions, Sifted, Splits, SplitsInThree;
    AllParsed(ch, b, x, lanes);
    if j in x.passed {
      CriticClears(ch, b, j);
    } else {
      var d :| OverturnedAt(ch, x.disputed, b.ties, j, d);
      TiebreakClears(ch, b, x.disputed, j, d);
    }
  }

  lemma EveryRecordIsEarned(ch: Checks, b: Batch, x: Stages, lanes: S.Assignment, a: Accepted)
    requires FullyParsed(b, x) && StagesRan(ch, b, x, lanes) && a in x.accepted
    ensures Earned(ch, b, a) && a.lanes == lanes
  {
    hide FateOf, FullyParsed, Checked, Sorted, Broken, Splits;
    assert IsRecordOf(ch, x.passed + x.overturned, lanes, a);
    var j :| j in x.passed + x.overturned && Formats(ch, j) && a == Record(j, lanes);
    EveryPassClears(ch, b, x, lanes, j);
  }

  lemma EveryFormatFailureSettles(ch: Checks, b: Batch, x: Stages, lanes: S.Assignment, r: Rejected)
    requires FullyParsed(b, x) && StagesRan(ch, b, x, lanes) && r in x.unformatted
    ensures Settled(ch, b, r)
  {
    hide FateOf, FullyParsed, Checked, Sorted, Broken, Splits;
    assert IsFormatFailure(ch, x.passed + x.overturned, r);
    var j :| j in x.passed + x.overturned && !Formats(ch, j) && r == Rejected(Format, Some(j.candidate.item));
    EveryPassClears(ch, b, x, lanes, j);
  }

  /** The stages hand every item on exactly once. */
  ghost predicate Conserved(b: Batch, x: Stages) {
    && Splits(Upto(|b.items|), OfCandidates(x.questions), OfRejections(x.dropped))
    && Splits(OfCandidates(x.questions), OfCandidates(x.candidates), OfRejections(x.stopped))
    && SplitsInThree(OfCandidates(x.candidates), OfJudgements(x.passed), OfJudgements(x.disputed),
        OfRejections(x.failed))
    && Splits(OfJudgements(x.disputed), OfJudgements(x.overturned), OfRejections(x.upheld))
    && Splits(OfJudgements(x.passed + x.overturned), OfRecords(x.accepted), OfRejections(x.unformatted))
  }

  lemma StagesConserve(ch: Checks, b: Batch, x: Stages, lanes: S.Assignment)
    requires FullyParsed(b, x) && StagesRan(ch, b, x, lanes)
    ensures Conserved(b, x)
  {
    hide Questions, Candidates, Disputed, Splits, SplitsInThree, Upto, OfCandidates, OfJudgements, OfRecords,
      OfRejections, IsRecordOf, IsFormatFailure, Overturned, Upheld, JudgedSomewhere, PassedCritic, FailedCritic,
      StoppedLocally, NotAQuestion;
    assert x.questions[..|x.questions|] == x.questions;
    assert x.candidates[..|x.candidates|] == x.candidates;
    assert x.disputed[..|x.disputed|] == x.disputed;
    assert (x.passed + x.overturned)[..|x.passed + x.overturned|] == x.passed + x.overturned;
  }

  lemma BagsAddUp(all: multiset<nat>, q: multiset<nat>, d: multiset<nat>, c: multiset<nat>, s: multiset<nat>,
                  p: multiset<nat>, t: multiset<nat>, f: multiset<nat>, o: multiset<nat>, u: multiset<nat>,
                  a: multiset<nat>, n: multiset<nat>)
    requires q + d == all && c + s == q && p + t + f == c && o + u == t && a + n == p + o
    ensures a + (d + s + f + u + n) == all
  {
    forall k: nat ensures (a + (d + s + f + u + n))[k] == all[k] {
      assert (q + d)[k] == all[k] && (c + s)[k] == q[k] && (p + t + f)[k] == c[k];
      assert (o + u)[k] == t[k] && (a + n)[k] == (p + o)[k];
    }
  }

  lemma NoDisputeWithoutTiebreak(ch: Checks, cs: seq<Candidate>, critic: seq<Numbered>, mayBreak: bool)
    ensures !mayBreak ==> Disputed(ch, cs, critic, mayBreak, |cs|) == []
  {
    hide Disputed, VerdictFor;
    if Disputed(ch, cs, critic, mayBreak, |cs|) != [] {
      var c := DisputeFrom(ch, cs, critic, mayBreak, |cs|, 0);
    }
  }

  lemma NoDisputesWithoutTiebreak(ch: Checks, cs: seq<Candidate>, b: Batch, passed: seq<Judgement>,
                                  disputed: seq<Judgement>, failed: seq<Rejected>)
    requires Sorted(ch, cs, b.critic, b.mayBreak, |cs|, passed, disputed, failed)
    ensures !b.mayBreak ==> disputed == []
  {
    hide Disputed;
    NoDisputeWithoutTiebreak(ch, cs, b.critic, b.mayBreak);
  }

  lemma NothingToDispute(ch: Checks, b: Batch, x: Stages)
    requires x.questions == [] && Checked(ch, x.questions, 0, x.candidates, x.stopped)
    requires Sorted(ch, x.candidates, b.critic, b.mayBreak, |x.candidates|, x.passed, x.disputed, x.failed)
    ensures x.disputed == []
  {
    NothingToCheck(ch, b.critic, b.mayBreak);
  }

  /** With no tie-break run there is nothing to hand on. */
  lemma NoDisputes(ch: Checks, disputed: seq<Judgement>, ties: Answer<seq<Numbered>>)
    requires disputed == []
    ensures Broken(ch, disputed, ties, |disputed|, [], [])
  {
  }

  /** A reply without an array leaves nothing to any later stage. */
  lemma NothingFromNothing(ch: Checks, b: Batch, x: Stages, lanes: S.Assignment)
    requires x.questions == [] && x.overturned == [] && x.upheld == []
    requires StagesRan(ch, b, x, lanes)
    ensures x.stopped == [] && x.failed == [] && x.accepted == [] && x.unformatted == []
  {
    hide Splits, SplitsInThree, Broken, IsRecordOf, IsFormatFailure;
    NothingToCheck(ch, b.critic, b.mayBreak);
    EmptyOrFirst(x.stopped);
    EmptyOrFirst(x.failed);
    EmptyOrFirst(x.passed);
    NothingToRecord(ch, lanes, x.accepted, x.unformatted);
  }

  lemma NothingToRecord(ch: Checks, lanes: S.Assignment, accepted: seq<Accepted>, rejected: seq<Rejected>)
    requires Recorded(ch, [], lanes, 0, accepted, rejected)
    ensures accepted == [] && rejected == []
  {
    hide Splits;
    EmptyOrFirst(accepted);
    EmptyOrFirst(rejected);
  }

  lemma EmptyOrFirst<T>(s: seq<T>)
    ensures s == [] || s[0] in s
  {
  }

  lemma NothingToCheck(ch: Checks, critic: seq<Numbered>, mayBreak: bool)
    ensures Candidates(ch, [], 0) == [] && Disputed(ch, [], critic, mayBreak, 0) == []
    ensures forall r :: !StoppedLocally(ch, [], r)
    ensures forall r :: !FailedCritic(ch, [], critic, mayBreak, r)
    ensures forall j :: !PassedCritic(ch, [], critic, j)
  {
  }

  lemma AllItemsAddUp(b: Batch, x: Stages)
    requires Conserved(b, x)
    ensures Splits(Upto(|b.items|), OfRecords(x.accepted),
            OfRejections(x.dropped + x.stopped + x.failed + x.upheld + x.unformatted))
  {
    hide Items, Upto;
    ItemsOfBoth(x.passed, x.overturned, ItemOfJudgement);
    ItemsOfBoth(x.dropped, x.stopped, ItemOfRejection);
    ItemsOfBoth(x.dropped + x.stopped, x.failed, ItemOfRejection);
    ItemsOfBoth(x.dropped + x.stopped + x.failed, x.upheld, ItemOfRejection);
    ItemsOfBoth(x.dropped + x.stopped + x.failed + x.upheld, x.unformatted, ItemOfRejection);
    BagsAddUp(Upto(|b.items|), OfCandidates(x.questions), OfRejections(x.dropped), OfCandidates(x.candidates),
      OfRejections(x.stopped), OfJudgements(x.passed), OfJudgements(x.disputed), OfRejections(x.failed),
      OfJudgements(x.overturned), OfRejections(x.upheld), OfRecords(x.accepted), OfRejections(x.unformatted));
  }

  lemma PoolIsAccounted(ch: Checks, b: Batch, x: Stages, lanes: S.Assignment, rejected: seq<Rejected>)
    requires FullyParsed(b, x) && StagesRan(ch, b, x, lanes)
    requires rejected == x.dropped + x.stopped + x.failed + x.upheld + x.unformatted
    ensures Accounted(ch, b, x.accepted, rejected)
    ensures forall a :: a in x.accepted ==> a.lanes == lanes
  {
    hide FullyParsed, StagesRan, Earned, Settled, Conserved, Items, Splits;
    forall a | a in x.accepted ensures Earned(ch, b, a) && a.lanes == lanes {
      EveryRecordIsEarned(ch, b, x, lanes, a);
    }
    forall r | r in rejected ensures Settled(ch, b, r) {
      if r in x.unformatted {
        EveryFormatFailureSettles(ch, b, x, lanes, r);
      } else {
        EveryRejectionSettles(ch, b, x, lanes, r);
      }
    }
    StagesConserve(ch, b, x, lanes);
    AllItemsAddUp(b, x);
  }

  /** The first call that stops the pool, if one does: the tie-break's never does. */
  function FirstFailure(ch: Checks, standard: Answer<Anchors>, questions: Answer<Option<seq<Item>>>,
                        critic: Answer<seq<Numbered>>): Option<bool> {
    if standard.Failed? then Some(standard.laneLimited)
    else if questions.Failed? then Some(questions.laneLimited)
    else
      var qs := if questions.value.Some? then Questions(questions.value.value) else [];
      if critic.Failed? && Candidates(ch, qs, |qs|) != [] then Some(critic.laneLimited) else None
  }

  /** How a pool ends, given what the lanes answer. */
  ghost predicate PoolEnds(file: Option<seq<Anchor>>, stored: Option<seq<Anchor>>, ch: Checks, lanes: S.Assignment,
                           breakTies: bool, replies: Replies, result: Result) {
    var standard, questions := EnsureAnchors(file, stored, replies.standard(lanes.generator)),
        replies.questions(lanes.generator);
    var failure := FirstFailure(ch, standard, questions, replies.critic(lanes.critic));
    match result
    case StageError(limited) => failure == Some(limited)
    case PoolResult(created, accepted, rejected) =>
      && failure == None && created == standard.value.created && (forall a :: a in accepted ==> a.lanes == lanes)
      && (questions.value.None? ==> accepted == [] && rejected == [Rejected(Parse, None)])
      && (questions.value.Some? ==>
          Accounted(ch, BatchOf(questions.value.value, lanes, breakTies, replies), accepted, rejected))
  }

  method RunPool(file: Option<seq<Anchor>>, stored: Option<seq<Anchor>>, ch: Checks, lanes: S.Assignment,
                 breakTies: bool, replies: Replies)
    returns (result: Result)
    ensures PoolEnds(file, stored, ch, lanes, breakTies, replies, result)
  {
    hide PoolEnds, BatchOf, Accounted, EnsureAnchors, Sorted, Broken, Recorded, Splits, StoppedLocally, NotAQuestion,
      Questions, Candidates;
    var standard := EnsureAnchors(file, stored, replies.standard(lanes.generator));
    if standard.Failed? {
      CallFails(file, stored, ch, lanes, breakTies, replies, standard.laneLimited);
      return StageError(standard.laneLimited);
    }
    var reply := replies.questions(lanes.generator);
    if reply.Failed? {
      CallFails(file, stored, ch, lanes, breakTies, replies, reply.laneLimited);
      return StageError(reply.laneLimited);
    }
    var questions, rejected := ParseQuestions(reply.value);
    ghost var items := if reply.value.Some? then reply.value.value else [];
    ParsedWhole(reply.value, questions, rejected);
    var candidates, stopped := LocalChecks(ch, questions);
    var verdicts := replies.critic(lanes.critic);
    if |candidates| > 0 && verdicts.Failed? {
      CallFails(file, stored, ch, lanes, breakTies, replies, verdicts.laneLimited);
      return StageError(verdicts.laneLimited);
    }
    var mayBreak := breakTies && lanes.tiebreak.Some?;
    ghost var b := BatchOf(items, lanes, breakTies, replies);
    BatchHolds(items, lanes, breakTies, replies);
    var passed, disputed, failed := SortByCritic(ch, candidates, if verdicts.Said? then verdicts.value else [],
      mayBreak);
    var overturned: seq<Judgement>, upheld: seq<Rejected> := [], [];
    NoDisputesWithoutTiebreak(ch, candidates, b, passed, disputed, failed);
    if |disputed| > 0 && lanes.tiebreak.Some? {
      overturned, upheld := BreakTies(ch, disputed, replies.tiebreak(lanes.tiebreak.value));
    } else {
      NoDisputes(ch, disputed, b.ties);
    }
    var accepted, unformatted := Assemble(ch, passed + overturned, lanes);
    ghost var x := Stages(questions, rejected, candidates, stopped, passed, disputed, failed, overturned, upheld,
        accepted, unformatted);
    if reply.value.None? {
      NothingToDispute(ch, b, x);
      NothingFromNothing(ch, b, x, lanes);
    } else {
      PoolIsAccounted(ch, b, x, lanes, rejected + stopped + failed + upheld + unformatted);
    }
    result := PoolResult(standard.value.created, accepted, rejected + stopped + failed + upheld + unformatted);
    PoolIsDone(file, stored, ch, lanes, breakTies, replies, candidates, result);
  }

  lemma CallFails(file: Option<seq<Anchor>>, stored: Option<seq<Anchor>>, ch: Checks, lanes: S.Assignment,
                  breakTies: bool, replies: Replies, limited: bool)
    requires var standard, questions := EnsureAnchors(file, stored, replies.standard(lanes.generator)),
        replies.questions(lanes.generator);
      FirstFailure(ch, standard, questions, replies.critic(lanes.critic)) == Some(limited)
    ensures PoolEnds(file, stored, ch, lanes, breakTies, replies, StageError(limited))
  {
  }

  lemma WholeReply(items: seq<Item>)
    ensures items[..|items|] == items
  {
  }

  lemma ParsedWhole(reply: Option<seq<Item>>, questions: seq<Candidate>, dropped: seq<Rejected>)
    requires reply.None? ==> questions == [] && dropped == [Rejected(Parse, None)]
    requires reply.Some? ==> Parsed(reply.value, |reply.value|, questions, dropped)
    ensures questions == Questions(if reply.Some? then reply.value else [])
  {
    if reply.Some? { WholeReply(reply.value); }
  }

  lemma BatchHolds(items: seq<Item>, lanes: S.Assignment, breakTies: bool, replies: Replies)
    ensures var b, critic := BatchOf(items, lanes, breakTies, replies), replies.critic(lanes.critic);
      && b.items == items && b.critic == (if critic.Said? then critic.value else [])
      && b.mayBreak == (breakTies && lanes.tiebreak.Some?)
      && (lanes.tiebreak.Some? ==> b.ties == replies.tiebreak(lanes.tiebreak.value))
  {
  }

  lemma PoolIsDone(file: Option<seq<Anchor>>, stored: Option<seq<Anchor>>, ch: Checks, lanes: S.Assignment,
                   breakTies: bool, replies: Replies, candidates: seq<Candidate>, result: Result)
    requires result.PoolResult?
    requires var standard, questions := EnsureAnchors(file, stored, replies.standard(lanes.generator)),
          replies.questions(lanes.generator);
      && standard.Said? && result.created == standard.value.created && questions.Said?
      && var items := if questions.value.Some? then questions.value.value else [];
         && candidates == Candidates(ch, Questions(items), |Questions(items)|)
         && (candidates == [] || replies.critic(lanes.critic).Said?)
         && if questions.value.None? then result.accepted == [] && result.rejected == [Rejected(Parse, None)]
            else Accounted(ch, BatchOf(items, lanes, breakTies, replies), result.accepted, result.rejected)
    requires forall a :: a in result.accepted ==> a.lanes == lanes
    ensures PoolEnds(file, stored, ch, lanes, breakTies, replies, result)
  {
    hide Accounted, EnsureAnchors, Candidates, BatchOf;
  }

  function BatchOf(items: seq<Item>, lanes: S.Assignment, breakTies: bool, replies: Replies): Batch {
    var critic := replies.critic(lanes.critic);
    Batch(items, if critic.Said? then critic.value else [],
      if lanes.tiebreak.Some? then replies.tiebreak(lanes.tiebreak.value) else Failed(false),
      breakTies && lanes.tiebreak.Some?)
  }

  // ----- what acceptance means -----

  /** The lane's reply carries this verdict under this number, and it does not fail the gate. */
  ghost predicate Approves(ch: Checks, reply: seq<Numbered>, n: nat, verdict: Verdict, text: Text) {
    Numbered(n, verdict) in reply && !ch.gate(verdict, text).fails
  }

  ghost predicate ApprovedByCritic(ch: Checks, b: Batch, k: nat, critic: Verdict, text: Text) {
    exists c :: 0 <= c < |Sifted(ch, b)| && Sifted(ch, b)[c] == Candidate(k, text)
        && Approves(ch, b.critic, c + 1, critic, text)
  }

  ghost predicate SavedByTiebreak(ch: Checks, b: Batch, k: nat, critic: Verdict, second: Verdict, text: Text) {
    && b.mayBreak && b.ties.Said? && ch.gate(critic, text).fails && ch.gate(critic, text).criticOnly
    && (exists c ::
          0 <= c < |Sifted(ch, b)| && Sifted(ch, b)[c] == Candidate(k, text) && Numbered(c + 1, critic) in b.critic)
    && exists d :: 0 <= d < |Contested(ch, b)| && Contested(ch, b)[d] == Candidate(k, text)
        && Approves(ch, b.ties.value, d + 1, second, text)
  }

  ghost predicate PassedLocally(ch: Checks, b: Batch, k: nat, text: Text) {
    && ch.lints(text) && !ch.duplicate(text)
    && exists q :: 0 <= q < |Questions(b.items)| && Questions(b.items)[q] == Candidate(k, text)
        && q !in ch.withinBatch(TextsOf(Questions(b.items)))
  }

  /** An accepted item passed lint and both duplicate checks, and a judge approved it under its own number. */
  lemma KeptIsEarned(ch: Checks, b: Batch, k: nat)
    requires FateOf(ch, b, k).Kept?
    ensures k < |b.items| && b.items[k].Question?
    ensures var text, fate := b.items[k].text, FateOf(ch, b, k);
      && PassedLocally(ch, b, k, text) && ch.formats(text, fate.critic, fate.tiebreak)
      && match fate.tiebreak
         case None => ApprovedByCritic(ch, b, k, fate.critic, text)
         case Some(second) => SavedByTiebreak(ch, b, k, fate.critic, second, text)
  {
    hide Questions, Candidates, Disputed, VerdictFor, Position;
    var fate, qs, cs := FateOf(ch, b, k), Questions(b.items), Sifted(ch, b);
    QuestionsRise(b.items);
    var c := Position(cs, k).value;
    var q := CandidateFrom(ch, qs, |qs|, c);
    var text := cs[c].text;
    assert cs[c] == Candidate(k, text) && qs[q] == Candidate(k, text);
    VerdictIsItsOwn(b.critic, c + 1);
    assert Numbered(c + 1, fate.critic) in b.critic;
    if fate.tiebreak.Some? {
      var d := Position(Contested(ch, b), k).value;
      var e := DisputeFrom(ch, cs, b.critic, b.mayBreak, |cs|, d);
      SameCandidate(ch, b, c, e);
      VerdictIsItsOwn(b.ties.value, d + 1);
      assert Approves(ch, b.ties.value, d + 1, fate.tiebreak.value, text);
    }
  }

  /** In a completed pool each item is recorded or rejected exactly once, and recorded exactly if it earned it. */
  lemma EachItemEndsOnce(ch: Checks, b: Batch, accepted: seq<Accepted>, rejected: seq<Rejected>, k: nat)
    requires Accounted(ch, b, accepted, rejected) && k < |b.items|
    ensures OfRecords(accepted)[k] + OfRejections(rejected)[k] == 1
    ensures (exists a :: a in accepted && a.item == k) <==> FateOf(ch, b, k).Kept?
  {
    hide FateOf, Items;
    UptoHoldsEachOnce(|b.items|, k);
    assert (OfRecords(accepted) + OfRejections(rejected))[k] == 1;
    ItemIsNamed(accepted, ItemOfRecord, k);
    ItemIsNamed(rejected, ItemOfRejection, k);
  }

  /** An item is counted exactly when some entry names it. */
  lemma {:induction false} ItemIsNamed<T>(xs: seq<T>, item: T -> Option<nat>, k: nat)
    ensures Items(xs, item)[k] > 0 <==> exists x :: x in xs && item(x) == Some(k)
  {
    if xs != [] {
      var n := |xs| - 1;
      ItemIsNamed(xs[..n], item, k);
      assert xs == xs[..n] + [xs[n]];
    }
  }

  /** The order in which the judges list their verdicts changes no item's fate. */
  lemma FateIgnoresOrder(ch: Checks, b: Batch, other: Batch, k: nat)
    requires b.items == other.items && b.mayBreak == other.mayBreak && b.ties.Said? == other.ties.Said?
    requires multiset(b.critic) == multiset(other.critic) && NumberedOnce(b.critic) && NumberedOnce(other.critic)
    requires b.ties.Said? ==>
      multiset(b.ties.value) == multiset(other.ties.value) && NumberedOnce(b.ties.value)
          && NumberedOnce(other.ties.value)
    ensures FateOf(ch, b, k) == FateOf(ch, other, k)
  {
    hide Questions, Candidates, Disputed, VerdictFor, Position, LocalStage, NumberedOnce;
    forall n: nat ensures VerdictFor(b.critic, n) == VerdictFor(other.critic, n) {
      OrderDoesNotMatter(b.critic, other.critic, n);
    }
    forall d: nat ensures Second(b.ties, d) == Second(other.ties, d) {
      if b.ties.Said? { OrderDoesNotMatter(b.ties.value, other.ties.value, d + 1); }
    }
    SameDisputes(ch, Sifted(ch, b), b.critic, other.critic, b.mayBreak, |Sifted(ch, b)|);
  }

  lemma {:induction false} SameDisputes(ch: Checks, cs: seq<Candidate>, critic: seq<Numbered>, other: seq<Numbered>,
                                        mayBreak: bool, n: nat)
    requires n <= |cs| && forall i: nat :: VerdictFor(critic, i) == VerdictFor(other, i)
    ensures Disputed(ch, cs, critic, mayBreak, n) == Disputed(ch, cs, other, mayBreak, n)
  {
    hide VerdictFor, IsDisputed;
    if n > 0 {
      SameDisputes(ch, cs, critic, other, mayBreak, n - 1);
      assert VerdictFor(critic, n) == VerdictFor(other, n);
    }
  }
}
