/** Turning matched occupations into proposals, and keeping the review queue to its best. */
module CatalogPlan {
  import opened Numbers
  import opened CatalogMatch

  datatype Kind = NewRole | NewAlias

  datatype Draft = Draft(kind: Kind, title: Title, key: Key, domain: Option<nat>, target: Option<RoleId>,
                         confidence: real)

  /** An occupation as its source gives it: web research names one domain at a time. */
  datatype Occupation = Occupation(candidate: Candidate, fromWeb: bool, domain: Option<nat>)

  const ALIAS_TOP_CONFIDENCE := 0.85
  const ALIAS_RANK_STEP := 0.02
  const ALIAS_MIN_CONFIDENCE := 0.6
  const WEB_TITLE_CONFIDENCE := 0.6

  function AliasConfidence(rank: nat): real {
    Max(ALIAS_MIN_CONFIDENCE, RoundToHundredth(ALIAS_TOP_CONFIDENCE - rank as real * ALIAS_RANK_STEP))
  }

  /** Trusted titles rank above the long tail, within the two bounds. */
  lemma ConfidenceFallsWithRank(i: nat, j: nat)
    requires i <= j
    ensures ALIAS_MIN_CONFIDENCE <= AliasConfidence(j) <= AliasConfidence(i) <= ALIAS_TOP_CONFIDENCE
  {
    RoundToHundredthIsMonotone(ALIAS_TOP_CONFIDENCE - j as real * ALIAS_RANK_STEP,
      ALIAS_TOP_CONFIDENCE - i as real * ALIAS_RANK_STEP);
    RoundToHundredthIsMonotone(ALIAS_TOP_CONFIDENCE - i as real * ALIAS_RANK_STEP, ALIAS_TOP_CONFIDENCE);
  }

  // ----- drafts of one occupation -----

  /** An alias proposed for the role an occupation belongs to. */
  ghost predicate IsAliasDraft(w: Wording, d: Draft, title: Title, role: Option<RoleId>, rank: nat) {
    && d.kind == NewAlias && d.title == title && d.key == w.normalise(title) && d.target == role
    && d.confidence == AliasConfidence(rank)
  }

  ghost predicate AreAliasDrafts(w: Wording, drafts: seq<Draft>, titles: seq<Title>, role: Option<RoleId>) {
    && |drafts| == |titles|
    && forall i :: 0 <= i < |drafts| ==> IsAliasDraft(w, drafts[i], titles[i], role, i)
  }

  function DomainOf(roles: seq<Role>, id: Option<RoleId>): Option<nat> {
    if roles == [] || id.None? then None
    else if DomainOf(roles[..|roles| - 1], id).Some? then DomainOf(roles[..|roles| - 1], id)
    else if roles[|roles| - 1].id == id.value then Some(roles[|roles| - 1].domain) else None
  }

  /** The drafts of an occupation: aliases of its role, a new role, or nothing. */
  method DraftsForCandidate(w: Wording, trim: Title -> Title, o: Occupation, index: Index, aliasesOnly: bool,
                            aliasCap: Option<int>)
    returns (matchedExisting: bool, drafts: seq<Draft>, ghost m: Match)
    requires IsIndex(w, index)
    ensures o.fromWeb ==> (matchedExisting <==> w.normalise(o.candidate.title) in index.known)
    ensures !o.fromWeb ==>
      && MatchesScan(w, index.roles, o.candidate, index.known, if aliasCap.Some? then aliasCap.value
          else DEFAULT_ALIAS_CAP, m)
      && (matchedExisting <==> m.Matched?)
    ensures !o.fromWeb && m.Matched? ==> AreAliasDrafts(w, drafts, m.aliasTitles, m.role)
    ensures !o.fromWeb && m.Matched? ==> forall d :: d in drafts ==> d.domain == DomainOf(index.roles, m.role)
    ensures (o.fromWeb && matchedExisting) || (!o.fromWeb && m.Unmatched? && aliasesOnly) ==> drafts == []
    ensures !matchedExisting && (o.fromWeb || !aliasesOnly) ==>
      var title, key := trim(o.candidate.title), w.normalise(trim(o.candidate.title));
      drafts == [if o.fromWeb then Draft(NewRole, title, key, o.domain, None, WEB_TITLE_CONFIDENCE)
                 else Draft(NewRole, title, key, None, None, 0.0)]
  {
    hide MatchesScan, IsIndex;
    var title := trim(o.candidate.title);
    m := Unmatched;
    if o.fromWeb {
      matchedExisting := w.normalise(o.candidate.title) in index.known;
      drafts := if matchedExisting then []
          else [Draft(NewRole, title, w.normalise(title), o.domain, None, WEB_TITLE_CONFIDENCE)];
      return;
    }
    var found := MatchOccupation(w, o.candidate, index, aliasCap);
    m := found;
    if found.Matched? {
      var domain := DomainOf(index.roles, found.role);
      drafts := seq(|found.aliasTitles|, rank requires 0 <= rank < |found.aliasTitles| =>
        Draft(NewAlias, found.aliasTitles[rank], w.normalise(found.aliasTitles[rank]), domain, found.role,
          AliasConfidence(rank)));
      return true, drafts, m;
    }
    if aliasesOnly { return false, [], m; }
    return false, [Draft(NewRole, title, w.normalise(title), None, None, 0.0)], m;
  }

  // ----- accepting them -----

  datatype Rules = Rules(known: set<Key>, blocked: set<Key>, minConfidence: real, problem: Title -> bool)

  predicate Acceptable(d: Draft, rules: Rules) {
    && d.key != EMPTY && !rules.problem(d.title) && d.key !in rules.known && d.key !in rules.blocked
    && if d.kind == NewAlias then d.target.Some? else d.domain.Some? && d.confidence >= rules.minConfidence
  }

  predicate HasKey(drafts: seq<Draft>, key: Key) { exists d :: d in drafts && d.key == key }

  /** The acceptable drafts, the first of each key. */
  function Accepted(drafts: seq<Draft>, rules: Rules): seq<Draft> {
    if drafts == [] then []
    else
      var before, d := Accepted(drafts[..|drafts| - 1], rules), drafts[|drafts| - 1];
      if Acceptable(d, rules) && !HasKey(before, d.key) then before + [d] else before
  }

  ghost predicate KeysOf(seen: set<Key>, drafts: seq<Draft>) { forall k :: k in seen <==> HasKey(drafts, k) }

  method AcceptDrafts(drafts: seq<Draft>, rules: Rules) returns (accepted: seq<Draft>, skipped: nat)
    ensures accepted == Accepted(drafts, rules) && skipped == |drafts| - |accepted|
  {
    var seen: set<Key> := {};
    accepted := [];
    for i := 0 to |drafts|
      invariant accepted == Accepted(drafts[..i], rules) && KeysOf(seen, accepted) && |accepted| <= i
    {
      hide Accepted, KeysOf, Acceptable;
      AcceptedNext(drafts, rules, i);
      KeysNext(seen, accepted, drafts[i]);
      if drafts[i].key !in seen && Acceptable(drafts[i], rules) {
        seen := seen + {drafts[i].key};
        accepted := accepted + [drafts[i]];
      }
    }
    assert drafts[..|drafts|] == drafts;
    skipped := |drafts| - |accepted|;
  }

  lemma AcceptedNext(drafts: seq<Draft>, rules: Rules, i: nat)
    requires i < |drafts|
    ensures var before := Accepted(drafts[..i], rules);
      Accepted(drafts[..i + 1], rules) ==
      if Acceptable(drafts[i], rules) && !HasKey(before, drafts[i].key) then before + [drafts[i]] else before
  {
    assert drafts[..i + 1][..i] == drafts[..i];
  }

  lemma HasKeyLonger(drafts: seq<Draft>, d: Draft, k: Key)
    ensures HasKey(drafts + [d], k) <==> HasKey(drafts, k) || k == d.key
  {
    if HasKey(drafts, k) {
      var e :| e in drafts && e.key == k;
      assert e in drafts + [d];
    }
    assert d in drafts + [d] by { assert (drafts + [d])[|drafts|] == d; }
  }

  lemma KeysNext(seen: set<Key>, drafts: seq<Draft>, d: Draft)
    requires KeysOf(seen, drafts)
    ensures d.key in seen <==> HasKey(drafts, d.key)
    ensures KeysOf(seen + {d.key}, drafts + [d])
  {
    forall k ensures k in seen + {d.key} <==> HasKey(drafts + [d], k) { HasKeyLonger(drafts, d, k); }
  }

  ghost predicate DistinctDrafts(drafts: seq<Draft>) {
    forall i, j :: 0 <= i < j < |drafts| ==> drafts[i].key != drafts[j].key
  }

  lemma DistinctDraftsLonger(drafts: seq<Draft>, d: Draft)
    requires DistinctDrafts(drafts) && !HasKey(drafts, d.key)
    ensures DistinctDrafts(drafts + [d])
  {
    forall i | 0 <= i < |drafts| ensures drafts[i].key != d.key { assert drafts[i] in drafts; }
  }

  /** Accepted drafts are distinct by key and neither known nor blocked, and no acceptable title goes unproposed. */
  lemma {:induction false} AcceptedAreDistinctAndNew(drafts: seq<Draft>, rules: Rules)
    ensures DistinctDrafts(Accepted(drafts, rules))
    ensures forall d :: d in Accepted(drafts, rules) ==> d in drafts && Acceptable(d, rules)
    ensures forall d :: d in drafts && Acceptable(d, rules) ==> HasKey(Accepted(drafts, rules), d.key)
  {
    if drafts != [] {
      hide Acceptable;
      var n := |drafts| - 1;
      var before, d, all := Accepted(drafts[..n], rules), drafts[n], Accepted(drafts, rules);
      AcceptedAreDistinctAndNew(drafts[..n], rules);
      assert drafts == drafts[..n] + [d];
      if all != before { DistinctDraftsLonger(before, d); }
      forall e | e in drafts && Acceptable(e, rules) ensures HasKey(all, e.key) {
        HasKeyLonger(before, d, e.key);
        if e in drafts[..n] { assert HasKey(before, e.key); }
      }
    }
  }

  /** The aliases offered for a role all pass, unless a reviewer's block or the wording rules stop one. */
  lemma {:induction false} OfferedAliasesAreAccepted(w: Wording, drafts: seq<Draft>, titles: seq<Title>,
      role: RoleId, rules: Rules, n: nat)
    requires AreAliasDrafts(w, drafts, titles, Some(role)) && |drafts| == |titles| && DistinctKeys(w, titles)
    requires n <= |drafts|
    requires forall t :: t in titles ==>
            IsNew(w, t, rules.known) && !rules.problem(t) && w.normalise(t) !in rules.blocked
    ensures Accepted(drafts[..n], rules) == drafts[..n]
  {
    hide Accepted, Acceptable, AreAliasDrafts, DistinctKeys, IsNew;
    if n == 0 {
      NothingAccepted(rules);
      assert drafts[..0] == [];
    } else {
      OfferedAliasesAreAccepted(w, drafts, titles, role, rules, n - 1);
      AcceptedNext(drafts, rules, n - 1);
      NextAliasPasses(w, drafts, titles, role, rules, n - 1);
      assert drafts[..n] == drafts[..n - 1] + [drafts[n - 1]];
    }
  }

  lemma NothingAccepted(rules: Rules)
    ensures Accepted([], rules) == []
  {
  }

  lemma NextAliasPasses(w: Wording, drafts: seq<Draft>, titles: seq<Title>, role: RoleId, rules: Rules, n: nat)
    requires AreAliasDrafts(w, drafts, titles, Some(role)) && DistinctKeys(w, titles) && n < |drafts|
    requires forall t :: t in titles ==>
            IsNew(w, t, rules.known) && !rules.problem(t) && w.normalise(t) !in rules.blocked
    ensures Acceptable(drafts[n], rules) && !HasKey(drafts[..n], drafts[n].key)
  {
    assert titles[n] in titles && IsAliasDraft(w, drafts[n], titles[n], Some(role), n);
    forall i | 0 <= i < n ensures drafts[i].key != drafts[n].key {
      KeysDiffer(w, drafts, titles, role, i, n);
    }
  }

  lemma KeysDiffer(w: Wording, drafts: seq<Draft>, titles: seq<Title>, role: RoleId, i: nat, j: nat)
    requires AreAliasDrafts(w, drafts, titles, Some(role)) && DistinctKeys(w, titles) && i < j < |drafts|
    ensures drafts[i].key != drafts[j].key
  {
    assert IsAliasDraft(w, drafts[i], titles[i], Some(role), i) && IsAliasDraft(w, drafts[j], titles[j], Some(role), j);
  }

  // ----- what accepting an alias does to the catalogue -----

  function WithAlias(roles: seq<Role>, t: nat, title: Title): seq<Role>
    requires t < |roles|
  {
    roles[t := roles[t].(aliases := roles[t].aliases + [title])]
  }

  lemma CarriesMore(w: Wording, role: Role, title: Title, key: Key)
    ensures Carries(w, role.(aliases := role.aliases + [title]), key) <==>
            Carries(w, role, key) || (key == w.normalise(title) && key != EMPTY)
  {
    var more := role.(aliases := role.aliases + [title]);
    assert title in more.aliases by { assert more.aliases[|role.aliases|] == title; }
    if Carries(w, role, key) && w.normalise(role.title) != key {
      var a :| a in role.aliases && w.normalise(a) == key;
      assert a in more.aliases;
    }
  }

  /** A title no role carried comes to belong to its role alone, and every other title belongs where it did. */
  lemma NewAliasBelongsToItsRoleAlone(w: Wording, roles: seq<Role>, t: nat, title: Title, key: Key)
    requires t < |roles| && IsNew(w, title, {}) && Owners(w, roles, w.normalise(title)) == {}
    ensures Owners(w, WithAlias(roles, t, title), key) == if key == w.normalise(title) then {roles[t].id}
            else Owners(w, roles, key)
  {
    hide Carries;
    var after := WithAlias(roles, t, title);
    forall i: nat | i < |roles|
      ensures after[i].id == roles[i].id
      ensures Carries(w, after[i], key) <==> Carries(w, roles[i], key) || (i == t && key == w.normalise(title))
    {
      CarriesMore(w, roles[i], title, key);
    }
    forall id ensures id in Owners(w, after, key) <==> OwnsAfter(w, roles, t, title, key, id) {
      if id in Owners(w, after, key) {
        var r :| r in after && Carries(w, r, key) && r.id == id;
        var i :| 0 <= i < |after| && after[i] == r;
        assert roles[i] in roles;
      }
      if id in Owners(w, roles, key) {
        var r :| r in roles && Carries(w, r, key) && r.id == id;
        var i :| 0 <= i < |roles| && roles[i] == r;
        assert after[i] in after;
      }
      assert after[t] in after;
    }
  }

  ghost predicate OwnsAfter(w: Wording, roles: seq<Role>, t: nat, title: Title, key: Key, id: RoleId)
    requires t < |roles|
  {
    id in Owners(w, roles, key) || (key == w.normalise(title) && id == roles[t].id)
  }

  // ----- the cap on the queue -----

  datatype Proposal = Proposal(id: nat, kind: Kind, confidence: real, createdAt: int)

  /** Negative when a ranks first: aliases, then the most confident, then the oldest. */
  function CapRank(a: Proposal, b: Proposal): real {
    if a.kind != b.kind then if a.kind == NewAlias then -1.0 else 1.0
    else if a.confidence != b.confidence then b.confidence - a.confidence
    else (a.createdAt - b.createdAt) as real
  }

  predicate NotAfter(a: Proposal, b: Proposal) { CapRank(a, b) <= 0.0 }

  function Insert(p: Proposal, s: seq<Proposal>): (t: seq<Proposal>)
    ensures |t| == |s| + 1 && multiset(t) == multiset(s) + multiset{p}
  {
    if s == [] then [p]
    else
      var n := |s| - 1;
      assert s == s[..n] + [s[n]];
      if NotAfter(s[n], p) then s + [p] else Insert(p, s[..n]) + [s[n]]
  }

  function Ranked(rows: seq<Proposal>): (t: seq<Proposal>)
    ensures |t| == |rows| && multiset(t) == multiset(rows)
  {
    if rows == [] then []
    else
      assert rows == rows[..|rows| - 1] + [rows[|rows| - 1]];
      Insert(rows[|rows| - 1], Ranked(rows[..|rows| - 1]))
  }

  ghost predicate InOrder(s: seq<Proposal>) { forall i, j :: 0 <= i < j < |s| ==> NotAfter(s[i], s[j]) }

  lemma {:induction false} InsertKeepsOrder(p: Proposal, s: seq<Proposal>)
    requires InOrder(s)
    ensures InOrder(Insert(p, s))
  {
    if s != [] {
      var n := |s| - 1;
      if NotAfter(s[n], p) {
        forall i | 0 <= i < |s| ensures NotAfter(s[i], p) {
          if i < n { assert NotAfter(s[i], s[n]); }
        }
      } else {
        InsertKeepsOrder(p, s[..n]);
        var t := Insert(p, s[..n]);
        forall i | 0 <= i < |t| ensures NotAfter(t[i], s[n]) {
          assert t[i] in multiset(t);
          assert t[i] == p || t[i] in multiset(s[..n]);
          assert t[i] == p || t[i] in s[..n];
        }
      }
    }
  }

  lemma {:induction false} RankedIsInOrder(rows: seq<Proposal>)
    ensures InOrder(Ranked(rows))
  {
    if rows != [] {
      RankedIsInOrder(rows[..|rows| - 1]);
      InsertKeepsOrder(rows[|rows| - 1], Ranked(rows[..|rows| - 1]));
    }
  }

  /** The proposals beyond the cap, which the run removes. */
  function CapOverflow(rows: seq<Proposal>, max: nat): seq<Proposal> {
    if |rows| <= max then [] else Ranked(rows)[max..]
  }

  /** The rows split into at most `max` kept and the rest, and none kept ranks after one removed. */
  lemma QueueHoldsItsBest(rows: seq<Proposal>, max: nat) returns (kept: seq<Proposal>)
    ensures multiset(rows) == multiset(kept) + multiset(CapOverflow(rows, max))
    ensures |kept| == if |rows| <= max then |rows| else max
    ensures forall k, r :: k in kept && r in CapOverflow(rows, max) ==> NotAfter(k, r)
  {
    hide NotAfter, Ranked;
    var all, over := Ranked(rows), CapOverflow(rows, max);
    RankedIsInOrder(rows);
    var n := if |rows| <= max then |rows| else max;
    kept := all[..n];
    assert over == all[n..] && all == kept + over;
    forall k, r | k in kept && r in over ensures NotAfter(k, r) {
      var i :| 0 <= i < n && kept[i] == k;
      var j :| 0 <= j < |over| && over[j] == r;
      assert all[i] == k && all[n + j] == r;
    }
  }
}
