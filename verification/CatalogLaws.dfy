/** What is proposed, accepted and kept for the catalogue, by the numbers and the titles themselves. */
module CatalogLaws {
  import opened Numbers
  import opened CatalogMatch
  import opened CatalogPlan

  /** Aliases start at 0.85 and lose two hundredths a rank, but never fall under 0.6; web titles have just that. */
  lemma ConfidenceIs(rank: nat)
    ensures AliasConfidence(rank) == if rank <= 12 then 0.85 - 0.02 * rank as real else 0.6
    ensures WEB_TITLE_CONFIDENCE == 0.6
  {
    var hundredths := (0.85 - rank as real * 0.02) * 100.0;
    assert hundredths == (85 - 2 * rank) as real;
    assert Round(hundredths) == 85 - 2 * rank;
  }

  /** Up to ten new titles are offered unless a caller asks otherwise. */
  lemma TenByDefault(w: Wording, titles: seq<Title>, known: set<Key>)
    ensures var all, offered := Fresh(w, titles, known), Capped(Fresh(w, titles, known), DEFAULT_ALIAS_CAP);
      |offered| == if |all| <= 10 then |all| else 10
  {
    hide Fresh;
  }

  /** The domain proposed with an alias is that of the first role with the matched id. */
  lemma {:induction false} DomainIs(roles: seq<Role>, id: RoleId)
    ensures DomainOf(roles, None).None?
    ensures DomainOf(roles, Some(id)).None? <==> forall r :: r in roles ==> r.id != id
    ensures DomainOf(roles, Some(id)).Some? ==> exists i ::
              IsFirstWith(roles, id, i) && DomainOf(roles, Some(id)) == Some(roles[i].domain)
  {
    if roles != [] {
      var n := |roles| - 1;
      assert roles == roles[..n] + [roles[n]];
      DomainIs(roles[..n], id);
      if DomainOf(roles[..n], Some(id)).Some? {
        var i :| IsFirstWith(roles[..n], id, i) && DomainOf(roles[..n], Some(id)) == Some(roles[..n][i].domain);
        assert IsFirstWith(roles, id, i);
      } else {
        forall k | 0 <= k < n ensures roles[k].id != id { assert roles[k] in roles[..n]; }
        assert roles[n].id == id ==> IsFirstWith(roles, id, n);
      }
    }
  }

  ghost predicate IsFirstWith(roles: seq<Role>, id: RoleId, i: int) {
    0 <= i < |roles| && roles[i].id == id && forall k :: 0 <= k < i ==> roles[k].id != id
  }

  // ----- which drafts are accepted -----

  /** A draft worth proposing: new words, an alias with its role, or a role with a domain that is sure enough. */
  predicate MayPropose(d: Draft, rules: Rules) {
    && !(d.key == EMPTY || rules.problem(d.title) || d.key in rules.known + rules.blocked)
    && (d.kind == NewAlias ==> d.target != None)
    && (d.kind == NewRole ==> d.domain != None && d.confidence >= rules.minConfidence)
  }

  /** A draft is accepted exactly if it may be proposed and no draft before it that may has its key. */
  lemma AcceptedExactly(drafts: seq<Draft>, rules: Rules, i: nat)
    requires i < |drafts|
    ensures var first := MayPropose(drafts[i], rules)
          && forall j :: 0 <= j < i && MayPropose(drafts[j], rules) ==> drafts[j].key != drafts[i].key;
      Accepted(drafts[..i + 1], rules) == Accepted(drafts[..i], rules) + if first then [drafts[i]] else []
  {
    hide Accepted, HasKey;
    forall d ensures Acceptable(d, rules) <==> MayPropose(d, rules) {}
    hide Acceptable, MayPropose;
    AcceptedNext(drafts, rules, i);
    EarlierKeys(drafts, rules, i);
  }

  /** The key is taken exactly if an earlier draft that was acceptable has it. */
  lemma EarlierKeys(drafts: seq<Draft>, rules: Rules, i: nat)
    requires i < |drafts|
    ensures HasKey(Accepted(drafts[..i], rules), drafts[i].key) <==>
            exists j :: 0 <= j < i && Acceptable(drafts[j], rules) && drafts[j].key == drafts[i].key
  {
    hide Acceptable, Accepted;
    var before := drafts[..i];
    AcceptedAreDistinctAndNew(before, rules);
    if HasKey(Accepted(before, rules), drafts[i].key) {
      var d :| d in Accepted(before, rules) && d.key == drafts[i].key;
      var j :| 0 <= j < i && before[j] == d;
      assert drafts[j] == d;
    }
    if j :| 0 <= j < i && Acceptable(drafts[j], rules) && drafts[j].key == drafts[i].key {
      assert before[j] == drafts[j] && before[j] in before;
    }
  }

  // ----- which proposals are kept -----

  /** What is kept is worth at least as much: aliases before roles, then the surer, then the older. */
  lemma KeptAreWorthMore(rows: seq<Proposal>, max: nat) returns (kept: seq<Proposal>)
    ensures multiset(rows) == multiset(kept) + multiset(CapOverflow(rows, max))
    ensures |kept| == if |rows| <= max then |rows| else max
    ensures forall k, r :: k in kept && r in CapOverflow(rows, max) ==>
              && (r.kind == NewAlias ==> k.kind == NewAlias)
              && (k.kind == r.kind ==> k.confidence >= r.confidence)
              && (k.kind == r.kind && k.confidence == r.confidence ==> k.createdAt <= r.createdAt)
  {
    hide CapOverflow;
    kept := QueueHoldsItsBest(rows, max);
  }
}
