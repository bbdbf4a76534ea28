/** Matching outside occupations against the catalogue by title. */
module CatalogMatch {
  import opened Numbers

  type Title = nat
  type Key = nat
  type RoleId = nat

  /** The normalised form of a title that has nothing in it. */
  const EMPTY: Key := 0

  datatype Role = Role(id: RoleId, title: Title, domain: nat, aliases: seq<Title>)

  datatype Candidate = Candidate(title: Title, alternates: seq<Title>)

  /** `normalise` gives a title's key; `tidy` collapses the white space in it. */
  datatype Wording = Wording(normalise: Title -> Key, tidy: Title -> Title)

  datatype Index = Index(byTitle: map<Key, seq<Role>>, known: set<Key>, roles: seq<Role>)

  const DEFAULT_ALIAS_CAP := 10

  // ----- what the index says of a title -----

  /** The role has the key as its title's or as an alias's. */
  predicate Carries(w: Wording, role: Role, key: Key) {
    key != EMPTY && (w.normalise(role.title) == key || exists a :: a in role.aliases && w.normalise(a) == key)
  }

  predicate HasId(roles: seq<Role>, id: RoleId) { exists r :: r in roles && r.id == id }

  /** A role joins a list unless one with its id is there. */
  function With(roles: seq<Role>, role: Role): seq<Role> {
    if HasId(roles, role.id) then roles else roles + [role]
  }

  /** The roles of a catalogue that carry a key, in the catalogue's order. */
  function Carriers(w: Wording, roles: seq<Role>, key: Key): seq<Role> {
    if roles == [] then []
    else
      var before, role := Carriers(w, roles[..|roles| - 1], key), roles[|roles| - 1];
      if Carries(w, role, key) then With(before, role) else before
  }

  function Lookup(byTitle: map<Key, seq<Role>>, key: Key): seq<Role> {
    if key in byTitle then byTitle[key] else []
  }

  /** The index gives each key exactly the roles that carry it, and knows exactly the keys some role carries. */
  ghost predicate IsIndex(w: Wording, index: Index) {
    && (forall key :: Lookup(index.byTitle, key) == Carriers(w, index.roles, key))
    && (forall key :: key in index.known <==> exists r :: r in index.roles && Carries(w, r, key))
  }

  ghost predicate DistinctIds(roles: seq<Role>) {
    forall i, j :: 0 <= i < j < |roles| ==> roles[i].id != roles[j].id
  }

  // ----- building it -----

  /** The role is filed under its title and the first n of its aliases. */
  predicate FiledUnder(w: Wording, role: Role, n: nat, key: Key)
    requires n <= |role.aliases|
  {
    key != EMPTY && (w.normalise(role.title) == key || exists a :: 0 <= a < n && w.normalise(role.aliases[a]) == key)
  }

  function CarriersAfter(w: Wording, roles: seq<Role>, role: Role, n: nat, key: Key): seq<Role>
    requires n <= |role.aliases|
  {
    if FiledUnder(w, role, n, key) then With(Carriers(w, roles, key), role) else Carriers(w, roles, key)
  }

  ghost predicate Filed(w: Wording, byTitle: map<Key, seq<Role>>, roles: seq<Role>, role: Role, n: nat)
    requires n <= |role.aliases|
  {
    && (forall key :: Lookup(byTitle, key) == CarriersAfter(w, roles, role, n, key))
    && (forall key :: key in byTitle ==> byTitle[key] != [])
  }

  ghost predicate FiledAll(w: Wording, byTitle: map<Key, seq<Role>>, roles: seq<Role>) {
    && (forall key :: Lookup(byTitle, key) == Carriers(w, roles, key))
    && (forall key :: key in byTitle ==> byTitle[key] != [])
  }

  method Add(byTitle: map<Key, seq<Role>>, key: Key, role: Role) returns (next: map<Key, seq<Role>>)
    ensures key == EMPTY ==> next == byTitle
    ensures key != EMPTY ==> Lookup(next, key) == With(Lookup(byTitle, key), role)
    ensures key != EMPTY ==> forall k :: k != key ==> Lookup(next, k) == Lookup(byTitle, k)
    ensures (forall k :: k in byTitle ==> byTitle[k] != []) ==> forall k :: k in next ==> next[k] != []
  {
    if key == EMPTY { return byTitle; }
    var current := if key in byTitle then byTitle[key] else [];
    if HasId(current, role.id) { return byTitle; }
    next := byTitle[key := current + [role]];
  }

  method BuildCatalogIndex(w: Wording, roles: seq<Role>) returns (index: Index)
    ensures IsIndex(w, index) && index.roles == roles
  {
    var byTitle: map<Key, seq<Role>> := map[];
    for i := 0 to |roles|
      invariant FiledAll(w, byTitle, roles[..i])
    {
      hide Carriers, FiledAll;
      var role := roles[i];
      ghost var before := byTitle;
      byTitle := Add(byTitle, w.normalise(role.title), role);
      FiledFirst(w, before, byTitle, roles[..i], role);
      for a := 0 to |role.aliases|
        invariant Filed(w, byTitle, roles[..i], role, a)
      {
        hide Filed;
        ghost var was := byTitle;
        byTitle := Add(byTitle, w.normalise(role.aliases[a]), role);
        FiledNext(w, was, byTitle, roles[..i], role, a);
      }
      FiledRole(w, byTitle, roles, i);
    }
    assert roles[..|roles|] == roles;
    index := Index(byTitle, byTitle.Keys, roles);
    KnownIsCarried(w, byTitle, roles);
  }

  /** What Add leaves behind it. */
  ghost predicate Added(byTitle: map<Key, seq<Role>>, key: Key, role: Role, next: map<Key, seq<Role>>) {
    && (key == EMPTY ==> next == byTitle)
    && (key != EMPTY ==> Lookup(next, key) == With(Lookup(byTitle, key), role))
    && (key != EMPTY ==> forall k :: k != key ==> Lookup(next, k) == Lookup(byTitle, k))
    && ((forall k :: k in byTitle ==> byTitle[k] != []) ==> forall k :: k in next ==> next[k] != [])
  }

  lemma WithTwice(roles: seq<Role>, role: Role)
    ensures With(With(roles, role), role) == With(roles, role)
  {
    assert HasId(With(roles, role), role.id) by {
      if !HasId(roles, role.id) { assert (roles + [role])[|roles|] == role; }
    }
  }

  lemma FiledFirst(w: Wording, before: map<Key, seq<Role>>, after: map<Key, seq<Role>>, roles: seq<Role>, role: Role)
    requires FiledAll(w, before, roles) && Added(before, w.normalise(role.title), role, after)
    ensures Filed(w, after, roles, role, 0)
  {
    hide Carriers, With;
  }

  lemma FiledNext(w: Wording, before: map<Key, seq<Role>>, after: map<Key, seq<Role>>, roles: seq<Role>, role: Role,
                  n: nat)
    requires n < |role.aliases| && Filed(w, before, roles, role, n)
    requires Added(before, w.normalise(role.aliases[n]), role, after)
    ensures Filed(w, after, roles, role, n + 1)
  {
    hide Carriers, With;
    var key := w.normalise(role.aliases[n]);
    WithTwice(Carriers(w, roles, key), role);
    forall k ensures FiledUnder(w, role, n + 1, k) <==> FiledUnder(w, role, n, k) || (k == key && k != EMPTY) {
      FiledUnderNext(w, role, n, k);
    }
  }

  lemma FiledUnderNext(w: Wording, role: Role, n: nat, k: Key)
    requires n < |role.aliases|
    ensures FiledUnder(w, role, n + 1, k) <==>
            FiledUnder(w, role, n, k) || (k == w.normalise(role.aliases[n]) && k != EMPTY)
  {
  }

  lemma FiledRole(w: Wording, byTitle: map<Key, seq<Role>>, roles: seq<Role>, i: nat)
    requires i < |roles| && Filed(w, byTitle, roles[..i], roles[i], |roles[i].aliases|)
    ensures FiledAll(w, byTitle, roles[..i + 1])
  {
    hide With;
    assert roles[..i + 1][..i] == roles[..i];
    forall key ensures Carries(w, roles[i], key) <==> FiledUnder(w, roles[i], |roles[i].aliases|, key) {
    }
  }

  lemma {:induction false} CarriersAre(w: Wording, roles: seq<Role>, key: Key)
    ensures forall r :: r in Carriers(w, roles, key) ==> r in roles && Carries(w, r, key)
    ensures forall r :: r in roles && Carries(w, r, key) ==> HasId(Carriers(w, roles, key), r.id)
  {
    hide Carries;
    if roles != [] {
      var n := |roles| - 1;
      CarriersAre(w, roles[..n], key);
      assert roles == roles[..n] + [roles[n]];
      WithKeeps(Carriers(w, roles[..n], key), roles[n]);
    }
  }

  lemma WithKeeps(roles: seq<Role>, role: Role)
    ensures HasId(With(roles, role), role.id)
    ensures forall id :: HasId(roles, id) ==> HasId(With(roles, role), id)
  {
    if !HasId(roles, role.id) {
      assert (roles + [role])[|roles|] == role;
      forall id | HasId(roles, id) ensures HasId(roles + [role], id) {
        var r :| r in roles && r.id == id;
        assert r in roles + [role];
      }
    }
  }

  lemma KnownIsCarried(w: Wording, byTitle: map<Key, seq<Role>>, roles: seq<Role>)
    requires FiledAll(w, byTitle, roles)
    ensures forall key :: key in byTitle <==> exists r :: r in roles && Carries(w, r, key)
  {
    hide Carries, Carriers;
    forall key ensures key in byTitle <==> exists r :: r in roles && Carries(w, r, key) {
      CarriersAre(w, roles, key);
      if key in byTitle {
        assert Lookup(byTitle, key)[0] in Carriers(w, roles, key);
      }
    }
  }

  lemma {:induction false} CarriersAreDistinct(w: Wording, roles: seq<Role>, key: Key)
    ensures DistinctIds(Carriers(w, roles, key))
  {
    hide Carries;
    if roles != [] { CarriersAreDistinct(w, roles[..|roles| - 1], key); }
  }

  // ----- the roles a list of titles points at -----

  ghost predicate IsFrom(lists: seq<seq<Role>>, r: Role) { exists l :: l in lists && r in l }

  /** Every role of the lists, once by id. */
  ghost predicate AreDistinctRoles(lists: seq<seq<Role>>, out: seq<Role>) {
    && DistinctIds(out)
    && (forall r :: r in out ==> IsFrom(lists, r))
    && (forall r :: IsFrom(lists, r) ==> HasId(out, r.id))
  }

  /** The roles of the first i lists and the first j of the next, once by id. */
  ghost predicate Joined(lists: seq<seq<Role>>, i: nat, j: nat, out: seq<Role>)
    requires i < |lists| && j <= |lists[i]|
  {
    && DistinctIds(out)
    && (forall r :: r in out ==> IsFrom(lists[..i + 1], r))
    && (forall r :: IsFrom(lists[..i], r) ==> HasId(out, r.id))
    && (forall k :: 0 <= k < j ==> HasId(out, lists[i][k].id))
  }

  method DistinctRoles(lists: seq<seq<Role>>) returns (out: seq<Role>)
    ensures AreDistinctRoles(lists, out)
  {
    out := [];
    for i := 0 to |lists|
      invariant AreDistinctRoles(lists[..i], out)
    {
      hide AreDistinctRoles;
      JoinsStart(lists, i, out);
      for j := 0 to |lists[i]|
        invariant Joined(lists, i, j, out)
      {
        hide Joined;
        JoinsNext(lists, i, j, out);
        if !HasId(out, lists[i][j].id) { out := out + [lists[i][j]]; }
      }
      JoinsEnd(lists, i, out);
    }
    assert lists[..|lists|] == lists;
  }

  lemma FromNext(lists: seq<seq<Role>>, i: nat, r: Role)
    requires i < |lists|
    ensures IsFrom(lists[..i + 1], r) <==> IsFrom(lists[..i], r) || r in lists[i]
  {
    assert lists[..i + 1] == lists[..i] + [lists[i]];
    if IsFrom(lists[..i], r) {
      var l :| l in lists[..i] && r in l;
      assert l in lists[..i + 1];
    }
    assert lists[i] in lists[..i + 1];
  }

  lemma JoinsStart(lists: seq<seq<Role>>, i: nat, out: seq<Role>)
    requires i < |lists| && AreDistinctRoles(lists[..i], out)
    ensures Joined(lists, i, 0, out)
  {
    forall r | r in out ensures IsFrom(lists[..i + 1], r) { FromNext(lists, i, r); }
  }

  lemma JoinsNext(lists: seq<seq<Role>>, i: nat, j: nat, out: seq<Role>)
    requires i < |lists| && j < |lists[i]| && Joined(lists, i, j, out)
    ensures Joined(lists, i, j + 1, With(out, lists[i][j]))
  {
    FromNext(lists, i, lists[i][j]);
    WithKeeps(out, lists[i][j]);
  }

  lemma JoinsEnd(lists: seq<seq<Role>>, i: nat, out: seq<Role>)
    requires i < |lists| && Joined(lists, i, |lists[i]|, out)
    ensures AreDistinctRoles(lists[..i + 1], out)
  {
    forall r | IsFrom(lists[..i + 1], r) ensures HasId(out, r.id) {
      FromNext(lists, i, r);
      if r in lists[i] {
        var k :| 0 <= k < |lists[i]| && lists[i][k] == r;
      }
    }
  }

  // ----- matching -----

  datatype Match = Unmatched | Matched(role: Option<RoleId>, aliasTitles: seq<Title>)

  /** The roles of the catalogue that carry a key, by id: a direct scan. */
  ghost function Owners(w: Wording, roles: seq<Role>, key: Key): set<RoleId> {
    set r | r in roles && Carries(w, r, key) :: r.id
  }

  ghost predicate CarriesAny(w: Wording, r: Role, titles: seq<Title>) {
    exists t :: t in titles && Carries(w, r, w.normalise(t))
  }

  ghost function OwnersOfAny(w: Wording, roles: seq<Role>, titles: seq<Title>): set<RoleId> {
    set r | r in roles && CarriesAny(w, r, titles) :: r.id
  }

  /** The role an occupation belongs to: the only owner of its title, or, if none owns it, of its alternates. */
  ghost function Target(w: Wording, roles: seq<Role>, c: Candidate): Option<set<RoleId>> {
    var own, others := Owners(w, roles, w.normalise(c.title)), OwnersOfAny(w, roles, c.alternates);
    if own != {} then Some(own) else if others != {} then Some(others) else None
  }

  lemma IdsAreOwners(w: Wording, roles: seq<Role>, key: Key)
    ensures forall id :: HasId(Carriers(w, roles, key), id) <==> id in Owners(w, roles, key)
  {
    hide Carriers, Carries;
    CarriersAre(w, roles, key);
  }

  lemma IdsAreOwnersOfAny(w: Wording, roles: seq<Role>, titles: seq<Title>, lists: seq<seq<Role>>, out: seq<Role>)
    requires |lists| == |titles|
    requires forall i :: 0 <= i < |titles| ==> lists[i] == Carriers(w, roles, w.normalise(titles[i]))
    requires AreDistinctRoles(lists, out)
    ensures forall id :: HasId(out, id) <==> id in OwnersOfAny(w, roles, titles)
  {
    hide Carriers, Carries;
    forall id ensures HasId(out, id) <==> id in OwnersOfAny(w, roles, titles) {
      if HasId(out, id) {
        var r :| r in out && r.id == id;
        var l :| l in lists && r in l;
        var i :| 0 <= i < |lists| && lists[i] == l;
        CarriersAre(w, roles, w.normalise(titles[i]));
        assert titles[i] in titles;
        assert CarriesAny(w, r, titles);
      }
      if id in OwnersOfAny(w, roles, titles) {
        var r :| r in roles && CarriesAny(w, r, titles) && r.id == id;
        var t :| t in titles && Carries(w, r, w.normalise(t));
        var i :| 0 <= i < |titles| && titles[i] == t;
        CarriersAre(w, roles, w.normalise(t));
        var other :| other in lists[i] && other.id == id;
        assert lists[i] in lists && IsFrom(lists, other);
      }
    }
  }

  ghost predicate Several(ids: set<RoleId>) { exists a, b :: a in ids && b in ids && a != b }

  /** A list without repeated ids names as many ids as it is long. */
  ghost predicate Names(list: seq<Role>, ids: set<RoleId>) {
    && (list == [] <==> ids == {})
    && (|list| == 1 ==> ids == {list[0].id})
    && (|list| > 1 ==> Several(ids))
  }

  lemma NamesIts(list: seq<Role>, ids: set<RoleId>)
    requires DistinctIds(list) && forall id :: HasId(list, id) <==> id in ids
    ensures Names(list, ids)
  {
    if list != [] {
      assert HasId(list, list[0].id);
      assert list[0].id in ids;
    } else {
      forall id ensures id !in ids { assert !HasId(list, id); }
    }
    if |list| == 1 {
      forall id | id in ids ensures id == list[0].id { assert HasId(list, id); }
    }
    if |list| > 1 {
      assert list[0] in list && list[1] in list;
      assert HasId(list, list[0].id) && HasId(list, list[1].id);
      assert list[0].id in ids && list[1].id in ids && list[0].id != list[1].id;
    }
  }

  // ----- the titles offered as aliases -----

  /** The tidied titles whose keys are new: not empty, not known, and not the key of an earlier one. */
  function Fresh(w: Wording, titles: seq<Title>, known: set<Key>): seq<Title> {
    if titles == [] then []
    else
      var before, title := Fresh(w, titles[..|titles| - 1], known), w.tidy(titles[|titles| - 1]);
      if IsNew(w, title, known) && !IsAmong(w, before, w.normalise(title)) then before + [title] else before
  }

  predicate IsNew(w: Wording, title: Title, known: set<Key>) {
    w.normalise(title) != EMPTY && w.normalise(title) !in known
  }

  predicate IsAmong(w: Wording, titles: seq<Title>, key: Key) { exists t :: t in titles && w.normalise(t) == key }

  /** As many as the cap allows; even a cap of none lets the first through. */
  function Capped(titles: seq<Title>, cap: int): seq<Title> {
    var limit := if cap < 1 then 1 else cap;
    if |titles| <= limit then titles else titles[..limit]
  }

  /** New, distinct by key, and complete: every title is empty, known, or covered. */
  lemma {:induction false} FreshAreNewAndDistinct(w: Wording, titles: seq<Title>, known: set<Key>)
    ensures forall t :: t in Fresh(w, titles, known) ==> IsNew(w, t, known)
    ensures DistinctKeys(w, Fresh(w, titles, known))
    ensures forall t :: t in titles && IsNew(w, w.tidy(t), known) ==>
            IsAmong(w, Fresh(w, titles, known), w.normalise(w.tidy(t)))
  {
    if titles != [] {
      hide IsNew;
      var n := |titles| - 1;
      var before, title, all := Fresh(w, titles[..n], known), w.tidy(titles[n]), Fresh(w, titles, known);
      FreshAreNewAndDistinct(w, titles[..n], known);
      assert titles == titles[..n] + [titles[n]];
      AmongLonger(w, before, title);
      if all != before { DistinctLonger(w, before, title); }
    }
  }

  ghost predicate DistinctKeys(w: Wording, titles: seq<Title>) {
    forall i, j :: 0 <= i < j < |titles| ==> w.normalise(titles[i]) != w.normalise(titles[j])
  }

  /** The titles offered are new, distinct by key and within a cap of at least one, and only the cap leaves any out. */
  lemma OffersAreNewAndWithinCap(w: Wording, titles: seq<Title>, known: set<Key>, cap: int)
    ensures var all, offered := Fresh(w, titles, known), Capped(Fresh(w, titles, known), cap);
      && DistinctKeys(w, offered) && (forall t :: t in offered ==> IsNew(w, t, known))
      && |offered| <= (if cap < 1 then 1 else cap) && offered <= all
      && (|offered| < cap ==> offered == all)
  {
    hide Fresh;
    FreshAreNewAndDistinct(w, titles, known);
  }

  lemma DistinctLonger(w: Wording, titles: seq<Title>, t: Title)
    requires DistinctKeys(w, titles) && !IsAmong(w, titles, w.normalise(t))
    ensures DistinctKeys(w, titles + [t])
  {
    forall i | 0 <= i < |titles| ensures w.normalise(titles[i]) != w.normalise(t) {
      assert titles[i] in titles;
    }
  }

  lemma AmongLonger(w: Wording, titles: seq<Title>, t: Title)
    ensures IsAmong(w, titles + [t], w.normalise(t))
    ensures forall k :: IsAmong(w, titles, k) ==> IsAmong(w, titles + [t], k)
  {
    assert (titles + [t])[|titles|] == t;
    forall k | IsAmong(w, titles, k) ensures IsAmong(w, titles + [t], k) {
      var u :| u in titles && w.normalise(u) == k;
      assert u in titles + [t];
    }
  }

  lemma {:induction false} FreshPrefix(w: Wording, titles: seq<Title>, known: set<Key>, i: nat)
    requires i <= |titles|
    ensures Fresh(w, titles[..i], known) <= Fresh(w, titles, known)
    decreases |titles|
  {
    hide IsNew, IsAmong;
    if i == |titles| {
      assert titles[..i] == titles;
    } else {
      var n := |titles| - 1;
      FreshPrefix(w, titles[..n], known, i);
      assert titles[..n][..i] == titles[..i];
    }
  }

  lemma FreshNext(w: Wording, titles: seq<Title>, known: set<Key>, i: nat)
    requires i < |titles|
    ensures var before, title := Fresh(w, titles[..i], known), w.tidy(titles[i]);
      Fresh(w, titles[..i + 1], known) ==
      if IsNew(w, title, known) && !IsAmong(w, before, w.normalise(title)) then before + [title] else before
  {
    assert titles[..i + 1][..i] == titles[..i];
  }

  ghost predicate Seen(w: Wording, seen: set<Key>, out: seq<Title>) { forall k :: k in seen <==> IsAmong(w, out, k) }

  method UnknownTitles(w: Wording, titles: seq<Title>, known: set<Key>, cap: int) returns (out: seq<Title>)
    ensures out == Capped(Fresh(w, titles, known), cap)
  {
    var seen: set<Key> := {};
    out := [];
    for i := 0 to |titles|
      invariant out == Fresh(w, titles[..i], known) && Seen(w, seen, out)
      invariant out == [] || |out| < cap
    {
      hide Fresh, Seen;
      var title := w.tidy(titles[i]);
      var key := w.normalise(title);
      FreshNext(w, titles, known, i);
      SeenNext(w, seen, out, title);
      if key != EMPTY && key !in seen && key !in known {
        seen := seen + {key};
        out := out + [title];
        FreshPrefix(w, titles, known, i + 1);
        if |out| >= cap { return; }
      }
    }
    assert titles[..|titles|] == titles;
  }

  lemma SeenNext(w: Wording, seen: set<Key>, out: seq<Title>, title: Title)
    requires Seen(w, seen, out)
    ensures w.normalise(title) in seen <==> IsAmong(w, out, w.normalise(title))
    ensures Seen(w, seen + {w.normalise(title)}, out + [title])
  {
    AmongLonger(w, out, title);
    forall k | IsAmong(w, out + [title], k) ensures k in seen + {w.normalise(title)} {
      var t :| t in out + [title] && w.normalise(t) == k;
      if t in out { assert IsAmong(w, out, k); }
    }
  }

  // ----- the match itself -----

  /** The outcome a direct scan of the catalogue gives: no owner, one owner, or several. */
  ghost predicate MatchesScan(w: Wording, roles: seq<Role>, c: Candidate, known: set<Key>, cap: int, m: Match) {
    var target := Target(w, roles, c);
    match m
    case Unmatched => target == None
    case Matched(Some(id), offered) =>
      target == Some({id}) && offered == Capped(Fresh(w, [c.title] + c.alternates, known), cap)
    case Matched(None, offered) =>
      offered == [] && target.Some? && Several(target.value)
  }

  /** The hits that decide: the title's if it has any, else the alternates'. */
  ghost function Deciding(own: set<RoleId>, others: set<RoleId>): set<RoleId> { if own != {} then own else others }

  /** The one role the deciding hits name; none when they name nobody, or several. */
  method TargetRole(titleHits: seq<Role>, alternateHits: seq<Role>, ghost own: set<RoleId>, ghost others: set<RoleId>)
    returns (target: Option<Role>)
    requires Names(titleHits, own) && Names(alternateHits, others)
    ensures target.Some? ==> Deciding(own, others) == {target.value.id}
    ensures target.None? ==> Deciding(own, others) == {} || Several(Deciding(own, others))
  {
    hide Several;
    if |titleHits| > 0 { return if |titleHits| == 1 then Some(titleHits[0]) else None; }
    return if |alternateHits| == 1 then Some(alternateHits[0]) else None;
  }

  method MatchOccupation(w: Wording, c: Candidate, index: Index, aliasCap: Option<int>) returns (m: Match)
    requires IsIndex(w, index)
    ensures MatchesScan(w, index.roles, c, index.known, if aliasCap.Some? then aliasCap.value else DEFAULT_ALIAS_CAP, m)
  {
    hide Several, Carriers, Names, Owners, OwnersOfAny, Fresh, Capped, DistinctIds, HasId, Lookup;
    var key := w.normalise(c.title);
    var titleHits := Lookup(index.byTitle, key);
    var lists := seq(|c.alternates|,
      i requires 0 <= i < |c.alternates| => Lookup(index.byTitle, w.normalise(c.alternates[i])));
    var alternateHits := DistinctRoles(lists);
    HitsAreOwners(w, index, c, titleHits, lists, alternateHits);
    if titleHits == [] && alternateHits == [] {
      NamesMean(alternateHits, OwnersOfAny(w, index.roles, c.alternates));
      NamesMean(titleHits, Owners(w, index.roles, key));
      return Unmatched;
    }
    var target := TargetRole(titleHits, alternateHits, Owners(w, index.roles, key),
      OwnersOfAny(w, index.roles, c.alternates));
    NamesMean(titleHits, Owners(w, index.roles, key));
    NamesMean(alternateHits, OwnersOfAny(w, index.roles, c.alternates));
    if target.None? { return Matched(None, []); }
    var offered := UnknownTitles(w, [c.title] + c.alternates, index.known,
      if aliasCap.Some? then aliasCap.value else DEFAULT_ALIAS_CAP);
    return Matched(Some(target.value.id), offered);
  }

  lemma NamesMean(list: seq<Role>, ids: set<RoleId>)
    requires Names(list, ids)
    ensures list == [] <==> ids == {}
    ensures |list| == 1 ==> ids == {list[0].id}
    ensures |list| > 1 ==> Several(ids)
  {
  }

  lemma HitsAreOwners(w: Wording, index: Index, c: Candidate, titleHits: seq<Role>, lists: seq<seq<Role>>,
                      alternateHits: seq<Role>)
    requires IsIndex(w, index) && titleHits == Lookup(index.byTitle, w.normalise(c.title))
    requires |lists| == |c.alternates|
    requires forall i :: 0 <= i < |lists| ==> lists[i] == Lookup(index.byTitle, w.normalise(c.alternates[i]))
    requires AreDistinctRoles(lists, alternateHits)
    ensures Names(titleHits, Owners(w, index.roles, w.normalise(c.title)))
    ensures Names(alternateHits, OwnersOfAny(w, index.roles, c.alternates))
  {
    hide Carriers, Names, Owners, OwnersOfAny, Lookup, IsFrom, HasId, Carries;
    var key := w.normalise(c.title);
    CarriersAreDistinct(w, index.roles, key);
    IdsAreOwners(w, index.roles, key);
    NamesIts(titleHits, Owners(w, index.roles, key));
    IdsAreOwnersOfAny(w, index.roles, c.alternates, lists, alternateHits);
    NamesIts(alternateHits, OwnersOfAny(w, index.roles, c.alternates));
  }
}
