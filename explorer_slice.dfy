/**
 * The World Explorer slice: the wonder list with its flags, the student's
 * exploration progress, the map filters and the achievement banner, each
 * reducer an in-place update of that state.
 */
module ExplorerSlice {
  import opened Wrappers
  import opened Seqs
  import opened ExplorerTypes

  datatype Mode = EXPLORER | QUIZ

  /** The number of wonders a fresh progress record counts toward. */
  const TotalWonders: int := 196

  /** `wonders.find(w => w.id === id)`, as an index. */
  function WonderIndex(wonders: seq<Wonder>, id: string): (i: int)
    ensures -1 <= i < |wonders|
    ensures i >= 0 ==> wonders[i].id == id && forall j :: 0 <= j < i ==> wonders[j].id != id
    ensures i == -1 <==> forall j :: 0 <= j < |wonders| ==> wonders[j].id != id
  {
    FirstIndex(wonders, (w: Wonder) => w.id == id)
  }

  /** Replacing a wonder by one with the same id moves no lookup. */
  lemma WonderIndexAfterUpdate(wonders: seq<Wonder>, i: int, w: Wonder, id: string)
    requires 0 <= i < |wonders| && w.id == wonders[i].id
    ensures WonderIndex(wonders[i := w], id) == WonderIndex(wonders, id)
  {
    var ws := wonders[i := w];
    assert forall j :: 0 <= j < |ws| ==> ws[j].id == wonders[j].id;
  }

  /** `badges.find(b => b.type === t)`, as an index. */
  function BadgeIndex(badges: seq<Badge>, t: BadgeType): (i: int)
    ensures -1 <= i < |badges|
    ensures i >= 0 ==> badges[i].badgeType == t && forall j :: 0 <= j < i ==> badges[j].badgeType != t
    ensures i == -1 <==> forall j :: 0 <= j < |badges| ==> badges[j].badgeType != t
  {
    FirstIndex(badges, (b: Badge) => b.badgeType == t)
  }

  /** `badges.some(b => b.type === t)`. */
  predicate HasBadge(badges: seq<Badge>, t: BadgeType)
  {
    exists j :: 0 <= j < |badges| && badges[j].badgeType == t
  }

  /** No badge type is held twice. */
  predicate UniqueBadgeTypes(badges: seq<Badge>)
  {
    forall i, j :: 0 <= i < j < |badges| ==> badges[i].badgeType != badges[j].badgeType
  }

  /** No two wonders share an id. */
  predicate UniqueWonderIds(wonders: seq<Wonder>)
  {
    forall i, j :: 0 <= i < j < |wonders| ==> wonders[i].id != wonders[j].id
  }

  /** Every wonder's id is among the favourites exactly when its flag is set (given progress). */
  predicate FavoritesInSync(wonders: seq<Wonder>, progress: Option<StudentProgress>)
  {
    progress.Some? ==>
      forall i :: 0 <= i < |wonders| ==> (wonders[i].id in progress.value.favorites <==> wonders[i].isFavorite)
  }

  /** The three parts of the state the badge-award loop of `visitWonder` updates. */
  datatype Award = Award(badges: seq<Badge>, latestBadge: Option<BadgeType>, showAchievement: bool)

  /** One turn of the award loop: a type not yet held is appended, brand new, and becomes the latest. */
  function AwardStep(a: Award, t: BadgeType, now: string): (r: Award)
  {
    if HasBadge(a.badges, t) then a
    else Award(a.badges + [Badge(t, now, true)], Some(t), true)
  }

  /** The award state after the loop has gone over `types`. */
  function Awarded(start: Award, types: seq<BadgeType>, now: string): (a: Award)
    ensures |a.badges| >= |start.badges| && a.badges[..|start.badges|] == start.badges
    decreases |types|
  {
    if types == [] then start
    else AwardStep(Awarded(start, types[..|types| - 1], now), types[|types| - 1], now)
  }

  /** After the loop every one of the wonder's badge types is held. */
  lemma {:induction false} AwardedCovers(start: Award, types: seq<BadgeType>, now: string)
    ensures forall i :: 0 <= i < |types| ==> HasBadge(Awarded(start, types, now).badges, types[i])
    decreases |types|
  {
    if types != [] {
      var init := types[..|types| - 1];
      var t := types[|types| - 1];
      AwardedCovers(start, init, now);
      var prev := Awarded(start, init, now);
      var a := Awarded(start, types, now);
      forall i | 0 <= i < |types| ensures HasBadge(a.badges, types[i]) {
        if i < |init| {
          assert init[i] == types[i];
          var j :| 0 <= j < |prev.badges| && prev.badges[j].badgeType == types[i];
          assert a.badges[j] == prev.badges[j];
        } else if !HasBadge(prev.badges, t) {
          assert a.badges[|prev.badges|].badgeType == types[i];
        }
      }
    }
  }

  /** A badge the loop may append: new, earned now, of one of the types, and not held at the start. */
  predicate FreshAward(b: Badge, held: seq<Badge>, types: seq<BadgeType>, now: string)
  {
    b.isNew && b.earnedAt == now && b.badgeType in types && !HasBadge(held, b.badgeType)
  }

  /** Each appended badge is new, earned now, of one of the types, and was not held before. */
  lemma {:induction false} AwardedFresh(start: Award, types: seq<BadgeType>, now: string, i: int)
    requires |start.badges| <= i < |Awarded(start, types, now).badges|
    ensures FreshAward(Awarded(start, types, now).badges[i], start.badges, types, now)
    decreases |types|
  {
    var init := types[..|types| - 1];
    var t := types[|types| - 1];
    var prev := Awarded(start, init, now);
    var a := Awarded(start, types, now);
    assert types == init + [t];
    assert a == AwardStep(prev, t, now);
    if i < |prev.badges| {
      AwardedFresh(start, init, now, i);
      assert a.badges[i] == prev.badges[i];
    } else {
      assert a.badges[i] == Badge(t, now, true);
    }
  }

  /** Held badge types stay unique. */
  lemma {:induction false} AwardedUnique(start: Award, types: seq<BadgeType>, now: string)
    requires UniqueBadgeTypes(start.badges)
    ensures UniqueBadgeTypes(Awarded(start, types, now).badges)
    decreases |types|
  {
    if types != [] {
      var init := types[..|types| - 1];
      var t := types[|types| - 1];
      AwardedUnique(start, init, now);
      var prev := Awarded(start, init, now);
      var a := Awarded(start, types, now);
      if !HasBadge(prev.badges, t) {
        forall i, j | 0 <= i < j < |a.badges| ensures a.badges[i].badgeType != a.badges[j].badgeType {
          if j == |prev.badges| {
            assert a.badges[i] == prev.badges[i];
          } else {
            assert a.badges[i] == prev.badges[i] && a.badges[j] == prev.badges[j];
          }
        }
      }
    }
  }

  /**
   * The latest badge is the last one appended and the banner shows once
   * something was appended; otherwise both keep their earlier values.
   */
  lemma {:induction false} AwardedLatest(start: Award, types: seq<BadgeType>, now: string)
    ensures var a := Awarded(start, types, now);
      && (|a.badges| == |start.badges| ==> a.latestBadge == start.latestBadge && a.showAchievement == start.showAchievement)
      && (|a.badges| > |start.badges| ==> a.latestBadge == Some(a.badges[|a.badges| - 1].badgeType) && a.showAchievement)
    decreases |types|
  {
    if types != [] {
      AwardedLatest(start, types[..|types| - 1], now);
    }
  }

  /** When every type is already held, the loop changes nothing. */
  lemma {:induction false} AwardedHeldNoop(start: Award, types: seq<BadgeType>, now: string)
    requires forall i :: 0 <= i < |types| ==> HasBadge(start.badges, types[i])
    ensures Awarded(start, types, now) == start
    decreases |types|
  {
    if types != [] {
      var init := types[..|types| - 1];
      assert forall i :: 0 <= i < |init| ==> init[i] == types[i];
      AwardedHeldNoop(start, init, now);
    }
  }

  /** Going over the same badge types a second time changes nothing. */
  lemma AwardedTwice(start: Award, types: seq<BadgeType>, now: string)
    ensures var a := Awarded(start, types, now);
            Awarded(a, types, now) == a
  {
    AwardedCovers(start, types, now);
    AwardedHeldNoop(Awarded(start, types, now), types, now);
  }

  /** The `forEach` over a wonder's badge types in `visitWonder`. */
  method AwardBadges(start: Award, types: seq<BadgeType>, now: string) returns (a: Award)
    ensures a == Awarded(start, types, now)
  {
    var badges, latest, show := start.badges, start.latestBadge, start.showAchievement;
    var k := 0;
    while k < |types|
      invariant 0 <= k <= |types|
      invariant Award(badges, latest, show) == Awarded(start, types[..k], now)
    {
      assert types[..k + 1][..k] == types[..k];
      var t := types[k];
      if !HasBadge(badges, t) {
        badges := badges + [Badge(t, now, true)];
        latest := Some(t);
        show := true;
      }
      k := k + 1;
    }
    assert types[..k] == types;
    a := Award(badges, latest, show);
  }

  datatype ExplorerSnapshot = ExplorerSnapshot(
    wonders: seq<Wonder>,
    selectedWonder: Option<Wonder>,
    studentProgress: Option<StudentProgress>,
    filterCategory: Option<WonderCategory>,
    filterContinent: Option<WonderContinent>,
    searchQuery: string,
    mode: Mode,
    showAchievement: bool,
    latestBadge: Option<BadgeType>)

  /** The state `visitWonder` leaves behind. */
  function Visited(st: ExplorerSnapshot, id: string, now: string): ExplorerSnapshot
  {
    var i := WonderIndex(st.wonders, id);
    if i == -1 || st.wonders[i].isVisited then st
    else
      var ws := st.wonders[i := st.wonders[i].(isVisited := true)];
      match st.studentProgress
      case None => st.(wonders := ws)
      case Some(p) =>
        var a := Awarded(Award(p.badges, st.latestBadge, st.showAchievement), st.wonders[i].badges, now);
        st.(wonders := ws,
            studentProgress := Some(p.(wondersVisited := p.wondersVisited + 1, badges := a.badges)),
            latestBadge := a.latestBadge, showAchievement := a.showAchievement)
  }

  /** An unknown or already visited wonder leaves the whole state as it was. */
  lemma VisitedNoop(st: ExplorerSnapshot, id: string, now: string)
    requires WonderIndex(st.wonders, id) == -1 || st.wonders[WonderIndex(st.wonders, id)].isVisited
    ensures Visited(st, id, now) == st
  {
  }

  /**
   * A first visit flips exactly that wonder's flag and touches nothing but the
   * wonders, the progress and the banner; without progress only the flag changes.
   */
  lemma VisitedFrame(st: ExplorerSnapshot, id: string, now: string)
    ensures var r := Visited(st, id, now);
      var i := WonderIndex(st.wonders, id);
      && |r.wonders| == |st.wonders|
      && (forall j :: 0 <= j < |st.wonders| && j != i ==> r.wonders[j] == st.wonders[j])
      && (i >= 0 ==> r.wonders[i] == st.wonders[i].(isVisited := true))
      && r == st.(wonders := r.wonders, studentProgress := r.studentProgress,
                  latestBadge := r.latestBadge, showAchievement := r.showAchievement)
      && (st.studentProgress.None? ==> r == st.(wonders := r.wonders))
  {
  }

  /** Visiting moves no lookup by id, and afterwards the visited wonder, if any, is flagged. */
  lemma VisitedLookups(st: ExplorerSnapshot, id: string, now: string, other: string)
    ensures WonderIndex(Visited(st, id, now).wonders, other) == WonderIndex(st.wonders, other)
    ensures var k := WonderIndex(Visited(st, id, now).wonders, id);
            k >= 0 ==> Visited(st, id, now).wonders[k].isVisited
  {
    var i := WonderIndex(st.wonders, id);
    if i >= 0 && !st.wonders[i].isVisited {
      WonderIndexAfterUpdate(st.wonders, i, st.wonders[i].(isVisited := true), other);
      WonderIndexAfterUpdate(st.wonders, i, st.wonders[i].(isVisited := true), id);
    }
  }

  /**
   * On a first visit with progress the count rises by exactly one, the held
   * badges are kept in order and every badge type of the wonder is now held;
   * the other progress fields do not change.
   */
  lemma VisitedProgress(st: ExplorerSnapshot, id: string, now: string)
    requires st.studentProgress.Some?
    ensures var r := Visited(st, id, now);
      var p := st.studentProgress.value;
      var i := WonderIndex(st.wonders, id);
      && r.studentProgress.Some?
      && (i == -1 || st.wonders[i].isVisited ==> r.studentProgress == st.studentProgress)
      && (i >= 0 && !st.wonders[i].isVisited ==>
            var q := r.studentProgress.value;
            && q == p.(wondersVisited := p.wondersVisited + 1, badges := q.badges)
            && |q.badges| >= |p.badges| && q.badges[..|p.badges|] == p.badges
            && forall t :: t in st.wonders[i].badges ==> HasBadge(q.badges, t))
  {
    var i := WonderIndex(st.wonders, id);
    if i >= 0 && !st.wonders[i].isVisited {
      var p := st.studentProgress.value;
      var types := st.wonders[i].badges;
      AwardedCovers(Award(p.badges, st.latestBadge, st.showAchievement), types, now);
    }
  }

  /** Visiting never gives a student the same badge type twice. */
  lemma VisitedKeepsBadgesUnique(st: ExplorerSnapshot, id: string, now: string)
    ensures Visited(st, id, now).studentProgress.Some? <==> st.studentProgress.Some?
    ensures st.studentProgress.Some? && UniqueBadgeTypes(st.studentProgress.value.badges)
            ==> UniqueBadgeTypes(Visited(st, id, now).studentProgress.value.badges)
  {
    var i := WonderIndex(st.wonders, id);
    if i >= 0 && !st.wonders[i].isVisited && st.studentProgress.Some? {
      var p := st.studentProgress.value;
      if UniqueBadgeTypes(p.badges) {
        AwardedUnique(Award(p.badges, st.latestBadge, st.showAchievement), st.wonders[i].badges, now);
      }
    }
  }

  /** A second visit to the same wonder changes nothing, whatever the time. */
  lemma VisitedIdempotent(st: ExplorerSnapshot, id: string, now: string, later: string)
    ensures Visited(Visited(st, id, now), id, later) == Visited(st, id, now)
  {
    VisitedLookups(st, id, now, id);
    VisitedNoop(Visited(st, id, now), id, later);
  }

  class ExplorerState {
    var wonders: seq<Wonder>
    var selectedWonder: Option<Wonder>
    var studentProgress: Option<StudentProgress>
    var filterCategory: Option<WonderCategory>
    var filterContinent: Option<WonderContinent>
    var searchQuery: string
    var mode: Mode
    var showAchievement: bool
    var latestBadge: Option<BadgeType>

    function State(): ExplorerSnapshot
      reads this
    {
      ExplorerSnapshot(wonders, selectedWonder, studentProgress, filterCategory, filterContinent,
                       searchQuery, mode, showAchievement, latestBadge)
    }

    /** Held badges never repeat a type. */
    predicate BadgesUnique()
      reads this
    {
      studentProgress.Some? ==> UniqueBadgeTypes(studentProgress.value.badges)
    }

    /** `initialState`: the wonder catalogue, nothing selected or filtered, no progress yet. */
    constructor (wondersData: seq<Wonder>)
      ensures State() == ExplorerSnapshot(wondersData, None, None, None, None, "", EXPLORER, false, None)
    {
      wonders := wondersData;
      selectedWonder, studentProgress := None, None;
      filterCategory, filterContinent, searchQuery := None, None, "";
      mode, showAchievement, latestBadge := EXPLORER, false, None;
    }

    /** `selectWonder`: the first wonder with that id, or nothing. */
    method SelectWonder(id: string)
      modifies this
      ensures var i := WonderIndex(old(wonders), id);
              State() == old(State()).(selectedWonder := if i == -1 then None else Some(old(wonders)[i]))
      ensures selectedWonder.Some? ==> selectedWonder.value.id == id
    {
      var i := WonderIndex(wonders, id);
      selectedWonder := if i == -1 then None else Some(wonders[i]);
    }

    /** `clearSelectedWonder`. */
    method ClearSelectedWonder()
      modifies this
      ensures State() == old(State()).(selectedWonder := None)
    {
      selectedWonder := None;
    }

    /**
     * `visitWonder`: an unknown or already visited wonder changes nothing.
     * Otherwise the wonder becomes visited and, when progress exists, the
     * count rises by one and the wonder's badges not yet held are awarded.
     */
    method VisitWonder(id: string, now: string)
      modifies this
      ensures State() == Visited(old(State()), id, now)
      ensures old(BadgesUnique()) ==> BadgesUnique()
    {
      VisitedKeepsBadgesUnique(State(), id, now);
      var i := WonderIndex(wonders, id);
      if i == -1 || wonders[i].isVisited {
        return;
      }
      var wonder := wonders[i];
      wonders := wonders[i := wonder.(isVisited := true)];
      if studentProgress.Some? {
        var p := studentProgress.value;
        var a := AwardBadges(Award(p.badges, latestBadge, showAchievement), wonder.badges, now);
        studentProgress := Some(p.(wondersVisited := p.wondersVisited + 1, badges := a.badges));
        latestBadge, showAchievement := a.latestBadge, a.showAchievement;
      }
    }

    /**
     * `toggleFavorite`: the wonder's flag flips; with progress, becoming a
     * favourite appends the id and leaving removes every occurrence of it.
     * With unique ids this keeps the favourites in sync with the flags.
     */
    method ToggleFavorite(id: string)
      modifies this
      ensures var i := WonderIndex(old(wonders), id);
              i == -1 ==> State() == old(State())
      ensures var i := WonderIndex(old(wonders), id);
        i >= 0 ==>
          var w := old(wonders)[i].(isFavorite := !old(wonders)[i].isFavorite);
          && wonders == old(wonders)[i := w]
          && State() == old(State()).(wonders := wonders, studentProgress := studentProgress)
          && (old(studentProgress).None? ==> studentProgress.None?)
          && (old(studentProgress).Some? ==>
                var p := old(studentProgress).value;
                studentProgress == Some(p.(favorites := if w.isFavorite then p.favorites + [id]
                                                        else Filter(p.favorites, (f: string) => f != id))))
      ensures UniqueWonderIds(old(wonders)) && FavoritesInSync(old(wonders), old(studentProgress))
              ==> FavoritesInSync(wonders, studentProgress)
    {
      var i := WonderIndex(wonders, id);
      if i == -1 {
        return;
      }
      var w := wonders[i].(isFavorite := !wonders[i].isFavorite);
      wonders := wonders[i := w];
      if studentProgress.Some? {
        var p := studentProgress.value;
        var favorites := if w.isFavorite then p.favorites + [id] else Filter(p.favorites, (f: string) => f != id);
        FilterMembership(p.favorites, id);
        studentProgress := Some(p.(favorites := favorites));
      }
    }

    /** `setFilterCategory`. */
    method SetFilterCategory(category: Option<WonderCategory>)
      modifies this
      ensures State() == old(State()).(filterCategory := category)
    {
      filterCategory := category;
    }

    /** `setFilterContinent`. */
    method SetFilterContinent(continent: Option<WonderContinent>)
      modifies this
      ensures State() == old(State()).(filterContinent := continent)
    {
      filterContinent := continent;
    }

    /** `setSearchQuery`. */
    method SetSearchQuery(query: string)
      modifies this
      ensures State() == old(State()).(searchQuery := query)
    {
      searchQuery := query;
    }

    /** `setMode`. */
    method SetMode(m: Mode)
      modifies this
      ensures State() == old(State()).(mode := m)
    {
      mode := m;
    }

    /** `initializeProgress`: a fresh record, nothing visited or earned, out of 196 wonders. */
    method InitializeProgress(studentId: string)
      modifies this
      ensures State() == old(State()).(studentProgress := Some(StudentProgress(studentId, 0, TotalWonders, [], [], 0, 0)))
      ensures BadgesUnique()
    {
      studentProgress := Some(StudentProgress(studentId, 0, TotalWonders, [], [], 0, 0));
    }

    /**
     * `hideAchievement`: the banner closes, the latest badge is forgotten, and
     * the first held badge of that type stops being new.
     */
    method HideAchievement()
      modifies this
      ensures !showAchievement && latestBadge.None?
      ensures old(latestBadge).None? || old(studentProgress).None? ||
              BadgeIndex(old(studentProgress).value.badges, old(latestBadge).value) == -1
              ==> State() == old(State()).(showAchievement := false, latestBadge := None)
      ensures old(latestBadge).Some? && old(studentProgress).Some? ==>
        var p := old(studentProgress).value;
        var k := BadgeIndex(p.badges, old(latestBadge).value);
        k >= 0 ==> State() == old(State()).(showAchievement := false, latestBadge := None,
                                            studentProgress := Some(p.(badges := p.badges[k := p.badges[k].(isNew := false)])))
      ensures old(BadgesUnique()) ==> BadgesUnique()
    {
      showAchievement := false;
      if latestBadge.Some? && studentProgress.Some? {
        var p := studentProgress.value;
        var k := BadgeIndex(p.badges, latestBadge.value);
        if k != -1 {
          studentProgress := Some(p.(badges := p.badges[k := p.badges[k].(isNew := false)]));
        }
      }
      latestBadge := None;
    }

    /** `unlockNextWonder`: only the first locked wonder in list order is unlocked, if any. */
    method UnlockNextWonder()
      modifies this
      ensures var i := FirstIndex(old(wonders), (w: Wonder) => !w.isUnlocked);
        && (i == -1 ==> State() == old(State()))
        && (i >= 0 ==> State() == old(State()).(wonders := old(wonders)[i := old(wonders)[i].(isUnlocked := true)]))
      ensures (forall j :: 0 <= j < |old(wonders)| ==> old(wonders)[j].isUnlocked) ==> State() == old(State())
    {
      var i := FirstIndex(wonders, (w: Wonder) => !w.isUnlocked);
      if i != -1 {
        wonders := wonders[i := wonders[i].(isUnlocked := true)];
      }
    }
  }

  /** An id is kept by `filter(f => f !== id)` exactly when it differs from `id` and was present. */
  lemma FilterMembership(favorites: seq<string>, id: string)
    ensures forall x :: x in Filter(favorites, (f: string) => f != id) <==> x in favorites && x != id
  {
    var r := Filter(favorites, (f: string) => f != id);
    forall x | x in r ensures x in favorites && x != id {
      var k :| 0 <= k < |r| && r[k] == x;
    }
    forall x | x in favorites && x != id ensures x in r {
      var k :| 0 <= k < |favorites| && favorites[k] == x;
    }
  }
}
