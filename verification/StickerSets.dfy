/** Saving edited sticker sets (`saveStickerSets`).

    One call removes sets, reinstalls archived ones, rewrites the order and prunes the recent pack, then holds
    back the reorder request until every install and uninstall request of the call is answered.  The functions
    say what becomes of each set, of the order and of the recent pack; the class is the program. */
module StickerSets {
  import opened Collections

  datatype SetId = SetId(value: nat)
  datatype Doc = Doc(id: int)

  const CUSTOM: SetId := SetId(0xFFFF_FFFF_FFFF_FFFF)
  const CLOUD_RECENT: SetId := SetId(0xFFFF_FFFF_FFFF_FFFC)
  const CLOUD_RECENT_ATTACHED: SetId := SetId(0xFFFF_FFFF_FFFF_FFF9)

  /** Data::StickersType. */
  datatype Kind = Stickers | Masks | Emoji

  /** Data::StickersSet, as far as saving reads or writes it. */
  datatype StickersSet = StickersSet(
    installed: bool, archived: bool, masks: bool, featured: bool, special: bool, emoji: bool,
    locked: int, installDate: int, stickers: seq<Doc>)

  type Sets = map<SetId, StickersSet>

  datatype Recent = Recent(doc: Doc, weight: int)

  function KindOf(s: StickersSet): Kind { if s.emoji then Emoji else if s.masks then Masks else Stickers }

  predicate IsCloud(id: SetId) { id == CLOUD_RECENT || id == CLOUD_RECENT_ATTACHED }

  predicate ClearsRecent(removed: seq<SetId>) { exists k :: 0 <= k < |removed| && IsCloud(removed[k]) }

  /** The sets that go together with the cloud recent stickers. */
  predicate GoesWithRecent(id: SetId) { IsCloud(id) || id == CUSTOM }

  // ---------------------------------------------------------------- what becomes of one set

  /** A removed set stays, uninstalled, when something else still needs it. */
  predicate Needed(s: StickersSet) { s.featured || s.special || s.emoji || s.locked > 0 }

  function Stripped(s: StickersSet): StickersSet { s.(installed := false, archived := false, installDate := 0) }

  /** After the removals. */
  function AfterRemoval(removed: seq<SetId>, id: SetId, s: StickersSet): Option<StickersSet> {
    if ClearsRecent(removed) && GoesWithRecent(id) then None
    else if id in removed && !s.archived then (if Needed(s) then Some(Stripped(s)) else None)
    else Some(s)
  }

  /** After clearing the installed flags of this kind. */
  function AfterClearing(kind: Kind, s: StickersSet): StickersSet {
    if !s.archived && KindOf(s) == kind then s.(installed := false) else s
  }

  /** After the pass over the new order. */
  function AfterOrdering(order: seq<SetId>, removed: seq<SetId>, now: int, id: SetId, s: StickersSet): StickersSet {
    if id !in order then s
    else s.(archived := s.archived && id in removed, installed := true,
            installDate := if s.installDate == 0 then now else s.installDate)
  }

  /** Some reason to keep a set in memory. */
  predicate HasReason(s: StickersSet) {
    s.featured || s.installed || s.archived || s.special || s.emoji || s.locked > 0
  }

  datatype Save = Save(order: seq<SetId>, removed: seq<SetId>, kind: Kind, now: int)

  /** What the whole call makes of a set. */
  function Final(save: Save, id: SetId, s: StickersSet): Option<StickersSet> {
    match AfterRemoval(save.removed, id, s)
    case None => None
    case Some(a) =>
      var r := AfterOrdering(save.order, save.removed, save.now, id, AfterClearing(save.kind, a));
      if HasReason(r) then Some(r) else None
  }

  function Removed(sets: Sets, removed: seq<SetId>): Sets {
    map id | id in sets && AfterRemoval(removed, id, sets[id]).Some? :: AfterRemoval(removed, id, sets[id]).value
  }

  function FinalSets(save: Save, sets: Sets): Sets {
    map id | id in sets && Final(save, id, sets[id]).Some? :: Final(save, id, sets[id]).value
  }

  /** The new order: the given one, restricted to these sets. */
  function Restrict(order: seq<SetId>, sets: set<SetId>): (r: seq<SetId>)
    ensures forall id :: id in r <==> id in order && id in sets
  {
    if order == [] then []
    else
      var r := Restrict(order[..|order| - 1], sets);
      assert order == order[..|order| - 1] + [order[|order| - 1]];
      if order[|order| - 1] in sets then r + [order[|order| - 1]] else r
  }

  // ---------------------------------------------------------------- the promises

  /** Every set in the new order survives, so the order is the given one restricted to surviving sets. */
  lemma OrderIsRestricted(save: Save, sets: Sets)
    ensures Restrict(save.order, Removed(sets, save.removed).Keys) == Restrict(save.order, FinalSets(save, sets).Keys)
  {
    SameRestriction(save.order, Removed(sets, save.removed).Keys, FinalSets(save, sets).Keys);
  }

  lemma {:induction false} SameRestriction(order: seq<SetId>, a: set<SetId>, b: set<SetId>)
    requires forall id :: id in order ==> (id in a <==> id in b)
    ensures Restrict(order, a) == Restrict(order, b)
  {
    if order != [] {
      assert forall id :: id in order[..|order| - 1] ==> id in order;
      SameRestriction(order[..|order| - 1], a, b);
    }
  }

  /** Every set in the new order is installed, at a date that is not zero. */
  lemma OrderedSetsAreInstalled(save: Save, sets: Sets, id: SetId)
    requires save.now != 0 && id in Restrict(save.order, FinalSets(save, sets).Keys)
    ensures id in FinalSets(save, sets) && FinalSets(save, sets)[id].installed && FinalSets(save, sets)[id].installDate != 0
  {
    assert id in FinalSets(save, sets).Keys;
  }

  /** Among the sets of the saved kind that are not archived, exactly those in the order are installed. */
  lemma InstalledIffOrdered(save: Save, sets: Sets, id: SetId)
    requires id in FinalSets(save, sets) && !FinalSets(save, sets)[id].archived && KindOf(FinalSets(save, sets)[id]) == save.kind
    ensures FinalSets(save, sets)[id].installed <==> id in Restrict(save.order, FinalSets(save, sets).Keys)
  {
    assert id in FinalSets(save, sets).Keys;
  }

  /** No set survives without a reason. */
  lemma SurvivorsHaveReasons(save: Save, sets: Sets, id: SetId)
    requires id in FinalSets(save, sets)
    ensures HasReason(FinalSets(save, sets)[id]) && id in sets
    ensures FinalSets(save, sets)[id].stickers == sets[id].stickers && KindOf(FinalSets(save, sets)[id]) == KindOf(sets[id])
  {
  }

  /** A set of another kind that is in neither list is left alone, unless it had no reason to be there. */
  lemma OtherSetsUnchanged(save: Save, sets: Sets, id: SetId)
    requires id in sets && id !in save.order && id !in save.removed && KindOf(sets[id]) != save.kind
    requires !(ClearsRecent(save.removed) && GoesWithRecent(id))
    ensures HasReason(sets[id]) ==> id in FinalSets(save, sets) && FinalSets(save, sets)[id] == sets[id]
    ensures !HasReason(sets[id]) ==> id !in FinalSets(save, sets)
  {
  }

  // ---------------------------------------------------------------- the recent pack

  function Without(recent: seq<Recent>, docs: set<Doc>): (r: seq<Recent>)
    ensures forall x :: x in r <==> x in recent && x.doc !in docs
  {
    if recent == [] then []
    else
      var r := Without(recent[..|recent| - 1], docs);
      assert recent == recent[..|recent| - 1] + [recent[|recent| - 1]];
      if recent[|recent| - 1].doc in docs then r else r + [recent[|recent| - 1]]
  }

  function DocsOf(s: StickersSet): set<Doc> { set d | d in s.stickers }

  /** All stickers of the removed sets. */
  function RemovedDocs(sets: Sets, removed: seq<SetId>): set<Doc> {
    if removed == [] then {}
    else
      var id := removed[|removed| - 1];
      RemovedDocs(sets, removed[..|removed| - 1]) + (if id in sets && !IsCloud(id) then DocsOf(sets[id]) else {})
  }

  function NewRecent(recent: seq<Recent>, sets: Sets, removed: seq<SetId>): seq<Recent> {
    if ClearsRecent(removed) then [] else Without(recent, RemovedDocs(sets, removed))
  }

  /** No sticker of a removed set stays in the recent pack. */
  lemma {:induction false} RemovedLeaveRecent(recent: seq<Recent>, sets: Sets, removed: seq<SetId>, id: SetId, x: Recent)
    requires id in removed && id in sets && x in NewRecent(recent, sets, removed)
    ensures x.doc !in sets[id].stickers && x in recent
  {
    DocsCollected(sets, removed, id);
  }

  lemma {:induction false} DocsCollected(sets: Sets, removed: seq<SetId>, id: SetId)
    requires id in removed && id in sets && !ClearsRecent(removed)
    ensures DocsOf(sets[id]) <= RemovedDocs(sets, removed)
  {
    var n := |removed| - 1;
    if removed[n] == id {
      assert !IsCloud(id);
    } else {
      assert removed == removed[..n] + [removed[n]];
      DocsCollected(sets, removed[..n], id);
    }
  }

  lemma {:induction false} WithoutTwice(recent: seq<Recent>, a: set<Doc>, b: set<Doc>)
    ensures Without(Without(recent, a), b) == Without(recent, a + b)
  {
    if recent != [] {
      var n := |recent| - 1;
      WithoutTwice(recent[..n], a, b);
      var r := Without(recent[..n], a);
      assert (r + [recent[n]])[..|r|] == r;
    }
  }

  // ---------------------------------------------------------------- the same in the fields themselves

  /** The cloud recent stickers are removed, and this set goes with them. */
  predicate Swallowed(removed: seq<SetId>, id: SetId) {
    && (SetId(0xFFFF_FFFF_FFFF_FFFC) in removed || SetId(0xFFFF_FFFF_FFFF_FFF9) in removed)
    && (id.value == 0xFFFF_FFFF_FFFF_FFFC || id.value == 0xFFFF_FFFF_FFFF_FFF9 || id.value == 0xFFFF_FFFF_FFFF_FFFF)
  }

  lemma SwallowedIs(removed: seq<SetId>, id: SetId)
    ensures Swallowed(removed, id) <==> ClearsRecent(removed) && GoesWithRecent(id)
  {
    assert ClearsRecent(removed) <==> CLOUD_RECENT in removed || CLOUD_RECENT_ATTACHED in removed;
  }

  /** Every field of every set after the call, and exactly which sets are gone. */
  lemma WhatBecomesOfASet(save: Save, sets: Sets, id: SetId)
    requires id in sets
    ensures var s := sets[id];
            var taken := id in save.removed && !s.archived;
            var kind := if s.emoji then Emoji else if s.masks then Masks else Stickers;
            var installed := id in save.order || (s.installed && !taken && (s.archived || kind != save.kind));
            var archived := s.archived && (id in save.removed || id !in save.order);
            var date := if taken then 0 else s.installDate;
            var needed := s.featured || s.special || s.emoji || s.locked > 0;
            && (id in FinalSets(save, sets) <==>
                  !Swallowed(save.removed, id) && (needed || (!taken && (installed || archived))))
            && (id in FinalSets(save, sets) ==>
                  FinalSets(save, sets)[id] == s.(installed := installed, archived := archived,
                    installDate := if date == 0 && id in save.order then save.now else date))
  {
    SwallowedIs(save.removed, id);
    hide ClearsRecent, GoesWithRecent, Swallowed;
  }

  /** An archived set outside the order stays exactly as it is, removed or not. */
  lemma ArchivedSetsStay(save: Save, sets: Sets, id: SetId)
    requires id in sets && sets[id].archived && id !in save.order && !Swallowed(save.removed, id)
    ensures id in FinalSets(save, sets) && FinalSets(save, sets)[id] == sets[id]
  {
    hide Swallowed, FinalSets;
    WhatBecomesOfASet(save, sets, id);
  }

  /** A featured, special, emoji or locked set stays, removed or not, and what keeps it does not change. */
  lemma NeededSetsStay(save: Save, sets: Sets, id: SetId)
    requires id in sets && (sets[id].featured || sets[id].special || sets[id].emoji || sets[id].locked > 0)
    requires !Swallowed(save.removed, id)
    ensures id in FinalSets(save, sets)
    ensures var s, r := sets[id], FinalSets(save, sets)[id];
            r.featured == s.featured && r.special == s.special && r.emoji == s.emoji && r.locked == s.locked
            && r.masks == s.masks && r.stickers == s.stickers
  {
    hide Swallowed, FinalSets;
    WhatBecomesOfASet(save, sets, id);
  }

  /** An install date once given stays, unless the set is uninstalled. */
  lemma DatesAreKept(save: Save, sets: Sets, id: SetId)
    requires id in FinalSets(save, sets) && id in sets && sets[id].installDate != 0
    requires id in save.removed ==> sets[id].archived
    ensures FinalSets(save, sets)[id].installDate == sets[id].installDate
  {
    hide Swallowed, FinalSets;
    WhatBecomesOfASet(save, sets, id);
  }

  /** A set that nothing needs and that is neither installed, ordered nor archived is dropped. */
  lemma UselessSetsGo(save: Save, sets: Sets, id: SetId)
    requires id in sets && id !in save.order && !sets[id].archived
    requires !(sets[id].featured || sets[id].special || sets[id].emoji || sets[id].locked > 0)
    requires id in save.removed || !sets[id].installed
    ensures id !in FinalSets(save, sets)
  {
    hide Swallowed, FinalSets;
    WhatBecomesOfASet(save, sets, id);
  }

  /** The new order has the ids of the given one that are in the set, as often as given and in the same order. */
  lemma {:induction false} RestrictPicks(order: seq<SetId>, sets: set<SetId>)
    ensures Picks(Restrict(order, sets), order, (id: SetId) => id in sets)
  {
    var keep := (id: SetId) => id in sets;
    if order == [] {
      PicksNothing(keep);
    } else {
      var n := |order| - 1;
      RestrictPicks(order[..n], sets);
      PicksMore(Restrict(order[..n], sets), order[..n], keep, order[n]);
      assert order == order[..n] + [order[n]];
    }
  }

  /** The recent pack keeps, in order, exactly the entries whose sticker is in no removed set; it is emptied with the
      cloud recent stickers. */
  lemma RecentPicks(recent: seq<Recent>, sets: Sets, removed: seq<SetId>)
    ensures SetId(0xFFFF_FFFF_FFFF_FFFC) in removed || SetId(0xFFFF_FFFF_FFFF_FFF9) in removed ==>
              NewRecent(recent, sets, removed) == []
    ensures SetId(0xFFFF_FFFF_FFFF_FFFC) !in removed && SetId(0xFFFF_FFFF_FFFF_FFF9) !in removed ==>
              Picks(NewRecent(recent, sets, removed), recent,
                    (x: Recent) => forall id :: id in removed && id in sets ==> x.doc !in sets[id].stickers)
  {
    assert ClearsRecent(removed) <==> CLOUD_RECENT in removed || CLOUD_RECENT_ATTACHED in removed;
    if !ClearsRecent(removed) {
      var docs := RemovedDocs(sets, removed);
      WithoutPicks(recent, docs);
      forall x | x in recent
        ensures x.doc !in docs <==> forall id :: id in removed && id in sets ==> x.doc !in sets[id].stickers
      {
        DocsAreRemoved(sets, removed, x.doc);
      }
      PicksSame(Without(recent, docs), recent, (x: Recent) => x.doc !in docs,
                (x: Recent) => forall id :: id in removed && id in sets ==> x.doc !in sets[id].stickers);
    }
  }

  lemma {:induction false} WithoutPicks(recent: seq<Recent>, docs: set<Doc>)
    ensures Picks(Without(recent, docs), recent, (x: Recent) => x.doc !in docs)
  {
    var keep := (x: Recent) => x.doc !in docs;
    if recent == [] {
      PicksNothing(keep);
    } else {
      var n := |recent| - 1;
      WithoutPicks(recent[..n], docs);
      PicksMore(Without(recent[..n], docs), recent[..n], keep, recent[n]);
      assert recent == recent[..n] + [recent[n]];
    }
  }

  lemma {:induction false} DocsAreRemoved(sets: Sets, removed: seq<SetId>, doc: Doc)
    requires !ClearsRecent(removed)
    ensures doc in RemovedDocs(sets, removed) <==> exists id :: id in removed && id in sets && doc in sets[id].stickers
  {
    if removed != [] {
      var n := |removed| - 1;
      assert removed == removed[..n] + [removed[n]] && !IsCloud(removed[n]);
      assert !ClearsRecent(removed[..n]) by { assert forall k :: 0 <= k < n ==> removed[..n][k] == removed[k]; }
      DocsAreRemoved(sets, removed[..n], doc);
      assert removed[n] in removed;
      assert forall id :: id in removed <==> id in removed[..n] || id == removed[n];
    }
  }

  // ---------------------------------------------------------------- the passes

  function Cleared(kind: Kind, sets: Sets): Sets {
    map id | id in sets :: AfterClearing(kind, sets[id])
  }

  function Ordered(order: seq<SetId>, removed: seq<SetId>, now: int, sets: Sets): Sets {
    map id | id in sets :: AfterOrdering(order, removed, now, id, sets[id])
  }

  function Swept(sets: Sets): Sets {
    map id | id in sets && HasReason(sets[id]) :: sets[id]
  }

  /** The four passes together make of each set what `Final` says. */
  lemma PassesMakeFinal(save: Save, sets: Sets)
    ensures Swept(Ordered(save.order, save.removed, save.now, Cleared(save.kind, Removed(sets, save.removed))))
            == FinalSets(save, sets)
  {
  }

  lemma RemovalStarts(sets: Sets, recent: seq<Recent>)
    ensures Removed(sets, []) == sets && NewRecent(recent, sets, []) == recent
  {
    NothingWithout(recent);
  }

  lemma {:induction false} NothingWithout(recent: seq<Recent>)
    ensures Without(recent, {}) == recent
  {
    if recent != [] { NothingWithout(recent[..|recent| - 1]); }
  }

  lemma MoreRemoved(removed: seq<SetId>, id: SetId)
    ensures ClearsRecent(removed + [id]) <==> ClearsRecent(removed) || IsCloud(id)
  {
    assert forall k :: 0 <= k < |removed| ==> (removed + [id])[k] == removed[k];
    assert (removed + [id])[|removed|] == id;
  }

  /** Removing the cloud recent stickers. */
  lemma RemovalOfRecent(sets: Sets, recent: seq<Recent>, removed: seq<SetId>, id: SetId)
    requires IsCloud(id)
    ensures Removed(sets, removed + [id]) == Removed(sets, removed) - {CLOUD_RECENT, CLOUD_RECENT_ATTACHED, CUSTOM}
    ensures NewRecent(recent, sets, removed + [id]) == []
  {
    MoreRemoved(removed, id);
    hide ClearsRecent;
  }

  /** Removing a set that is found. */
  lemma RemovalOfFound(sets: Sets, removed: seq<SetId>, id: SetId)
    requires !IsCloud(id) && id in Removed(sets, removed)
    ensures var before := Removed(sets, removed);
            Removed(sets, removed + [id]) ==
              if before[id].archived then before
              else if Needed(before[id]) then before[id := Stripped(before[id])] else before - {id}
  {
    MoreRemoved(removed, id);
    hide ClearsRecent, GoesWithRecent;
    assert AfterRemoval(removed + [id], id, sets[id]) ==
      (if sets[id].archived then Some(sets[id]) else if Needed(sets[id]) then Some(Stripped(sets[id])) else None);
    forall other | other in sets && other != id
      ensures AfterRemoval(removed + [id], other, sets[other]) == AfterRemoval(removed, other, sets[other])
    {
      assert other in removed + [id] <==> other in removed;
    }
    hide AfterRemoval;
  }

  lemma RecentOfFound(sets: Sets, recent: seq<Recent>, removed: seq<SetId>, id: SetId)
    requires !IsCloud(id) && id in Removed(sets, removed)
    ensures NewRecent(recent, sets, removed + [id])
         == Without(NewRecent(recent, sets, removed), DocsOf(Removed(sets, removed)[id]))
  {
    MoreRemoved(removed, id);
    hide ClearsRecent;
    assert (removed + [id])[..|removed|] == removed;
    WithoutTwice(recent, RemovedDocs(sets, removed), DocsOf(sets[id]));
  }

  /** Removing a set that is not there (any more). */
  lemma RemovalOfMissing(sets: Sets, recent: seq<Recent>, removed: seq<SetId>, id: SetId)
    requires !IsCloud(id) && id !in Removed(sets, removed)
    ensures Removed(sets, removed + [id]) == Removed(sets, removed)
    ensures NewRecent(recent, sets, removed + [id]) == NewRecent(recent, sets, removed)
  {
    MoreRemoved(removed, id);
    assert (removed + [id])[..|removed|] == removed;
    if !ClearsRecent(removed) {
      if id in sets {
        DocsCollected(sets, removed, id);
      }
      assert RemovedDocs(sets, removed + [id]) == RemovedDocs(sets, removed);
    }
  }

  // ---------------------------------------------------------------- what the server is asked

  datatype Ask = Install(id: SetId) | Uninstall(id: SetId)

  /** The uninstall requests: every removed set that is there at its turn and not archived. */
  function Uninstalls(sets: Sets, removed: seq<SetId>): seq<Ask> {
    if removed == [] then []
    else
      var n := |removed| - 1;
      var before := Removed(sets, removed[..n]);
      Uninstalls(sets, removed[..n])
        + if !IsCloud(removed[n]) && removed[n] in before && !before[removed[n]].archived then [Uninstall(removed[n])] else []
  }

  /** The install requests: every archived set that the order takes back, once. */
  function Installs(sets: Sets, order: seq<SetId>, removed: seq<SetId>): seq<Ask> {
    if order == [] then []
    else
      var n := |order| - 1;
      Installs(sets, order[..n], removed)
        + if order[n] in sets && sets[order[n]].archived && order[n] !in removed && order[n] !in order[..n]
          then [Install(order[n])] else []
  }

  /** The requests of one save. */
  function Asks(save: Save, sets: Sets): seq<Ask> {
    Uninstalls(sets, save.removed) + Installs(Cleared(save.kind, Removed(sets, save.removed)), save.order, save.removed)
  }

  /** The set is still there when its turn to be removed comes: the cloud recent stickers were not removed before. */
  predicate Reached(removed: seq<SetId>, id: SetId) {
    !IsCloud(id) && exists k :: 0 <= k < |removed| && removed[k] == id && !(GoesWithRecent(id) && ClearsRecent(removed[..k]))
  }

  /** The server is asked to uninstall exactly the removed sets that are here, not archived, and still there at
      their turn. */
  lemma {:induction false} UninstallsAreRemovals(sets: Sets, removed: seq<SetId>, id: SetId)
    ensures Uninstall(id) in Uninstalls(sets, removed) <==> id in sets && !sets[id].archived && Reached(removed, id)
    ensures Install(id) !in Uninstalls(sets, removed)
  {
    if removed != [] {
      var n := |removed| - 1;
      UninstallsAreRemovals(sets, removed[..n], id);
      ReachedMore(removed, id);
      if id in removed[..n] && !IsCloud(id) && !(GoesWithRecent(id) && ClearsRecent(removed[..n])) {
        RemovedIsReached(removed[..n], id);
      }
    }
  }

  /** For a set of its own it is enough to be removed; the custom set must come before the cloud recent ones. */
  lemma ReachedMeans(removed: seq<SetId>, id: SetId)
    ensures id.value == 0xFFFF_FFFF_FFFF_FFFC || id.value == 0xFFFF_FFFF_FFFF_FFF9 ==> !Reached(removed, id)
    ensures id.value < 0xFFFF_FFFF_FFFF_FFF9 ==> (Reached(removed, id) <==> id in removed)
    ensures id.value == 0xFFFF_FFFF_FFFF_FFFF ==>
              (Reached(removed, id) <==>
                 exists k :: 0 <= k < |removed| && removed[k] == id
                             && SetId(0xFFFF_FFFF_FFFF_FFFC) !in removed[..k] && SetId(0xFFFF_FFFF_FFFF_FFF9) !in removed[..k])
  {
    assert id == SetId(id.value);
    assert forall k :: 0 <= k <= |removed| ==>
             (ClearsRecent(removed[..k]) <==> CLOUD_RECENT in removed[..k] || CLOUD_RECENT_ATTACHED in removed[..k]);
  }

  lemma ReachedMore(removed: seq<SetId>, id: SetId)
    requires removed != []
    ensures var before := removed[..|removed| - 1];
            Reached(removed, id) <==>
              Reached(before, id)
              || (!IsCloud(id) && removed[|removed| - 1] == id && !(GoesWithRecent(id) && ClearsRecent(before)))
  {
    hide ClearsRecent, GoesWithRecent, IsCloud;
    var n := |removed| - 1;
    assert forall k :: 0 <= k < n ==> removed[..n][k] == removed[k] && removed[..n][..k] == removed[..k];
    if Reached(removed[..n], id) {
      var k :| 0 <= k < n && removed[..n][k] == id && !(GoesWithRecent(id) && ClearsRecent(removed[..n][..k]));
      assert removed[k] == id && !(GoesWithRecent(id) && ClearsRecent(removed[..k]));
    }
    if Reached(removed, id) {
      var k :| 0 <= k < |removed| && removed[k] == id && !(GoesWithRecent(id) && ClearsRecent(removed[..k]));
      if k < n {
        assert removed[..n][k] == id && !(GoesWithRecent(id) && ClearsRecent(removed[..n][..k]));
      }
    }
  }

  /** A removed set was reached unless it went with the cloud recent stickers. */
  lemma RemovedIsReached(removed: seq<SetId>, id: SetId)
    requires id in removed && !IsCloud(id) && !(GoesWithRecent(id) && ClearsRecent(removed))
    ensures Reached(removed, id)
  {
    var k :| 0 <= k < |removed| && removed[k] == id;
    assert forall m :: 0 <= m < k ==> removed[..k][m] == removed[m];
  }

  /** The server is asked to install exactly the archived sets that the order brings back, each once. */
  lemma {:induction false} InstallsAreReturns(sets: Sets, order: seq<SetId>, removed: seq<SetId>, id: SetId)
    ensures Install(id) in Installs(sets, order, removed) <==> id in order && id !in removed && id in sets && sets[id].archived
    ensures Uninstall(id) !in Installs(sets, order, removed)
  {
    if order != [] {
      var n := |order| - 1;
      InstallsAreReturns(sets, order[..n], removed, id);
      assert order == order[..n] + [order[n]];
    }
  }

  /** Each of them once. */
  lemma {:induction false} InstallsOnce(sets: Sets, order: seq<SetId>, removed: seq<SetId>, id: SetId)
    ensures multiset(Installs(sets, order, removed))[Install(id)] <= 1
  {
    if order != [] {
      var n := |order| - 1;
      var before, now := Installs(sets, order[..n], removed), Installs(sets, order, removed);
      assert now == before || (now == before + [Install(order[n])] && order[n] !in order[..n]);
      InstallsOnce(sets, order[..n], removed, id);
      InstallsAreReturns(sets, order[..n], removed, id);
      hide Installs;
      assert order[n] == id && now != before ==> multiset(before)[Install(id)] == 0;
    }
  }

  /** The requests of one save in terms of the sets before it. */
  lemma AsksMean(save: Save, sets: Sets, id: SetId)
    ensures Install(id) in Asks(save, sets) <==>
              id in save.order && id !in save.removed && id in sets && sets[id].archived && !Swallowed(save.removed, id)
    ensures Uninstall(id) in Asks(save, sets) <==> id in sets && !sets[id].archived && Reached(save.removed, id)
  {
    UninstallsAreRemovals(sets, save.removed, id);
    InstallsAreReturns(Cleared(save.kind, Removed(sets, save.removed)), save.order, save.removed, id);
    SwallowedIs(save.removed, id);
    hide Uninstalls, Installs, ClearsRecent, Reached, Swallowed;
  }

  /** No set is both installed and uninstalled by one save.  A set the server installs ends installed; a set the
      server uninstalls ends installed all the same exactly when it is also in the order and something keeps it. */
  lemma AskedSetsEndAsAsked(save: Save, sets: Sets, id: SetId)
    ensures !(Install(id) in Asks(save, sets) && Uninstall(id) in Asks(save, sets))
    ensures Install(id) in Asks(save, sets) ==>
              id in FinalSets(save, sets) && FinalSets(save, sets)[id].installed && !FinalSets(save, sets)[id].archived
    ensures Uninstall(id) in Asks(save, sets) ==>
              id in sets
              && (id in FinalSets(save, sets) && FinalSets(save, sets)[id].installed <==>
                    id in save.order && Needed(sets[id]) && !(ClearsRecent(save.removed) && GoesWithRecent(id)))
  {
    hide Uninstalls, Installs, ClearsRecent;
    UninstallsAreRemovals(sets, save.removed, id);
    InstallsAreReturns(Cleared(save.kind, Removed(sets, save.removed)), save.order, save.removed, id);
    assert Reached(save.removed, id) ==> id in save.removed;
  }

  /** The lists of the sticker box are disjoint; then every set the server uninstalls ends uninstalled. */
  lemma DisjointListsAgree(save: Save, sets: Sets, id: SetId)
    requires forall i :: i in save.order ==> i !in save.removed
    ensures Uninstall(id) in Asks(save, sets) ==>
              id in save.removed && !(id in FinalSets(save, sets) && FinalSets(save, sets)[id].installed)
  {
    AskedSetsEndAsAsked(save, sets, id);
    UninstallsAreRemovals(sets, save.removed, id);
    InstallsAreReturns(Cleared(save.kind, Removed(sets, save.removed)), save.order, save.removed, id);
    assert Reached(save.removed, id) ==> id in save.removed;
  }

  /** With other lists it need not: a featured set in both lists is uninstalled on the server and stays installed here. */
  lemma SetInBothLists(kind: Kind)
    ensures var id := SetId(1);
            var sets := map[id := StickersSet(true, false, kind == Masks, true, false, kind == Emoji, 0, 5, [])];
            var save := Save([id], [id], kind, 7);
            Uninstall(id) in Asks(save, sets) && id in FinalSets(save, sets) && FinalSets(save, sets)[id].installed
  {
    var id := SetId(1);
    var sets := map[id := StickersSet(true, false, kind == Masks, true, false, kind == Emoji, 0, 5, [])];
    var save := Save([id], [id], kind, 7);
    UninstallsAreRemovals(sets, [id], id);
    assert [id][0] == id && !ClearsRecent([id]);
    AskedSetsEndAsAsked(save, sets, id);
  }

  // ---------------------------------------------------------------- the reorder barrier

  datatype ReqId = ReqId(value: nat)

  /** A request with what its handler captured. */
  datatype Sent =
    | Change(kind: Kind, ask: Ask, order: seq<SetId>)
    | Reorder(kind: Kind, order: seq<SetId>)
    | ClearRecent(attached: bool)

  /** The history of the barriers: a save starts, asks for a change, a change is answered, a reorder is sent. */
  datatype Event =
    | Saved(kind: Kind, order: seq<SetId>)
    | Asked(kind: Kind, id: ReqId, ask: Ask)
    | Answered(kind: Kind, id: ReqId)
    | Reordered(kind: Kind, order: seq<SetId>)

  /** The latest save of one kind, as the history tells it. */
  datatype Watch = Watch(order: seq<SetId>, pending: map<ReqId, Ask>, asked: seq<Ask>, issued: bool)

  function Step(w: Watch, e: Event): Watch {
    match e
    case Saved(_, order) => Watch(order, map[], [], false)
    case Asked(_, id, ask) => Watch(w.order, w.pending[id := ask], w.asked + [ask], w.issued)
    case Answered(_, id) => Watch(w.order, w.pending - {id}, w.asked, w.issued)
    case Reordered(_, _) => Watch(w.order, w.pending, w.asked, true)
  }

  function Latest(log: seq<Event>, kind: Kind): Watch {
    if log == [] then Watch([], map[], [], false)
    else
      var n := |log| - 1;
      if log[n].kind == kind then Step(Latest(log[..n], kind), log[n]) else Latest(log[..n], kind)
  }

  /** Every reorder carries the order of the latest save of its kind, comes after the answers to all changes
      that save asked for, and is the only one of that save. */
  predicate Lawful(log: seq<Event>) {
    forall i :: 0 <= i < |log| && log[i].Reordered? ==>
      var w := Latest(log[..i], log[i].kind);
      log[i].order == w.order && |w.order| >= 2 && w.pending == map[] && !w.issued
  }

  /** Between calls: the reorder was sent exactly when all changes of the save are answered. */
  predicate Settled(w: Watch) { w.issued <==> w.pending == map[] && |w.order| >= 2 }

  /** No save of this kind starts in this part of the history. */
  predicate Uninterrupted(log: seq<Event>, kind: Kind, from: nat, to: nat)
    requires to <= |log|
  {
    forall m :: from <= m < to ==> !(log[m].Saved? && log[m].kind == kind)
  }

  /** A lawful reorder carries the order of the save before it, not of one that was superseded. */
  lemma ReorderIsOfLatestSave(log: seq<Event>, save: nat, j: nat)
    requires Lawful(log) && save < j < |log| && log[j].Reordered? && log[save].Saved? && log[save].kind == log[j].kind
    requires Uninterrupted(log, log[j].kind, save + 1, j)
    ensures log[j].order == log[save].order
  {
    var kind := log[j].kind;
    assert log[..save + 1][..save] == log[..save];
    Since(log, kind, save + 1, j, ReqId(0));
  }

  /** It comes after the answers to all changes of its save. */
  lemma ReorderAfterAnswers(log: seq<Event>, ask: nat, j: nat)
    requires Lawful(log) && ask < j < |log| && log[j].Reordered? && log[ask].Asked? && log[ask].kind == log[j].kind
    requires Uninterrupted(log, log[j].kind, ask + 1, j)
    ensures exists m :: ask < m < j && log[m] == Answered(log[j].kind, log[ask].id)
  {
    var kind := log[j].kind;
    assert log[..ask + 1][..ask] == log[..ask];
    Since(log, kind, ask + 1, j, log[ask].id);
  }

  /** It is the only one of its save. */
  lemma OneReorderPerSave(log: seq<Event>, i: nat, j: nat)
    requires Lawful(log) && i < j < |log| && log[i].Reordered? && log[j].Reordered? && log[i].kind == log[j].kind
    ensures !Uninterrupted(log, log[j].kind, i + 1, j)
  {
    var kind := log[j].kind;
    if Uninterrupted(log, kind, i + 1, j) {
      assert log[..i + 1][..i] == log[..i];
      Since(log, kind, i + 1, j, ReqId(0));
    }
  }

  /** What stays while no save of the kind starts. */
  lemma {:induction false} Since(log: seq<Event>, kind: Kind, from: nat, to: nat, id: ReqId)
    requires from <= to <= |log| && Uninterrupted(log, kind, from, to)
    ensures Latest(log[..to], kind).order == Latest(log[..from], kind).order
    ensures Latest(log[..from], kind).issued ==> Latest(log[..to], kind).issued
    ensures id in Latest(log[..from], kind).pending ==>
              id in Latest(log[..to], kind).pending || exists m :: from <= m < to && log[m] == Answered(kind, id)
  {
    if from < to {
      Since(log, kind, from, to - 1, id);
      assert log[..to][..to - 1] == log[..to - 1];
    }
  }

  lemma Happens(log: seq<Event>, e: Event)
    ensures forall k :: Latest(log + [e], k) == if e.kind == k then Step(Latest(log, k), e) else Latest(log, k)
    ensures Lawful(log) && !e.Reordered? ==> Lawful(log + [e])
    ensures var w := Latest(log, e.kind);
            Lawful(log) && e.Reordered? && e.order == w.order && |w.order| >= 2 && w.pending == map[] && !w.issued
            ==> Lawful(log + [e])
  {
    var l := log + [e];
    assert l[..|log|] == log;
    assert forall i :: 0 <= i < |log| ==> l[..i] == log[..i];
  }

  /** The requests and the ids kept for them. */
  datatype Traffic = Traffic(
    disenable: map<Kind, set<ReqId>>, reorder: map<Kind, Option<ReqId>>,
    clearRecent: Option<ReqId>, clearAttached: Option<ReqId>,
    inFlight: map<ReqId, Sent>, lastId: nat)

  /** For one kind: the kept ids are exactly those of the requests in flight, and the history agrees. */
  ghost predicate KindWired(changes: set<ReqId>, reorder: Option<ReqId>, w: Watch, inFlight: map<ReqId, Sent>, k: Kind) {
    && changes == w.pending.Keys
    && (reorder.Some? ==> w.issued)
    && (forall r :: r in changes <==> r in inFlight && inFlight[r].Change? && inFlight[r].kind == k)
    && (forall r :: r in w.pending && r in inFlight && inFlight[r].Change? ==> inFlight[r].ask == w.pending[r])
    && (forall r :: reorder == Some(r) <==> r in inFlight && inFlight[r].Reorder? && inFlight[r].kind == k)
    && (forall r :: r in inFlight && !inFlight[r].ClearRecent? && inFlight[r].kind == k ==> inFlight[r].order == w.order)
  }

  /** The kept id of a clearing request. */
  ghost predicate ClearWired(id: Option<ReqId>, attached: bool, inFlight: map<ReqId, Sent>) {
    id.Some? ==> id.value in inFlight && inFlight[id.value] == ClearRecent(attached)
  }

  ghost predicate Bounded(inFlight: map<ReqId, Sent>, lastId: nat) { forall r :: r in inFlight ==> r.value <= lastId }

  ghost predicate Wired(t: Traffic, log: seq<Event>) {
    && Lawful(log) && Bounded(t.inFlight, t.lastId)
    && ClearWired(t.clearRecent, false, t.inFlight) && ClearWired(t.clearAttached, true, t.inFlight)
    && (forall k: Kind :: WiredAt(t, Latest(log, k), k))
  }

  ghost predicate WiredAt(t: Traffic, w: Watch, k: Kind) {
    k in t.disenable && k in t.reorder && KindWired(t.disenable[k], t.reorder[k], w, t.inFlight, k)
  }

  /** In the middle of a save: its reorder is still to be sent. */
  ghost predicate Saving(log: seq<Event>, kind: Kind, order: seq<SetId>) {
    && Latest(log, kind).order == order && !Latest(log, kind).issued
    && forall k :: k != kind ==> Settled(Latest(log, k))
  }

  function Ids(id: Option<ReqId>): set<ReqId> { if id.Some? then {id.value} else {} }

  function Start(t: Traffic, kind: Kind): Traffic
    requires kind in t.disenable && kind in t.reorder
  {
    Traffic(t.disenable[kind := {}], t.reorder[kind := None], None, None, t.inFlight - Cancelled(t, kind), t.lastId)
  }

  function Cancelled(t: Traffic, kind: Kind): set<ReqId>
    requires kind in t.disenable && kind in t.reorder
  {
    t.disenable[kind] + Ids(t.reorder[kind]) + Ids(t.clearRecent) + Ids(t.clearAttached)
  }

  lemma Starts(t: Traffic, log: seq<Event>, kind: Kind, order: seq<SetId>)
    requires Wired(t, log) && forall k :: Settled(Latest(log, k))
    ensures kind in t.disenable && kind in t.reorder && Wired(Start(t, kind), log + [Saved(kind, order)])
    ensures Saving(log + [Saved(kind, order)], kind, order) && Latest(log + [Saved(kind, order)], kind).asked == []
  {
    assert kind in t.disenable && kind in t.reorder by { assert WiredAt(t, Latest(log, kind), kind); }
    hide WiredAt, Latest, Lawful;
    Happens(log, Saved(kind, order));
    forall k: Kind ensures WiredAt(Start(t, kind), Latest(log + [Saved(kind, order)], k), k) {
      assert WiredAt(t, Latest(log, k), k) && WiredAt(t, Latest(log, kind), kind);
      StartKind(t, kind, order, Latest(log, k), Latest(log, kind), k);
    }
  }

  lemma StartKind(t: Traffic, kind: Kind, order: seq<SetId>, w: Watch, v: Watch, k: Kind)
    requires ClearWired(t.clearRecent, false, t.inFlight) && ClearWired(t.clearAttached, true, t.inFlight)
    requires WiredAt(t, w, k) && WiredAt(t, v, kind)
    ensures WiredAt(Start(t, kind), if k == kind then Step(w, Saved(kind, order)) else w, k)
  {
    CancelledOfKind(t, v, kind);
    var gone := Cancelled(t, kind);
    assert Ids(t.reorder[kind]) <= gone && t.disenable[kind] <= gone;
    hide KindWired, Step, ClearWired, Cancelled, Ids;
    var a := Start(t, kind);
    assert a.inFlight == t.inFlight - gone;
    if k == kind {
      assert a.disenable[k] == {} && a.reorder[k] == None;
      OwnStart(t.disenable[k], t.reorder[k], w, t.inFlight, k, gone, order);
    } else {
      assert a.disenable[k] == t.disenable[k] && a.reorder[k] == t.reorder[k];
      OtherStart(t.disenable[k], t.reorder[k], w, t.inFlight, k, gone);
    }
  }

  lemma CancelledOfKind(t: Traffic, v: Watch, kind: Kind)
    requires ClearWired(t.clearRecent, false, t.inFlight) && ClearWired(t.clearAttached, true, t.inFlight)
    requires WiredAt(t, v, kind)
    ensures forall r :: r in Cancelled(t, kind) ==> r in t.inFlight && (t.inFlight[r].ClearRecent? || t.inFlight[r].kind == kind)
  {
  }

  lemma OwnStart(changes: set<ReqId>, reorder: Option<ReqId>, w: Watch, inFlight: map<ReqId, Sent>, k: Kind, gone: set<ReqId>,
                 order: seq<SetId>)
    requires KindWired(changes, reorder, w, inFlight, k) && changes <= gone && Ids(reorder) <= gone
    ensures KindWired({}, None, Step(w, Saved(k, order)), inFlight - gone, k)
  {
    assert reorder.Some? ==> reorder.value in Ids(reorder);
  }

  lemma OtherStart(changes: set<ReqId>, reorder: Option<ReqId>, w: Watch, inFlight: map<ReqId, Sent>, k: Kind, gone: set<ReqId>)
    requires KindWired(changes, reorder, w, inFlight, k)
    requires forall r :: r in gone ==> r in inFlight && (inFlight[r].ClearRecent? || inFlight[r].kind != k)
    ensures KindWired(changes, reorder, w, inFlight - gone, k)
  {
  }

  function AddChange(t: Traffic, kind: Kind, ask: Ask, order: seq<SetId>): Traffic
    requires kind in t.disenable
  {
    var r := ReqId(t.lastId + 1);
    t.(disenable := t.disenable[kind := t.disenable[kind] + {r}], inFlight := t.inFlight[r := Change(kind, ask, order)],
       lastId := t.lastId + 1)
  }

  lemma SendsChange(t: Traffic, log: seq<Event>, kind: Kind, ask: Ask, order: seq<SetId>)
    requires Wired(t, log) && Saving(log, kind, order)
    ensures var after := log + [Asked(kind, ReqId(t.lastId + 1), ask)];
            kind in t.disenable && Wired(AddChange(t, kind, ask, order), after) && Saving(after, kind, order)
            && Latest(after, kind).asked == Latest(log, kind).asked + [ask]
  {
    assert kind in t.disenable by { assert WiredAt(t, Latest(log, kind), kind); }
    hide WiredAt, Latest, Lawful;
    var e := Asked(kind, ReqId(t.lastId + 1), ask);
    Happens(log, e);
    forall k: Kind ensures WiredAt(AddChange(t, kind, ask, order), Latest(log + [e], k), k) {
      assert WiredAt(t, Latest(log, k), k);
      ChangeKind(t, Latest(log, k), k, kind, ask, order);
    }
  }

  lemma ChangeKind(t: Traffic, w: Watch, k: Kind, kind: Kind, ask: Ask, order: seq<SetId>)
    requires WiredAt(t, w, k) && kind in t.disenable && Bounded(t.inFlight, t.lastId) && (k == kind ==> w.order == order)
    ensures WiredAt(AddChange(t, kind, ask, order),
                    if k == kind then Step(w, Asked(kind, ReqId(t.lastId + 1), ask)) else w, k)
  {
    var r := ReqId(t.lastId + 1);
    assert r !in t.inFlight;
    hide KindWired, Step, Bounded;
    var a := AddChange(t, kind, ask, order);
    assert a.inFlight == t.inFlight[r := Change(kind, ask, order)] && a.reorder == t.reorder;
    if k == kind {
      assert a.disenable[k] == t.disenable[k] + {r};
      OwnChange(t.disenable[k], t.reorder[k], w, t.inFlight, k, r, ask);
    } else {
      assert a.disenable[k] == t.disenable[k];
      OtherSent(t.disenable[k], t.reorder[k], w, t.inFlight, k, r, Change(kind, ask, order));
    }
  }

  lemma OwnChange(changes: set<ReqId>, reorder: Option<ReqId>, w: Watch, inFlight: map<ReqId, Sent>, k: Kind, r: ReqId, ask: Ask)
    requires KindWired(changes, reorder, w, inFlight, k) && r !in inFlight
    ensures KindWired(changes + {r}, reorder, Step(w, Asked(k, r, ask)), inFlight[r := Change(k, ask, w.order)], k)
  {
  }

  lemma OtherSent(changes: set<ReqId>, reorder: Option<ReqId>, w: Watch, inFlight: map<ReqId, Sent>, k: Kind, r: ReqId, sent: Sent)
    requires KindWired(changes, reorder, w, inFlight, k) && r !in inFlight && !sent.ClearRecent? && sent.kind != k
    ensures KindWired(changes, reorder, w, inFlight[r := sent], k)
  {
  }

  function AddClear(t: Traffic, attached: bool): Traffic {
    var r := ReqId(t.lastId + 1);
    t.(clearRecent := if attached then t.clearRecent else Some(r), clearAttached := if attached then Some(r) else t.clearAttached,
       inFlight := t.inFlight[r := ClearRecent(attached)], lastId := t.lastId + 1)
  }

  lemma SendsClear(t: Traffic, log: seq<Event>, attached: bool)
    requires Wired(t, log)
    ensures Wired(AddClear(t, attached), log)
  {
    hide WiredAt, Latest, Lawful;
    forall k: Kind ensures WiredAt(AddClear(t, attached), Latest(log, k), k) {
      assert WiredAt(t, Latest(log, k), k);
      ClearKind(t, Latest(log, k), k, attached);
    }
  }

  lemma ClearKind(t: Traffic, w: Watch, k: Kind, attached: bool)
    requires WiredAt(t, w, k) && Bounded(t.inFlight, t.lastId)
    ensures WiredAt(AddClear(t, attached), w, k)
  {
    assert ReqId(t.lastId + 1) !in t.inFlight;
  }

  function AddReorder(t: Traffic, kind: Kind, order: seq<SetId>): Traffic {
    var r := ReqId(t.lastId + 1);
    t.(reorder := t.reorder[kind := Some(r)], inFlight := t.inFlight[r := Reorder(kind, order)], lastId := t.lastId + 1)
  }

  lemma SendsReorder(t: Traffic, log: seq<Event>, kind: Kind, order: seq<SetId>)
    requires Wired(t, log) && Saving(log, kind, order) && |order| >= 2 && kind in t.disenable && t.disenable[kind] == {}
    ensures var after := log + [Reordered(kind, order)];
            && Wired(AddReorder(t, kind, order), after) && (forall k :: Settled(Latest(after, k)))
            && Latest(after, kind).order == order && Latest(after, kind).asked == Latest(log, kind).asked
  {
    assert Latest(log, kind).pending == map[] by { assert WiredAt(t, Latest(log, kind), kind); }
    hide WiredAt, Latest, Lawful;
    Happens(log, Reordered(kind, order));
    forall k: Kind ensures WiredAt(AddReorder(t, kind, order), Latest(log + [Reordered(kind, order)], k), k) {
      assert WiredAt(t, Latest(log, k), k);
      ReorderKind(t, Latest(log, k), k, kind, order);
    }
  }

  lemma ReorderKind(t: Traffic, w: Watch, k: Kind, kind: Kind, order: seq<SetId>)
    requires WiredAt(t, w, k) && Bounded(t.inFlight, t.lastId) && (k == kind ==> w.order == order && !w.issued)
    ensures WiredAt(AddReorder(t, kind, order), if k == kind then Step(w, Reordered(kind, order)) else w, k)
  {
    var r := ReqId(t.lastId + 1);
    assert r !in t.inFlight;
    hide KindWired, Step, Bounded;
    var a := AddReorder(t, kind, order);
    assert a.inFlight == t.inFlight[r := Reorder(kind, order)] && a.disenable == t.disenable;
    if k == kind {
      assert a.reorder[k] == Some(r);
      OwnReorder(t.disenable[k], t.reorder[k], w, t.inFlight, k, r);
    } else {
      assert a.reorder[k] == t.reorder[k];
      OtherSent(t.disenable[k], t.reorder[k], w, t.inFlight, k, r, Reorder(kind, order));
    }
  }

  lemma OwnReorder(changes: set<ReqId>, reorder: Option<ReqId>, w: Watch, inFlight: map<ReqId, Sent>, k: Kind, r: ReqId)
    requires KindWired(changes, reorder, w, inFlight, k) && r !in inFlight && !w.issued
    ensures KindWired(changes, Some(r), Step(w, Reordered(k, w.order)), inFlight[r := Reorder(k, w.order)], k)
  {
  }

  function Answer(t: Traffic, r: ReqId): Traffic
    requires r in t.inFlight && (!t.inFlight[r].ClearRecent? ==> t.inFlight[r].kind in t.disenable)
  {
    var rest := t.(inFlight := t.inFlight - {r});
    match t.inFlight[r]
    case Change(kind, _, _) => rest.(disenable := t.disenable[kind := t.disenable[kind] - {r}])
    case Reorder(kind, _) => rest.(reorder := t.reorder[kind := None])
    case ClearRecent(attached) => if attached then rest.(clearAttached := None) else rest.(clearRecent := None)
  }

  lemma ChangeAnswered(t: Traffic, log: seq<Event>, r: ReqId)
    requires Wired(t, log) && (forall k :: Settled(Latest(log, k))) && r in t.inFlight && t.inFlight[r].Change?
    ensures var kind, order := t.inFlight[r].kind, t.inFlight[r].order;
            kind in t.disenable && Wired(Answer(t, r), log + [Answered(kind, r)]) && Saving(log + [Answered(kind, r)], kind, order)
  {
    var kind := t.inFlight[r].kind;
    assert kind in t.disenable && r in Latest(log, kind).pending && t.inFlight[r].order == Latest(log, kind).order by {
      assert WiredAt(t, Latest(log, kind), kind);
    }
    hide WiredAt, Latest, Lawful;
    Happens(log, Answered(kind, r));
    forall k: Kind ensures WiredAt(Answer(t, r), Latest(log + [Answered(kind, r)], k), k) {
      assert WiredAt(t, Latest(log, k), k);
      AnsweredKind(t, Latest(log, k), k, r);
    }
  }

  lemma AnsweredKind(t: Traffic, w: Watch, k: Kind, r: ReqId)
    requires WiredAt(t, w, k) && r in t.inFlight && (!t.inFlight[r].ClearRecent? ==> t.inFlight[r].kind in t.disenable)
    ensures WiredAt(Answer(t, r), if t.inFlight[r].Change? && t.inFlight[r].kind == k then Step(w, Answered(k, r)) else w, k)
  {
  }

  lemma OtherAnswered(t: Traffic, log: seq<Event>, r: ReqId)
    requires Wired(t, log) && r in t.inFlight && !t.inFlight[r].Change?
    requires !t.inFlight[r].ClearRecent? ==> t.inFlight[r].kind in t.disenable
    ensures Wired(Answer(t, r), log)
  {
    hide WiredAt, Latest, Lawful;
    forall k: Kind ensures WiredAt(Answer(t, r), Latest(log, k), k) {
      assert WiredAt(t, Latest(log, k), k);
      AnsweredKind(t, Latest(log, k), k, r);
    }
  }

  // ---------------------------------------------------------------- steps of the passes

  /** The history goes on with requests only. */
  ghost predicate Extends(a: seq<Event>, b: seq<Event>) {
    |a| <= |b| && b[..|a|] == a && forall k :: |a| <= k < |b| ==> !b[k].Saved? && !b[k].Answered?
  }

  lemma ExtendsOn(a: seq<Event>, b: seq<Event>, c: seq<Event>)
    ensures Extends(a, b) && Extends(b, c) ==> Extends(a, c)
    ensures Extends(a, a)
  {
    if Extends(a, b) && Extends(b, c) {
      assert c[..|a|] == c[..|b|][..|a|];
      assert forall k :: |a| <= k < |b| ==> c[k] == b[k];
    }
  }

  ghost predicate SameBut(kind: Kind, a: map<Kind, seq<SetId>>, b: map<Kind, seq<SetId>>) {
    forall k: Kind :: k in a && k in b && (k != kind ==> b[k] == a[k])
  }

  lemma SameButOn(kind: Kind, a: map<Kind, seq<SetId>>, b: map<Kind, seq<SetId>>, c: map<Kind, seq<SetId>>)
    requires SameBut(kind, a, b) && SameBut(kind, b, c)
    ensures SameBut(kind, a, c)
  {
  }

  lemma SameButWritten(kind: Kind, a: map<Kind, seq<SetId>>, b: map<Kind, seq<SetId>>, order: seq<SetId>)
    requires SameBut(kind, a, b)
    ensures b[kind := order] == a[kind := order]
  {
  }

  lemma WrittenTwice(a: map<Kind, seq<SetId>>, kind: Kind, order: seq<SetId>, more: seq<SetId>)
    ensures a[kind := order][kind := order + more] == a[kind := order + more]
  {
  }

  function WithoutFirst(order: seq<SetId>, id: SetId): seq<SetId> {
    if order == [] then [] else if order[0] == id then order[1..] else [order[0]] + WithoutFirst(order[1..], id)
  }

  lemma ClearedKeys(kind: Kind, sets: Sets)
    ensures Cleared(kind, sets).Keys == sets.Keys
  {
  }

  lemma AsksAre(save: Save, sets: Sets)
    ensures Asks(save, sets) ==
      Uninstalls(sets, save.removed) + Installs(Cleared(save.kind, Removed(sets, save.removed)), save.order, save.removed)
  {
  }

  lemma MoreUninstalls(sets: Sets, removed: seq<SetId>, id: SetId)
    ensures var before := Removed(sets, removed);
            Uninstalls(sets, removed + [id]) == Uninstalls(sets, removed)
              + if !IsCloud(id) && id in before && !before[id].archived then [Uninstall(id)] else []
  {
    assert (removed + [id])[..|removed|] == removed;
  }

  lemma RemovalStep(sets: Sets, recent: seq<Recent>, removed: seq<SetId>, id: SetId)
    ensures var before := Removed(sets, removed);
            Removed(sets, removed + [id]) ==
              if IsCloud(id) then before - {CLOUD_RECENT, CLOUD_RECENT_ATTACHED, CUSTOM}
              else if id !in before || before[id].archived then before
              else if Needed(before[id]) then before[id := Stripped(before[id])] else before - {id}
    ensures var before := Removed(sets, removed);
            NewRecent(recent, sets, removed + [id]) ==
              if IsCloud(id) then []
              else if id !in before then NewRecent(recent, sets, removed)
              else Without(NewRecent(recent, sets, removed), DocsOf(before[id]))
  {
    hide Removed, NewRecent;
    if IsCloud(id) {
      RemovalOfRecent(sets, recent, removed, id);
    } else if id in Removed(sets, removed) {
      RemovalOfFound(sets, removed, id);
      RecentOfFound(sets, recent, removed, id);
    } else {
      RemovalOfMissing(sets, recent, removed, id);
    }
  }

  lemma OrderStarts(sets: Sets, removed: seq<SetId>, now: int)
    ensures Ordered([], removed, now, sets) == sets && Installs(sets, [], removed) == [] && Restrict([], sets.Keys) == []
  {
  }

  lemma MoreRestricted(order: seq<SetId>, id: SetId, sets: set<SetId>)
    ensures Restrict(order + [id], sets) == Restrict(order, sets) + if id in sets then [id] else []
  {
    assert (order + [id])[..|order|] == order;
  }

  lemma OrderStep(sets: Sets, before: seq<SetId>, id: SetId, removed: seq<SetId>, now: int)
    ensures var o := Ordered(before, removed, now, sets);
            && (id in sets <==> id in o)
            && Ordered(before + [id], removed, now, sets) ==
                 (if id in o then o[id := AfterOrdering([id], removed, now, id, o[id])] else o)
            && Installs(sets, before + [id], removed) == Installs(sets, before, removed)
                 + if id in o && o[id].archived && id !in removed then [Install(id)] else []
  {
    assert (before + [id])[..|before|] == before;
  }

  lemma NothingSent()
    ensures Wired(Traffic(map[Stickers := {}, Masks := {}, Emoji := {}], map[Stickers := None, Masks := None, Emoji := None],
                          None, None, map[], 0), [])
    ensures forall k :: Settled(Latest([], k))
  {
    forall k: Kind
      ensures WiredAt(Traffic(map[Stickers := {}, Masks := {}, Emoji := {}], map[Stickers := None, Masks := None, Emoji := None],
                              None, None, map[], 0), Latest([], k), k)
    {
      match k case Stickers => case Masks => case Emoji =>
    }
  }

  /** In the middle of a save nothing but its reorder is missing. */
  lemma Unordered(t: Traffic, log: seq<Event>, kind: Kind, order: seq<SetId>)
    requires Wired(t, log) && Saving(log, kind, order)
    ensures kind in t.disenable && t.disenable[kind] == Latest(log, kind).pending.Keys && Latest(log, kind).order == order
    ensures t.disenable[kind] != {} || |order| < 2 ==> forall k :: Settled(Latest(log, k))
  {
    hide Latest, Lawful, KindWired;
    assert WiredAt(t, Latest(log, kind), kind);
    WiredKind(t, Latest(log, kind), kind);
  }

  lemma AnswerIds(t: Traffic, log: seq<Event>, r: ReqId)
    requires Wired(t, log) && r in t.inFlight
    ensures r.value <= t.lastId
    ensures !t.inFlight[r].ClearRecent? ==> t.inFlight[r].kind in t.disenable && t.inFlight[r].kind in t.reorder
  {
    if !t.inFlight[r].ClearRecent? {
      WiredKind(t, Latest(log, t.inFlight[r].kind), t.inFlight[r].kind);
    }
  }

  lemma WiredKind(t: Traffic, w: Watch, k: Kind)
    requires WiredAt(t, w, k)
    ensures k in t.disenable && k in t.reorder && t.disenable[k] == w.pending.Keys
  {
  }

  // ---------------------------------------------------------------- the program

  /** The body of the clearing loop. */
  method ClearOne(kind: Kind, s: StickersSet) returns (r: StickersSet)
    ensures r == AfterClearing(kind, s)
  {
    r := s;
    var thatType := if s.emoji then Emoji else if s.masks then Masks else Stickers;
    if !s.archived && kind == thatType {
      r := r.(installed := false);
    }
  }

  /** The sets, orders and recent pack a save works on, and the request ids kept between saves, one table and
      one reorder id per kind. */
  class StickersApi {
    var sets: Sets
    var orders: map<Kind, seq<SetId>>
    var recent: seq<Recent>
    var disenable: map<Kind, set<ReqId>>
    var reorder: map<Kind, Option<ReqId>>
    var clearRecent: Option<ReqId>
    var clearAttached: Option<ReqId>
    var inFlight: map<ReqId, Sent>
    var lastId: nat
    ghost var log: seq<Event>

    ghost function Net(): Traffic
      reads `disenable, `reorder, `clearRecent, `clearAttached, `inFlight, `lastId
    {
      Traffic(disenable, reorder, clearRecent, clearAttached, inFlight, lastId)
    }

    ghost predicate Valid()
      reads `orders, `disenable, `reorder, `clearRecent, `clearAttached, `inFlight, `lastId, `log
    {
      (forall k: Kind :: k in orders) && Wired(Net(), log) && forall k :: Settled(Latest(log, k))
    }

    /** In the middle of a save. */
    ghost predicate Busy(kind: Kind, order: seq<SetId>)
      reads `orders, `disenable, `reorder, `clearRecent, `clearAttached, `inFlight, `lastId, `log
    {
      (forall k: Kind :: k in orders) && Wired(Net(), log) && Saving(log, kind, order)
    }

    ghost function AskedSoFar(kind: Kind): seq<Ask>
      reads `log
    {
      Latest(log, kind).asked
    }

    lemma ValidMeans()
      requires Valid()
      ensures Lawful(log)
      ensures forall k :: (forall r :: r in inFlight ==> !(inFlight[r].Change? && inFlight[r].kind == k)) ==>
                (Latest(log, k).issued <==> |Latest(log, k).order| >= 2)
    {
      hide Latest, Lawful;
      forall k | forall r :: r in inFlight ==> !(inFlight[r].Change? && inFlight[r].kind == k)
        ensures Latest(log, k).issued <==> |Latest(log, k).order| >= 2
      {
        NothingPending(Net(), log, k);
      }
    }

    constructor (sets: Sets, orders: map<Kind, seq<SetId>>, recent: seq<Recent>)
      requires forall k: Kind :: k in orders
      ensures Valid() && this.sets == sets && this.orders == orders && this.recent == recent && log == []
    {
      NothingSent();
      this.sets, this.orders, this.recent := sets, orders, recent;
      disenable := map[Stickers := {}, Masks := {}, Emoji := {}];
      reorder := map[Stickers := None, Masks := None, Emoji := None];
      clearRecent, clearAttached, inFlight, lastId, log := None, None, map[], 0, [];
    }

    /** `saveStickerSets`. */
    method Save(save: Save)
      requires Valid()
      modifies this
      ensures Valid()
      ensures sets == FinalSets(save, old(sets))
      ensures orders == old(orders)[save.kind := Restrict(save.order, FinalSets(save, old(sets)).Keys)]
      ensures recent == NewRecent(old(recent), old(sets), save.removed)
      ensures Latest(log, save.kind).order == save.order && AskedSoFar(save.kind) == Asks(save, old(sets))
      ensures (clearRecent.Some? <==> CLOUD_RECENT in save.removed) && (clearAttached.Some? <==> CLOUD_RECENT_ATTACHED in save.removed)
      ensures Extends(old(log) + [Saved(save.kind, save.order)], log)
    {
      hide *;
      PassesMakeFinal(save, sets);
      OrderIsRestricted(save, sets);
      CancelOld(save.kind, save.order);
      RemoveSets(save);
      ghost var removal := log;
      ClearInstalled(save.kind);
      ghost var restricted := Restrict(save.order, FinalSets(save, old(sets)).Keys);
      SameButWritten(save.kind, old(orders), orders, restricted);
      ClearedKeys(save.kind, Removed(old(sets), save.removed));
      assert Restrict(save.order, sets.Keys) == restricted;
      OrderSets(save);
      assert orders == old(orders)[save.kind := restricted];
      Sweep();
      ExtendsOn(old(log) + [Saved(save.kind, save.order)], removal, log);
      removal := log;
      OrderOrWait(save.kind, save.order);
      ExtendsOn(old(log) + [Saved(save.kind, save.order)], removal, log);
      assert AskedSoFar(save.kind) == Asks(save, old(sets)) by { AsksAre(save, old(sets)); }
    }

    /** Any request is answered, with success or failure. */
    method Reply(requestId: ReqId)
      requires Valid() && requestId in inFlight
      modifies `disenable, `reorder, `clearRecent, `clearAttached, `inFlight, `lastId, `log
      ensures Valid() && requestId !in inFlight
      ensures !old(inFlight)[requestId].Change? ==> log == old(log)
      ensures old(inFlight)[requestId].Change? ==>
                var kind, order := old(inFlight)[requestId].kind, old(inFlight)[requestId].order;
                var answered := old(log) + [Answered(kind, requestId)];
                log == if |order| < 2 || Latest(answered, kind).pending != map[] then answered else answered + [Reordered(kind, order)]
    {
      AnswerIds(Net(), log, requestId);
      hide Wired, Latest, Settled, Saving;
      var sent := inFlight[requestId];
      inFlight := inFlight - {requestId};
      match sent {
        case Change(kind, _, order) =>
          ChangeAnswered(old(Net()), log, requestId);
          ghost var t := Net();
          assert t.(disenable := disenable[kind := disenable[kind] - {requestId}]) == old(Answer(Net(), requestId));
          StickerSetDisenabled(requestId, kind, order);
        case Reorder(kind, _) =>
          OtherAnswered(old(Net()), log, requestId);
          reorder := reorder[kind := None];
          assert Net() == old(Answer(Net(), requestId));
        case ClearRecent(attached) =>
          OtherAnswered(old(Net()), log, requestId);
          if attached {
            clearAttached := None;
          } else {
            clearRecent := None;
          }
          assert Net() == old(Answer(Net(), requestId));
      }
    }

    /** The handler of an install or uninstall request, with the kind and the order it captured. */
    method StickerSetDisenabled(requestId: ReqId, kind: Kind, order: seq<SetId>)
      requires (forall k: Kind :: k in orders) && kind in disenable && requestId.value <= lastId && requestId !in inFlight
      requires Wired(Net().(disenable := disenable[kind := disenable[kind] - {requestId}]), log + [Answered(kind, requestId)])
      requires Saving(log + [Answered(kind, requestId)], kind, order)
      modifies `disenable, `reorder, `inFlight, `lastId, `log
      ensures Valid() && requestId !in inFlight
      ensures var answered := old(log) + [Answered(kind, requestId)];
              log == if |order| < 2 || Latest(answered, kind).pending != map[] then answered else answered + [Reordered(kind, order)]
    {
      hide Wired, Latest, Settled, Saving;
      disenable := disenable[kind := disenable[kind] - {requestId}];
      log := log + [Answered(kind, requestId)];
      Unordered(Net(), log, kind, order);
      if disenable[kind] == {} {
        SaveOrder(kind, order);
      }
    }

    /** Requests of an earlier save of this kind are cancelled, and both clearing requests. */
    method CancelOld(kind: Kind, order: seq<SetId>)
      requires Valid()
      modifies `disenable, `reorder, `clearRecent, `clearAttached, `inFlight, `log
      ensures Busy(kind, order) && AskedSoFar(kind) == [] && log == old(log) + [Saved(kind, order)]
      ensures clearRecent == None && clearAttached == None
      ensures kind in old(disenable) && kind in old(reorder) && inFlight == old(inFlight) - old(Cancelled(Net(), kind))
      ensures forall r :: r in inFlight <==>
                && r in old(inFlight) && r !in old(disenable)[kind] && old(reorder)[kind] != Some(r)
                && old(clearRecent) != Some(r) && old(clearAttached) != Some(r)
    {
      hide Wired, Latest, Settled, Saving;
      Starts(Net(), log, kind, order);
      var cancelled := disenable[kind];
      disenable := disenable[kind := {}];
      inFlight := inFlight - cancelled;
      cancelled := Ids(reorder[kind]) + Ids(clearRecent) + Ids(clearAttached);
      reorder, clearRecent, clearAttached := reorder[kind := None], None, None;
      inFlight := inFlight - cancelled;
      log := log + [Saved(kind, order)];
      assert inFlight == old(Start(Net(), kind).inFlight);
      assert Net() == old(Start(Net(), kind));
    }

    method SendChange(kind: Kind, ask: Ask, order: seq<SetId>)
      requires Busy(kind, order)
      modifies `disenable, `inFlight, `lastId, `log
      ensures Busy(kind, order) && AskedSoFar(kind) == old(AskedSoFar(kind)) + [ask] && Extends(old(log), log)
    {
      hide Wired, Latest, Settled, Saving;
      SendsChange(Net(), log, kind, ask, order);
      lastId := lastId + 1;
      var requestId := ReqId(lastId);
      inFlight := inFlight[requestId := Change(kind, ask, order)];
      disenable := disenable[kind := disenable[kind] + {requestId}];
      log := log + [Asked(kind, requestId, ask)];
      assert Net() == old(AddChange(Net(), kind, ask, order));
    }

    method SendClear(attached: bool, ghost kind: Kind, ghost order: seq<SetId>)
      requires Busy(kind, order)
      modifies `clearRecent, `clearAttached, `inFlight, `lastId
      ensures Busy(kind, order)
      ensures clearRecent == (if attached then old(clearRecent) else Some(ReqId(lastId)))
      ensures clearAttached == (if attached then Some(ReqId(lastId)) else old(clearAttached))
    {
      hide Wired, Latest, Settled, Saving;
      SendsClear(Net(), log, attached);
      lastId := lastId + 1;
      var requestId := ReqId(lastId);
      inFlight := inFlight[requestId := ClearRecent(attached)];
      if attached {
        clearAttached := Some(requestId);
      } else {
        clearRecent := Some(requestId);
      }
      assert Net() == old(AddClear(Net(), attached));
    }

    /** `stickersSaveOrder`, called only when all changes are answered. */
    method SaveOrder(kind: Kind, order: seq<SetId>)
      requires Busy(kind, order) && kind in disenable && disenable[kind] == {}
      modifies `reorder, `inFlight, `lastId, `log
      ensures Valid()
      ensures |order| < 2 ==> log == old(log) && inFlight == old(inFlight)
      ensures |order| >= 2 ==>
                log == old(log) + [Reordered(kind, order)]
                && inFlight == old(inFlight)[ReqId(old(lastId) + 1) := Reorder(kind, order)]
      ensures Latest(log, kind).order == order && AskedSoFar(kind) == old(AskedSoFar(kind))
    {
      Unordered(Net(), log, kind, order);
      hide Wired, Latest, Settled, Saving;
      if |order| < 2 {
        return;
      }
      SendReorder(kind, order);
    }

    method SendReorder(kind: Kind, order: seq<SetId>)
      requires Busy(kind, order) && kind in disenable && disenable[kind] == {} && |order| >= 2
      modifies `reorder, `inFlight, `lastId, `log
      ensures Valid() && log == old(log) + [Reordered(kind, order)]
      ensures inFlight == old(inFlight)[ReqId(old(lastId) + 1) := Reorder(kind, order)]
      ensures Latest(log, kind).order == order && AskedSoFar(kind) == old(AskedSoFar(kind))
    {
      hide Wired, Latest, Settled, Saving;
      SendsReorder(Net(), log, kind, order);
      lastId := lastId + 1;
      reorder := reorder[kind := Some(ReqId(lastId))];
      inFlight := inFlight[ReqId(lastId) := Reorder(kind, order)];
      log := log + [Reordered(kind, order)];
      assert Net() == old(AddReorder(Net(), kind, order));
    }

    /** The last lines of the call. */
    method OrderOrWait(kind: Kind, order: seq<SetId>)
      requires Busy(kind, order)
      modifies `reorder, `inFlight, `lastId, `log
      ensures Valid() && Extends(old(log), log)
      ensures Latest(log, kind).order == order && AskedSoFar(kind) == old(AskedSoFar(kind))
    {
      Unordered(Net(), log, kind, order);
      hide Wired, Latest, Settled, Saving;
      if disenable[kind] == {} {
        SaveOrder(kind, order);
      }
    }

    /** The pass over the removed sets. */
    method RemoveSets(save: Save)
      requires Busy(save.kind, save.order) && AskedSoFar(save.kind) == [] && clearRecent == None && clearAttached == None
      modifies `sets, `recent, `orders, `disenable, `clearRecent, `clearAttached, `inFlight, `lastId, `log
      ensures Busy(save.kind, save.order) && AskedSoFar(save.kind) == Uninstalls(old(sets), save.removed) && Extends(old(log), log)
      ensures sets == Removed(old(sets), save.removed) && recent == NewRecent(old(recent), old(sets), save.removed)
      ensures SameBut(save.kind, old(orders), orders)
      ensures (clearRecent.Some? <==> CLOUD_RECENT in save.removed) && (clearAttached.Some? <==> CLOUD_RECENT_ATTACHED in save.removed)
    {
      RemovalStarts(sets, recent);
      assert Uninstalls(sets, []) == [] && Extends(log, log) && SameBut(save.kind, orders, orders);
      hide *;
      assert save.removed[..0] == [];
      for i := 0 to |save.removed|
        invariant Busy(save.kind, save.order) && AskedSoFar(save.kind) == Uninstalls(old(sets), save.removed[..i])
        invariant Extends(old(log), log) && SameBut(save.kind, old(orders), orders)
        invariant clearRecent.Some? <==> CLOUD_RECENT in save.removed[..i]
        invariant clearAttached.Some? <==> CLOUD_RECENT_ATTACHED in save.removed[..i]
        invariant sets == Removed(old(sets), save.removed[..i]) && recent == NewRecent(old(recent), old(sets), save.removed[..i])
      {
        assert save.removed[..i + 1] == save.removed[..i] + [save.removed[i]];
        ghost var before, beforeOrders := log, orders;
        RemoveSet(save, save.removed[i], old(sets), old(recent), save.removed[..i]);
        ExtendsOn(old(log), before, log);
        SameButOn(save.kind, old(orders), beforeOrders, orders);
      }
      assert save.removed[..|save.removed|] == save.removed;
    }

    /** One removed set. */
    method RemoveSet(save: Save, id: SetId, ghost was: Sets, ghost wasRecent: seq<Recent>, ghost removed: seq<SetId>)
      requires Busy(save.kind, save.order) && AskedSoFar(save.kind) == Uninstalls(was, removed)
      requires sets == Removed(was, removed) && recent == NewRecent(wasRecent, was, removed)
      modifies `sets, `recent, `orders, `disenable, `clearRecent, `clearAttached, `inFlight, `lastId, `log
      ensures Busy(save.kind, save.order) && AskedSoFar(save.kind) == Uninstalls(was, removed + [id]) && Extends(old(log), log)
      ensures sets == Removed(was, removed + [id]) && recent == NewRecent(wasRecent, was, removed + [id])
      ensures SameBut(save.kind, old(orders), orders)
      ensures clearRecent.Some? <==> old(clearRecent.Some?) || id == CLOUD_RECENT
      ensures clearAttached.Some? <==> old(clearAttached.Some?) || id == CLOUD_RECENT_ATTACHED
    {
      MoreUninstalls(was, removed, id);
      RemovalStep(was, wasRecent, removed, id);
      hide Wired, Latest, Settled, Saving, Removed, NewRecent, Uninstalls, Without;
      if IsCloud(id) {
        sets := sets - {CLOUD_RECENT, CLOUD_RECENT_ATTACHED, CUSTOM};
        recent := [];
        SendClear(id == CLOUD_RECENT_ATTACHED, save.kind, save.order);
        return;
      }
      if id in sets {
        var s := sets[id];
        EraseRecent(s.stickers);
        if !s.archived {
          SendChange(save.kind, Uninstall(id), save.order);
          orders := orders[save.kind := WithoutFirst(orders[save.kind], id)];
          if !s.featured && !s.special && !s.emoji && !(s.locked > 0) {
            sets := sets - {id};
          } else {
            sets := sets[id := s.(installed := false, archived := false, installDate := 0)];
          }
        }
      }
    }

    /** The iterator loop over the recent pack. */
    method EraseRecent(stickers: seq<Doc>)
      modifies `recent
      ensures recent == Without(old(recent), set d | d in stickers)
    {
      var i := 0;
      ghost var n := 0;
      ghost var docs := set d | d in stickers;
      while i < |recent|
        invariant 0 <= n <= |old(recent)| && 0 <= i <= |recent| && recent[i..] == old(recent)[n..]
        invariant recent[..i] == Without(old(recent)[..n], docs)
        decreases |recent| - i
      {
        ghost var more := old(recent)[..n + 1];
        assert recent[i] == recent[i..][0] == old(recent)[n] && more[..n] == old(recent)[..n];
        assert recent[i..][1..] == old(recent)[n + 1..];
        if recent[i].doc in stickers {
          recent := recent[..i] + recent[i + 1..];
        } else {
          i := i + 1;
        }
        n := n + 1;
      }
      assert |recent[i..]| == 0 == |old(recent)[n..]|;
      assert recent[..i] == recent && old(recent)[..n] == old(recent);
    }

    /** The pass that clears the installed flags. */
    method ClearInstalled(kind: Kind)
      modifies `sets
      ensures sets == Cleared(kind, old(sets))
    {
      hide AfterClearing;
      var todo := sets.Keys;
      while todo != {}
        invariant todo <= sets.Keys == old(sets).Keys
        invariant forall id :: id in todo ==> sets[id] == old(sets)[id]
        invariant forall id :: id in sets && id !in todo ==> sets[id] == AfterClearing(kind, old(sets)[id])
        decreases |todo|
      {
        var id := Pick(todo);
        var s := ClearOne(kind, sets[id]);
        sets := sets[id := s];
        todo := todo - {id};
      }
    }

    /** The pass over the new order. */
    method OrderSets(save: Save)
      requires Busy(save.kind, save.order)
      modifies `sets, `orders, `disenable, `inFlight, `lastId, `log
      ensures Busy(save.kind, save.order) && Extends(old(log), log)
      ensures AskedSoFar(save.kind) == old(AskedSoFar(save.kind)) + Installs(old(sets), save.order, save.removed)
      ensures sets == Ordered(save.order, save.removed, save.now, old(sets))
      ensures orders == old(orders)[save.kind := Restrict(save.order, old(sets).Keys)]
    {
      OrderStarts(sets, save.removed, save.now);
      assert Extends(log, log);
      hide *;
      orders := orders[save.kind := []];
      assert save.order[..0] == [];
      for i := 0 to |save.order|
        invariant Busy(save.kind, save.order) && Extends(old(log), log)
        invariant AskedSoFar(save.kind) == old(AskedSoFar(save.kind)) + Installs(old(sets), save.order[..i], save.removed)
        invariant sets == Ordered(save.order[..i], save.removed, save.now, old(sets))
        invariant orders == old(orders)[save.kind := Restrict(save.order[..i], old(sets).Keys)]
      {
        assert save.order[..i + 1] == save.order[..i] + [save.order[i]];
        ghost var before := log;
        WrittenTwice(old(orders), save.kind, Restrict(save.order[..i], old(sets).Keys),
                     if save.order[i] in old(sets) then [save.order[i]] else []);
        OrderSet(save, save.order[i], old(sets), old(AskedSoFar(save.kind)), save.order[..i]);
        MoreRestricted(save.order[..i], save.order[i], old(sets).Keys);
        ExtendsOn(old(log), before, log);
      }
      assert save.order[..|save.order|] == save.order;
    }

    /** One set of the new order. */
    method OrderSet(save: Save, id: SetId, ghost was: Sets, ghost asks: seq<Ask>, ghost before: seq<SetId>)
      requires Busy(save.kind, save.order)
      requires sets == Ordered(before, save.removed, save.now, was)
      requires AskedSoFar(save.kind) == asks + Installs(was, before, save.removed)
      modifies `sets, `orders, `disenable, `inFlight, `lastId, `log
      ensures Busy(save.kind, save.order) && Extends(old(log), log)
      ensures sets == Ordered(before + [id], save.removed, save.now, was)
      ensures AskedSoFar(save.kind) == asks + Installs(was, before + [id], save.removed)
      ensures orders == old(orders)[save.kind := old(orders)[save.kind] + if id in was then [id] else []]
    {
      OrderStep(was, before, id, save.removed, save.now);
      hide Wired, Latest, Settled, Saving, Ordered, Installs;
      if id !in sets {
        assert orders[save.kind] + [] == orders[save.kind];
        return;
      }
      var s := sets[id];
      if s.archived && id !in save.removed {
        SendChange(save.kind, Install(id), save.order);
        s := s.(archived := false);
      }
      orders := orders[save.kind := orders[save.kind] + [id]];
      s := s.(installed := true);
      if s.installDate == 0 {
        s := s.(installDate := save.now);
      }
      sets := sets[id := s];
    }

    /** The last pass erases the sets nobody needs. */
    method Sweep()
      modifies `sets
      ensures sets == Swept(old(sets))
    {
      var todo := sets.Keys;
      while todo != {}
        invariant todo <= sets.Keys <= old(sets).Keys
        invariant forall id :: id in sets ==> sets[id] == old(sets)[id]
        invariant forall id :: id in old(sets) ==> (id in sets <==> id in todo || HasReason(old(sets)[id]))
        decreases |todo|
      {
        var id := Pick(todo);
        var s := sets[id];
        if !(s.featured || s.installed || s.archived || s.special || s.emoji || s.locked > 0) {
          sets := sets - {id};
        }
        todo := todo - {id};
      }
    }
  }

  // ---------------------------------------------------------------- whole runs

  datatype Happening = UserSaves(save: Save) | ServerReplies(id: ReqId)

  function SavesOf(happenings: seq<Happening>): seq<Save> {
    if happenings == [] then []
    else
      var n := |happenings| - 1;
      SavesOf(happenings[..n]) + if happenings[n].UserSaves? then [happenings[n].save] else []
  }

  /** The sets, orders and recent pack. */
  datatype Library = Library(sets: Sets, orders: map<Kind, seq<SetId>>, recent: seq<Recent>)

  function AfterSave(l: Library, save: Save): Library {
    Library(FinalSets(save, l.sets), l.orders[save.kind := Restrict(save.order, FinalSets(save, l.sets).Keys)],
            NewRecent(l.recent, l.sets, save.removed))
  }

  /** What a series of saves makes of them. */
  function AfterSaves(l: Library, saves: seq<Save>): Library {
    if saves == [] then l else AfterSave(AfterSaves(l, saves[..|saves| - 1]), saves[|saves| - 1])
  }

  /** The saves of a history are those of the user, and its answers come from replies. */
  ghost predicate Tells(log: seq<Event>, happenings: seq<Happening>) {
    && SavedIn(log) == SavedBy(SavesOf(happenings))
    && forall e :: e in log && e.Answered? ==> ServerReplies(e.id) in happenings
  }

  function SavedIn(log: seq<Event>): seq<Event> {
    if log == [] then [] else SavedIn(log[..|log| - 1]) + if log[|log| - 1].Saved? then [log[|log| - 1]] else []
  }

  function SavedBy(saves: seq<Save>): seq<Event> {
    if saves == [] then []
    else SavedBy(saves[..|saves| - 1]) + [Saved(saves[|saves| - 1].kind, saves[|saves| - 1].order)]
  }

  lemma {:induction false} SavedInMore(log: seq<Event>, more: seq<Event>)
    requires forall k :: 0 <= k < |more| ==> !more[k].Saved?
    ensures SavedIn(log + more) == SavedIn(log)
  {
    if more == [] {
      assert log + more == log;
    } else {
      var n := |more| - 1;
      assert (log + more)[..|log| + n] == log + more[..n] && (log + more)[|log| + n] == more[n];
      SavedInMore(log, more[..n]);
    }
  }

  lemma SavedInAppend(log: seq<Event>, e: Event)
    ensures SavedIn(log + [e]) == SavedIn(log) + if e.Saved? then [e] else []
  {
    assert (log + [e])[..|log|] == log;
  }

  lemma SavesAppend(happenings: seq<Happening>, h: Happening)
    ensures SavesOf(happenings + [h]) == SavesOf(happenings) + if h.UserSaves? then [h.save] else []
  {
    assert (happenings + [h])[..|happenings|] == happenings;
  }

  lemma SavedByAppend(saves: seq<Save>, save: Save)
    ensures SavedBy(saves + [save]) == SavedBy(saves) + [Saved(save.kind, save.order)]
  {
    assert (saves + [save])[..|saves|] == saves;
  }

  lemma TellsSave(log: seq<Event>, now: seq<Event>, happenings: seq<Happening>, save: Save)
    requires Tells(log, happenings) && Extends(log + [Saved(save.kind, save.order)], now)
    ensures Tells(now, happenings + [UserSaves(save)])
  {
    hide SavedIn, SavedBy, SavesOf;
    var e := Saved(save.kind, save.order);
    var more := now[|log| + 1..];
    assert now == log + [e] + more;
    SavedInAppend(log, e);
    SavedInMore(log + [e], more);
    SavesAppend(happenings, UserSaves(save));
    SavedByAppend(SavesOf(happenings), save);
    forall x | x in now && x.Answered? ensures ServerReplies(x.id) in happenings + [UserSaves(save)] {
      assert x in log || x == e || x in more;
    }
  }

  lemma TellsReply(log: seq<Event>, more: seq<Event>, happenings: seq<Happening>, id: ReqId)
    requires Tells(log, happenings)
    requires forall k :: 0 <= k < |more| ==> !more[k].Saved? && (more[k].Answered? ==> more[k].id == id)
    ensures Tells(log + more, happenings + [ServerReplies(id)])
  {
    hide SavedIn, SavedBy, SavesOf;
    SavedInMore(log, more);
    SavesAppend(happenings, ServerReplies(id));
    assert SavesOf(happenings) + [] == SavesOf(happenings);
    forall x | x in log + more && x.Answered? ensures ServerReplies(x.id) in happenings + [ServerReplies(id)] {
      assert x in log || x in more;
    }
  }

  /** Saves of all kinds and replies in any order.  The sets are what the saves make of them; whatever is answered
      when, the history of the reorders is lawful, and a kind with no change in flight has sent the reorder of
      its latest save. */
  method Run(sets: Sets, orders: map<Kind, seq<SetId>>, recent: seq<Recent>, happenings: seq<Happening>)
    returns (api: StickersApi)
    requires forall k: Kind :: k in orders
    ensures api.Valid() && Lawful(api.log) && Tells(api.log, happenings)
    ensures Library(api.sets, api.orders, api.recent) == AfterSaves(Library(sets, orders, recent), SavesOf(happenings))
    ensures forall k :: (forall r :: r in api.inFlight ==> !(api.inFlight[r].Change? && api.inFlight[r].kind == k)) ==>
              (Latest(api.log, k).issued <==> |Latest(api.log, k).order| >= 2)
  {
    hide *;
    api := new StickersApi(sets, orders, recent);
    RunStarts(Library(sets, orders, recent));
    assert happenings[..0] == [];
    for i := 0 to |happenings|
      invariant fresh(api) && api.Valid() && Tells(api.log, happenings[..i])
      invariant Library(api.sets, api.orders, api.recent) == AfterSaves(Library(sets, orders, recent), SavesOf(happenings[..i]))
    {
      assert happenings[..i + 1] == happenings[..i] + [happenings[i]];
      ghost var log := api.log;
      MoreSaves(Library(sets, orders, recent), happenings[..i], happenings[i]);
      match happenings[i] {
        case UserSaves(save) =>
          AfterSaveIs(Library(api.sets, api.orders, api.recent), save);
          api.Save(save);
          TellsSave(log, api.log, happenings[..i], save);
        case ServerReplies(id) =>
          if id in api.inFlight {
            api.Reply(id);
          }
          assert api.log == log + api.log[|log|..];
          TellsReply(log, api.log[|log|..], happenings[..i], id);
      }
    }
    assert happenings[..|happenings|] == happenings;
    api.ValidMeans();
  }

  lemma MoreSaves(l: Library, happenings: seq<Happening>, h: Happening)
    ensures AfterSaves(l, SavesOf(happenings + [h])) ==
              if h.UserSaves? then AfterSave(AfterSaves(l, SavesOf(happenings)), h.save) else AfterSaves(l, SavesOf(happenings))
  {
    hide AfterSave, SavesOf;
    SavesAppend(happenings, h);
    var saves := SavesOf(happenings);
    assert saves + [] == saves;
    if h.UserSaves? {
      assert (saves + [h.save])[..|saves|] == saves;
    }
  }

  lemma AfterSaveIs(l: Library, save: Save)
    ensures AfterSave(l, save) ==
              Library(FinalSets(save, l.sets), l.orders[save.kind := Restrict(save.order, FinalSets(save, l.sets).Keys)],
                      NewRecent(l.recent, l.sets, save.removed))
  {
  }

  lemma RunStarts(l: Library)
    ensures Tells([], []) && AfterSaves(l, SavesOf([])) == l
  {
  }

  lemma NothingPending(t: Traffic, log: seq<Event>, k: Kind)
    requires Wired(t, log) && Settled(Latest(log, k))
    requires forall r :: r in t.inFlight ==> !(t.inFlight[r].Change? && t.inFlight[r].kind == k)
    ensures Latest(log, k).issued <==> |Latest(log, k).order| >= 2
  {
    assert WiredAt(t, Latest(log, k), k);
    assert Latest(log, k).pending.Keys == {};
    assert Latest(log, k).pending == map[];
  }
}
