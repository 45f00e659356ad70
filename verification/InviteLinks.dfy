/** The first slices of a chat's invite links (`BringPermanentToFront`, `RemovePermanent`,
    `prependMyToFirstSlice`, `performEdit`, `requestMyLinks`, `setMyPermanent`, `clearMyPermanent`,
    `applyExternalUpdate`).

    `lookupMyPermanent` looks at element 0 only, so the active permanent link of a slice has to stay there.
    The functions say what each operation does to the slices; the class at the end is the program, and its
    methods are proved to do just that. */
module InviteLinks {
  import opened Collections

  type Peer = int

  datatype Link = Link(link: string, title: string, usage: int, expireDate: int, permanent: bool, revoked: bool)

  /** PeerInviteLinks. */
  datatype Links = Links(links: seq<Link>, count: int)

  type Slices = map<Peer, Links>

  predicate Active(l: Link) { l.permanent && !l.revoked }

  // ---------------------------------------------------------------- lists

  /** The first active permanent link, or the length. */
  function FirstActive(list: seq<Link>): (i: nat)
    ensures i <= |list| && (i < |list| ==> Active(list[i])) && forall k :: 0 <= k < i ==> !Active(list[k])
  {
    if list == [] || Active(list[0]) then 0 else 1 + FirstActive(list[1..])
  }

  /** The first link with this text, or the length. */
  function FirstNamed(list: seq<Link>, link: string): (i: nat)
    ensures i <= |list| && (i < |list| ==> list[i].link == link) && forall k :: 0 <= k < i ==> list[k].link != link
  {
    if list == [] || list[0].link == link then 0 else 1 + FirstNamed(list[1..], link)
  }

  /** The list with the first active permanent link moved to the front, all others in their order. */
  function Fronted(list: seq<Link>): seq<Link> {
    var i := FirstActive(list);
    if i < |list| then [list[i]] + (list[..i] + list[i + 1..]) else list
  }

  /** The links that satisfy a test, in order. */
  function Keep(list: seq<Link>, keep: Link -> bool): (r: seq<Link>)
    ensures forall l :: l in r <==> l in list && keep(l)
    ensures (forall k :: 0 <= k < |list| ==> keep(list[k])) ==> r == list
  {
    if list == [] then []
    else
      var r := Keep(list[..|list| - 1], keep);
      assert list == list[..|list| - 1] + [list[|list| - 1]];
      if keep(list[|list| - 1]) then r + [list[|list| - 1]] else r
  }

  function Inactive(list: seq<Link>): (r: seq<Link>)
    ensures forall k :: 0 <= k < |r| ==> !Active(r[k])
  {
    var r := Keep(list, (l: Link) => !Active(l));
    assert forall k :: 0 <= k < |r| ==> r[k] in r;
    r
  }

  function Erase(list: seq<Link>, i: nat): seq<Link>
    requires i < |list|
  {
    list[..i] + list[i + 1..]
  }

  /** At most one active permanent link, and it is at index 0. */
  predicate FrontOk(list: seq<Link>) { forall k :: 0 < k < |list| ==> !Active(list[k]) }

  predicate AtMostOneActive(list: seq<Link>) {
    forall i, j :: 0 <= i < j < |list| ==> !(Active(list[i]) && Active(list[j]))
  }

  /** `lookupMyPermanent`. */
  function Lookup(list: seq<Link>): Option<Link> {
    if list != [] && Active(list[0]) then Some(list[0]) else None
  }

  /** When the front is kept, looking at element 0 finds the active permanent link if there is one, and there
      is no other. */
  lemma LookupIsComplete(list: seq<Link>)
    requires FrontOk(list)
    ensures Lookup(list).Some? <==> exists k :: 0 <= k < |list| && Active(list[k])
    ensures forall k :: 0 <= k < |list| && Active(list[k]) ==> k == 0 && Lookup(list) == Some(list[k])
  {
  }

  /** Moving to the front keeps every link, and the order of all the others. */
  lemma FrontedKeepsOthers(list: seq<Link>)
    ensures multiset(Fronted(list)) == multiset(list)
    ensures Inactive(Fronted(list)) == Inactive(list)
    ensures FirstActive(list) < |list| ==> Fronted(list) != [] && Fronted(list)[0] == list[FirstActive(list)]
  {
    hide Inactive, Fronted;
    var i := FirstActive(list);
    if i < |list| {
      FrontedSplit(list);
      MoveKeeps(list[..i], list[i], list[i + 1..]);
    } else {
      assert Fronted(list) == list by { NothingToMove(list); }
    }
  }

  lemma FrontedSplit(list: seq<Link>)
    requires FirstActive(list) < |list|
    ensures var i := FirstActive(list);
            && list == list[..i] + ([list[i]] + list[i + 1..])
            && Fronted(list) == [list[i]] + (list[..i] + list[i + 1..])
  {
    SplitAt(list, FirstActive(list));
  }

  lemma SplitAt(list: seq<Link>, i: nat)
    requires i < |list|
    ensures list == list[..i] + ([list[i]] + list[i + 1..])
  {
  }

  lemma NothingToMove(list: seq<Link>)
    requires FirstActive(list) == |list|
    ensures Fronted(list) == list
  {
  }

  lemma MoveKeeps(a: seq<Link>, x: Link, b: seq<Link>)
    requires Active(x)
    ensures multiset([x] + (a + b)) == multiset(a + ([x] + b))
    ensures Inactive([x] + (a + b)) == Inactive(a + ([x] + b))
  {
    hide Inactive;
    KeepConcat([x], a + b);
    KeepConcat(a, b);
    KeepConcat(a, [x] + b);
    KeepConcat([x], b);
    assert Inactive([x]) == [] by { OneActive(x); }
    assert [] + Inactive(a + b) == Inactive(a + b) && [] + Inactive(b) == Inactive(b);
  }

  lemma OneActive(x: Link)
    requires Active(x)
    ensures Inactive([x]) == []
  {
    assert [x][..0] == [];
  }

  lemma {:induction false} KeepConcat(a: seq<Link>, b: seq<Link>)
    ensures Inactive(a + b) == Inactive(a) + Inactive(b)
  {
    if b == [] {
      assert a + b == a;
    } else {
      assert (a + b)[..|a + b| - 1] == a + b[..|b| - 1];
      KeepConcat(a, b[..|b| - 1]);
    }
  }

  /** The list moved to the front is good exactly when it had at most one active permanent link. */
  lemma FrontedOkIff(list: seq<Link>)
    ensures FrontOk(Fronted(list)) <==> AtMostOneActive(list)
  {
    var i, r := FirstActive(list), Fronted(list);
    if i < |list| {
      assert forall k :: 0 < k <= i ==> r[k] == list[k - 1];
      assert forall k :: i < k < |list| ==> r[k] == list[k];
    }
  }

  // ---------------------------------------------------------------- the operations

  datatype Event =
    | Prepended(peer: Peer, link: Link)                  // a link of mine was created
    | Edited(peer: Peer, key: string, link: Link)        // an edit or a revocation was answered
    | Listed(peer: Peer, slice: Links)                   // the first page of my links was answered
    | MyPermanent(peer: Peer, link: Link)                // the permanent link came with the full chat
    | NoPermanent(peer: Peer)                            // the full chat came without one
    | External(peer: Peer, updated: Link)                // an update from another part of the program
    | Pruned(peer: Peer)                                 // a join request was approved, by an unknown link

  function SliceOf(slices: Slices, peer: Peer): Links {
    if peer in slices then slices[peer] else Links([], 0)
  }

  function Less(count: int): int { if count > 0 then count - 1 else count }

  /** `prependMyToFirstSlice`. */
  function Prepend(s: Links, link: Link): Links {
    var had := Lookup(s.links).Some?;
    if link.permanent && had then Links([link] + s.links[1..], Less(s.count) + 1)
    else if had then Links([s.links[0], link] + s.links[1..], s.count + 1)
    else Links([link] + s.links, s.count + 1)
  }

  /** The slice part of `performEdit`. */
  function Edit(s: Links, key: string, link: Link): Links {
    var j := FirstNamed(s.links, key);
    if j == |s.links| then s
    else if link.revoked && !s.links[j].revoked then Links(Erase(s.links, j), Less(s.count))
    else Links(s.links[j := link], s.count)
  }

  /** `parseSlice`: the server's list without the permanent link that is already known. */
  function Parsed(known: Option<Link>, slice: Links): Links {
    match known
    case None => slice
    case Some(p) => Links(Keep(slice.links, (l: Link) => l.link != p.link), slice.count)
  }

  /** `requestMyLinks`. */
  function List(s: Links, slice: Links): Links {
    match Lookup(s.links)
    case None => Links(Fronted(slice.links), slice.count)
    case Some(p) =>
      var list := [s.links[0]] + Inactive(Parsed(Some(p), slice).links);
      Links(list, if slice.count > |list| then slice.count else |list|)
  }

  /** `setMyPermanent`. */
  function SetPermanent(s: Links, link: Link): Links {
    match Lookup(s.links)
    case None => Links([link] + s.links, s.count)
    case Some(p) =>
      if p.link == link.link then Links(s.links[0 := p.(usage := link.usage)], s.count)
      else Links([link] + s.links[1..], Less(s.count))
  }

  /** `clearMyPermanent`. */
  function ClearPermanent(s: Links): Links {
    if Lookup(s.links).Some? then Links(s.links[1..], Less(s.count)) else s
  }

  /** `applyExternalUpdate`: every link with this text is replaced. */
  function Replace(list: seq<Link>, updated: Link): (r: seq<Link>)
    ensures |r| == |list|
    ensures forall k :: 0 <= k < |list| ==> r[k] == if list[k].link == updated.link then updated else list[k]
  {
    seq(|list|, k requires 0 <= k < |list| => if list[k].link == updated.link then updated else list[k])
  }

  function Apply(slices: Slices, e: Event): Slices {
    match e
    case Prepended(p, link) => slices[p := Prepend(SliceOf(slices, p), link)]
    case Edited(p, key, link) => if p in slices then slices[p := Edit(slices[p], key, link)] else slices
    case Listed(p, slice) => slices[p := List(SliceOf(slices, p), slice)]
    case MyPermanent(p, link) => if link.permanent then slices[p := SetPermanent(SliceOf(slices, p), link)] else slices
    case NoPermanent(p) => if p in slices then slices[p := ClearPermanent(slices[p])] else slices
    case External(p, updated) =>
      if p in slices then slices[p := slices[p].(links := Replace(slices[p].links, updated))] else slices
    case Pruned(p) => slices - {p}
  }

  // ---------------------------------------------------------------- the same in the links themselves

  // Each lemma says what one event does to the slices: where the new link is, which link leaves, and that all
  // other links stay, in their order.

  /** The slice of this chat before the event. */
  function Before(slices: Slices, p: Peer): Links { if p in slices then slices[p] else Links([], 0) }

  /** The first link is an active permanent one. */
  predicate HasPermanent(list: seq<Link>) { list != [] && list[0].permanent && !list[0].revoked }

  /** No other chat's slice changes. */
  ghost predicate OnlyAt(slices: Slices, r: Slices, p: Peer) {
    forall q :: q != p ==> (q in r <==> q in slices) && (q in r && q in slices ==> r[q] == slices[q])
  }

  lemma PrependedMeans(slices: Slices, p: Peer, link: Link)
    ensures var r, s := Apply(slices, Prepended(p, link)), Before(slices, p);
            var i := if HasPermanent(s.links) && !link.permanent then 1 else 0;
            var replaced := HasPermanent(s.links) && link.permanent;
            && OnlyAt(slices, r, p) && p in r && i < |r[p].links| && r[p].links[i] == link
            && r[p].links[..i] + r[p].links[i + 1..] == (if replaced then s.links[1..] else s.links)
            && r[p].count == s.count + (if replaced && s.count > 0 then 0 else 1)
  {
    var s := Before(slices, p);
    if HasPermanent(s.links) && !link.permanent {
      assert [s.links[0]] + s.links[1..] == s.links;
    }
  }

  /** The first link with this text is replaced, or it goes when it is revoked by the edit. */
  ghost predicate EditsFirst(s: Links, key: string, link: Link, r: Links) {
    if forall j :: 0 <= j < |s.links| ==> s.links[j].link != key then r == s
    else exists j :: && 0 <= j < |s.links| && s.links[j].link == key && (forall i :: 0 <= i < j ==> s.links[i].link != key)
                     && (if link.revoked && !s.links[j].revoked
                         then && r.links == s.links[..j] + s.links[j + 1..]
                              && r.count == if s.count > 0 then s.count - 1 else s.count
                         else r.links == s.links[..j] + [link] + s.links[j + 1..] && r.count == s.count)
  }

  lemma EditMeans(s: Links, key: string, link: Link)
    ensures EditsFirst(s, key, link, Edit(s, key, link))
  {
    var j := FirstNamed(s.links, key);
    if j < |s.links| {
      assert s.links[j := link] == s.links[..j] + [link] + s.links[j + 1..];
    }
  }

  lemma EditedMeans(slices: Slices, p: Peer, key: string, link: Link)
    ensures var r := Apply(slices, Edited(p, key, link));
            && OnlyAt(slices, r, p) && (p in r <==> p in slices)
            && (p in slices ==> EditsFirst(slices[p], key, link, r[p]))
  {
    hide EditsFirst, Edit;
    if p in slices {
      EditMeans(slices[p], key, link);
    }
  }

  lemma MyPermanentMeans(slices: Slices, p: Peer, link: Link)
    ensures var r, s := Apply(slices, MyPermanent(p, link)), Before(slices, p);
            var same := HasPermanent(s.links) && s.links[0].link == link.link;
            && (!link.permanent ==> r == slices)
            && (link.permanent ==>
                  && OnlyAt(slices, r, p) && p in r && r[p].links != []
                  && r[p].links[0] == (if same then s.links[0].(usage := link.usage) else link)
                  && r[p].links[1..] == (if HasPermanent(s.links) then s.links[1..] else s.links)
                  && r[p].count == if HasPermanent(s.links) && !same && s.count > 0 then s.count - 1 else s.count)
  {
  }

  lemma NoPermanentMeans(slices: Slices, p: Peer)
    ensures var r, s := Apply(slices, NoPermanent(p)), Before(slices, p);
            && OnlyAt(slices, r, p) && (p in r <==> p in slices)
            && (p in slices ==> r[p].links == if HasPermanent(s.links) then s.links[1..] else s.links)
            && (p in slices ==> r[p].count == if HasPermanent(s.links) && s.count > 0 then s.count - 1 else s.count)
  {
  }

  lemma ExternalMeans(slices: Slices, p: Peer, updated: Link)
    ensures var r, s := Apply(slices, External(p, updated)), Before(slices, p);
            && OnlyAt(slices, r, p) && (p in r <==> p in slices)
            && (p in slices ==>
                  && r[p].count == s.count && |r[p].links| == |s.links|
                  && forall k :: 0 <= k < |s.links| ==>
                       r[p].links[k] == if s.links[k].link == updated.link then updated else s.links[k])
  {
  }

  lemma PrunedMeans(slices: Slices, p: Peer)
    ensures OnlyAt(slices, Apply(slices, Pruned(p)), p) && p !in Apply(slices, Pruned(p))
  {
  }

  /** The first list of a chat: all its links, the first active permanent one moved to the front. */
  lemma FirstListMeans(slices: Slices, p: Peer, slice: Links)
    requires !HasPermanent(Before(slices, p).links)
    ensures var r := Apply(slices, Listed(p, slice));
            && OnlyAt(slices, r, p) && p in r && r[p].count == slice.count
            && MovedToFront(slice.links, r[p].links)
  {
    FrontedMeans(slice.links);
    hide MovedToFront, Fronted;
  }

  ghost predicate MovedToFront(list: seq<Link>, r: seq<Link>) {
    if forall k :: 0 <= k < |list| ==> !list[k].permanent || list[k].revoked then r == list
    else exists i :: && 0 <= i < |list| && list[i].permanent && !list[i].revoked
                     && (forall k :: 0 <= k < i ==> !list[k].permanent || list[k].revoked)
                     && r == [list[i]] + list[..i] + list[i + 1..]
  }

  lemma FrontedMeans(list: seq<Link>)
    ensures MovedToFront(list, Fronted(list))
  {
    var i := FirstActive(list);
    if i < |list| {
      assert Fronted(list) == [list[i]] + list[..i] + list[i + 1..];
    }
  }

  /** A later list: the known permanent link stays in front, and behind it are, in the order received, exactly the
      links of the list that are neither active permanent ones nor the known one. */
  lemma LaterListMeans(slices: Slices, p: Peer, slice: Links)
    requires HasPermanent(Before(slices, p).links)
    ensures var r, known := Apply(slices, Listed(p, slice)), Before(slices, p).links[0];
            && OnlyAt(slices, r, p) && p in r && r[p].links != [] && r[p].links[0] == known
            && Picks(r[p].links[1..], slice.links, (l: Link) => (!l.permanent || l.revoked) && l.link != known.link)
            && r[p].count == if slice.count > |r[p].links| then slice.count else |r[p].links|
  {
    var known := Before(slices, p).links[0];
    var text, inactive := (l: Link) => l.link != known.link, (l: Link) => !Active(l);
    KeepTwice(slice.links, text, inactive);
    KeepPicks(slice.links, (l: Link) => text(l) && inactive(l));
    PicksSame(Keep(slice.links, (l: Link) => text(l) && inactive(l)), slice.links, (l: Link) => text(l) && inactive(l),
              (l: Link) => (!l.permanent || l.revoked) && l.link != known.link);
  }

  lemma {:induction false} KeepPicks(list: seq<Link>, keep: Link -> bool)
    ensures Picks(Keep(list, keep), list, keep)
  {
    if list == [] {
      PicksNothing(keep);
    } else {
      var n := |list| - 1;
      KeepPicks(list[..n], keep);
      PicksMore(Keep(list[..n], keep), list[..n], keep, list[n]);
      assert list == list[..n] + [list[n]];
    }
  }

  lemma {:induction false} KeepTwice(list: seq<Link>, f: Link -> bool, g: Link -> bool)
    ensures Keep(Keep(list, f), g) == Keep(list, (l: Link) => f(l) && g(l))
  {
    if list != [] {
      var n := |list| - 1;
      KeepTwice(list[..n], f, g);
      var r := Keep(list[..n], f);
      assert (r + [list[n]])[..|r|] == r;
    }
  }

  /** The links removed as permanent are exactly the active ones; the rest stays in order. */
  lemma InactiveMeans(list: seq<Link>)
    ensures Picks(Inactive(list), list, (l: Link) => !l.permanent || l.revoked)
  {
    KeepPicks(list, (l: Link) => !Active(l));
    PicksSame(Inactive(list), list, (l: Link) => !Active(l), (l: Link) => !l.permanent || l.revoked);
  }

  // ---------------------------------------------------------------- every reachable slice

  ghost predicate AllFront(slices: Slices) { forall p :: p in slices ==> FrontOk(slices[p].links) }

  /** What the server may not do: list two active permanent links where none is known yet, or turn a link that
      is stored behind the front into an active permanent one. */
  ghost predicate Allowed(slices: Slices, e: Event) {
    match e
    case Listed(p, slice) => Lookup(SliceOf(slices, p).links).None? ==> AtMostOneActive(slice.links)
    case Edited(p, key, link) =>
      p in slices && 0 < FirstNamed(slices[p].links, key) < |slices[p].links| ==> !Active(link)
    case External(p, updated) =>
      p in slices && Active(updated) ==> forall k :: 0 < k < |slices[p].links| ==> slices[p].links[k].link != updated.link
    case _ => true
  }

  /** Each operation keeps the front in place exactly when its event is allowed. */
  lemma ApplyKeepsFrontIff(slices: Slices, e: Event)
    requires AllFront(slices)
    ensures AllFront(Apply(slices, e)) <==> Allowed(slices, e)
  {
    hide FrontOk, AllFront, AtMostOneActive, Prepend, Edit, List, SetPermanent, ClearPermanent, Replace;
    var r, p := Apply(slices, e), e.peer;
    OnePeer(slices, r, p);
    var s := SliceOf(slices, p);
    match e
    case Prepended(_, link) => PrependKeeps(s, link);
    case Edited(_, key, link) => EditKeepsIff(s, key, link);
    case Listed(_, slice) => ListKeepsIff(s, slice);
    case MyPermanent(_, link) => SetKeeps(s, link);
    case NoPermanent(_) => ClearKeeps(s);
    case External(_, updated) => ReplaceKeepsIff(s.links, updated);
    case Pruned(_) =>
  }

  lemma OnePeer(slices: Slices, r: Slices, p: Peer)
    requires AllFront(slices) && forall q :: q in r && q != p ==> q in slices && r[q] == slices[q]
    ensures AllFront(r) <==> (p in r ==> FrontOk(r[p].links))
    ensures FrontOk(SliceOf(slices, p).links)
  {
    hide FrontOk;
    assert FrontOk([]) by { EmptyIsOk(); }
  }

  lemma EmptyIsOk()
    ensures FrontOk([])
  {
  }

  lemma PrependKeeps(s: Links, link: Link)
    requires FrontOk(s.links)
    ensures FrontOk(Prepend(s, link).links)
  {
  }

  lemma SetKeeps(s: Links, link: Link)
    requires FrontOk(s.links)
    ensures FrontOk(SetPermanent(s, link).links)
  {
  }

  lemma ClearKeeps(s: Links)
    requires FrontOk(s.links)
    ensures FrontOk(ClearPermanent(s).links)
  {
  }

  lemma ListKeepsIff(s: Links, slice: Links)
    requires FrontOk(s.links)
    ensures FrontOk(List(s, slice).links) <==> (Lookup(s.links).None? ==> AtMostOneActive(slice.links))
  {
    FrontedOkIff(slice.links);
    if Lookup(s.links).Some? {
      var rest := Inactive(Parsed(Lookup(s.links), slice).links);
      assert List(s, slice).links == [s.links[0]] + rest;
    }
  }

  lemma ReplaceKeepsIff(list: seq<Link>, updated: Link)
    requires FrontOk(list)
    ensures FrontOk(Replace(list, updated)) <==>
              (Active(updated) ==> forall k :: 0 < k < |list| ==> list[k].link != updated.link)
  {
    var r := Replace(list, updated);
    assert forall k :: 0 < k < |list| ==> (Active(r[k]) <==> list[k].link == updated.link && Active(updated));
  }

  lemma EditKeepsIff(s: Links, key: string, link: Link)
    requires FrontOk(s.links)
    ensures FrontOk(Edit(s, key, link).links) <==> (0 < FirstNamed(s.links, key) < |s.links| ==> !Active(link))
  {
    var j, r := FirstNamed(s.links, key), Edit(s, key, link).links;
    if j < |s.links| && !(link.revoked && !s.links[j].revoked) {
      assert r[j] == link;
    }
  }

  /** A server that never activates a link, that is, whose active permanent links were already active where the
      program stores them, only sends allowed edits. */
  lemma NoActivationIsAllowed(slices: Slices, e: Event)
    requires AllFront(slices) && (e.Edited? || e.External?) && e.peer in slices
    requires e.Edited? ==> forall k :: 0 <= k < |slices[e.peer].links| && slices[e.peer].links[k].link == e.key ==>
                             (Active(e.link) ==> Active(slices[e.peer].links[k]))
    requires e.External? ==> forall k :: 0 <= k < |slices[e.peer].links| && slices[e.peer].links[k].link == e.updated.link ==>
                               (Active(e.updated) ==> Active(slices[e.peer].links[k]))
    ensures Allowed(slices, e)
  {
  }

  /** The slices after a sequence of events, starting with none. */
  function After(events: seq<Event>): Slices {
    if events == [] then map[] else Apply(After(events[..|events| - 1]), events[|events| - 1])
  }

  /** In every run whose events are allowed, every slice has at most one active permanent link, at index 0. */
  lemma {:induction false} ReachableSlicesAreOk(events: seq<Event>)
    requires forall k :: 0 <= k < |events| ==> Allowed(After(events[..k]), events[k])
    ensures AllFront(After(events))
  {
    if events != [] {
      var n := |events| - 1;
      forall k | 0 <= k < n ensures Allowed(After(events[..n][..k]), events[..n][k]) {
        assert events[..n][..k] == events[..k];
      }
      ReachableSlicesAreOk(events[..n]);
      ApplyKeepsFrontIff(After(events[..n]), events[n]);
    }
  }

  /** A server that lists at most one active permanent link, and by edits and updates activates none. */
  ghost predicate Harmless(slices: Slices, e: Event) {
    match e
    case Listed(_, slice) => AtMostOneActive(slice.links)
    case Edited(p, key, link) => p in slices ==> !Activates(slices[p].links, key, link)
    case External(p, updated) => p in slices ==> !Activates(slices[p].links, updated.link, updated)
    case _ => true
  }

  /** A stored link with this text that is not an active permanent one would become one. */
  predicate Activates(list: seq<Link>, name: string, link: Link) {
    Active(link) && exists k :: 0 <= k < |list| && list[k].link == name && !Active(list[k])
  }

  /** With such a server every reachable slice has at most one active permanent link, at index 0. */
  lemma {:induction false} HarmlessServerKeepsFront(events: seq<Event>)
    requires forall k :: 0 <= k < |events| ==> Harmless(After(events[..k]), events[k])
    ensures AllFront(After(events))
  {
    if events != [] {
      var n := |events| - 1;
      forall k | 0 <= k < n ensures Harmless(After(events[..n][..k]), events[..n][k]) {
        assert events[..n][..k] == events[..k];
      }
      HarmlessServerKeepsFront(events[..n]);
      HarmlessIsAllowed(After(events[..n]), events[n]);
      ApplyKeepsFrontIff(After(events[..n]), events[n]);
    }
  }

  lemma HarmlessIsAllowed(slices: Slices, e: Event)
    requires AllFront(slices) && Harmless(slices, e)
    ensures Allowed(slices, e)
  {
    if (e.Edited? || e.External?) && e.peer in slices {
      assert FrontOk(slices[e.peer].links);
      NoActivationIsAllowed(slices, e);
    }
  }

  // ---------------------------------------------------------------- the loops

  /** `BringPermanentToFront`: find_if, then rotate. */
  method BringPermanentToFront(list: seq<Link>) returns (r: seq<Link>)
    ensures r == Fronted(list)
  {
    var i := 0;
    while i < |list| && !Active(list[i])
      invariant i <= |list| && forall k :: 0 <= k < i ==> !Active(list[k])
    {
      i := i + 1;
    }
    r := list;
    if i < |list| {
      assert FirstActive(list) == i;
      if i != 0 {
        r := [list[i]] + list[..i] + list[i + 1..];
        assert r == [list[i]] + (list[..i] + list[i + 1..]);
      } else {
        FrontedSplit(list);
        assert Fronted(list) == [list[0]] + ([] + list[1..]) == list;
      }
    }
  }

  /** `RemovePermanent`: remove_if and erase. */
  method RemovePermanent(list: seq<Link>) returns (r: seq<Link>)
    ensures r == Inactive(list)
  {
    r := [];
    for i := 0 to |list|
      invariant r == Inactive(list[..i])
    {
      assert list[..i + 1][..i] == list[..i];
      if !Active(list[i]) {
        r := r + [list[i]];
      }
    }
    assert list[..|list|] == list;
  }

  /** The links of an answer that parse; an invite for public join requests does not. */
  function Readable(invites: seq<Option<Link>>): seq<Link> {
    if invites == [] then []
    else
      var n := |invites| - 1;
      Readable(invites[..n]) + if invites[n].Some? then [invites[n].value] else []
  }

  /** They are exactly the invites that parse, in order. */
  lemma {:induction false} ReadableMeans(invites: seq<Option<Link>>)
    ensures Picks(Parses(Readable(invites)), invites, (x: Option<Link>) => x.Some?)
  {
    hide Picks;
    var keep := (x: Option<Link>) => x.Some?;
    if invites == [] {
      PicksNothing(keep);
      assert Parses(Readable(invites)) == [];
    } else {
      var n := |invites| - 1;
      var before := Readable(invites[..n]);
      ReadableMeans(invites[..n]);
      PicksMore(Parses(before), invites[..n], keep, invites[n]);
      assert invites == invites[..n] + [invites[n]];
      if keep(invites[n]) {
        ParsesMore(before, invites[n].value);
        assert Readable(invites) == before + [invites[n].value];
      } else {
        assert Readable(invites) == before + [] == before;
      }
    }
  }

  lemma ParsesMore(list: seq<Link>, link: Link)
    ensures Parses(list + [link]) == Parses(list) + [Some(link)]
  {
  }

  function Parses(list: seq<Link>): (r: seq<Option<Link>>)
    ensures |r| == |list| && forall k :: 0 <= k < |r| ==> r[k] == Some(list[k])
  {
    seq(|list|, k requires 0 <= k < |list| => Some(list[k]))
  }

  /** `parseSlice`, on the list the server sends. */
  method ParseSlice(known: Option<Link>, invites: seq<Option<Link>>, count: int) returns (r: Links)
    ensures r == Parsed(known, Links(Readable(invites), count))
  {
    var list: seq<Link> := [];
    for i := 0 to |invites|
      invariant list == Parsed(known, Links(Readable(invites[..i]), count)).links
    {
      assert invites[..i + 1][..i] == invites[..i];
      if invites[i].Some? {
        var link := invites[i].value;
        ParsedMore(known, Readable(invites[..i]), link, count);
        if known == None || link.link != known.value.link {
          list := list + [link];
        }
      } else {
        assert Readable(invites[..i]) + [] == Readable(invites[..i]);
      }
    }
    assert invites[..|invites|] == invites;
    r := Links(list, count);
  }

  lemma ParsedMore(known: Option<Link>, list: seq<Link>, link: Link, count: int)
    ensures Parsed(known, Links(list + [link], count)).links ==
              Parsed(known, Links(list, count)).links + if known == None || link.link != known.value.link then [link] else []
  {
    assert (list + [link])[..|list|] == list;
  }

  method FindNamed(list: seq<Link>, link: string) returns (j: nat)
    ensures j == FirstNamed(list, link)
  {
    j := 0;
    while j < |list| && list[j].link != link
      invariant j <= |list| && forall k :: 0 <= k < j ==> list[k].link != link
    {
      j := j + 1;
    }
  }

  /** The loop of `applyExternalUpdate`. */
  method ReplaceAll(list: seq<Link>, updated: Link) returns (r: seq<Link>)
    ensures r == Replace(list, updated)
  {
    r := list;
    for i := 0 to |list|
      invariant |r| == |list|
      invariant forall k :: 0 <= k < |list| ==> r[k] == if k < i && list[k].link == updated.link then updated else list[k]
    {
      if r[i].link == updated.link {
        r := r[i := updated];
      }
    }
  }

  /** The slice part of the done handler of `performEdit`. */
  method EditSlice(s: Links, key: string, link: Link) returns (r: Links)
    ensures r == Edit(s, key, link)
  {
    r := s;
    var j := FindNamed(s.links, key);
    if j != |s.links| {
      if link.revoked && !s.links[j].revoked {
        r := Links(s.links[..j] + s.links[j + 1..], if s.count > 0 then s.count - 1 else s.count);
      } else {
        r := Links(s.links[j := link], s.count);
      }
    }
  }

  /** The slice part of the done handler of `requestMyLinks`. */
  method ListSlice(s: Links, invites: seq<Option<Link>>, count: int) returns (r: Links)
    ensures r == List(s, Links(Readable(invites), count))
  {
    hide Fronted, Inactive, Parsed, Readable;
    ghost var result := Links(Readable(invites), count);
    var permanent := Lookup(s.links);
    var slice := ParseSlice(permanent, invites, count);
    if permanent == None {
      assert slice == result by { NothingKnown(result); }
      var list := BringPermanentToFront(slice.links);
      r := Links(list, slice.count);
    } else {
      var list := RemovePermanent(slice.links);
      var existing := s.links[..1] + list;
      assert existing == [s.links[0]] + list;
      r := Links(existing, if slice.count > |existing| then slice.count else |existing|);
      assert slice.count == result.count by { SameCount(permanent, result); }
    }
  }

  lemma SameCount(known: Option<Link>, slice: Links)
    ensures Parsed(known, slice).count == slice.count
  {
  }

  // ---------------------------------------------------------------- the object

  datatype LinkKey = LinkKey(peer: Peer, link: string)

  /** A request on the wire. */
  datatype Sent = EditOf(key: LinkKey, revoke: bool) | DeleteOf(key: LinkKey) | ListOf(peer: Peer)

  /** What a request is about: at most one is in flight for each. */
  datatype Subject = Editing(key: LinkKey) | Deleting(key: LinkKey) | Listing(peer: Peer)

  function SubjectOf(sent: Sent): Subject {
    match sent
    case EditOf(key, _) => Editing(key)
    case DeleteOf(key) => Deleting(key)
    case ListOf(peer) => Listing(peer)
  }

  /** Requests in flight and their subjects correspond one to one. */
  ghost predicate OneEach(inFlight: map<int, Sent>, requestOf: map<Subject, int>) {
    && (forall id :: id in inFlight ==> SubjectOf(inFlight[id]) in requestOf && requestOf[SubjectOf(inFlight[id])] == id)
    && (forall s :: s in requestOf ==> requestOf[s] in inFlight && SubjectOf(inFlight[requestOf[s]]) == s)
  }

  lemma Asked(inFlight: map<int, Sent>, requestOf: map<Subject, int>, id: int, sent: Sent)
    requires OneEach(inFlight, requestOf) && id !in inFlight && SubjectOf(sent) !in requestOf
    ensures OneEach(inFlight[id := sent], requestOf[SubjectOf(sent) := id])
  {
  }

  lemma Answered(inFlight: map<int, Sent>, requestOf: map<Subject, int>, id: int)
    requires OneEach(inFlight, requestOf) && id in inFlight
    ensures SubjectOf(inFlight[id]) in requestOf
    ensures OneEach(inFlight - {id}, requestOf - {SubjectOf(inFlight[id])})
  {
  }

  function Joined(callbacks: seq<int>, done: Option<int>): seq<int> {
    match done
    case None => callbacks
    case Some(d) => callbacks + [d]
  }

  /** The requests in flight and the callbacks waiting for them. */
  datatype Tables = Tables(inFlight: map<int, Sent>, edits: map<LinkKey, seq<int>>, deletes: map<LinkKey, seq<int>>,
                           asked: map<int, Sent>)

  /** Requests are only added, and callbacks only join. */
  ghost predicate Kept(a: Tables, b: Tables) {
    && (forall id :: id in a.asked ==> id in b.asked && b.asked[id] == a.asked[id])
    && (forall id :: id in a.inFlight ==> id in b.inFlight && b.inFlight[id] == a.inFlight[id])
    && (forall key :: key in a.edits ==> key in b.edits && a.edits[key] <= b.edits[key])
    && (forall key :: key in a.deletes ==> key in b.deletes && a.deletes[key] <= b.deletes[key])
  }

  lemma KeptOn(a: Tables, b: Tables, c: Tables)
    requires Kept(a, b) && Kept(b, c)
    ensures Kept(a, c)
  {
  }

  lemma KeptAll(a: Tables)
    ensures Kept(a, a)
  {
  }

  lemma SubjectsFly(inFlight: map<int, Sent>, requestOf: map<Subject, int>)
    requires OneEach(inFlight, requestOf)
    ensures forall s :: s in requestOf ==> requestOf[s] in inFlight
  {
  }

  lemma KeptEdit(a: Tables, key: LinkKey, list: seq<int>)
    requires key in a.edits ==> a.edits[key] <= list
    ensures Kept(a, a.(edits := a.edits[key := list]))
  {
  }

  lemma KeptDelete(a: Tables, key: LinkKey, list: seq<int>)
    requires key in a.deletes ==> a.deletes[key] <= list
    ensures Kept(a, a.(deletes := a.deletes[key := list]))
  {
  }

  lemma KeptSend(a: Tables, id: int, sent: Sent)
    requires id !in a.inFlight && id !in a.asked
    ensures Kept(a, a.(inFlight := a.inFlight[id := sent], asked := a.asked[id := sent]))
  {
  }

  /** What a running callback may do next. */
  datatype Move = ReEdit(key: LinkKey, revoke: bool, done: Option<int>) | ReDelete(key: LinkKey, done: Option<int>)
                | ReList(peer: Peer) | Return

  class InviteLinks {
    var firstSlices: Slices
    var chatLink: map<Peer, string>       // what editPermanentLink set last

    var editCallbacks: map<LinkKey, seq<int>>
    var deleteCallbacks: map<LinkKey, seq<int>>
    var sliceRequests: set<Peer>
    var called: seq<int>                  // callbacks that ran, in order

    var inFlight: map<int, Sent>
    var lastId: int
    ghost var requestOf: map<Subject, int>
    ghost var asked: map<int, Sent>       // all requests ever sent

    /** The tables say which requests are in flight, so a reply always finds its entry. */
    ghost predicate RequestsOk()
      reads `editCallbacks, `deleteCallbacks, `sliceRequests, `inFlight, `lastId, `requestOf, `asked
    {
      && OneEach(inFlight, requestOf)
      && (forall key :: key in editCallbacks <==> Editing(key) in requestOf)
      && (forall key :: key in deleteCallbacks <==> Deleting(key) in requestOf)
      && (forall peer :: peer in sliceRequests <==> Listing(peer) in requestOf)
      && lastId >= 0 && (forall id :: id in inFlight ==> 0 < id <= lastId) && AskedOk()
    }

    ghost predicate AskedOk()
      reads `inFlight, `lastId, `asked
    {
      && (forall id :: id in inFlight ==> id in asked && asked[id] == inFlight[id])
      && (forall id :: id in asked ==> id <= lastId)
    }

    constructor ()
      ensures RequestsOk() && firstSlices == After([]) && inFlight == map[] && asked == map[]
    {
      firstSlices, chatLink, editCallbacks, deleteCallbacks := map[], map[], map[], map[];
      sliceRequests, called, inFlight, lastId, requestOf, asked := {}, [], map[], 0, map[], map[];
    }

    lemma FlightAsked()
      requires RequestsOk()
      ensures forall id :: id in inFlight ==> id in asked && asked[id] == inFlight[id]
    {
    }

    /** With nothing in flight no callback waits and no list is awaited. */
    lemma QuietMeansAnswered()
      requires RequestsOk()
      ensures inFlight == map[] ==> editCallbacks.Keys == {} && deleteCallbacks.Keys == {} && forall peer :: peer !in sliceRequests
    {
      SubjectsFly(inFlight, requestOf);
      if inFlight == map[] {
        assert forall id :: id !in inFlight;
        assert forall s :: s !in requestOf;
        assert forall key :: Editing(key) !in requestOf && Deleting(key) !in requestOf;
        assert forall peer :: Listing(peer) !in requestOf;
      }
    }

    method Send(sent: Sent)
      requires OneEach(inFlight, requestOf) && SubjectOf(sent) !in requestOf
      requires lastId >= 0 && (forall id :: id in inFlight ==> 0 < id <= lastId) && AskedOk()
      modifies `inFlight, `lastId, `requestOf, `asked
      ensures OneEach(inFlight, requestOf) && lastId == old(lastId) + 1
      ensures inFlight == old(inFlight)[lastId := sent] && requestOf == old(requestOf)[SubjectOf(sent) := lastId]
      ensures (forall id :: id in inFlight ==> 0 < id <= lastId) && AskedOk() && asked == old(asked)[lastId := sent]
    {
      Asked(inFlight, requestOf, lastId + 1, sent);
      lastId := lastId + 1;
      inFlight := inFlight[lastId := sent];
      asked := asked[lastId := sent];
      requestOf := requestOf[SubjectOf(sent) := lastId];
    }

    method Receive(id: int) returns (sent: Sent)
      requires OneEach(inFlight, requestOf) && id in inFlight
      modifies `inFlight, `requestOf
      ensures OneEach(inFlight, requestOf) && sent == old(inFlight)[id]
      ensures inFlight == old(inFlight) - {id} && requestOf == old(requestOf) - {SubjectOf(sent)}
      ensures SubjectOf(sent) in old(requestOf)
    {
      Answered(inFlight, requestOf, id);
      sent := inFlight[id];
      inFlight := inFlight - {id};
      requestOf := requestOf - {SubjectOf(sent)};
    }

    /** The slice part of `prepend`, for a link of mine. */
    method PrependMyToFirstSlice(peer: Peer, link: Link)
      modifies `firstSlices, `chatLink
      ensures firstSlices == Apply(old(firstSlices), Prepended(peer, link))
      ensures chatLink == if link.permanent then old(chatLink)[peer := link.link] else old(chatLink)
    {
      var s := SliceOf(firstSlices, peer);
      var list, count := s.links, s.count;
      var hadPermanent := list != [] && Active(list[0]);
      if link.permanent && hadPermanent {
        list := list[1..];
        if count > 0 {
          count := count - 1;
        }
      }
      count := count + 1;
      if hadPermanent && !link.permanent {
        list := list[..1] + [link] + list[1..];
        assert list == [s.links[0], link] + s.links[1..];
      } else {
        list := [link] + list;
      }
      firstSlices := firstSlices[peer := Links(list, count)];
      if link.permanent {
        chatLink := chatLink[peer := link.link];
      }
    }

    /** `performEdit`: one request per link; further callers join it, and a link being deleted is left alone. */
    method PerformEdit(key: LinkKey, revoke: bool, done: Option<int>)
      requires RequestsOk()
      modifies `editCallbacks, `inFlight, `lastId, `requestOf, `asked
      ensures RequestsOk() && Kept(old(Now()), Now())
      ensures key in old(deleteCallbacks) ==> editCallbacks == old(editCallbacks) && inFlight == old(inFlight)
      ensures key !in old(deleteCallbacks) ==>
                editCallbacks == old(editCallbacks)[key := Joined(if key in old(editCallbacks) then old(editCallbacks)[key] else [], done)]
      ensures key !in old(deleteCallbacks) && key in old(editCallbacks) ==> inFlight == old(inFlight)
      ensures key !in old(deleteCallbacks) && key !in old(editCallbacks) ==>
                inFlight == old(inFlight)[lastId := EditOf(key, revoke)] && lastId == old(lastId) + 1
    {
      hide OneEach, Kept;
      KeptAll(Now());
      if key in deleteCallbacks {
        return;
      }
      if key in editCallbacks {
        KeptEdit(Now(), key, Joined(editCallbacks[key], done));
        if done.Some? {
          editCallbacks := editCallbacks[key := editCallbacks[key] + [done.value]];
        } else {
          assert editCallbacks[key := editCallbacks[key]] == editCallbacks;
        }
        return;
      }
      StartEdit(key, revoke, done);
    }

    method StartEdit(key: LinkKey, revoke: bool, done: Option<int>)
      requires RequestsOk() && key !in editCallbacks
      modifies `editCallbacks, `inFlight, `lastId, `requestOf, `asked
      ensures RequestsOk() && Kept(old(Now()), Now())
      ensures editCallbacks == old(editCallbacks)[key := Joined([], done)]
      ensures inFlight == old(inFlight)[lastId := EditOf(key, revoke)] && lastId == old(lastId) + 1
    {
      hide OneEach, Kept;
      KeptEdit(Now(), key, Joined([], done));
      editCallbacks := editCallbacks[key := Joined([], done)];
      ghost var before := Now();
      KeptSend(before, lastId + 1, EditOf(key, revoke));
      Send(EditOf(key, revoke));
      KeptOn(old(Now()), before, Now());
    }

    ghost function Now(): Tables
      reads `inFlight, `editCallbacks, `deleteCallbacks, `asked
    {
      Tables(inFlight, editCallbacks, deleteCallbacks, asked)
    }

    /** The calls one running callback makes. */
    method Reenter(tape: seq<Move>) returns (rest: seq<Move>)
      requires RequestsOk()
      modifies `editCallbacks, `deleteCallbacks, `sliceRequests, `inFlight, `lastId, `requestOf, `asked
      ensures RequestsOk() && |rest| <= |tape| && Kept(old(Now()), Now())
    {
      KeptAll(Now());
      hide OneEach, Kept;
      rest := tape;
      while rest != [] && rest[0] != Return
        invariant RequestsOk() && |rest| <= |tape| && Kept(old(Now()), Now())
        decreases |rest|
      {
        ghost var before := Now();
        match rest[0] {
          case ReEdit(key, revoke, done) => PerformEdit(key, revoke, done);
          case ReDelete(key, done) => Destroy(key, done);
          case ReList(peer) => RequestMyLinks(peer);
          case Return =>
        }
        KeptOn(old(Now()), before, Now());
        rest := rest[1..];
      }
      if rest != [] {
        rest := rest[1..];
      }
    }

    /** Callbacks run in order; each may call in before the next one runs. */
    method RunAll(callbacks: seq<int>, tape: seq<Move>) returns (rest: seq<Move>)
      requires RequestsOk()
      modifies `called, `editCallbacks, `deleteCallbacks, `sliceRequests, `inFlight, `lastId, `requestOf, `asked
      ensures RequestsOk() && |rest| <= |tape| && called == old(called) + callbacks
      ensures Kept(old(Now()), Now())
    {
      KeptAll(Now());
      hide OneEach, Kept;
      rest := tape;
      for i := 0 to |callbacks|
        invariant RequestsOk() && |rest| <= |tape| && called == old(called) + callbacks[..i]
        invariant Kept(old(Now()), Now())
      {
        ghost var before := Now();
        called := called + [callbacks[i]];
        rest := Reenter(rest);
        KeptOn(old(Now()), before, Now());
      }
    }

    /** The done handler of `performEdit`: the entry it dereferences is always there, its callbacks all run, and a
        link of mine that replaces the old one is prepended at the end. */
    method EditDone(id: int, result: Option<Link>, mine: bool, replacement: Option<Link>, tape: seq<Move>)
      returns (rest: seq<Move>)
      requires RequestsOk() && id in inFlight && inFlight[id].EditOf?
      modifies this
      ensures RequestsOk() && |rest| <= |tape|
      ensures var key := old(inFlight)[id].key;
              && key in old(editCallbacks)
              && Kept(Tables(old(inFlight) - {id}, old(editCallbacks) - {key}, old(deleteCallbacks), old(asked)), Now())
              && called == old(called) + (if result.Some? then old(editCallbacks)[key] else [])
      ensures var key := old(inFlight)[id].key;
              var edited := if result.Some? then Apply(old(firstSlices), Edited(key.peer, key.link, result.value))
                            else old(firstSlices);
              var prepends := result.Some? && mine && replacement.Some?;
              && firstSlices == (if prepends then Apply(edited, Prepended(key.peer, replacement.value)) else edited)
              && chatLink == (if prepends && replacement.value.permanent then old(chatLink)[key.peer := replacement.value.link]
                              else old(chatLink))
    {
      hide OneEach, Kept, Apply;
      rest := tape;
      var callbacks, peer := TakeEdit(id, result);
      KeptAll(Now());
      if result == None {
        return;
      }
      rest := RunAll(callbacks, rest);
      if mine && replacement.Some? {
        PrependMyToFirstSlice(peer, replacement.value);
      }
    }

    /** Its first half: the entry is taken and the slice edited. */
    method TakeEdit(id: int, result: Option<Link>) returns (callbacks: seq<int>, peer: Peer)
      requires RequestsOk() && id in inFlight && inFlight[id].EditOf?
      modifies `firstSlices, `editCallbacks, `inFlight, `requestOf
      ensures RequestsOk() && inFlight == old(inFlight) - {id}
      ensures var key := old(inFlight)[id].key;
              && key in old(editCallbacks) && callbacks == old(editCallbacks)[key] && peer == key.peer
              && editCallbacks == old(editCallbacks) - {key}
              && firstSlices == (if result.Some? then Apply(old(firstSlices), Edited(key.peer, key.link, result.value))
                                 else old(firstSlices))
    {
      hide RequestsOk, Edit;
      var key;
      key, callbacks := TakeCallbacks(id);
      peer := key.peer;
      if result.Some? && peer in firstSlices {
        var s := EditSlice(firstSlices[peer], key.link, result.value);
        firstSlices := firstSlices[peer := s];
      }
    }

    method TakeCallbacks(id: int) returns (key: LinkKey, callbacks: seq<int>)
      requires RequestsOk() && id in inFlight && inFlight[id].EditOf?
      modifies `editCallbacks, `inFlight, `requestOf
      ensures RequestsOk() && inFlight == old(inFlight) - {id} && key == old(inFlight)[id].key
      ensures key in old(editCallbacks) && callbacks == old(editCallbacks)[key] && editCallbacks == old(editCallbacks) - {key}
    {
      hide OneEach;
      var sent := Receive(id);
      key := sent.key;
      callbacks := editCallbacks[key];
      editCallbacks := editCallbacks - {key};
    }

    method EditFailed(id: int)
      requires RequestsOk() && id in inFlight && inFlight[id].EditOf?
      modifies `editCallbacks, `inFlight, `requestOf
      ensures RequestsOk() && inFlight == old(inFlight) - {id} && editCallbacks == old(editCallbacks) - {old(inFlight)[id].key}
    {
      var key, callbacks := TakeCallbacks(id);
    }

    /** `destroy`. */
    method Destroy(key: LinkKey, done: Option<int>)
      requires RequestsOk()
      modifies `deleteCallbacks, `inFlight, `lastId, `requestOf, `asked
      ensures RequestsOk() && key in deleteCallbacks && Kept(old(Now()), Now())
      ensures key in old(deleteCallbacks) ==> inFlight == old(inFlight)
      ensures key !in old(deleteCallbacks) ==> inFlight == old(inFlight)[lastId := DeleteOf(key)] && lastId == old(lastId) + 1
    {
      hide OneEach, Kept;
      KeptAll(Now());
      if key in deleteCallbacks {
        KeptDelete(Now(), key, Joined(deleteCallbacks[key], done));
        if done.Some? {
          deleteCallbacks := deleteCallbacks[key := deleteCallbacks[key] + [done.value]];
        }
        return;
      }
      StartDelete(key, done);
    }

    method StartDelete(key: LinkKey, done: Option<int>)
      requires RequestsOk() && key !in deleteCallbacks
      modifies `deleteCallbacks, `inFlight, `lastId, `requestOf, `asked
      ensures RequestsOk() && Kept(old(Now()), Now())
      ensures deleteCallbacks == old(deleteCallbacks)[key := Joined([], done)]
      ensures inFlight == old(inFlight)[lastId := DeleteOf(key)] && lastId == old(lastId) + 1
    {
      hide OneEach, Kept;
      KeptDelete(Now(), key, Joined([], done));
      assert Joined([], done) == if done.Some? then [done.value] else [];
      deleteCallbacks := deleteCallbacks[key := if done.Some? then [done.value] else []];
      ghost var before := Now();
      KeptSend(before, lastId + 1, DeleteOf(key));
      Send(DeleteOf(key));
      KeptOn(old(Now()), before, Now());
    }

    /** Its done and fail handlers. */
    method DestroyAnswered(id: int, success: bool, tape: seq<Move>) returns (rest: seq<Move>)
      requires RequestsOk() && id in inFlight && inFlight[id].DeleteOf?
      modifies `deleteCallbacks, `editCallbacks, `sliceRequests, `called, `inFlight, `lastId, `requestOf, `asked
      ensures RequestsOk() && |rest| <= |tape|
      ensures var key := old(inFlight)[id].key;
              && key in old(deleteCallbacks)
              && Kept(Tables(old(inFlight) - {id}, old(editCallbacks), old(deleteCallbacks) - {key}, old(asked)), Now())
              && called == old(called) + (if success then old(deleteCallbacks)[key] else [])
    {
      hide OneEach, Kept;
      rest := tape;
      var sent := Receive(id);
      var callbacks := deleteCallbacks[sent.key];
      deleteCallbacks := deleteCallbacks - {sent.key};
      KeptAll(Now());
      if success {
        rest := RunAll(callbacks, rest);
      }
    }

    /** `requestMyLinks`. */
    method RequestMyLinks(peer: Peer)
      requires RequestsOk()
      modifies `sliceRequests, `inFlight, `lastId, `requestOf, `asked
      ensures RequestsOk() && sliceRequests == old(sliceRequests) + {peer}
      ensures Kept(old(Now()), Now())
      ensures inFlight == if peer in old(sliceRequests) then old(inFlight) else old(inFlight)[lastId := ListOf(peer)]
    {
      hide OneEach;
      if peer in sliceRequests {
        return;
      }
      Send(ListOf(peer));
      sliceRequests := sliceRequests + {peer};
    }

    /** Its done handler. */
    method MyLinksDone(id: int, invites: seq<Option<Link>>, count: int)
      requires RequestsOk() && id in inFlight && inFlight[id].ListOf?
      modifies `firstSlices, `chatLink, `sliceRequests, `inFlight, `requestOf
      ensures RequestsOk() && inFlight == old(inFlight) - {id}
      ensures var peer := old(inFlight)[id].peer;
              && firstSlices == Apply(old(firstSlices), Listed(peer, Links(Readable(invites), count)))
              && chatLink == (match Lookup(firstSlices[peer].links)
                              case Some(p) => if Lookup(SliceOf(old(firstSlices), peer).links).None? then old(chatLink)[peer := p.link]
                                              else old(chatLink)
                              case None => old(chatLink))
    {
      hide RequestsOk, Apply, Lookup;
      var peer := TakeList(id);
      StoreList(peer, invites, count);
    }

    /** The request for the list is no longer in flight. */
    method TakeList(id: int) returns (peer: Peer)
      requires RequestsOk() && id in inFlight && inFlight[id].ListOf?
      modifies `sliceRequests, `inFlight, `requestOf
      ensures RequestsOk() && inFlight == old(inFlight) - {id} && peer == old(inFlight)[id].peer
    {
      hide OneEach;
      var sent := Receive(id);
      peer := sent.peer;
      sliceRequests := sliceRequests - {peer};
    }

    method StoreList(peer: Peer, invites: seq<Option<Link>>, count: int)
      modifies `firstSlices, `chatLink
      ensures firstSlices == Apply(old(firstSlices), Listed(peer, Links(Readable(invites), count)))
      ensures peer in firstSlices
      ensures chatLink == match Lookup(firstSlices[peer].links)
                          case Some(p) => if Lookup(SliceOf(old(firstSlices), peer).links).None? then old(chatLink)[peer := p.link]
                                          else old(chatLink)
                          case None => old(chatLink)
    {
      hide Fronted, Inactive, Parsed, Readable;
      var s := SliceOf(firstSlices, peer);
      var r := ListSlice(s, invites, count);
      firstSlices := firstSlices[peer := r];
      if Lookup(s.links) == None && r.links != [] && Active(r.links[0]) {
        chatLink := chatLink[peer := r.links[0].link];
      }
    }

    method MyLinksFailed(id: int)
      requires RequestsOk() && id in inFlight && inFlight[id].ListOf?
      modifies `sliceRequests, `inFlight, `requestOf
      ensures RequestsOk() && inFlight == old(inFlight) - {id}
    {
      var peer := TakeList(id);
    }

    /** `setMyPermanent`, for a link that parses. */
    method SetMyPermanent(peer: Peer, link: Link)
      modifies `firstSlices, `chatLink
      ensures firstSlices == Apply(old(firstSlices), MyPermanent(peer, link))
      ensures chatLink == if !link.permanent || SameText(Lookup(SliceOf(old(firstSlices), peer).links), link) then old(chatLink)
                          else old(chatLink)[peer := link.link]
    {
      if !link.permanent {
        return;
      }
      var s := SliceOf(firstSlices, peer);
      var list, count := s.links, s.count;
      if list != [] && Active(list[0]) {
        if list[0].link == link.link {
          if list[0].usage != link.usage {
            list := list[0 := list[0].(usage := link.usage)];
          } else {
            assert list[0 := list[0].(usage := link.usage)] == list;
          }
          firstSlices := firstSlices[peer := Links(list, count)];
          return;
        }
        list := list[1..];
        if count > 0 {
          count := count - 1;
        }
      }
      list := [link] + list;
      firstSlices := firstSlices[peer := Links(list, count)];
      chatLink := chatLink[peer := link.link];
    }

    /** `clearMyPermanent`. */
    method ClearMyPermanent(peer: Peer)
      modifies `firstSlices, `chatLink
      ensures firstSlices == Apply(old(firstSlices), NoPermanent(peer))
      ensures chatLink == if Lookup(SliceOf(old(firstSlices), peer).links).Some? then old(chatLink)[peer := ""] else old(chatLink)
    {
      if peer !in firstSlices {
        return;
      }
      var s := firstSlices[peer];
      if Lookup(s.links) == None {
        assert firstSlices[peer := s] == firstSlices;
        return;
      }
      firstSlices := firstSlices[peer := Links(s.links[1..], if s.count > 0 then s.count - 1 else s.count)];
      chatLink := chatLink[peer := ""];
    }

    /** `applyExternalUpdate`. */
    method ApplyExternalUpdate(peer: Peer, updated: Link)
      modifies `firstSlices
      ensures firstSlices == Apply(old(firstSlices), External(peer, updated))
    {
      if peer in firstSlices {
        var list := ReplaceAll(firstSlices[peer].links, updated);
        firstSlices := firstSlices[peer := firstSlices[peer].(links := list)];
      }
    }

    /** The slice part of `processRequest` for an approval by an unknown link. */
    method Prune(peer: Peer)
      modifies `firstSlices
      ensures firstSlices == Apply(old(firstSlices), Pruned(peer))
    {
      firstSlices := firstSlices - {peer};
    }

    /** One call, and the changes of the slices it makes.  A reply to a request that is not in flight does not occur,
        so it is skipped. */
    method Step(c: Call) returns (ghost events: seq<Event>)
      requires RequestsOk()
      modifies this
      ensures RequestsOk() && firstSlices == AfterMore(old(firstSlices), events)
      ensures Causes(c, old(inFlight), events)
      ensures forall id :: id in old(asked) ==> id in asked && asked[id] == old(asked)[id]
    {
      hide RequestsOk, Apply, AskedOk;
      events := [];
      AfterNone(firstSlices);
      match c
      case Creates(peer, link) =>
        PrependMyToFirstSlice(peer, link);
        events := [Prepended(peer, link)];
        AfterOne(old(firstSlices), events[0]);
      case Edits(key, revoke, done) => PerformEdit(key, revoke, done);
      case Deletes(key, done) => Destroy(key, done);
      case Lists(peer) => RequestMyLinks(peer);
      case FullChat(peer, link) =>
        if link.Some? {
          SetMyPermanent(peer, link.value);
          events := [MyPermanent(peer, link.value)];
          AfterOne(old(firstSlices), events[0]);
        } else {
          ClearMyPermanent(peer);
          events := [NoPermanent(peer)];
          AfterOne(old(firstSlices), events[0]);
        }
      case Updates(peer, link) =>
        ApplyExternalUpdate(peer, link);
        events := [External(peer, link)];
        AfterOne(old(firstSlices), events[0]);
      case Approves(peer) =>
        Prune(peer);
        events := [Pruned(peer)];
        AfterOne(old(firstSlices), events[0]);
      case EditReplied(id, result, mine, replacement, tape) =>
        if id in inFlight && inFlight[id].EditOf? {
          events := EditEvents(inFlight[id].key, result, mine, replacement);
          AfterEdit(firstSlices, inFlight[id].key, result, mine, replacement);
          var rest := EditDone(id, result, mine, replacement, tape);
        }
      case DeleteReplied(id, success, tape) =>
        if id in inFlight && inFlight[id].DeleteOf? { var rest := DestroyAnswered(id, success, tape); }
      case ListReplied(id, invites, count) =>
        if id in inFlight && inFlight[id].ListOf? {
          events := [Listed(inFlight[id].peer, Links(Readable(invites), count))];
          AfterOne(firstSlices, events[0]);
          MyLinksDone(id, invites, count);
        }
      case Errors(id) =>
        if id in inFlight && inFlight[id].EditOf? { EditFailed(id); }
        else if id in inFlight && inFlight[id].ListOf? { MyLinksFailed(id); }
        else if id in inFlight { var rest := DestroyAnswered(id, false, []); }
    }
  }

  function EditEvents(key: LinkKey, result: Option<Link>, mine: bool, replacement: Option<Link>): seq<Event> {
    if result == None then []
    else [Edited(key.peer, key.link, result.value)]
         + if mine && replacement.Some? then [Prepended(key.peer, replacement.value)] else []
  }

  function AfterMore(slices: Slices, events: seq<Event>): Slices {
    if events == [] then slices else Apply(AfterMore(slices, events[..|events| - 1]), events[|events| - 1])
  }

  lemma AfterNone(slices: Slices)
    ensures AfterMore(slices, []) == slices
  {
  }

  lemma AfterOne(slices: Slices, e: Event)
    ensures AfterMore(slices, [e]) == Apply(slices, e)
  {
    assert [e][..0] == [];
  }

  lemma AfterEdit(slices: Slices, key: LinkKey, result: Option<Link>, mine: bool, replacement: Option<Link>)
    ensures var edited := if result.Some? then Apply(slices, Edited(key.peer, key.link, result.value)) else slices;
            AfterMore(slices, EditEvents(key, result, mine, replacement)) ==
              if result.Some? && mine && replacement.Some? then Apply(edited, Prepended(key.peer, replacement.value)) else edited
  {
    if result.Some? {
      var e := Edited(key.peer, key.link, result.value);
      AfterOne(slices, e);
      if mine && replacement.Some? {
        assert [e, Prepended(key.peer, replacement.value)][..1] == [e];
      } else {
        assert [e] + [] == [e];
      }
    }
  }

  predicate SameText(known: Option<Link>, link: Link) { known.Some? && known.value.link == link.link }

  lemma NothingKnown(slice: Links)
    ensures Parsed(None, slice) == slice
  {
  }

  // ---------------------------------------------------------------- all runs

  datatype Call =
    | Creates(peer: Peer, link: Link)
    | Edits(key: LinkKey, revoke: bool, done: Option<int>)
    | Deletes(key: LinkKey, done: Option<int>)
    | Lists(peer: Peer)
    | FullChat(peer: Peer, permanent: Option<Link>)
    | Updates(peer: Peer, link: Link)
    | Approves(peer: Peer)
    | EditReplied(id: int, result: Option<Link>, mine: bool, replacement: Option<Link>, tape: seq<Move>)
    | DeleteReplied(id: int, success: bool, tape: seq<Move>)
    | ListReplied(id: int, invites: seq<Option<Link>>, count: int)
    | Errors(id: int)

  /** The changes of the slices that one call makes, given the requests in flight. */
  predicate Causes(c: Call, inFlight: map<int, Sent>, events: seq<Event>) {
    events == match c
      case Creates(peer, link) => [Prepended(peer, link)]
      case FullChat(peer, link) => if link.Some? then [MyPermanent(peer, link.value)] else [NoPermanent(peer)]
      case Updates(peer, link) => [External(peer, link)]
      case Approves(peer) => [Pruned(peer)]
      case EditReplied(id, result, mine, replacement, _) =>
        if id in inFlight && inFlight[id].EditOf? then EditEvents(inFlight[id].key, result, mine, replacement) else []
      case ListReplied(id, invites, count) =>
        if id in inFlight && inFlight[id].ListOf? then [Listed(inFlight[id].peer, Links(Readable(invites), count))] else []
      case _ => []
  }

  function Flat(parts: seq<seq<Event>>): seq<Event> {
    if parts == [] then [] else Flat(parts[..|parts| - 1]) + parts[|parts| - 1]
  }

  lemma {:induction false} AfterSplit(events: seq<Event>, more: seq<Event>)
    ensures After(events + more) == AfterMore(After(events), more)
  {
    if more == [] {
      assert events + more == events;
    } else {
      var n := |more| - 1;
      assert (events + more)[..|events| + n] == events + more[..n] && (events + more)[|events| + n] == more[n];
      AfterSplit(events, more[..n]);
    }
  }

  /** All of these requests were asked. */
  ghost predicate AmongAsked(flights: seq<map<int, Sent>>, asked: map<int, Sent>) {
    forall k, id :: 0 <= k < |flights| && id in flights[k] ==> id in asked && asked[id] == flights[k][id]
  }

  lemma NoneAmong()
    ensures AmongAsked([], map[])
  {
  }

  lemma AmongAskedMore(flights: seq<map<int, Sent>>, before: map<int, Sent>, flight: map<int, Sent>, asked: map<int, Sent>)
    requires AmongAsked(flights, before) && forall id :: id in before ==> id in asked && asked[id] == before[id]
    requires forall id :: id in flight ==> id in before && before[id] == flight[id]
    ensures AmongAsked(flights + [flight], asked)
  {
  }

  /** Any sequence of calls and replies, with the requests in flight before each.  The slices are what the calls make
      of them one after the other; with a harmless server every slice has at most one active permanent link, at index
      0; and with nothing in flight no callback waits. */
  method Run(calls: seq<Call>) returns (l: InviteLinks, ghost parts: seq<seq<Event>>, ghost flights: seq<map<int, Sent>>)
    ensures l.RequestsOk() && |parts| == |flights| == |calls|
    ensures forall k :: 0 <= k < |calls| ==> Causes(calls[k], flights[k], parts[k])
    ensures AmongAsked(flights, l.asked)
    ensures l.firstSlices == After(Flat(parts))
    ensures (forall k :: 0 <= k < |Flat(parts)| ==> Harmless(After(Flat(parts)[..k]), Flat(parts)[k])) ==> AllFront(l.firstSlices)
    ensures l.inFlight == map[] ==> l.editCallbacks.Keys == {} && l.deleteCallbacks.Keys == {} && forall peer :: peer !in l.sliceRequests
  {
    hide Causes, Apply, Harmless, AllFront, OneEach, AmongAsked;
    assert AmongAsked([], map[]) by { NoneAmong(); }
    l := new InviteLinks();
    parts, flights := [], [];
    for i := 0 to |calls|
      invariant fresh(l) && l.RequestsOk() && |parts| == |flights| == i && l.firstSlices == After(Flat(parts))
      invariant forall k :: 0 <= k < i ==> Causes(calls[k], flights[k], parts[k])
      invariant AmongAsked(flights, l.asked)
    {
      ghost var flight, asked := l.inFlight, l.asked;
      l.FlightAsked();
      ghost var events := l.Step(calls[i]);
      AmongAskedMore(flights, asked, flight, l.asked);
      flights := flights + [flight];
      AfterSplit(Flat(parts), events);
      assert (parts + [events])[..i] == parts;
      parts := parts + [events];
    }
    if forall k :: 0 <= k < |Flat(parts)| ==> Harmless(After(Flat(parts)[..k]), Flat(parts)[k]) {
      HarmlessServerKeepsFront(Flat(parts));
    }
    l.QuietMeansAnswered();
  }
}
