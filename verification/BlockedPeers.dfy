/** Blocking and unblocking peers (`BlockedPeers`): requests for one peer may overlap, share one entry of
    callbacks, and callbacks may call back into the object.

    A callback is known by a ticket, given out when it is accepted into the table.  What callbacks do when
    they run is read from a tape of moves: any finite behaviour of the callbacks is some tape. */
module BlockedPeers {
  import opened Collections
  import opened Callbacks

  type Peer = int

  /** One entry of `_blockRequests`. */
  datatype Request = Request(callbacks: seq<Ticket>, requestId: int, blocking: bool)

  /** A request on the wire, with what its handlers captured. */
  datatype Sent = Change(peer: Peer, blocking: bool)

  datatype Item = Item(id: Peer, date: int)
  datatype Slice = Slice(list: seq<Item>, total: int)

  /** What a running callback may do next: call in again, or return. */
  datatype Move = DoBlock(peer: Peer) | DoUnblock(peer: Peer, done: bool, force: bool) | Return

  // ---------------------------------------------------------------- slices

  /** `TLToSlice`: a plain list counts as `count` zero. */
  function ToSlice(count: int, list: seq<Item>): (r: Slice)
    ensures r.list == list && r.total >= |list| && r.total >= count
    ensures r.total == count || r.total == |list|
  {
    Slice(list, if count > |list| then count else |list|)
  }

  /** The first item with this id, or the length. */
  function IndexOf(list: seq<Item>, peer: Peer): (i: nat)
    ensures i <= |list| && (i < |list| ==> list[i].id == peer)
    ensures forall k :: 0 <= k < i ==> list[k].id != peer
  {
    if list == [] || list[0].id == peer then 0 else 1 + IndexOf(list[1..], peer)
  }

  function Without(list: seq<Item>, peer: Peer): (r: seq<Item>)
  {
    var i := IndexOf(list, peer);
    if i < |list| then list[..i] + list[i + 1..] else list
  }

  class Blocked {
    var requests: map<Peer, Request>
    var blocked: set<Peer>
    var slice: Option<Slice>

    var inFlight: map<int, Sent>
    var lastId: int
    var lastTicket: Ticket                // tickets 1 .. lastTicket have been given out
    ghost var ledger: Ledger<Peer>

    /** The callbacks waiting for one peer. */
    function Waiting(peer: Peer): seq<Ticket>
      reads `requests
    {
      if peer in requests then requests[peer].callbacks else []
    }

    /** Every accepted callback is in the entry of its peer, about to run, or has run once. */
    ghost predicate TicketsOk()
      reads `requests, `lastTicket, `ledger
    {
      ledger.Ok() && ledger.last == lastTicket && forall p :: Lists(Waiting(p), ledger.At(p))
    }

    /** Every entry names a request in flight for its own peer. */
    ghost predicate RequestsOk()
      reads `requests, `inFlight, `lastId
    {
      && lastId >= 0
      && (forall id :: id in inFlight ==> 0 < id <= lastId)
      && (forall p :: p in requests ==> requests[p].requestId in inFlight)
      && (forall p :: p in requests ==> inFlight[requests[p].requestId] == Change(p, requests[p].blocking))
    }

    ghost predicate SliceOk()
      reads `slice
    {
      slice.Some? ==> slice.value.total >= |slice.value.list|
    }

    ghost predicate Valid()
      reads this
    {
      TicketsOk() && RequestsOk() && SliceOk()
    }

    /** With nothing on the wire and no callback in progress, every accepted callback has run exactly once. */
    lemma QuietMeansAllRan()
      requires Valid() && inFlight == map[] && ledger.taken == {}
      ensures requests.Keys == {}
      ensures forall i, j :: 0 <= i < j < |ledger.ran| ==> ledger.ran[i] != ledger.ran[j]
      ensures forall t :: t in ledger.ran <==> 1 <= t <= lastTicket
    {
      assert forall id :: id !in inFlight;
      assert forall p :: p in requests ==> requests[p].requestId in inFlight;
      forall p ensures ledger.At(p) == {} { assert Lists(Waiting(p), ledger.At(p)) && Waiting(p) == []; }
      NothingAtHome(ledger);
    }

    constructor ()
      ensures Valid() && inFlight == map[] && ledger.taken == {} && lastTicket == 0 && blocked == {} && slice == None
    {
      requests, blocked, slice := map[], {}, None;
      inFlight, lastId, lastTicket := map[], 0, 0;
      ledger := Ledger(0, map[], {}, []);
    }

    /** Take the callbacks of a peer out of the table (`take` of an optional entry). */
    method TakeEntry(peer: Peer) returns (callbacks: seq<Ticket>)
      requires TicketsOk() && RequestsOk()
      modifies `requests, `ledger
      ensures TicketsOk() && RequestsOk()
      ensures requests == old(requests) - {peer} && callbacks == old(Waiting(peer))
      ensures ledger == old(ledger).Take(peer) && Lists(callbacks, old(ledger).At(peer))
      ensures old(ledger).At(peer) !! old(ledger).taken
    {
      callbacks := [];
      if peer in requests {
        callbacks := requests[peer].callbacks;
        requests := requests - {peer};
      }
      ledger.Taken(peer);
      ledger := ledger.Take(peer);
      forall p ensures Lists(Waiting(p), ledger.At(p)) {
        assert Lists(old(Waiting(p)), old(ledger).At(p));
      }
    }

    ghost method MarkRan(t: Ticket)
      requires TicketsOk() && t in ledger.taken
      modifies `ledger
      ensures TicketsOk() && ledger == old(ledger).Run(t)
    {
      ledger.Ran(t);
      ledger := ledger.Run(t);
      assert forall p :: Lists(Waiting(p), ledger.At(p));
    }

    /** Run the callbacks in order; each may call in again before the next one runs. */
    method RunAll(callbacks: seq<Ticket>, tape: seq<Move>) returns (rest: seq<Move>)
      requires Valid() && Distinct(callbacks) && forall t :: t in callbacks ==> t in ledger.taken
      modifies this
      ensures Valid() && |rest| <= |tape|
      ensures ledger.taken == old(ledger).taken - (set t | t in callbacks)
      ensures forall t :: t in callbacks ==> t in ledger.ran
      ensures OnlyMore(old(inFlight), old(ledger)) && blocked == old(blocked) && slice == old(slice)
      decreases |tape|, 1
    {
      hide TicketsOk, RequestsOk, SliceOk;
      rest := tape;
      for i := 0 to |callbacks|
        invariant Valid() && |rest| <= |tape|
        invariant ledger.taken == old(ledger).taken - (set t | t in callbacks[..i])
        invariant forall k :: 0 <= k < i ==> callbacks[k] in ledger.ran
        invariant OnlyMore(old(inFlight), old(ledger)) && blocked == old(blocked) && slice == old(slice)
      {
        ghost var ran := ledger.ran;
        MarkRan(callbacks[i]);
        assert ledger.ran == ran + [callbacks[i]] && forall t :: t in ran + [callbacks[i]] <==> t in ran || t == callbacks[i];
        assert callbacks[..i + 1] == callbacks[..i] + [callbacks[i]];
        ran := ledger.ran;
        rest := Reenter(rest);
        PrefixMembers(ran, ledger.ran);
      }
      assert callbacks[..|callbacks|] == callbacks;
    }

    /** The calls one running callback makes. */
    method Reenter(tape: seq<Move>) returns (rest: seq<Move>)
      requires Valid()
      modifies this
      ensures Valid() && |rest| <= |tape| && ledger.taken == old(ledger).taken
      ensures OnlyMore(old(inFlight), old(ledger)) && blocked == old(blocked) && slice == old(slice)
      decreases |tape|, 0
    {
      rest := tape;
      while rest != [] && rest[0] != Return
        invariant Valid() && |rest| <= |tape| && ledger.taken == old(ledger).taken
        invariant OnlyMore(old(inFlight), old(ledger)) && blocked == old(blocked) && slice == old(slice)
        decreases |rest|
      {
        var move := rest[0];
        if move.DoBlock? {
          rest := Block(move.peer, rest[1..]);
        } else {
          rest := Unblock(move.peer, move.done, move.force, rest[1..]);
        }
      }
      if rest != [] {
        rest := rest[1..];
      }
    }

    /** Calls only send more, accept more and run more. */
    ghost predicate OnlyMore(inFlight0: map<int, Sent>, ledger0: Ledger<Peer>)
      reads `inFlight, `ledger
    {
      Grown(ledger0, ledger) && forall id :: id in inFlight0 ==> id in inFlight && inFlight[id] == inFlight0[id]
    }

    /** `blockAlreadySent`: join the entry of the same kind, or answer false to the callbacks of the other kind. */
    method AlreadySent(peer: Peer, blocking: bool, done: bool, tape: seq<Move>) returns (sent: bool, rest: seq<Move>)
      requires Valid()
      modifies this
      ensures Valid() && |rest| <= |tape| && ledger.taken == old(ledger).taken
      ensures OnlyMore(old(inFlight), old(ledger)) && blocked == old(blocked) && slice == old(slice)
      ensures sent == (peer in old(requests) && old(requests)[peer].blocking == blocking)
      ensures peer !in old(requests) ==> requests == old(requests) && lastTicket == old(lastTicket) && rest == tape
      ensures peer !in old(requests) || sent ==> lastId == old(lastId)
      ensures sent ==> ledger.ran == old(ledger).ran && inFlight == old(inFlight) && rest == tape
      ensures sent ==> lastTicket == old(lastTicket) + (if done then 1 else 0)
      ensures sent && !done ==> requests == old(requests)
      ensures sent && done ==> requests == old(requests)[peer := old(requests)[peer].(callbacks := old(Waiting(peer)) + [lastTicket])]
      ensures !sent ==> forall t :: t in old(Waiting(peer)) ==> t in ledger.ran
      decreases |tape|, 2
    {
      rest := tape;
      if peer !in requests {
        return false, rest;
      } else if requests[peer].blocking == blocking {
        if done {
          PushCallback(peer);
        }
        return true, rest;
      }
      var callbacks := TakeEntry(peer);
      rest := RunAll(callbacks, rest);
      return false, rest;
    }

    /** `callbacks.push_back(std::move(done))` on an existing entry. */
    method PushCallback(peer: Peer)
      requires TicketsOk() && RequestsOk() && peer in requests
      modifies `requests, `lastTicket, `ledger
      ensures TicketsOk() && RequestsOk()
      ensures lastTicket == old(lastTicket) + 1
      ensures requests == old(requests)[peer := Joined(old(requests)[peer], lastTicket)]
      ensures ledger == old(ledger).Give(peer)
    {
      ledger.Given(peer);
      ListsAppend(Waiting(peer), ledger.At(peer), lastTicket + 1);
      lastTicket := lastTicket + 1;
      ledger := ledger.Give(peer);
      requests := requests[peer := Joined(requests[peer], lastTicket)];
      forall p ensures Lists(Waiting(p), ledger.At(p)) {
        assert Lists(old(Waiting(p)), old(ledger).At(p));
      }
    }

    /** `send()` and `emplace`, which keeps an entry that a running callback has made in the meantime. */
    method SendChange(peer: Peer, blocking: bool)
      requires TicketsOk() && RequestsOk()
      modifies `requests, `inFlight, `lastId
      ensures TicketsOk() && RequestsOk()
      ensures lastId == old(lastId) + 1 && inFlight == old(inFlight)[lastId := Change(peer, blocking)]
      ensures lastId !in old(inFlight)
      ensures requests == if peer in old(requests) then old(requests)
                          else old(requests)[peer := Request([], lastId, blocking)]
    {
      lastId := lastId + 1;
      inFlight := inFlight[lastId := Change(peer, blocking)];
      if peer !in requests {
        requests := requests[peer := Request([], lastId, blocking)];
      }
      forall p ensures Lists(Waiting(p), ledger.At(p)) {
        assert Lists(old(Waiting(p)), old(ledger).At(p));
      }
    }

    /** `block`. */
    method Block(peer: Peer, tape: seq<Move>) returns (rest: seq<Move>)
      requires Valid()
      modifies this
      ensures Valid() && |rest| <= |tape| && ledger.taken == old(ledger).taken
      ensures OnlyMore(old(inFlight), old(ledger)) && blocked == old(blocked) && slice == old(slice)
      ensures peer in blocked ==> requests == old(requests) && inFlight == old(inFlight)
      ensures peer !in blocked ==> peer in requests
      ensures peer !in blocked && peer !in old(requests) ==>
                requests == old(requests)[peer := Request([], lastId, true)] && lastId == old(lastId) + 1
      decreases |tape|, 3
    {
      rest := tape;
      if peer in blocked {
        return;
      }
      var sent;
      sent, rest := AlreadySent(peer, true, false, rest);
      if sent {
        return;
      }
      SendChange(peer, true);
    }

    /** `unblock`. */
    method Unblock(peer: Peer, done: bool, force: bool, tape: seq<Move>) returns (rest: seq<Move>)
      requires Valid()
      modifies this
      ensures Valid() && |rest| <= |tape| && ledger.taken == old(ledger).taken
      ensures OnlyMore(old(inFlight), old(ledger)) && blocked == old(blocked) && slice == old(slice)
      ensures !force && peer !in blocked ==> requests == old(requests) && lastTicket == old(lastTicket)
      ensures force || peer in blocked ==> peer in requests
      ensures (force || peer in blocked) && done ==>
                lastTicket > old(lastTicket) && lastTicket in requests[peer].callbacks
      decreases |tape|, 3
    {
      rest := tape;
      if !force && peer !in blocked {
        return;
      }
      var sent;
      sent, rest := AlreadySent(peer, false, done, rest);
      if sent {
        return;
      }
      SendChange(peer, false);
      if done {
        PushCallback(peer);
      }
    }

    /** A reply: the entry of the peer, if any, is taken and all its callbacks run, also when the reply
        belongs to an older request than the entry. */
    method Reply(id: int, success: bool, time: int, tape: seq<Move>) returns (rest: seq<Move>)
      requires Valid() && ledger.taken == {} && id in inFlight
      modifies this
      ensures Valid() && ledger.taken == {} && |rest| <= |tape|
      ensures forall i :: i in old(inFlight) && i != id ==> i in inFlight && inFlight[i] == old(inFlight)[i]
      ensures Grown(old(ledger), ledger)
      ensures forall t :: t in old(Waiting(inFlight[id].peer)) ==> t in ledger.ran
      ensures var sent := old(inFlight)[id];
              && blocked == (if !success then old(blocked)
                             else if sent.blocking then old(blocked) + {sent.peer} else old(blocked) - {sent.peer})
              && slice == (if success then NewSlice(old(slice), sent, time) else old(slice))
    {
      hide TicketsOk, RequestsOk, SliceOk, NewSlice;
      var sent := inFlight[id];
      var callbacks := TakeReply(id);
      if success {
        Apply(sent, time);
      }
      rest := RunAll(callbacks, tape);
    }

    /** The request is no longer in flight, and the entry of its peer is taken. */
    method TakeReply(id: int) returns (callbacks: seq<Ticket>)
      requires TicketsOk() && RequestsOk() && id in inFlight
      modifies `requests, `ledger, `inFlight
      ensures TicketsOk() && RequestsOk() && inFlight == old(inFlight) - {id}
      ensures callbacks == old(Waiting(inFlight[id].peer)) && ledger == old(ledger).Take(old(inFlight)[id].peer)
      ensures Lists(callbacks, old(ledger).At(old(inFlight)[id].peer)) && old(ledger).At(old(inFlight)[id].peer) !! old(ledger).taken
    {
      hide TicketsOk;
      callbacks := TakeEntry(inFlight[id].peer);
      inFlight := inFlight - {id};
    }

    /** The part of the done handlers that updates the peer and the slice. */
    method Apply(sent: Sent, time: int)
      requires SliceOk()
      modifies `blocked, `slice
      ensures SliceOk() && slice == NewSlice(old(slice), sent, time)
      ensures blocked == if sent.blocking then old(blocked) + {sent.peer} else old(blocked) - {sent.peer}
    {
      if sent.blocking {
        blocked := blocked + {sent.peer};
        if slice.Some? {
          slice := Some(Slice([Item(sent.peer, time)] + slice.value.list, slice.value.total + 1));
        }
      } else {
        blocked := blocked - {sent.peer};
        if slice.Some? {
          var list := RemoveFirst(slice.value.list, sent.peer);
          var total := slice.value.total;
          if total > |list| {
            total := total - 1;
          }
          slice := Some(Slice(list, total));
        }
      }
    }

    /** One event, and the ticket of its callback.  A reply to a request that is not in flight does not occur, so it
        is skipped. */
    method Step(e: Event, tape: seq<Move>) returns (ticket: Option<Ticket>)
      requires Valid() && ledger.taken == {}
      modifies this
      ensures Valid() && ledger.taken == {} && lastTicket >= old(lastTicket)
      ensures Moves(e, old(Shown(blocked, slice, inFlight)), Shown(blocked, slice, inFlight))
      ensures ticket.Some? <==> Accepts(e, old(blocked))
      ensures ticket.Some? ==> old(lastTicket) < ticket.value <= lastTicket
    {
      ticket := None;
      match e {
        case CallBlock(peer) => var rest := Block(peer, tape);
        case CallUnblock(peer, done, force) =>
          var accepted := done && (force || peer in blocked);
          var rest := Unblock(peer, done, force, tape);
          if accepted {
            ticket := Some(lastTicket);
          }
        case Replied(id, success, time) =>
          if id in inFlight {
            var rest := Reply(id, success, time, tape);
          }
        case Listed(count, list) => Loaded(count, list);
      }
    }

    /** A received list replaces the slice when it differs. */
    method Loaded(count: int, list: seq<Item>)
      requires Valid()
      modifies `slice
      ensures Valid() && slice == Some(ToSlice(count, list))
    {
      var received := ToSlice(count, list);
      if slice == None || slice.value != received {
        slice := Some(received);
      }
    }
  }

  lemma PrefixMembers(a: seq<Ticket>, b: seq<Ticket>)
    requires a <= b
    ensures forall t :: t in a ==> t in b
  {
    assert b == a + b[|a|..];
  }

  function Joined(r: Request, t: Ticket): Request { r.(callbacks := r.callbacks + [t]) }

  /** The slice after a successful reply. */
  function NewSlice(slice: Option<Slice>, sent: Sent, time: int): Option<Slice> {
    match slice
    case None => None
    case Some(s) =>
      if sent.blocking then Some(Slice([Item(sent.peer, time)] + s.list, s.total + 1))
      else
        var list := Without(s.list, sent.peer);
        Some(Slice(list, if s.total > |list| then s.total - 1 else s.total))
  }

  /** The slice after a successful reply, item by item.  A blocked peer comes first and counts one more.  Of an
      unblocked peer the first item goes, and nothing else; the total falls by one while it exceeds the items left. */
  lemma NewSliceMeans(s: Slice, sent: Sent, time: int)
    ensures NewSlice(None, sent, time) == None
    ensures NewSlice(Some(s), sent, time).Some?
    ensures var r := NewSlice(Some(s), sent, time).value;
            && (sent.blocking ==> r.list == [Item(sent.peer, time)] + s.list && r.total == s.total + 1)
            && (!sent.blocking ==> FirstGone(r.list, s.list, sent.peer))
            && (!sent.blocking ==> r.total == s.total - (if s.total > |r.list| then 1 else 0))
            && (!sent.blocking ==> forall x :: x in s.list && x.id != sent.peer ==> x in r.list)
  {
    var i := IndexOf(s.list, sent.peer);
    if i < |s.list| {
      assert s.list == s.list[..i] + [s.list[i]] + s.list[i + 1..];
    }
  }

  /** `r` is `list` without its first item of the peer, or `list` itself when the peer is not listed. */
  ghost predicate FirstGone(r: seq<Item>, list: seq<Item>, peer: Peer) {
    || (r == list && forall k :: 0 <= k < |list| ==> list[k].id != peer)
    || exists i :: 0 <= i < |list| && IsFirst(list, i, peer) && r == list[..i] + list[i + 1..]
  }

  ghost predicate IsFirst(list: seq<Item>, i: int, peer: Peer) {
    0 <= i < |list| && list[i].id == peer && forall k :: 0 <= k < i ==> list[k].id != peer
  }

  /** Peers counted beyond those listed: a listed peer may come and go without changing their number; an
      unlisted one that is unblocked reduces it by one, and never below zero. */
  lemma UnlistedCount(s: Slice, sent: Sent, time: int)
    requires s.total >= |s.list|
    ensures var r := NewSlice(Some(s), sent, time).value;
            var listed := IndexOf(s.list, sent.peer) < |s.list|;
            var before, after := s.total - |s.list|, r.total - |r.list|;
            && after >= 0
            && (sent.blocking || listed ==> after == before)
            && (!sent.blocking && !listed ==> after == if before > 0 then before - 1 else 0)
  {
  }

  /** Blocking and then unblocking leaves the slice as it was. */
  lemma BlockThenUnblock(s: Slice, peer: Peer, time: int)
    ensures NewSlice(NewSlice(Some(s), Change(peer, true), time), Change(peer, false), time)
         == Some(Slice(s.list, if s.total >= |s.list| then s.total else s.total + 1))
  {
    var list := [Item(peer, time)] + s.list;
    assert list[..0] + list[1..] == s.list;
  }

  /** The loop that erases the first matching item. */
  method RemoveFirst(list: seq<Item>, peer: Peer) returns (r: seq<Item>)
    ensures r == Without(list, peer)
  {
    for i := 0 to |list|
      invariant forall k :: 0 <= k < i ==> list[k].id != peer
    {
      if list[i].id == peer {
        return list[..i] + list[i + 1..];
      }
    }
    return list;
  }

  // ---------------------------------------------------------------- all runs

  datatype Event =
    | CallBlock(peer: Peer)
    | CallUnblock(peer: Peer, done: bool, force: bool)
    | Replied(id: int, success: bool, time: int)
    | Listed(count: int, list: seq<Item>)

  /** The blocked peers, the slice, and the requests in flight. */
  datatype Shown = Shown(blocked: set<Peer>, slice: Option<Slice>, inFlight: map<int, Sent>)

  /** What an event does to them: only the successful reply to a request in flight and a list change what is shown,
      and no other request is touched. */
  ghost predicate Moves(e: Event, was: Shown, now: Shown) {
    && (forall i :: i in was.inFlight && !(e.Replied? && e.id == i) ==> i in now.inFlight && now.inFlight[i] == was.inFlight[i])
    && (match e
        case Replied(id, success, time) =>
          if success && id in was.inFlight
          then && now.blocked == (if was.inFlight[id].blocking then was.blocked + {was.inFlight[id].peer}
                                  else was.blocked - {was.inFlight[id].peer})
               && now.slice == NewSlice(was.slice, was.inFlight[id], time)
          else now.blocked == was.blocked && now.slice == was.slice
        case Listed(count, list) => now.blocked == was.blocked && now.slice == Some(ToSlice(count, list))
        case _ => now.blocked == was.blocked && now.slice == was.slice)
  }

  /** The call passes a callback and is accepted. */
  predicate Accepts(e: Event, blocked: set<Peer>) { e.CallUnblock? && e.done && (e.force || e.peer in blocked) }

  /** Any sequence of calls and replies, with any behaviour of the callbacks.  Exactly the accepted callbacks have
      tickets; when all is quiet every one has run exactly once. */
  method Run(events: seq<(Event, seq<Move>)>)
    returns (b: Blocked, tickets: seq<Option<Ticket>>, ghost trace: seq<Shown>)
    ensures b.Valid() && b.ledger.taken == {}
    ensures |trace| == |events| + 1 && trace[0] == Shown({}, None, map[]) && trace[|events|] == Shown(b.blocked, b.slice, b.inFlight)
    ensures forall k :: 0 <= k < |events| ==> Moves(events[k].0, trace[k], trace[k + 1])
    ensures |tickets| == |events|
    ensures forall k :: 0 <= k < |events| && tickets[k].Some? ==> 1 <= tickets[k].value <= b.lastTicket
    ensures forall j, k :: 0 <= j < k < |events| && tickets[j].Some? && tickets[k].Some? ==> tickets[j].value < tickets[k].value
    ensures forall k :: 0 <= k < |events| ==> (tickets[k].Some? <==> Accepts(events[k].0, trace[k].blocked))
    ensures forall p :: p in b.requests ==> exists id :: id in b.inFlight && b.inFlight[id].peer == p
    ensures b.slice.Some? ==> b.slice.value.total >= |b.slice.value.list|
    ensures b.inFlight == map[] ==>
              && b.requests.Keys == {}
              && (forall i, j :: 0 <= i < j < |b.ledger.ran| ==> b.ledger.ran[i] != b.ledger.ran[j])
              && (forall t :: t in b.ledger.ran <==> 1 <= t <= b.lastTicket)
              && (forall k :: 0 <= k < |events| && tickets[k].Some? ==> tickets[k].value in b.ledger.ran)
  {
    hide Numbered, Moves;
    b := new Blocked();
    tickets, trace := [], [Shown({}, None, map[])];
    assert Numbered([], 0) by { NothingNumbered(); }
    for i := 0 to |events|
      invariant fresh(b) && b.Valid() && b.ledger.taken == {} && |tickets| == i && Numbered(tickets, b.lastTicket)
      invariant |trace| == i + 1 && trace[0] == Shown({}, None, map[]) && trace[i] == Shown(b.blocked, b.slice, b.inFlight)
      invariant forall k :: 0 <= k < i ==> Moves(events[k].0, trace[k], trace[k + 1])
      invariant forall k :: 0 <= k < i ==> (tickets[k].Some? <==> Accepts(events[k].0, trace[k].blocked))
    {
      ghost var last := b.lastTicket;
      var ticket := b.Step(events[i].0, events[i].1);
      NumberedMore(tickets, last, ticket, b.lastTicket);
      tickets, trace := tickets + [ticket], trace + [Shown(b.blocked, b.slice, b.inFlight)];
    }
    AllWithin(tickets, b.lastTicket);
    if b.inFlight == map[] {
      b.QuietMeansAllRan();
    }
  }
}
