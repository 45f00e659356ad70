/** Refreshing file references (`requestFileReference`, `refreshFileReference`).

    Handlers for one origin wait behind a single request.  The program asserts in three places that the list
    of handlers is there; these are the `assert` statements of Refresh and Reply.  A handler is known by a
    ticket, and what handlers do when they run is read from a tape. */
module FileReferences {
  import opened Callbacks
  import opened Collections

  /** Data::FileOrigin: where the file came from. */
  datatype Origin =
    | Message(id: int) | UserPhoto(userId: int, photoId: int) | FullUser(userId: int) | PeerPhoto(peerId: int)
    | StickerSet(setId: int) | SavedGifs | Wallpaper(paperId: int) | Theme(themeId: int) | Ringtones
    | PremiumPreviews | WebPage(url: string) | Story(id: int) | NoOrigin

  /** Origins that cannot be asked about; `found` says whether the message or user is still known. */
  predicate Hopeless(origin: Origin, found: bool) {
    match origin
    case Message(_) => !found
    case UserPhoto(_, _) => !found
    case FullUser(_) => !found
    case PeerPhoto(_) => true
    case NoOrigin => true
    case _ => false
  }

  /** Origins whose answer is also written to local storage, by one extra handler per request. */
  predicate Stored(origin: Origin) { origin.StickerSet? || origin.SavedGifs? }

  /** What a running handler may do next. */
  datatype Move = Again(origin: Origin, found: bool) | Return

  type Table = map<Origin, seq<Ticket>>

  function Waiting(handlers: Table, origin: Origin): seq<Ticket> {
    if origin in handlers then handlers[origin] else []
  }

  /** Every accepted handler waits under one origin, is about to run, or has run once. */
  ghost predicate Accounted(handlers: Table, ledger: Ledger<Origin>) {
    ledger.Ok() && forall o :: Lists(Waiting(handlers, o), ledger.At(o))
  }

  /** Origins with a list and requests in flight correspond one to one. */
  ghost predicate OneEach(handlers: Table, inFlight: map<int, Origin>, requestOf: map<Origin, int>) {
    && requestOf.Keys == handlers.Keys
    && (forall o :: o in requestOf ==> requestOf[o] in inFlight && inFlight[requestOf[o]] == o)
    && (forall id :: id in inFlight ==> inFlight[id] in requestOf && requestOf[inFlight[id]] == id)
  }

  /** Each waiting list starts with a handler of the client; a stored origin has its writer second, and
      nowhere else. */
  ghost predicate ListOk(origin: Origin, list: seq<Ticket>, writers: set<Ticket>) {
    && list != [] && (Stored(origin) ==> |list| >= 2)
    && forall k :: 0 <= k < |list| ==> (list[k] in writers <==> Stored(origin) && k == 1)
  }

  ghost predicate WritersOk(handlers: Table, writers: set<Ticket>, last: Ticket) {
    && (forall o :: o in handlers ==> ListOk(o, handlers[o], writers))
    && (forall t :: t in writers ==> t <= last)
  }

  lemma GiveKeepsAccounted(handlers: Table, ledger: Ledger<Origin>, origin: Origin)
    requires Accounted(handlers, ledger)
    ensures Accounted(handlers[origin := Waiting(handlers, origin) + [ledger.last + 1]], ledger.Give(origin))
  {
    var r := handlers[origin := Waiting(handlers, origin) + [ledger.last + 1]];
    ledger.Given(origin);
    assert Lists(Waiting(handlers, origin), ledger.At(origin));
    ListsAppend(Waiting(handlers, origin), ledger.At(origin), ledger.last + 1);
    forall o ensures Lists(Waiting(r, o), ledger.Give(origin).At(o)) {
      assert Lists(Waiting(handlers, o), ledger.At(o));
    }
  }

  lemma TakeKeepsAccounted(handlers: Table, ledger: Ledger<Origin>, origin: Origin)
    requires Accounted(handlers, ledger) && origin in handlers
    ensures Accounted(handlers - {origin}, ledger.Take(origin))
    ensures Lists(handlers[origin], ledger.At(origin)) && ledger.At(origin) !! ledger.taken
  {
    ledger.Taken(origin);
    assert Lists(Waiting(handlers, origin), ledger.At(origin));
    forall o ensures Lists(Waiting(handlers - {origin}, o), ledger.Take(origin).At(o)) {
      assert Lists(Waiting(handlers, o), ledger.At(o));
    }
  }

  lemma HandKeepsAccounted(handlers: Table, ledger: Ledger<Origin>)
    requires Accounted(handlers, ledger)
    ensures Accounted(handlers, ledger.Hand()) && ledger.last + 1 !in ledger.taken
  {
    ledger.Handed();
    forall o ensures Lists(Waiting(handlers, o), ledger.Hand().At(o)) {
      assert Lists(Waiting(handlers, o), ledger.At(o));
    }
  }

  lemma RunKeepsAccounted(handlers: Table, ledger: Ledger<Origin>, t: Ticket)
    requires Accounted(handlers, ledger) && t in ledger.taken
    ensures Accounted(handlers, ledger.Run(t))
  {
    ledger.Ran(t);
    forall o ensures Lists(Waiting(handlers, o), ledger.Run(t).At(o)) {
      assert Lists(Waiting(handlers, o), ledger.At(o));
    }
  }

  lemma NewRequest(handlers: Table, inFlight: map<int, Origin>, requestOf: map<Origin, int>, origin: Origin, list: seq<Ticket>, id: int)
    requires OneEach(handlers, inFlight, requestOf) && origin !in handlers && id !in inFlight
    ensures OneEach(handlers[origin := list], inFlight[id := origin], requestOf[origin := id])
  {
  }

  lemma SameRequests(handlers: Table, inFlight: map<int, Origin>, requestOf: map<Origin, int>, origin: Origin, list: seq<Ticket>)
    requires OneEach(handlers, inFlight, requestOf) && origin in handlers
    ensures OneEach(handlers[origin := list], inFlight, requestOf)
  {
    assert handlers[origin := list].Keys == handlers.Keys;
  }

  lemma Answered(handlers: Table, inFlight: map<int, Origin>, requestOf: map<Origin, int>, id: int)
    requires OneEach(handlers, inFlight, requestOf) && id in inFlight
    ensures inFlight[id] in handlers
    ensures OneEach(handlers - {inFlight[id]}, inFlight - {id}, requestOf - {inFlight[id]})
  {
    assert inFlight[id] in requestOf.Keys;
    assert (handlers - {inFlight[id]}).Keys == (requestOf - {inFlight[id]}).Keys;
  }

  /** One more client handler behind an existing list. */
  lemma JoinKeepsWriters(handlers: Table, writers: set<Ticket>, last: Ticket, origin: Origin)
    requires WritersOk(handlers, writers, last) && origin in handlers
    ensures WritersOk(handlers[origin := handlers[origin] + [last + 1]], writers, last + 1)
  {
    assert ListOk(origin, handlers[origin], writers);
  }

  /** A new list: one client handler, and the writer second where there is one. */
  lemma NewListKeepsWriters(handlers: Table, ledger: Ledger<Origin>, writers: set<Ticket>, origin: Origin)
    requires Accounted(handlers, ledger) && WritersOk(handlers, writers, ledger.last) && origin !in handlers
    ensures !Stored(origin) ==> WritersOk(handlers[origin := [ledger.last + 1]], writers, ledger.last + 1)
    ensures Stored(origin) ==> WritersOk(handlers[origin := [ledger.last + 1, ledger.last + 2]],
                                         writers + {ledger.last + 2}, ledger.last + 2)
  {
    forall o, k | o in handlers && 0 <= k < |handlers[o]| ensures handlers[o][k] <= ledger.last {
      assert Lists(Waiting(handlers, o), ledger.At(o)) && handlers[o][k] in handlers[o];
    }
    var more := writers + {ledger.last + 2};
    forall o | o in handlers ensures ListOk(o, handlers[o], writers) && ListOk(o, handlers[o], more) {
    }
  }

  /** When every request is answered no handler waits: each accepted one has run exactly once. */
  lemma QuietMeansAllRan(handlers: Table, ledger: Ledger<Origin>, requestOf: map<Origin, int>)
    requires Accounted(handlers, ledger) && OneEach(handlers, map[], requestOf) && ledger.taken == {}
    ensures handlers == map[]
    ensures forall i, j :: 0 <= i < j < |ledger.ran| ==> ledger.ran[i] != ledger.ran[j]
    ensures forall t :: t in ledger.ran <==> 1 <= t <= ledger.last
  {
    assert forall o :: o !in handlers.Keys;
    forall o ensures ledger.At(o) == {} { assert Lists(Waiting(handlers, o), ledger.At(o)) && o !in handlers.Keys; }
    NothingAtHome(ledger);
  }

  class References {
    var handlers: Table

    var inFlight: map<int, Origin>
    var lastId: int
    var lastTicket: Ticket
    ghost var ledger: Ledger<Origin>
    ghost var requestOf: map<Origin, int>
    ghost var writers: set<Ticket>        // the tickets of the extra handlers that write to storage

    ghost predicate Valid()
      reads this
    {
      && Accounted(handlers, ledger) && ledger.last == lastTicket
      && OneEach(handlers, inFlight, requestOf)
      && WritersOk(handlers, writers, lastTicket)
      && lastId >= 0 && (forall id :: id in inFlight ==> 0 < id <= lastId)
    }

    constructor ()
      ensures Valid() && inFlight == map[] && ledger.taken == {} && lastTicket == 0
    {
      handlers, inFlight, lastId, lastTicket := map[], map[], 0, 0;
      ledger, requestOf, writers := Ledger(0, map[], {}, []), map[], {};
    }

    /** `requestFileReference` followed by the extra handler when it was the first of its list. */
    method Enqueue(origin: Origin)
      requires Valid()
      modifies this
      ensures Valid() && Grown(old(ledger), ledger) && ledger.taken == old(ledger).taken && lastTicket > old(lastTicket)
      ensures lastId <= old(lastId) + 1
      ensures origin in old(handlers) ==>
                && lastId == old(lastId)
                && handlers == old(handlers)[origin := old(handlers)[origin] + [lastTicket]]
                && lastTicket == old(lastTicket) + 1 && inFlight == old(inFlight) && writers == old(writers)
      ensures origin !in old(handlers) ==>
                && lastId == old(lastId) + 1 && inFlight == old(inFlight)[lastId := origin]
                && handlers == old(handlers)[origin :=
                     if origin.StickerSet? || origin == SavedGifs then [old(lastTicket) + 1, old(lastTicket) + 2]
                     else [old(lastTicket) + 1]]
                && writers == old(writers) + (if origin.StickerSet? || origin == SavedGifs then {old(lastTicket) + 2} else {})
    {
      hide Accounted, OneEach, WritersOk;
      if origin in handlers {
        JoinKeepsWriters(handlers, writers, lastTicket, origin);
        SameRequests(handlers, inFlight, requestOf, origin, handlers[origin] + [lastTicket + 1]);
        Push(origin);
        return;
      }
      NewListKeepsWriters(handlers, ledger, writers, origin);
      Push(origin);
      assert handlers[origin] == [lastTicket];
      lastId := lastId + 1;
      inFlight := inFlight[lastId := origin];
      if Stored(origin) {
        assert origin in handlers;
        if |handlers[origin]| == 1 {
          Push(origin);
          writers := writers + {lastTicket};
          assert handlers[origin] == [lastTicket - 1, lastTicket];
        }
      }
      ghost var list := handlers[origin];
      assert handlers == old(handlers)[origin := list];
      NewRequest(old(handlers), old(inFlight), requestOf, origin, handlers[origin], lastId);
      requestOf := requestOf[origin := lastId];
    }

    /** `push_back` on the list of an origin, new or not. */
    method Push(origin: Origin)
      requires Accounted(handlers, ledger) && ledger.last == lastTicket
      modifies `handlers, `lastTicket, `ledger
      ensures Accounted(handlers, ledger) && ledger.last == lastTicket
      ensures lastTicket == old(lastTicket) + 1 && ledger == old(ledger).Give(origin)
      ensures handlers == old(handlers)[origin := Waiting(old(handlers), origin) + [lastTicket]]
    {
      hide Accounted;
      GiveKeepsAccounted(handlers, ledger, origin);
      lastTicket := lastTicket + 1;
      ledger := ledger.Give(origin);
      handlers := handlers[origin := Waiting(handlers, origin) + [lastTicket]];
    }

    /** `refreshFileReference`: answer at once with nothing, or join or start the request of the origin. */
    method Refresh(origin: Origin, found: bool, tape: seq<Move>) returns (rest: seq<Move>)
      requires Valid()
      modifies this
      ensures Valid() && Grown(old(ledger), ledger) && ledger.taken == old(ledger).taken && |rest| <= |tape|
      ensures lastTicket > old(lastTicket)
      ensures var local := origin.Message? || origin.UserPhoto? || origin.FullUser?;
              if origin.PeerPhoto? || origin.NoOrigin? || (local && !found)
              then old(lastTicket) + 1 in ledger.ran
              else origin in handlers && old(lastTicket) + 1 in handlers[origin] && lastId <= old(lastId) + 1
      ensures forall o :: o in old(handlers) ==> o in handlers && old(handlers)[o] <= handlers[o]
      decreases |tape|, 3
    {
      hide Accounted, OneEach, WritersOk;
      if Hopeless(origin, found) {
        HandKeepsAccounted(handlers, ledger);
        lastTicket := lastTicket + 1;
        WritersLater(handlers, writers, lastTicket - 1);
        ledger := ledger.Hand();
        rest := RunAll([lastTicket], tape);
      } else {
        Enqueue(origin);
        rest := tape;
      }
    }

    /** The handlers of one answer run in order; each may ask again before the next one runs. */
    method RunAll(list: seq<Ticket>, tape: seq<Move>) returns (rest: seq<Move>)
      requires Valid() && Distinct(list) && forall t :: t in list ==> t in ledger.taken
      modifies this
      ensures Valid() && Grown(old(ledger), ledger) && |rest| <= |tape|
      ensures ledger.taken == old(ledger).taken - (set t | t in list)
      ensures forall t :: t in list ==> t in ledger.ran
      ensures forall o :: o in old(handlers) ==> o in handlers && old(handlers)[o] <= handlers[o]
      decreases |tape|, 2
    {
      hide Accounted, OneEach, WritersOk;
      rest := tape;
      for i := 0 to |list|
        invariant Valid() && Grown(old(ledger), ledger) && |rest| <= |tape|
        invariant ledger.taken == old(ledger).taken - (set t | t in list[..i])
        invariant forall k :: 0 <= k < i ==> list[k] in ledger.ran
        invariant forall o :: o in old(handlers) ==> o in handlers && old(handlers)[o] <= handlers[o]
      {
        RunKeepsAccounted(handlers, ledger, list[i]);
        ledger := ledger.Run(list[i]);
        assert list[..i + 1] == list[..i] + [list[i]];
        ghost var ran := ledger.ran;
        rest := Reenter(rest);
        assert ran <= ledger.ran && forall t :: t in ran ==> t in ledger.ran;
      }
      assert list[..|list|] == list;
    }

    /** The calls one running handler makes. */
    method Reenter(tape: seq<Move>) returns (rest: seq<Move>)
      requires Valid()
      modifies this
      ensures Valid() && Grown(old(ledger), ledger) && ledger.taken == old(ledger).taken && |rest| <= |tape|
      ensures forall o :: o in old(handlers) ==> o in handlers && old(handlers)[o] <= handlers[o]
      decreases |tape|, 1
    {
      hide Accounted, OneEach, WritersOk;
      rest := tape;
      while rest != [] && rest[0] != Return
        invariant Valid() && Grown(old(ledger), ledger) && ledger.taken == old(ledger).taken && |rest| <= |tape|
        invariant forall o :: o in old(handlers) ==> o in handlers && old(handlers)[o] <= handlers[o]
        decreases |rest|
      {
        rest := Refresh(rest[0].origin, rest[0].found, rest[1..]);
      }
      if rest != [] {
        rest := rest[1..];
      }
    }

    /** The done and fail handlers. */
    method Reply(id: int, tape: seq<Move>) returns (rest: seq<Move>)
      requires Valid() && ledger.taken == {} && id in inFlight
      modifies this
      ensures Valid() && ledger.taken == {} && Grown(old(ledger), ledger) && |rest| <= |tape|
      ensures old(inFlight)[id] in old(handlers)
      ensures forall t :: t in old(handlers)[old(inFlight)[id]] ==> t in ledger.ran
    {
      hide Accounted, OneEach, WritersOk;
      var origin := inFlight[id];
      Answered(handlers, inFlight, requestOf, id);
      assert origin in handlers;
      var list := handlers[origin];
      TakeKeepsAccounted(handlers, ledger, origin);
      FewerWriters(handlers, writers, lastTicket, origin);
      inFlight := inFlight - {id};
      requestOf := requestOf - {origin};
      ledger := ledger.Take(origin);
      handlers := handlers - {origin};
      rest := RunAll(list, tape);
    }
  }

  lemma FewerWriters(handlers: Table, writers: set<Ticket>, last: Ticket, origin: Origin)
    requires WritersOk(handlers, writers, last)
    ensures WritersOk(handlers - {origin}, writers, last)
  {
  }

  lemma WritersLater(handlers: Table, writers: set<Ticket>, last: Ticket)
    requires WritersOk(handlers, writers, last)
    ensures WritersOk(handlers, writers, last + 1)
  {
  }

  // ---------------------------------------------------------------- all runs

  datatype Event = Ask(origin: Origin, found: bool) | Replied(id: int)

  /** Any sequence of requests and replies, with any behaviour of the handlers.  Each request's handler has its own
      ticket; at most one request per origin is in flight, and when all are answered every handler has run
      exactly once. */
  method Run(events: seq<(Event, seq<Move>)>) returns (r: References, tickets: seq<Option<Ticket>>)
    ensures r.Valid() && r.ledger.taken == {}
    ensures |tickets| == |events|
    ensures forall k :: 0 <= k < |events| && tickets[k].Some? ==> 1 <= tickets[k].value <= r.lastTicket
    ensures forall j, k :: 0 <= j < k < |events| && tickets[j].Some? && tickets[k].Some? ==> tickets[j].value < tickets[k].value
    ensures forall k :: 0 <= k < |events| ==> (tickets[k].Some? <==> events[k].0.Ask?)
    ensures forall a, b :: a in r.inFlight && b in r.inFlight && r.inFlight[a] == r.inFlight[b] ==> a == b
    ensures r.inFlight == map[] ==>
              && r.handlers == map[]
              && (forall i, j :: 0 <= i < j < |r.ledger.ran| ==> r.ledger.ran[i] != r.ledger.ran[j])
              && (forall t :: t in r.ledger.ran <==> 1 <= t <= r.lastTicket)
              && (forall k :: 0 <= k < |events| && tickets[k].Some? ==> tickets[k].value in r.ledger.ran)
  {
    hide Accounted, WritersOk, Numbered;
    r := new References();
    tickets := [];
    assert Numbered([], 0) by { NothingNumbered(); }
    for i := 0 to |events|
      invariant fresh(r) && r.Valid() && r.ledger.taken == {} && |tickets| == i && Numbered(tickets, r.lastTicket)
      invariant forall k :: 0 <= k < i ==> (tickets[k].Some? <==> events[k].0.Ask?)
    {
      ghost var last := r.lastTicket;
      var ticket := None;
      match events[i].0 {
        case Ask(origin, found) =>
          ticket := Some(r.lastTicket + 1);
          var rest := r.Refresh(origin, found, events[i].1);
        case Replied(id) => if id in r.inFlight { var rest := r.Reply(id, events[i].1); }
      }
      NumberedMore(tickets, last, ticket, r.lastTicket);
      tickets := tickets + [ticket];
    }
    AllWithin(tickets, r.lastTicket);
    if r.inFlight == map[] {
      QuietMeansAllRan(r.handlers, r.ledger, r.requestOf);
    }
  }
}
