/** Batched loading of message data (`requestMessageData`, `resolveMessageDatas`,
    `finalizeMessageDataRequest`).

    Callbacks wait under a message id, in the plain table or in the table of a channel.  A queued call sends
    one request per table for all entries that have none; a reply removes the entries of its request and then
    runs their callbacks, which may ask for more.  What running callbacks ask for is read from a tape. */
module MessageData {
  import opened Callbacks
  import opened Collections

  datatype MsgId = MsgId(bare: int)

  /** Which table: `_messageDataRequests`, or that of one channel. */
  datatype Owner = Plain | Of(channel: int)

  /** `requestId` is zero until a request covers the entry. */
  datatype Entry = Entry(requestId: int, callbacks: seq<Ticket>)

  type Table = map<MsgId, Entry>

  /** All tables; an absent table is an empty one. */
  type Tables = map<Owner, Table>

  datatype Spot = Spot(owner: Owner, msgId: MsgId)

  /** A request on the wire: its table and the message ids it names. */
  datatype Sent = Sent(owner: Owner, ids: set<MsgId>)

  /** What a running callback may do next. */
  datatype Move = Ask(owner: Owner, msgId: MsgId, done: bool) | Return

  function TableOf(tables: Tables, owner: Owner): Table {
    if owner in tables then tables[owner] else map[]
  }

  function Waiting(tables: Tables, spot: Spot): seq<Ticket> {
    if spot.msgId in TableOf(tables, spot.owner) then TableOf(tables, spot.owner)[spot.msgId].callbacks else []
  }

  // ---------------------------------------------------------------- what always holds

  /** Every accepted callback is pending in exactly one entry, about to run, or has run once. */
  ghost predicate Accounted(tables: Tables, ledger: Ledger<Spot>) {
    ledger.Ok() && forall s :: Lists(Waiting(tables, s), ledger.At(s))
  }

  /** An entry without a request implies the queued call; an entry with one names a request in flight that
      was sent for its own table and asks for its own message. */
  ghost predicate EntryOk(e: Entry, owner: Owner, m: MsgId, delayed: bool, inFlight: map<int, Sent>) {
    if e.requestId == 0 then delayed
    else e.requestId > 0 && e.requestId in inFlight && inFlight[e.requestId].owner == owner && m in inFlight[e.requestId].ids
  }

  ghost predicate TableOk(table: Table, owner: Owner, delayed: bool, inFlight: map<int, Sent>) {
    forall m :: m in table ==> EntryOk(table[m], owner, m, delayed, inFlight)
  }

  ghost predicate Covered(tables: Tables, delayed: bool, inFlight: map<int, Sent>) {
    forall owner :: owner in tables ==> TableOk(tables[owner], owner, delayed, inFlight)
  }

  /** With no call queued and nothing in flight nothing is pending, so every callback has run exactly once. */
  lemma QuietMeansAllRan(tables: Tables, ledger: Ledger<Spot>)
    requires Accounted(tables, ledger) && Covered(tables, false, map[]) && ledger.taken == {}
    ensures forall owner :: TableOf(tables, owner).Keys == {}
    ensures forall i, j :: 0 <= i < j < |ledger.ran| ==> ledger.ran[i] != ledger.ran[j]
    ensures forall t :: t in ledger.ran <==> 1 <= t <= ledger.last
  {
    forall owner ensures TableOf(tables, owner).Keys == {} {
      assert owner in tables ==> TableOk(tables[owner], owner, false, map[]);
      assert forall m :: m !in TableOf(tables, owner);
    }
    forall s ensures ledger.At(s) == {} {
      assert s.msgId !in TableOf(tables, s.owner).Keys;
      assert Lists(Waiting(tables, s), ledger.At(s));
    }
    NothingAtHome(ledger);
  }

  // ---------------------------------------------------------------- one table

  /** `collectMessageIds`: the entries no request covers yet. */
  function Uncovered(table: Table): set<MsgId> {
    set m | m in table && table[m].requestId <= 0
  }

  function CoverEntry(e: Entry, id: int): Entry {
    if e.requestId > 0 then e else Entry(id, e.callbacks)
  }

  /** The loop after sending: every uncovered entry takes the new id. */
  method Cover(table: Table, id: int) returns (r: Table)
    ensures r == map m | m in table :: CoverEntry(table[m], id)
  {
    r := table;
    var keys := table.Keys;
    while keys != {}
      invariant keys <= table.Keys
      invariant r == map m | m in table :: if m in keys then table[m] else CoverEntry(table[m], id)
      decreases keys
    {
      var m := Pick(keys);
      if r[m].requestId <= 0 {
        r := r[m := r[m].(requestId := id)];
      }
      keys := keys - {m};
    }
  }

  lemma CoverKeepsTickets(tables: Tables, owner: Owner, id: int, ledger: Ledger<Spot>)
    requires owner in tables && Accounted(tables, ledger)
    ensures Accounted(tables[owner := map m | m in tables[owner] :: CoverEntry(tables[owner][m], id)], ledger)
  {
    var r := tables[owner := map m | m in tables[owner] :: CoverEntry(tables[owner][m], id)];
    forall s ensures Lists(Waiting(r, s), ledger.At(s)) {
      assert Lists(Waiting(tables, s), ledger.At(s));
      assert Waiting(r, s) == Waiting(tables, s);
    }
  }

  /** A table may go when it is empty. */
  lemma EmptyTableGoes(tables: Tables, owner: Owner, ledger: Ledger<Spot>)
    requires owner in tables && tables[owner].Keys == {} && Accounted(tables, ledger)
    ensures Accounted(tables - {owner}, ledger)
  {
    forall s ensures Lists(Waiting(tables - {owner}, s), ledger.At(s)) {
      assert Lists(Waiting(tables, s), ledger.At(s));
      assert s.owner == owner ==> s.msgId !in tables[owner].Keys;
    }
  }

  function Joined(table: Table, msgId: MsgId, done: bool, ticket: Ticket): (r: Table)
    ensures msgId in r
  {
    var entry := if msgId in table then table[msgId] else Entry(0, []);
    table[msgId := if done then entry.(callbacks := entry.callbacks + [ticket]) else entry]
  }

  lemma AskKeepsTickets(tables: Tables, spot: Spot, done: bool, ledger: Ledger<Spot>)
    requires Accounted(tables, ledger)
    ensures Accounted(tables[spot.owner := Joined(TableOf(tables, spot.owner), spot.msgId, done, ledger.last + 1)],
                      if done then ledger.Give(spot) else ledger)
  {
    var r := tables[spot.owner := Joined(TableOf(tables, spot.owner), spot.msgId, done, ledger.last + 1)];
    var l := if done then ledger.Give(spot) else ledger;
    ledger.Given(spot);
    assert Lists(Waiting(tables, spot), ledger.At(spot));
    ListsAppend(Waiting(tables, spot), ledger.At(spot), ledger.last + 1);
    forall s ensures Lists(Waiting(r, s), l.At(s)) {
      assert Lists(Waiting(tables, s), ledger.At(s));
      if s != spot {
        assert Waiting(r, s) == Waiting(tables, s);
      }
    }
  }

  lemma AskKeepsCovered(tables: Tables, spot: Spot, done: bool, ticket: Ticket, delayed: bool, inFlight: map<int, Sent>)
    requires Covered(tables, delayed, inFlight)
    ensures var table := Joined(TableOf(tables, spot.owner), spot.msgId, done, ticket);
            Covered(tables[spot.owner := table], delayed || table[spot.msgId].requestId == 0, inFlight)
  {
    assert spot.owner in tables ==> TableOk(tables[spot.owner], spot.owner, delayed, inFlight);
    forall owner | owner in tables && owner != spot.owner
      ensures TableOk(tables[owner], owner, true, inFlight) && TableOk(tables[owner], owner, delayed, inFlight)
    {
    }
  }

  lemma MoreInFlight(table: Table, owner: Owner, delayed: bool, before: map<int, Sent>, after: map<int, Sent>)
    requires TableOk(table, owner, delayed, before)
    requires forall id :: id in before ==> id in after && after[id] == before[id]
    ensures TableOk(table, owner, delayed, after)
  {
  }

  /** The entries that survive a reply. */
  function Unanswered(table: Table, id: int): Table {
    map m | m in table && table[m].requestId != id :: table[m]
  }

  /** The callbacks of all entries answered by request `id` are among these. */
  ghost predicate Contained(table: Table, id: int, callbacks: seq<Ticket>) {
    forall m, t :: m in table && table[m].requestId == id && t in table[m].callbacks ==> t in callbacks
  }

  lemma NothingContained(id: int)
    ensures Contained(map[], id, [])
  {
  }

  /** A reply concerns the table its request was sent for, and no other. */
  lemma OthersUnanswered(tables: Tables, delayed: bool, inFlight: map<int, Sent>, id: int, owner: Owner)
    requires Covered(tables, delayed, inFlight) && id > 0 && id in inFlight && owner != inFlight[id].owner
    ensures Unanswered(TableOf(tables, owner), id) == TableOf(tables, owner)
    ensures forall callbacks :: Contained(TableOf(tables, owner), id, callbacks)
  {
    var table := TableOf(tables, owner);
    assert owner in tables ==> TableOk(tables[owner], owner, delayed, inFlight);
    assert forall m :: m in table ==> EntryOk(table[m], owner, m, delayed, inFlight);
    assert Unanswered(table, id).Keys == table.Keys;
  }

  /** Taking the answered entries out of the one table is taking them out of all. */
  lemma AfterReply(before: Tables, after: Tables, delayed: bool, inFlight: map<int, Sent>, id: int, callbacks: seq<Ticket>)
    requires Covered(before, delayed, inFlight) && id > 0 && id in inFlight && after.Keys <= before.Keys
    requires forall o :: o != inFlight[id].owner ==> TableOf(after, o) == TableOf(before, o)
    requires TableOf(after, inFlight[id].owner) == Unanswered(TableOf(before, inFlight[id].owner), id)
    requires Contained(TableOf(before, inFlight[id].owner), id, callbacks)
    ensures Covered(after, delayed, inFlight - {id})
    ensures forall o :: TableOf(after, o) == Unanswered(TableOf(before, o), id)
    ensures forall o :: Contained(TableOf(before, o), id, callbacks)
  {
    forall o
      ensures TableOf(after, o) == Unanswered(TableOf(before, o), id) && Contained(TableOf(before, o), id, callbacks)
    {
      if o != inFlight[id].owner { OthersUnanswered(before, delayed, inFlight, id, o); }
    }
    forall o | o in after ensures TableOk(after[o], o, delayed, inFlight - {id}) {
      assert TableOk(before[o], o, delayed, inFlight);
      assert TableOf(after, o) == Unanswered(TableOf(before, o), id);
      assert forall m :: m in before[o] ==> EntryOk(before[o][m], o, m, delayed, inFlight);
    }
  }

  /** What resolving does to one table: nothing when all is covered, else one request `id` for the rest. */
  ghost predicate Resolved(was: Table, now: Table, owner: Owner, id: Option<int>, inFlight: map<int, Sent>) {
    match id
    case None => Uncovered(was) == {} && now == was
    case Some(i) =>
      && Uncovered(was) != {} && now == (map m | m in was :: CoverEntry(was[m], i))
      && i in inFlight && inFlight[i] == Sent(owner, Uncovered(was))
  }

  /** Entry by entry: what has a request keeps it, the rest gets the new one, which asks for exactly the rest. */
  lemma ResolvedMeans(was: Table, now: Table, owner: Owner, id: Option<int>, inFlight: map<int, Sent>)
    requires Resolved(was, now, owner, id, inFlight)
    ensures forall m :: m in now <==> m in was
    ensures forall m :: m in was && was[m].requestId > 0 ==> now[m] == was[m]
    ensures forall m :: m in was && was[m].requestId <= 0 ==>
              && id.Some? && id.value in inFlight && inFlight[id.value].owner == owner && m in inFlight[id.value].ids
              && now[m] == Entry(id.value, was[m].callbacks)
    ensures id.Some? ==> inFlight[id.value].ids != {} && forall m :: m in inFlight[id.value].ids ==> m in was && was[m].requestId <= 0
  {
    forall m | m in was && was[m].requestId <= 0 ensures m in Uncovered(was) {
    }
  }

  /** One erased entry: its callbacks are taken out, everything else stays where it is. */
  lemma EraseKeepsTickets(tables: Tables, spot: Spot, ledger: Ledger<Spot>)
    requires spot.owner in tables && spot.msgId in tables[spot.owner] && Accounted(tables, ledger)
    ensures Accounted(tables[spot.owner := tables[spot.owner] - {spot.msgId}], ledger.Take(spot))
    ensures Lists(tables[spot.owner][spot.msgId].callbacks, ledger.At(spot)) && ledger.At(spot) !! ledger.taken
  {
    var r, l := tables[spot.owner := tables[spot.owner] - {spot.msgId}], ledger.Take(spot);
    ledger.Taken(spot);
    assert Lists(Waiting(tables, spot), ledger.At(spot));
    forall s ensures Lists(Waiting(r, s), l.At(s)) {
      assert Lists(Waiting(tables, s), ledger.At(s));
      if s != spot {
        assert Waiting(r, s) == Waiting(tables, s);
      }
    }
  }

  lemma ListsConcat(a: seq<Ticket>, m: set<Ticket>, b: seq<Ticket>, n: set<Ticket>)
    requires Lists(a, m) && Lists(b, n) && m !! n
    ensures Lists(a + b, m + n)
  {
    forall i, j | 0 <= i < j < |a + b| ensures (a + b)[i] != (a + b)[j] {
      if i < |a| <= j {
        assert a[i] in a && b[j - |a|] in b;
      }
    }
  }

  /** The loop of `resolveMessageDatas` with the tables in `todo` still to come. */
  ghost predicate Resolving(was: Tables, now: Tables, todo: set<Owner>, sent: map<Owner, Option<int>>,
                            before: map<int, Sent>, after: map<int, Sent>)
  {
    && now.Keys <= was.Keys && todo <= was.Keys && sent.Keys == was.Keys - todo
    && (forall o :: o in todo ==> o in now && now[o] == was[o])
    && (forall o :: o in now ==> TableOk(now[o], o, o in todo, after))
    && (forall o :: o in sent ==> Resolved(was[o], TableOf(now, o), o, sent[o], after))
    && (forall id :: id in before ==> id in after && after[id] == before[id])
    && (forall id :: id in after && id !in before ==> after[id].owner in sent && sent[after[id].owner] == Some(id))
  }

  lemma ResolvingStep(was: Tables, now: Tables, todo: set<Owner>, sent: map<Owner, Option<int>>, before: map<int, Sent>,
                      after: map<int, Sent>, owner: Owner, id: Option<int>, now': Tables, after': map<int, Sent>)
    requires Resolving(was, now, todo, sent, before, after) && owner in todo
    requires TableOk(TableOf(now', owner), owner, false, after')
    requires forall o :: o != owner ==> TableOf(now', o) == TableOf(now, o) && (o in now' <==> o in now)
    requires Resolved(now[owner], TableOf(now', owner), owner, id, after')
    requires after' == if id == None then after else after[id.value := Sent(owner, Uncovered(now[owner]))]
    requires id.Some? ==> id.value !in after
    ensures Resolving(was, now', todo - {owner}, sent[owner := id], before, after')
  {
    hide TableOk, CoverEntry, Uncovered;
    var sent', todo' := sent[owner := id], todo - {owner};
    assert forall i :: i in after ==> i in after' && after'[i] == after[i];
    forall o | o in now' ensures TableOk(now'[o], o, o in todo', after') {
      if o != owner {
        assert TableOf(now', o) == TableOf(now, o);
        MoreInFlight(now[o], o, o in todo, after, after');
      } else {
        assert TableOf(now', o) == now'[o];
      }
    }
    forall o | o in todo' ensures o in now' && now'[o] == was[o] {
      assert TableOf(now', o) == TableOf(now, o) == was[o];
    }
    assert sent'.Keys == was.Keys - todo';
    forall i | i in after' && i !in before ensures after'[i].owner in sent' && sent'[after'[i].owner] == Some(i) {
      assert i in after ==> after[i].owner in sent && after[i].owner != owner;
    }
    forall o | o in sent' ensures Resolved(was[o], TableOf(now', o), o, sent'[o], after') {
      if o != owner {
        assert TableOf(now', o) == TableOf(now, o);
        StillResolved(was[o], TableOf(now, o), o, sent[o], after, after');
      }
    }
  }

  lemma StillResolved(was: Table, now: Table, owner: Owner, id: Option<int>, after: map<int, Sent>, after': map<int, Sent>)
    requires Resolved(was, now, owner, id, after) && forall i :: i in after ==> i in after' && after'[i] == after[i]
    ensures Resolved(was, now, owner, id, after')
  {
  }

  lemma AllResolved(was: Tables, now: Tables, sent: map<Owner, Option<int>>, inFlight: map<int, Sent>)
    requires sent.Keys == was.Keys && forall o :: o in sent ==> Resolved(was[o], TableOf(now, o), o, sent[o], inFlight)
    ensures forall o, m :: o in was && m in was[o] && was[o][m].requestId > 0 ==>
              m in TableOf(now, o) && TableOf(now, o)[m] == was[o][m]
    ensures forall o, m :: o in was && m in was[o] && was[o][m].requestId <= 0 ==>
              && sent[o].Some? && sent[o].value in inFlight && m in inFlight[sent[o].value].ids
              && m in TableOf(now, o) && TableOf(now, o)[m] == Entry(sent[o].value, was[o][m].callbacks)
    ensures forall o, m :: o in sent && sent[o].Some? && sent[o].value in inFlight && m in inFlight[sent[o].value].ids ==>
              m in was[o] && was[o][m].requestId <= 0
  {
    hide Resolved, TableOf;
    forall o | o in was { ResolvedMeans(was[o], TableOf(now, o), o, sent[o], inFlight); }
  }

  // ---------------------------------------------------------------- the object

  class MessageRequests {
    var tables: Tables
    var delayed: bool                 // the resolve call is queued

    var inFlight: map<int, Sent>
    var lastId: int
    var lastTicket: Ticket
    ghost var ledger: Ledger<Spot>

    ghost predicate Valid()
      reads this
    {
      && Accounted(tables, ledger) && ledger.last == lastTicket
      && Covered(tables, delayed, inFlight)
      && lastId >= 0 && (forall id :: id in inFlight ==> 0 < id <= lastId)
    }

    constructor ()
      ensures Valid() && !delayed && inFlight == map[] && ledger.taken == {} && lastTicket == 0
    {
      tables, delayed := map[], false;
      inFlight, lastId, lastTicket := map[], 0, 0;
      ledger := Ledger(0, map[], {}, []);
    }

    /** `requestMessageData`. */
    method RequestMessageData(owner: Owner, msgId: MsgId, done: bool)
      requires Valid()
      modifies `tables, `delayed, `lastTicket, `ledger
      ensures Valid()
      ensures tables == old(tables)[owner := Joined(TableOf(old(tables), owner), msgId, done, old(lastTicket) + 1)]
      ensures forall o :: o != owner ==> TableOf(tables, o) == TableOf(old(tables), o)
      ensures forall m :: m != msgId ==> (m in tables[owner] <==> m in TableOf(old(tables), owner))
      ensures forall m :: m != msgId && m in tables[owner] ==> tables[owner][m] == TableOf(old(tables), owner)[m]
      ensures lastTicket == old(lastTicket) + if done then 1 else 0
      ensures var more: seq<Ticket> := if done then [lastTicket] else [];
              && owner in tables && msgId in tables[owner]
              && tables[owner][msgId] == if msgId in TableOf(old(tables), owner)
                                         then Entry(TableOf(old(tables), owner)[msgId].requestId,
                                                    old(Waiting(tables, Spot(owner, msgId))) + more)
                                         else Entry(0, more)
      ensures delayed == (old(delayed) || tables[owner][msgId].requestId == 0)
      ensures ledger == if done then old(ledger).Give(Spot(owner, msgId)) else old(ledger)
    {
      hide Accounted, Covered, TableOk, EntryOk;
      AskKeepsTickets(tables, Spot(owner, msgId), done, ledger);
      AskKeepsCovered(tables, Spot(owner, msgId), done, lastTicket + 1, delayed, inFlight);
      var ticket := lastTicket + 1;
      if done {
        lastTicket := ticket;
        ledger := ledger.Give(Spot(owner, msgId));
      }
      tables := tables[owner := Joined(TableOf(tables, owner), msgId, done, ticket)];
      if tables[owner][msgId].requestId == 0 {
        delayed := true;
      }
    }

    /** One table in `resolveMessageDatas`: one request for all uncovered entries, if there are any. */
    method ResolveTable(owner: Owner) returns (id: Option<int>)
      requires Accounted(tables, ledger) && owner in tables && TableOk(tables[owner], owner, true, inFlight)
      requires lastId >= 0 && forall i :: i in inFlight ==> 0 < i <= lastId
      modifies `tables, `inFlight, `lastId
      ensures Accounted(tables, ledger) && TableOk(TableOf(tables, owner), owner, false, inFlight)
      ensures forall o :: o != owner ==> TableOf(tables, o) == TableOf(old(tables), o) && (o in tables <==> o in old(tables))
      ensures Resolved(old(tables)[owner], TableOf(tables, owner), owner, id, inFlight)
      ensures lastId >= old(lastId) && forall i :: i in inFlight ==> 0 < i <= lastId
      ensures inFlight == if id == None then old(inFlight) else old(inFlight)[id.value := Sent(owner, Uncovered(old(tables)[owner]))]
      ensures id.Some? ==> id.value !in old(inFlight)
    {
      if owner != Plain && tables[owner].Keys == {} {
        EmptyTableGoes(tables, owner, ledger);
        tables := tables - {owner};
        return None;
      }
      var ids := Uncovered(tables[owner]);
      if ids == {} {
        forall m | m in tables[owner] ensures tables[owner][m].requestId > 0 {
          assert m !in ids;
        }
        return None;
      }
      lastId := lastId + 1;
      inFlight := inFlight[lastId := Sent(owner, ids)];
      CoverKeepsTickets(tables, owner, lastId, ledger);
      var table := Cover(tables[owner], lastId);
      tables := tables[owner := table];
      return Some(lastId);
    }

    /** `resolveMessageDatas`: afterwards every entry is covered, each table that had uncovered entries by one
        new request of its own, and nothing else was sent. */
    method ResolveMessageDatas() returns (ghost sent: map<Owner, Option<int>>)
      requires Valid() && delayed
      modifies `tables, `delayed, `inFlight, `lastId
      ensures Valid() && !delayed && sent.Keys == old(tables).Keys
      ensures forall o :: o in sent ==> Resolved(old(tables)[o], TableOf(tables, o), o, sent[o], inFlight)
      ensures forall o :: o !in sent ==> o !in tables
      ensures forall id :: id in old(inFlight) ==> id in inFlight && inFlight[id] == old(inFlight)[id]
      ensures forall id :: id in inFlight && id !in old(inFlight) ==>
                inFlight[id].owner in sent && sent[inFlight[id].owner] == Some(id)
      ensures forall o, m :: o in old(tables) && m in old(tables)[o] && old(tables)[o][m].requestId > 0 ==>
                m in TableOf(tables, o) && TableOf(tables, o)[m] == old(tables)[o][m]
      ensures forall o, m :: o in old(tables) && m in old(tables)[o] && old(tables)[o][m].requestId <= 0 ==>
                && sent[o].Some? && sent[o].value in inFlight && m in inFlight[sent[o].value].ids
                && m in TableOf(tables, o) && TableOf(tables, o)[m] == Entry(sent[o].value, old(tables)[o][m].callbacks)
      ensures forall id, m :: id in inFlight && id !in old(inFlight) && m in inFlight[id].ids ==>
                var o := inFlight[id].owner; m in old(tables)[o] && old(tables)[o][m].requestId <= 0
    {
      delayed := false;
      sent := map[];
      var todo := tables.Keys;
      while todo != {}
        invariant !delayed && Accounted(tables, ledger)
        invariant lastId >= 0 && forall id :: id in inFlight ==> 0 < id <= lastId
        invariant Resolving(old(tables), tables, todo, sent, old(inFlight), inFlight)
        decreases todo
      {
        var owner := Pick(todo);
        ghost var now, after := tables, inFlight;
        var id := ResolveTable(owner);
        ResolvingStep(old(tables), now, todo, sent, old(inFlight), after, owner, id, tables, inFlight);
        sent := sent[owner := id];
        todo := todo - {owner};
      }
      AllResolved(old(tables), tables, sent, inFlight);
    }

    /** The first half of `finalizeMessageDataRequest`: the answered entries leave their table. */
    method TakeAnswered(id: int) returns (callbacks: seq<Ticket>)
      requires Valid() && id in inFlight && ledger.taken == {}
      modifies `tables, `inFlight, `ledger
      ensures Valid() && Lists(callbacks, ledger.taken)
      ensures inFlight == old(inFlight) - {id} && Grown(old(ledger), ledger)
      ensures forall o :: TableOf(tables, o) == Unanswered(TableOf(old(tables), o), id)
      ensures forall o, m :: m in TableOf(tables, o) <==> m in TableOf(old(tables), o) && TableOf(old(tables), o)[m].requestId != id
      ensures forall o, m :: m in TableOf(tables, o) ==> TableOf(tables, o)[m] == TableOf(old(tables), o)[m]
      ensures forall o :: Contained(TableOf(old(tables), o), id, callbacks)
    {
      hide Accounted, Covered, Contained;
      var owner := inFlight[id].owner;
      callbacks := [];
      NothingContained(id);
      if owner in tables {
        callbacks := EraseAnswered(owner, id);
        if owner != Plain && tables[owner].Keys == {} {
          EmptyTableGoes(tables, owner, ledger);
          tables := tables - {owner};
        }
      }
      AfterReply(old(tables), tables, delayed, inFlight, id, callbacks);
      inFlight := inFlight - {id};
    }

    /** The erasing loop. */
    method EraseAnswered(owner: Owner, id: int) returns (callbacks: seq<Ticket>)
      requires owner in tables && Accounted(tables, ledger) && ledger.taken == {}
      modifies `tables, `ledger
      ensures Accounted(tables, ledger) && Lists(callbacks, ledger.taken)
      ensures tables.Keys == old(tables).Keys && tables[owner] == Unanswered(old(tables)[owner], id)
      ensures forall o :: o in tables && o != owner ==> tables[o] == old(tables)[o]
      ensures Contained(old(tables)[owner], id, callbacks)
      ensures ledger.ran == old(ledger).ran && ledger.last == old(ledger).last
    {
      callbacks := [];
      ghost var was := tables[owner];
      var keys := tables[owner].Keys;
      while keys != {}
        invariant keys <= was.Keys && tables.Keys == old(tables).Keys
        invariant Accounted(tables, ledger) && Lists(callbacks, ledger.taken)
        invariant forall o :: o in tables && o != owner ==> tables[o] == old(tables)[o]
        invariant forall m :: m in tables[owner] <==> m in was && (m in keys || was[m].requestId != id)
        invariant forall m :: m in tables[owner] ==> tables[owner][m] == was[m]
        invariant forall m, t :: m in was && m !in keys && was[m].requestId == id && t in was[m].callbacks ==> t in callbacks
        invariant ledger.ran == old(ledger).ran && ledger.last == old(ledger).last
        decreases keys
      {
        var m := Pick(keys);
        if tables[owner][m].requestId == id {
          EraseKeepsTickets(tables, Spot(owner, m), ledger);
          ListsConcat(callbacks, ledger.taken, tables[owner][m].callbacks, ledger.At(Spot(owner, m)));
          callbacks := callbacks + tables[owner][m].callbacks;
          ledger := ledger.Take(Spot(owner, m));
          tables := tables[owner := tables[owner] - {m}];
        }
        keys := keys - {m};
      }
      assert tables[owner].Keys == Unanswered(was, id).Keys;
    }

    /** The second half: the callbacks run in order, each may ask for more. */
    method RunAll(callbacks: seq<Ticket>, tape: seq<Move>) returns (rest: seq<Move>)
      requires Valid() && Lists(callbacks, ledger.taken)
      modifies `tables, `delayed, `lastTicket, `ledger
      ensures Valid() && ledger.taken == {} && |rest| <= |tape|
      ensures Grown(old(ledger), ledger) && forall t :: t in callbacks ==> t in ledger.ran
    {
      rest := tape;
      for i := 0 to |callbacks|
        invariant Valid() && |rest| <= |tape| && Grown(old(ledger), ledger)
        invariant Lists(callbacks[i..], ledger.taken)
        invariant forall k :: 0 <= k < i ==> callbacks[k] in ledger.ran
      {
        RunOne(callbacks[i]);
        assert callbacks[i..] == [callbacks[i]] + callbacks[i + 1..];
        rest := Reenter(rest);
      }
      assert callbacks[|callbacks|..] == [];
    }

    ghost method RunOne(t: Ticket)
      requires Valid() && t in ledger.taken
      modifies `ledger
      ensures Valid() && ledger == old(ledger).Run(t)
    {
      ledger.Ran(t);
      ledger := ledger.Run(t);
      forall s ensures Lists(Waiting(tables, s), ledger.At(s)) {
        assert Lists(Waiting(tables, s), old(ledger).At(s));
      }
    }

    /** The calls one running callback makes. */
    method Reenter(tape: seq<Move>) returns (rest: seq<Move>)
      requires Valid()
      modifies `tables, `delayed, `lastTicket, `ledger
      ensures Valid() && |rest| <= |tape| && Grown(old(ledger), ledger) && ledger.taken == old(ledger).taken
    {
      rest := tape;
      while rest != [] && rest[0] != Return
        invariant Valid() && |rest| <= |tape| && Grown(old(ledger), ledger) && ledger.taken == old(ledger).taken
        decreases |rest|
      {
        RequestMessageData(rest[0].owner, rest[0].msgId, rest[0].done);
        rest := rest[1..];
      }
      if rest != [] {
        rest := rest[1..];
      }
    }

    /** `finalizeMessageDataRequest`, from the done and the fail handler alike. */
    method Finalize(id: int, tape: seq<Move>) returns (rest: seq<Move>)
      requires Valid() && id in inFlight && ledger.taken == {}
      modifies this
      ensures Valid() && ledger.taken == {} && |rest| <= |tape| && Grown(old(ledger), ledger)
      ensures inFlight == old(inFlight) - {id}
      ensures forall o, m :: m in TableOf(old(tables), o) && TableOf(old(tables), o)[m].requestId == id ==>
                forall t :: t in TableOf(old(tables), o)[m].callbacks ==> t in ledger.ran
    {
      var callbacks := TakeAnswered(id);
      rest := RunAll(callbacks, tape);
      assert forall o :: Contained(TableOf(old(tables), o), id, callbacks);
      assert forall o :: Contained(TableOf(old(tables), o), id, ledger.ran);
    }
  }

  // ---------------------------------------------------------------- all runs

  datatype Event = Request(owner: Owner, msgId: MsgId, done: bool) | MainCall | Reply(id: int)

  /** Any sequence of requests, main-thread turns and replies, with any behaviour of the callbacks.  Each callback
      passed by a request has its own ticket; when all is quiet every one has run exactly once. */
  method Run(events: seq<(Event, seq<Move>)>) returns (m: MessageRequests, tickets: seq<Option<Ticket>>)
    ensures m.Valid() && m.ledger.taken == {}
    ensures |tickets| == |events|
    ensures forall k :: 0 <= k < |events| && tickets[k].Some? ==> 1 <= tickets[k].value <= m.lastTicket
    ensures forall j, k :: 0 <= j < k < |events| && tickets[j].Some? && tickets[k].Some? ==> tickets[j].value < tickets[k].value
    ensures forall k :: 0 <= k < |events| ==> (tickets[k].Some? <==> events[k].0.Request? && events[k].0.done)
    ensures !m.delayed && m.inFlight == map[] ==>
              && (forall owner :: TableOf(m.tables, owner).Keys == {})
              && (forall i, j :: 0 <= i < j < |m.ledger.ran| ==> m.ledger.ran[i] != m.ledger.ran[j])
              && (forall t :: t in m.ledger.ran <==> 1 <= t <= m.lastTicket)
              && (forall k :: 0 <= k < |events| && tickets[k].Some? ==> tickets[k].value in m.ledger.ran)
  {
    hide Accounted, Covered, Numbered;
    m := new MessageRequests();
    tickets := [];
    assert Numbered([], 0) by { NothingNumbered(); }
    for i := 0 to |events|
      invariant fresh(m) && m.Valid() && m.ledger.taken == {} && |tickets| == i && Numbered(tickets, m.lastTicket)
      invariant forall k :: 0 <= k < i ==> (tickets[k].Some? <==> events[k].0.Request? && events[k].0.done)
    {
      ghost var last := m.lastTicket;
      var ticket := None;
      match events[i].0 {
        case Request(owner, msgId, done) =>
          m.RequestMessageData(owner, msgId, done);
          if done {
            ticket := Some(m.lastTicket);
          }
        case MainCall => if m.delayed { ghost var sent := m.ResolveMessageDatas(); }
        case Reply(id) => if id in m.inFlight { var rest := m.Finalize(id, events[i].1); }
      }
      NumberedMore(tickets, last, ticket, m.lastTicket);
      tickets := tickets + [ticket];
    }
    AllWithin(tickets, m.lastTicket);
    if !m.delayed && m.inFlight == map[] {
      QuietMeansAllRan(m.tables, m.ledger);
    }
  }
}
