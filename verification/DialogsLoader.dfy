/** Loading the chats list of each folder (`requestDialogs`, `requestMoreDialogs`, `updateDialogsOffset`,
    `dialogsLoadFinish`, `requestPinnedDialogs` and their handlers).

    Each folder has a load state with one request for the list and one for the pinned chats.  The state is
    destroyed when both are answered, and handlers of requests still on the wire look it up again. */
module DialogsLoader {
  import opened Collections

  datatype Folder = Main | In(id: int)

  /** MTPDialog and MTPMessage, as far as they are read; a zero id or date is missing. */
  datatype Dialog = Dialog(peer: int, topMessage: int)
  datatype Message = Message(id: int, peer: int, date: int)

  // ---------------------------------------------------------------- the next offset

  predicate Complete(d: Dialog) { d.peer != 0 && d.topMessage != 0 }

  predicate IsTop(m: Message, d: Dialog) { m.id == d.topMessage && m.peer == d.peer }

  /** The date of the last listed message that is the dialog's top message, or zero. */
  function DateOf(d: Dialog, messages: seq<Message>): int {
    if messages == [] then 0
    else if IsTop(messages[|messages| - 1], d) then messages[|messages| - 1].date
    else DateOf(d, messages[..|messages| - 1])
  }

  predicate Dated(d: Dialog, messages: seq<Message>) { Complete(d) && DateOf(d, messages) != 0 }

  /** The last dialog with a peer and a top message. */
  function LastComplete(dialogs: seq<Dialog>): Option<Dialog> {
    if dialogs == [] then None
    else if Complete(dialogs[|dialogs| - 1]) then Some(dialogs[|dialogs| - 1])
    else LastComplete(dialogs[..|dialogs| - 1])
  }

  /** The date of the last dated dialog, or zero. */
  function LastDate(dialogs: seq<Dialog>, messages: seq<Message>): int {
    if dialogs == [] then 0
    else if Dated(dialogs[|dialogs| - 1], messages) then DateOf(dialogs[|dialogs| - 1], messages)
    else LastDate(dialogs[..|dialogs| - 1], messages)
  }

  lemma {:induction false} LastCompleteMeans(dialogs: seq<Dialog>)
    ensures LastComplete(dialogs).None? <==> forall k :: 0 <= k < |dialogs| ==> !Complete(dialogs[k])
    ensures LastComplete(dialogs).Some? ==>
              exists k :: 0 <= k < |dialogs| && LastComplete(dialogs) == Some(dialogs[k]) && Complete(dialogs[k])
                       && forall j :: k < j < |dialogs| ==> !Complete(dialogs[j])
  {
    if dialogs != [] {
      var n := |dialogs| - 1;
      LastCompleteMeans(dialogs[..n]);
      if Complete(dialogs[n]) {
        assert LastComplete(dialogs) == Some(dialogs[n]);
      } else if LastComplete(dialogs).Some? {
        var k :| 0 <= k < n && LastComplete(dialogs[..n]) == Some(dialogs[..n][k]) && Complete(dialogs[..n][k])
          && forall j :: k < j < n ==> !Complete(dialogs[..n][j]);
        assert dialogs[..n][k] == dialogs[k] && forall j :: k < j < n ==> dialogs[..n][j] == dialogs[j];
      } else {
        assert forall k :: 0 <= k < n ==> dialogs[..n][k] == dialogs[k];
      }
    }
  }

  /** The date is zero exactly when no dialog is dated; else it is that of the last dated dialog. */
  lemma {:induction false} LastDateMeans(dialogs: seq<Dialog>, messages: seq<Message>)
    ensures LastDate(dialogs, messages) == 0 <==> forall k :: 0 <= k < |dialogs| ==> !Dated(dialogs[k], messages)
    ensures LastDate(dialogs, messages) != 0 ==>
              exists k :: 0 <= k < |dialogs| && LastDate(dialogs, messages) == DateOf(dialogs[k], messages) && Complete(dialogs[k])
                       && forall j :: k < j < |dialogs| ==> !Dated(dialogs[j], messages)
  {
    if dialogs != [] {
      var n := |dialogs| - 1;
      LastDateMeans(dialogs[..n], messages);
      if Dated(dialogs[n], messages) {
        assert LastDate(dialogs, messages) == DateOf(dialogs[n], messages);
      } else if LastDate(dialogs, messages) != 0 {
        var k :| 0 <= k < n && LastDate(dialogs[..n], messages) == DateOf(dialogs[..n][k], messages)
          && Complete(dialogs[..n][k]) && forall j :: k < j < n ==> !Dated(dialogs[..n][j], messages);
        assert dialogs[..n][k] == dialogs[k] && forall j :: k < j < n ==> dialogs[..n][j] == dialogs[j];
      } else {
        assert forall k :: 0 <= k < n ==> dialogs[..n][k] == dialogs[k];
      }
    }
  }

  // The same in the fields of the dialogs and messages.

  /** Message `m` is the last listed one with the id and the peer of this dialog. */
  predicate TopAt(d: Dialog, messages: seq<Message>, m: nat) {
    && m < |messages| && messages[m].id == d.topMessage && messages[m].peer == d.peer
    && forall n :: m < n < |messages| ==> messages[n].id != d.topMessage || messages[n].peer != d.peer
  }

  lemma {:induction false} DateOfMeans(d: Dialog, messages: seq<Message>)
    ensures forall m: nat :: TopAt(d, messages, m) ==> DateOf(d, messages) == messages[m].date
    ensures (forall m: nat :: !TopAt(d, messages, m)) ==> DateOf(d, messages) == 0
  {
    if messages != [] {
      var n := |messages| - 1;
      DateOfMeans(d, messages[..n]);
      if messages[n].id == d.topMessage && messages[n].peer == d.peer {
        assert TopAt(d, messages, n);
      } else {
        forall m: nat ensures TopAt(d, messages, m) <==> TopAt(d, messages[..n], m) {}
      }
    }
  }

  /** The dialog has a peer and a top message, which is listed with a date. */
  ghost predicate HasDate(d: Dialog, messages: seq<Message>) {
    d.peer != 0 && d.topMessage != 0 && exists m: nat :: TopAt(d, messages, m) && messages[m].date != 0
  }

  lemma DatedMeans(d: Dialog, messages: seq<Message>)
    ensures Dated(d, messages) <==> HasDate(d, messages)
  {
    DateOfMeans(d, messages);
  }

  /** The date of the last dialog that has one (dialog `k`, message `m`), and the peer and message of the last
      dialog that has both (dialog `j`). */
  predicate IsOffset(date: int, id: int, peer: int, dialogs: seq<Dialog>, messages: seq<Message>, k: nat, m: nat, j: nat) {
    && k < |dialogs| && j < |dialogs| && TopAt(dialogs[k], messages, m)
    && date == messages[m].date != 0 && dialogs[k].peer != 0 && dialogs[k].topMessage != 0
    && peer == dialogs[j].peer != 0 && id == dialogs[j].topMessage != 0
    && (forall i :: j < i < |dialogs| ==> dialogs[i].peer == 0 || dialogs[i].topMessage == 0)
  }

  ghost predicate NextOffset(st: State, dialogs: seq<Dialog>, messages: seq<Message>) {
    exists k: nat, m: nat, j: nat ::
      && IsOffset(st.offsetDate, st.offsetId, st.offsetPeer, dialogs, messages, k, m, j)
      && forall i :: k < i < |dialogs| ==> !HasDate(dialogs[i], messages)
  }

  predicate Offsets(st: State, date: int, d: Dialog) {
    st.offsetDate == date && st.offsetId == d.topMessage && st.offsetPeer == d.peer
  }

  lemma ScannedOffset(dialogs: seq<Dialog>, messages: seq<Message>)
    ensures LastDate(dialogs, messages) == 0 <==> forall k :: 0 <= k < |dialogs| ==> !HasDate(dialogs[k], messages)
    ensures LastDate(dialogs, messages) != 0 && LastComplete(dialogs).Some? ==>
              forall st: State ::
                Offsets(st, LastDate(dialogs, messages), LastComplete(dialogs).value) ==> NextOffset(st, dialogs, messages)
  {
    LastDateMeans(dialogs, messages);
    LastCompleteMeans(dialogs);
    forall d { DatedMeans(d, messages); }
    if LastDate(dialogs, messages) != 0 && LastComplete(dialogs).Some? {
      var k :| 0 <= k < |dialogs| && LastDate(dialogs, messages) == DateOf(dialogs[k], messages) && Complete(dialogs[k])
        && forall i :: k < i < |dialogs| ==> !Dated(dialogs[i], messages);
      DateOfMeans(dialogs[k], messages);
      var m: nat :| TopAt(dialogs[k], messages, m);
      var j :| 0 <= j < |dialogs| && LastComplete(dialogs) == Some(dialogs[j]) && Complete(dialogs[j])
        && forall i :: j < i < |dialogs| ==> !Complete(dialogs[i]);
      assert IsOffset(LastDate(dialogs, messages), dialogs[j].topMessage, dialogs[j].peer, dialogs, messages, k, m, j);
    }
  }

  /** There is a next offset and its date is that of its own dialog exactly when the last complete dialog is
      dated. */
  lemma OffsetIsOneDialog(dialogs: seq<Dialog>, messages: seq<Message>)
    requires LastComplete(dialogs).Some?
    ensures LastDate(dialogs, messages) != 0 && LastDate(dialogs, messages) == DateOf(LastComplete(dialogs).value, messages)
       <==> Dated(LastComplete(dialogs).value, messages)
  {
    if !Complete(dialogs[|dialogs| - 1]) {
      OffsetIsOneDialog(dialogs[..|dialogs| - 1], messages);
    }
  }

  lemma OffsetCanMixDialogs()
    ensures var dialogs, messages := [Dialog(1, 10), Dialog(2, 20)], [Message(10, 1, 500)];
            LastComplete(dialogs) == Some(Dialog(2, 20)) && LastDate(dialogs, messages) == 500
            && DateOf(Dialog(2, 20), messages) == 0
  {
    var dialogs, messages := [Dialog(1, 10), Dialog(2, 20)], [Message(10, 1, 500)];
    assert messages[..0] == [] && dialogs[..1] == [Dialog(1, 10)];
    assert DateOf(Dialog(2, 20), messages) == DateOf(Dialog(2, 20), messages[..0]);
    assert LastDate([Dialog(1, 10)], messages) == 500;
  }

  /** The two reversed loops of `updateDialogsOffset`. */
  method ScanOffset(dialogs: seq<Dialog>, messages: seq<Message>) returns (lastDate: int, lastPeer: int, lastMsgId: int)
    ensures lastDate == LastDate(dialogs, messages)
    ensures match LastComplete(dialogs)
            case None => lastPeer == 0 && lastMsgId == 0
            case Some(d) => lastPeer == d.peer && lastMsgId == d.topMessage
  {
    lastDate, lastPeer, lastMsgId := 0, 0, 0;
    assert dialogs[..|dialogs|] == dialogs;
    var i := |dialogs|;
    while i > 0
      invariant 0 <= i <= |dialogs| && lastDate == 0
      invariant LastDate(dialogs, messages) == LastDate(dialogs[..i], messages)
      invariant lastPeer == 0 <==> lastMsgId == 0
      invariant lastPeer == 0 ==> LastComplete(dialogs) == LastComplete(dialogs[..i])
      invariant lastPeer != 0 ==> LastComplete(dialogs) == Some(Dialog(lastPeer, lastMsgId))
    {
      i := i - 1;
      var d := dialogs[i];
      assert dialogs[..i + 1][..i] == dialogs[..i] && dialogs[..i + 1][i] == d;
      if d.peer != 0 && d.topMessage != 0 {
        if lastPeer == 0 {
          lastPeer := d.peer;
        }
        if lastMsgId == 0 {
          lastMsgId := d.topMessage;
        }
        lastDate := ScanMessages(d, messages);
      }
      if lastDate != 0 {
        break;
      }
    }
  }

  method ScanMessages(d: Dialog, messages: seq<Message>) returns (date: int)
    ensures date == DateOf(d, messages)
  {
    assert messages[..|messages|] == messages;
    var j := |messages|;
    while j > 0
      invariant 0 <= j <= |messages| && DateOf(d, messages) == DateOf(d, messages[..j])
    {
      j := j - 1;
      assert messages[..j + 1][..j] == messages[..j] && messages[..j + 1][j] == messages[j];
      if IsTop(messages[j], d) {
        return messages[j].date;
      }
    }
    return 0;
  }

  datatype ListResult = NotModified | All | Slice(dialogs: seq<Dialog>, messages: seq<Message>)

  // ---------------------------------------------------------------- what always holds

  /** DialogsLoadState. */
  datatype State = State(offsetDate: int, offsetId: int, offsetPeer: int, requestId: int, listReceived: bool,
                         pinnedRequestId: int, pinnedReceived: bool)

  const NewState: State := State(0, 0, 0, 0, false, 0, false)

  type States = map<Folder, State>

  datatype Id = Id(value: int)

  /** A request on the wire. */
  datatype Sent = List(folder: Folder) | Pinned(folder: Folder)

  /** Every request in flight is the one its live load state waits for, and was sent for this very load. */
  ghost predicate FlightsOk(states: States, inFlight: map<int, Sent>, loadOf: map<Folder, nat>, sentBy: map<int, nat>) {
    forall id :: id in inFlight ==> FlightOk(states, id, inFlight[id], loadOf, sentBy)
  }

  ghost predicate FlightOk(states: States, id: int, sent: Sent, loadOf: map<Folder, nat>, sentBy: map<int, nat>) {
    && id > 0 && sent.folder in states && sent.folder in loadOf
    && id in sentBy && sentBy[id] == loadOf[sent.folder]
    && (sent.List? ==> states[sent.folder].requestId == id && !states[sent.folder].listReceived)
    && (sent.Pinned? ==> states[sent.folder].pinnedRequestId == id && !states[sent.folder].pinnedReceived)
  }

  /** The load waits for a list. */
  predicate Waits(st: State) { st.requestId != 0 && !st.listReceived }

  /** A live load state; `stale` are the requests answered with "not modified". */
  ghost predicate StateOk(f: Folder, st: State, inFlight: map<int, Sent>, stale: set<Id>) {
    && (Waits(st) && Id(st.requestId) !in stale ==> st.requestId in inFlight && inFlight[st.requestId] == List(f))
    && (st.requestId == 0 ==> !st.listReceived)
    && (st.pinnedReceived ==> st.pinnedRequestId == 0)
    && (st.pinnedRequestId != 0 ==> st.pinnedRequestId in inFlight && inFlight[st.pinnedRequestId] == Pinned(f))
  }

  ghost predicate StatesOk(states: States, inFlight: map<int, Sent>, loadOf: map<Folder, nat>, stale: set<Id>) {
    && loadOf.Keys == states.Keys && (forall f :: f in states ==> StateOk(f, states[f], inFlight, stale))
    && (forall id :: id in stale ==> id.value !in inFlight)
  }

  predicate HasList(states: States, f: Folder) { f in states && states[f].listReceived }

  predicate HasPinned(states: States, f: Folder) { f in states && states[f].pinnedReceived }

  ghost predicate SameFlags(a: States, b: States) {
    forall f :: HasList(a, f) == HasList(b, f) && HasPinned(a, f) == HasPinned(b, f)
  }

  /** The server has sent the whole list, or a part of it without a next offset. */
  ghost predicate FullList(result: ListResult) {
    result.All? || (result.Slice? && forall k :: 0 <= k < |result.dialogs| ==> !HasDate(result.dialogs[k], result.messages))
  }

  /** The folder whose list, or whose pinned chats, one step completes. */
  datatype Completes = Nothing | CompletesList(folder: Folder) | CompletesPinned(folder: Folder)

  /** The load that the step ends, because the other half was there. */
  function Ends(was: States, c: Completes): seq<Folder> {
    match c
    case Nothing => []
    case CompletesList(f) => if HasPinned(was, f) then [f] else []
    case CompletesPinned(f) => if HasList(was, f) then [f] else []
  }

  /** What a step does to the two halves of every load, and which notification it posts. */
  ghost predicate Advances(was: States, now: States, posted0: seq<Folder>, posted: seq<Folder>, c: Completes) {
    && posted == posted0 + Ends(was, c)
    && (c.CompletesList? ==> c.folder in was && !was[c.folder].listReceived)
    && (c.CompletesPinned? ==> c.folder in was && !was[c.folder].pinnedReceived)
    && (forall f :: f in Ends(was, c) ==> f !in now)
    && (forall f :: f !in Ends(was, c) ==>
          && HasList(now, f) == (HasList(was, f) || c == CompletesList(f))
          && HasPinned(now, f) == (HasPinned(was, f) || c == CompletesPinned(f)))
  }

  lemma SameAdvances(was: States, now: States, posted: seq<Folder>)
    requires SameFlags(was, now)
    ensures Advances(was, now, posted, posted, Nothing)
  {
  }

  lemma ListAdvances(was: States, now: States, posted0: seq<Folder>, posted: seq<Folder>, f: Folder)
    requires f in was && !was[f].listReceived
    requires if was[f].pinnedReceived then now == was - {f} && posted == posted0 + [f]
             else now == was[f := was[f].(listReceived := true)] && posted == posted0
    ensures Advances(was, now, posted0, posted, CompletesList(f))
  {
  }

  lemma PinnedAdvances(was: States, now: States, posted0: seq<Folder>, posted: seq<Folder>, f: Folder)
    requires f in was && !was[f].pinnedReceived
    requires if was[f].listReceived then now == was - {f} && posted == posted0 + [f]
             else now == was[f := was[f].(pinnedRequestId := 0, pinnedReceived := true)] && posted == posted0
    ensures Advances(was, now, posted0, posted, CompletesPinned(f))
  {
  }

  lemma OffsetKeepsFlags(was: States, now: States, f: Folder)
    requires now == was || (f in was && f in now && now == was[f := was[f].(requestId := 0, offsetDate := now[f].offsetDate,
                                                             offsetId := now[f].offsetId, offsetPeer := now[f].offsetPeer)])
    ensures SameFlags(was, now)
  {
  }

  lemma AdvancesOn(was: States, mid: States, now: States, posted0: seq<Folder>, posted: seq<Folder>, c: Completes)
    requires Advances(was, mid, posted0, posted, c) && SameFlags(mid, now) && now.Keys == mid.Keys
    ensures Advances(was, now, posted0, posted, c)
  {
  }

  predicate Finished(st: State) { st.listReceived && st.pinnedReceived }

  ghost predicate NoneFinished(states: States) { forall f :: f in states ==> !Finished(states[f]) }

  /** At most one list request and at most one pinned request is in flight for each folder. */
  lemma OneOfEachInFlight(states: States, inFlight: map<int, Sent>, loadOf: map<Folder, nat>, sentBy: map<int, nat>, a: int, b: int)
    requires FlightsOk(states, inFlight, loadOf, sentBy)
    requires a in inFlight && b in inFlight && inFlight[a] == inFlight[b]
    ensures a == b
  {
    assert FlightOk(states, a, inFlight[a], loadOf, sentBy) && FlightOk(states, b, inFlight[b], loadOf, sentBy);
  }

  /** No request of a finished load is in flight, so none can touch a later load. */
  lemma FinishedLoadHasNoFlights(states: States, inFlight: map<int, Sent>, loadOf: map<Folder, nat>, sentBy: map<int, nat>, f: Folder)
    requires FlightsOk(states, inFlight, loadOf, sentBy)
    requires f !in states || Finished(states[f])
    ensures forall id :: id in inFlight ==> inFlight[id].folder != f
  {
    forall id | id in inFlight ensures inFlight[id].folder != f {
      assert FlightOk(states, id, inFlight[id], loadOf, sentBy);
    }
  }

  lemma NewLoad(states: States, inFlight: map<int, Sent>, loadOf: map<Folder, nat>, sentBy: map<int, nat>,
                stale: set<Id>, f: Folder, load: nat)
    requires FlightsOk(states, inFlight, loadOf, sentBy) && StatesOk(states, inFlight, loadOf, stale) && f !in states
    ensures FlightsOk(states[f := NewState], inFlight, loadOf[f := load], sentBy)
    ensures StatesOk(states[f := NewState], inFlight, loadOf[f := load], stale)
    ensures NoneFinished(states) ==> NoneFinished(states[f := NewState])
  {
    FinishedLoadHasNoFlights(states, inFlight, loadOf, sentBy, f);
    forall id | id in inFlight ensures FlightOk(states[f := NewState], id, inFlight[id], loadOf[f := load], sentBy) {
      assert FlightOk(states, id, inFlight[id], loadOf, sentBy);
    }
  }

  /** A load ends: its state goes. */
  lemma EndLoad(states: States, inFlight: map<int, Sent>, loadOf: map<Folder, nat>, sentBy: map<int, nat>,
                stale: set<Id>, f: Folder)
    requires FlightsOk(states, inFlight, loadOf, sentBy) && StatesOk(states, inFlight, loadOf, stale)
    requires f in states && Finished(states[f])
    ensures FlightsOk(states - {f}, inFlight, loadOf - {f}, sentBy) && StatesOk(states - {f}, inFlight, loadOf - {f}, stale)
  {
    FinishedLoadHasNoFlights(states, inFlight, loadOf, sentBy, f);
    forall id | id in inFlight ensures FlightOk(states - {f}, id, inFlight[id], loadOf - {f}, sentBy) {
      assert FlightOk(states, id, inFlight[id], loadOf, sentBy);
    }
  }

  lemma ListSent(states: States, inFlight: map<int, Sent>, loadOf: map<Folder, nat>, sentBy: map<int, nat>,
                 stale: set<Id>, f: Folder, id: int)
    requires FlightsOk(states, inFlight, loadOf, sentBy) && StatesOk(states, inFlight, loadOf, stale)
    requires f in states && states[f].requestId == 0 && id > 0 && id !in inFlight && Id(id) !in stale
    ensures var states' := states[f := states[f].(requestId := id)];
            && FlightsOk(states', inFlight[id := List(f)], loadOf, sentBy[id := loadOf[f]])
            && StatesOk(states', inFlight[id := List(f)], loadOf, stale)
            && (NoneFinished(states) ==> NoneFinished(states'))
  {
    var states' := states[f := states[f].(requestId := id)];
    forall i | i in inFlight ensures FlightOk(states', i, inFlight[i], loadOf, sentBy[id := loadOf[f]]) {
      assert FlightOk(states, i, inFlight[i], loadOf, sentBy);
    }
    assert forall g :: g in states ==> StateOk(g, states[g], inFlight, stale);
  }

  lemma PinnedSent(states: States, inFlight: map<int, Sent>, loadOf: map<Folder, nat>, sentBy: map<int, nat>,
                   stale: set<Id>, f: Folder, id: int)
    requires FlightsOk(states, inFlight, loadOf, sentBy) && StatesOk(states, inFlight, loadOf, stale)
    requires f in states && states[f].pinnedRequestId == 0 && !states[f].pinnedReceived && id > 0 && id !in inFlight
    requires Id(id) !in stale
    ensures var states' := states[f := states[f].(pinnedRequestId := id)];
            && FlightsOk(states', inFlight[id := Pinned(f)], loadOf, sentBy[id := loadOf[f]])
            && StatesOk(states', inFlight[id := Pinned(f)], loadOf, stale)
            && (NoneFinished(states) ==> NoneFinished(states'))
  {
    var states' := states[f := states[f].(pinnedRequestId := id)];
    forall i | i in inFlight ensures FlightOk(states', i, inFlight[i], loadOf, sentBy[id := loadOf[f]]) {
      assert FlightOk(states, i, inFlight[i], loadOf, sentBy);
    }
    assert forall g :: g in states ==> StateOk(g, states[g], inFlight, stale);
  }

  /** A list request is answered or has failed; the state may take any new offset, and is free for the next
      request or has received all. */
  lemma ListAnswered(states: States, inFlight: map<int, Sent>, loadOf: map<Folder, nat>, sentBy: map<int, nat>,
                     stale: set<Id>, id: int, st: State, now: set<Id>)
    requires FlightsOk(states, inFlight, loadOf, sentBy) && StatesOk(states, inFlight, loadOf, stale)
    requires id in inFlight && inFlight[id].List? && inFlight[id].folder in states
    requires var was := states[inFlight[id].folder];
             st.pinnedRequestId == was.pinnedRequestId && st.pinnedReceived == was.pinnedReceived
             && (st.requestId == 0 ==> !st.listReceived)
    requires stale <= now <= stale + {Id(id)} && (Waits(st) ==> Id(st.requestId) in now)
    ensures var f := inFlight[id].folder;
            && FlightsOk(states[f := st], inFlight - {id}, loadOf, sentBy)
            && StatesOk(states[f := st], inFlight - {id}, loadOf, now)
            && (NoneFinished(states) && !Finished(st) ==> NoneFinished(states[f := st]))
  {
    var f := inFlight[id].folder;
    forall i | i in inFlight && i != id ensures FlightOk(states[f := st], i, inFlight[i], loadOf, sentBy) {
      assert FlightOk(states, i, inFlight[i], loadOf, sentBy) && FlightOk(states, id, inFlight[id], loadOf, sentBy);
    }
    forall g | g in states && g != f ensures StateOk(g, states[g], inFlight - {id}, now) {
      assert StateOk(g, states[g], inFlight, stale);
    }
    assert StateOk(f, states[f], inFlight, stale);
  }

  lemma PinnedAnswered(states: States, inFlight: map<int, Sent>, loadOf: map<Folder, nat>, sentBy: map<int, nat>,
                       stale: set<Id>, id: int)
    requires FlightsOk(states, inFlight, loadOf, sentBy) && StatesOk(states, inFlight, loadOf, stale)
    requires id in inFlight && inFlight[id].Pinned? && inFlight[id].folder in states
    ensures var f := inFlight[id].folder;
            var states' := states[f := states[f].(pinnedRequestId := 0, pinnedReceived := true)];
            && FlightsOk(states', inFlight - {id}, loadOf, sentBy) && StatesOk(states', inFlight - {id}, loadOf, stale)
  {
    var f := inFlight[id].folder;
    var states' := states[f := states[f].(pinnedRequestId := 0, pinnedReceived := true)];
    forall i | i in inFlight && i != id ensures FlightOk(states', i, inFlight[i], loadOf, sentBy) {
      assert FlightOk(states, i, inFlight[i], loadOf, sentBy) && FlightOk(states, id, inFlight[id], loadOf, sentBy);
    }
    forall g | g in states' ensures StateOk(g, states'[g], inFlight - {id}, stale) {
      assert StateOk(g, states[g], inFlight, stale);
    }
  }

  /** The folder a reply belongs to is being loaded: the fail handler may dereference its state. */
  lemma FlightHasState(states: States, inFlight: map<int, Sent>, loadOf: map<Folder, nat>, sentBy: map<int, nat>, id: int)
    requires FlightsOk(states, inFlight, loadOf, sentBy) && id in inFlight
    ensures FlightOk(states, id, inFlight[id], loadOf, sentBy)
  {
  }

  /** How often a folder occurs. */
  function Count(log: seq<Folder>, f: Folder): nat {
    if log == [] then 0 else Count(log[..|log| - 1], f) + (if log[|log| - 1] == f then 1 else 0)
  }

  lemma CountAppend(log: seq<Folder>, f: Folder, g: Folder)
    ensures Count(log + [f], g) == Count(log, g) + if f == g then 1 else 0
  {
    assert (log + [f])[..|log|] == log;
  }

  /** Every load that was started is still alive or has posted its one notification. */
  ghost predicate Notified(live: set<Folder>, started: seq<Folder>, posted: seq<Folder>) {
    && (forall f :: Count(started, f) == Count(posted, f) + (if f in live then 1 else 0))
    && Count(started, Main) == 1
  }

  lemma FirstLoad()
    ensures Notified({Main}, [Main], [])
  {
    forall f ensures Count([Main], f) == if f == Main then 1 else 0 {
      CountAppend([], Main, f);
      assert [] + [Main] == [Main];
    }
  }

  lemma NotifiedStart(live: set<Folder>, started: seq<Folder>, posted: seq<Folder>, f: Folder)
    requires Notified(live, started, posted) && f !in live && f != Main
    ensures Notified(live + {f}, started + [f], posted)
  {
    forall g ensures Count(started + [f], g) == Count(posted, g) + (if g in live + {f} then 1 else 0) {
      CountAppend(started, f, g);
    }
    CountAppend(started, f, Main);
  }

  lemma NotifiedEnd(live: set<Folder>, started: seq<Folder>, posted: seq<Folder>, f: Folder)
    requires Notified(live, started, posted) && f in live
    ensures Notified(live - {f}, started, posted + [f])
  {
    forall g ensures Count(started, g) == Count(posted + [f], g) + (if g in live - {f} then 1 else 0) {
      CountAppend(posted, f, g);
    }
  }

  lemma NotifiedCounts(live: set<Folder>, started: seq<Folder>, posted: seq<Folder>, f: Folder)
    requires Notified(live, started, posted)
    ensures Count(started, f) == Count(posted, f) + (if f in live then 1 else 0) && Count(started, Main) == 1
  {
  }

  // ---------------------------------------------------------------- the loader

  /** What requestMoreDialogsIfNeeded asks the rest of the program. */
  datatype Surroundings = Surroundings(loadedExceptions: bool, archive: Option<Folder>, archiveNeeded: bool)

  class Loader {
    var states: States
    var blockedByDate: bool
    var mayBlockByDate: bool
    var loadTill: int
    var posted: seq<Folder>               // postponed chatsListDone notifications

    var inFlight: map<int, Sent>
    var lastId: int
    ghost var loadOf: map<Folder, nat>    // the serial number of the live load of a folder
    ghost var sentBy: map<int, nat>       // the load that sent a request
    ghost var started: seq<Folder>        // all loads ever started
    ghost var stale: set<Id>              // list requests answered with "not modified"

    ghost predicate Core()
      reads `states, `posted, `inFlight, `lastId, `loadOf, `sentBy, `started, `stale
    {
      && FlightsOk(states, inFlight, loadOf, sentBy) && StatesOk(states, inFlight, loadOf, stale)
      && Notified(states.Keys, started, posted)
      && lastId >= 0 && (forall id :: id in inFlight ==> id <= lastId) && (forall id :: id in stale ==> id.value <= lastId)
    }

    /** The load waits for a request that was answered with "not modified". */
    ghost predicate Stuck(f: Folder)
      reads `states, `stale
    {
      f in states && Waits(states[f]) && Id(states[f].requestId) in stale
    }

    /** A load that waits for its list has its request in flight unless it is stuck. */
    lemma StuckIff(f: Folder)
      requires Valid() && f in states && Waits(states[f])
      ensures states[f].requestId in inFlight <==> !Stuck(f)
      ensures states[f].requestId in inFlight ==> inFlight[states[f].requestId] == List(f)
    {
      assert StateOk(f, states[f], inFlight, stale);
    }

    ghost predicate Valid()
      reads `states, `posted, `inFlight, `lastId, `loadOf, `sentBy, `started, `stale
    {
      Core() && NoneFinished(states)
    }

    constructor ()
      ensures Valid() && states == map[Main := NewState] && inFlight == map[] && posted == [] && loadTill == 0
      ensures started == [Main] && stale == {} && !blockedByDate && lastId == 0
    {
      states, blockedByDate, mayBlockByDate, loadTill, posted := map[Main := NewState], false, false, 0, [];
      inFlight, lastId, loadOf, sentBy, started, stale := map[], 0, map[Main := 1], map[], [Main], {};
      new;
      FirstLoad();
    }

    /** `requestDialogs`. */
    method RequestDialogs(folder: Folder)
      requires Valid()
      modifies this
      ensures Valid() && posted == old(posted) && loadTill == old(loadTill) && stale == old(stale)
      ensures folder != Main && folder !in old(states) ==> folder in states && started == old(started) + [folder]
      ensures folder == Main || folder in old(states) ==> states.Keys == old(states).Keys && started == old(started)
      ensures forall f :: f in old(states) && f != folder ==> f in states && states[f] == old(states)[f]
      ensures folder in states && !old(blockedByDate) ==> states[folder].requestId != 0
      ensures folder != Main && folder !in old(states) ==>
                states[folder].offsetDate == 0 && states[folder].offsetId == 0 && states[folder].offsetPeer == 0
      ensures forall f :: old(Stuck(f)) ==> Stuck(f)
      ensures SameFlags(old(states), states)
    {
      hide FlightsOk, StatesOk, NoneFinished, Notified;
      if folder != Main && folder !in states {
        NewLoad(states, inFlight, loadOf, sentBy, stale, folder, |started| + 1);
        NotifiedStart(states.Keys, started, posted, folder);
        assert states[folder := NewState].Keys == states.Keys + {folder};
        states := states[folder := NewState];
        started := started + [folder];
        loadOf := loadOf[folder := |started|];
      }
      RequestMoreDialogs(folder);
    }

    /** `requestMoreDialogs`: one list request, and the pinned request if it was not answered or asked yet. */
    method RequestMoreDialogs(folder: Folder)
      requires Valid()
      modifies `states, `inFlight, `lastId, `sentBy, `blockedByDate, `mayBlockByDate
      ensures Valid()
      ensures var idle := folder !in old(states) || old(states)[folder].requestId != 0 || old(blockedByDate);
              if idle then states == old(states) && inFlight == old(inFlight) && blockedByDate == old(blockedByDate)
              else
                var st := old(states)[folder];
                var first := old(lastId) + 1;
                if st.pinnedReceived || st.pinnedRequestId != 0
                then states == old(states)[folder := st.(requestId := first)] && inFlight == old(inFlight)[first := List(folder)]
                else states == old(states)[folder := st.(requestId := first, pinnedRequestId := first + 1)]
                     && inFlight == old(inFlight)[first := List(folder)][first + 1 := Pinned(folder)]
      ensures forall f :: old(Stuck(f)) ==> Stuck(f)
      ensures SameFlags(old(states), states)
    {
      hide FlightsOk, StatesOk, NoneFinished, Notified;
      if folder !in states || states[folder].requestId != 0 || blockedByDate {
        return;
      }
      SendList(folder);
      if !states[folder].pinnedReceived {
        RequestPinnedDialogs(folder);
      }
      if folder == Main {
        RefreshDialogsLoadBlocked();
      }
    }

    method SendList(folder: Folder)
      requires Valid() && folder in states && states[folder].requestId == 0
      modifies `states, `inFlight, `lastId, `sentBy
      ensures Valid() && lastId == old(lastId) + 1 && inFlight == old(inFlight)[lastId := List(folder)]
      ensures states == old(states)[folder := old(states)[folder].(requestId := lastId)]
      ensures forall f :: old(Stuck(f)) ==> Stuck(f)
      ensures SameFlags(old(states), states)
    {
      hide FlightsOk, StatesOk, NoneFinished, Notified;
      ListSent(states, inFlight, loadOf, sentBy, stale, folder, lastId + 1);
      LoadKnown(states, inFlight, loadOf, stale, folder);
      lastId := lastId + 1;
      inFlight := inFlight[lastId := List(folder)];
      sentBy := sentBy[lastId := loadOf[folder]];
      assert states[folder := states[folder].(requestId := lastId)].Keys == states.Keys;
      states := states[folder := states[folder].(requestId := lastId)];
    }

    /** `requestPinnedDialogs`. */
    method RequestPinnedDialogs(folder: Folder)
      requires Valid()
      modifies `states, `inFlight, `lastId, `sentBy
      ensures Valid()
      ensures if folder !in old(states) || old(states)[folder].pinnedReceived || old(states)[folder].pinnedRequestId != 0
              then states == old(states) && inFlight == old(inFlight) && lastId == old(lastId)
              else && lastId == old(lastId) + 1 && inFlight == old(inFlight)[lastId := Pinned(folder)]
                   && states == old(states)[folder := old(states)[folder].(pinnedRequestId := lastId)]
      ensures forall f :: old(Stuck(f)) ==> Stuck(f)
      ensures SameFlags(old(states), states)
    {
      hide FlightsOk, StatesOk, NoneFinished, Notified;
      if folder !in states || states[folder].pinnedReceived || states[folder].pinnedRequestId != 0 {
        return;
      }
      PinnedSent(states, inFlight, loadOf, sentBy, stale, folder, lastId + 1);
      LoadKnown(states, inFlight, loadOf, stale, folder);
      lastId := lastId + 1;
      inFlight := inFlight[lastId := Pinned(folder)];
      sentBy := sentBy[lastId := loadOf[folder]];
      assert states[folder := states[folder].(pinnedRequestId := lastId)].Keys == states.Keys;
      states := states[folder := states[folder].(pinnedRequestId := lastId)];
    }

    /** `refreshDialogsLoadBlocked`. */
    method RefreshDialogsLoadBlocked()
      modifies `blockedByDate, `mayBlockByDate
      ensures mayBlockByDate <==> Main in states && !states[Main].listReceived && loadTill > 0
      ensures blockedByDate <==> mayBlockByDate && states[Main].requestId == 0 && 0 < states[Main].offsetDate <= loadTill
    {
      mayBlockByDate := Main in states && !states[Main].listReceived && loadTill > 0;
      blockedByDate := Main in states && !states[Main].listReceived && states[Main].requestId == 0 && loadTill > 0
        && states[Main].offsetDate > 0 && states[Main].offsetDate <= loadTill;
    }

    /** `dialogsLoadFinish`: the load ends, with one notification, once both requests are answered. */
    method DialogsLoadFinish(folder: Folder)
      requires Core() && NoneFinished(states - {folder})
      modifies `states, `posted, `loadOf
      ensures Valid()
      ensures if folder in old(states) && old(states)[folder].listReceived && old(states)[folder].pinnedReceived
              then states == old(states) - {folder} && posted == old(posted) + [folder]
              else states == old(states) && posted == old(posted)
      ensures forall f :: old(Stuck(f)) ==> Stuck(f)
    {
      hide FlightsOk, StatesOk, Notified;
      assert forall f :: f in states && f != folder ==> f in states - {folder} && !Finished((states - {folder})[f]);
      if folder !in states || !states[folder].listReceived || !states[folder].pinnedReceived {
        return;
      }
      EndLoad(states, inFlight, loadOf, sentBy, stale, folder);
      NotifiedEnd(states.Keys, started, posted, folder);
      assert (states - {folder}).Keys == states.Keys - {folder};
      states := states - {folder};
      loadOf := loadOf - {folder};
      posted := posted + [folder];
    }

    /** The load state after a list reply; a reply without changes is an error of the server and leaves the
        request id in place. */
    function AfterReply(st: State, result: ListResult): State {
      match result
      case NotModified => st
      case All => st.(listReceived := true)
      case Slice(dialogs, messages) =>
        var date := LastDate(dialogs, messages);
        if date == 0 then st.(listReceived := true)
        else
          match LastComplete(dialogs)
          case None => st
          case Some(d) => st.(offsetDate := date, offsetId := d.topMessage, offsetPeer := d.peer, requestId := 0)
    }

    /** The done handler of the list request, up to applying the chats. */
    method ListReply(id: int, result: ListResult)
      requires Valid() && id in inFlight && inFlight[id].List?
      modifies `states, `posted, `loadOf, `inFlight, `stale
      ensures Valid() && inFlight == old(inFlight) - {id}
      ensures Stuck(old(inFlight)[id].folder) <==> result.NotModified?
      ensures stale == old(stale) + (if result.NotModified? then {Id(id)} else {})
      ensures forall f :: old(Stuck(f)) ==> Stuck(f)
      ensures var f := old(inFlight)[id].folder;
              f in old(states) && !old(states)[f].listReceived && old(states)[f].requestId == id
      ensures result.NotModified? ==> states == old(states) && posted == old(posted)
      ensures FullList(result) ==>
                var f := old(inFlight)[id].folder;
                if old(states)[f].pinnedReceived
                then states == old(states) - {f} && posted == old(posted) + [f]
                else states == old(states)[f := old(states)[f].(listReceived := true)] && posted == old(posted)
      ensures result.Slice? && !FullList(result) ==>
                var f := old(inFlight)[id].folder;
                && f in states && NextOffset(states[f], result.dialogs, result.messages) && states[f].requestId == 0
                && states == old(states)[f := old(states)[f].(requestId := 0, offsetDate := states[f].offsetDate,
                                              offsetId := states[f].offsetId, offsetPeer := states[f].offsetPeer)]
                && posted == old(posted)
    {
      hide FlightsOk, StatesOk, Notified, HasDate, NextOffset;
      if result.Slice? {
        ScannedOffset(result.dialogs, result.messages);
      }
      var folder := inFlight[id].folder;
      FlightHasState(states, inFlight, loadOf, sentBy, id);
      ghost var st := AfterReply(states[folder], result);
      DatedIsComplete(result);
      FlightNotStuck(states, inFlight, loadOf, stale, id);
      NotFinishedYet(states, folder);
      ListAnswered(states, inFlight, loadOf, sentBy, stale, id, st,
                   stale + if result.NotModified? then {Id(id)} else {});
      assert states[folder := st].Keys == states.Keys;
      inFlight := inFlight - {id};
      stale := stale + if result.NotModified? then {Id(id)} else {};
      match result {
        case NotModified =>
          assert states[folder := st] == states;
        case All =>
          if folder in states {
            states := states[folder := states[folder].(listReceived := true)];
            DialogsLoadFinish(folder);
          }
        case Slice(dialogs, messages) =>
          var lastDate, lastPeer, lastMsgId := ScanOffset(dialogs, messages);
          if folder in states {
            if lastDate != 0 {
              states := states[folder :=
                states[folder].(offsetDate := lastDate, offsetId := lastMsgId, offsetPeer := lastPeer, requestId := 0)];
            } else {
              states := states[folder := states[folder].(listReceived := true)];
              DialogsLoadFinish(folder);
            }
          }
      }
    }

    /** The whole done handler: what follows may ask for more. */
    method ListDone(id: int, result: ListResult, around: Surroundings)
      requires Valid() && id in inFlight && inFlight[id].List?
      modifies this
      ensures Valid()
      ensures Advances(old(states), states, old(posted), posted,
                       if FullList(result) then CompletesList(old(inFlight)[id].folder) else Nothing)
      ensures started == old(started) && stale == old(stale) + (if result.NotModified? then {Id(id)} else {})
      ensures forall f :: old(Stuck(f)) ==> Stuck(f)
    {
      FullListIs(result);
      hide FullList, NextOffset, Advances, SameFlags, FlightsOk, StatesOk, NoneFinished, Notified;
      var folder := inFlight[id].folder;
      ListReply(id, result);
      ghost var mid := states;
      if FullList(result) {
        ListAdvances(old(states), mid, old(posted), posted, folder);
      } else {
        OffsetKeepsFlags(old(states), mid, folder);
        SameAdvances(old(states), mid, posted);
      }
      if folder == Main && (Main !in states || !states[Main].listReceived) {
        RefreshDialogsLoadBlocked();
      }
      RequestMoreDialogsIfNeeded(around);
      AdvancesOn(old(states), mid, states, old(posted), posted, if FullList(result) then CompletesList(folder) else Nothing);
    }

    /** The fail handler: the state it dereferences is there, and waits for this very request. */
    method ListFailed(id: int)
      requires Valid() && id in inFlight && inFlight[id].List?
      modifies `states, `inFlight
      ensures Valid() && inFlight == old(inFlight) - {id}
      ensures var f := old(inFlight)[id].folder;
              f in old(states) && old(states)[f].requestId == id && states == old(states)[f := old(states)[f].(requestId := 0)]
      ensures forall f :: old(Stuck(f)) ==> Stuck(f)
      ensures SameFlags(old(states), states)
    {
      hide FlightsOk, StatesOk, NoneFinished, Notified;
      var folder := inFlight[id].folder;
      FlightHasState(states, inFlight, loadOf, sentBy, id);
      assert folder in states;
      NotFinishedYet(states, folder);
      FlightNotStuck(states, inFlight, loadOf, stale, id);
      ListAnswered(states, inFlight, loadOf, sentBy, stale, id, states[folder].(requestId := 0), stale);
      assert states[folder := states[folder].(requestId := 0)].Keys == states.Keys;
      inFlight := inFlight - {id};
      states := states[folder := states[folder].(requestId := 0)];
    }

    /** Both handlers of the pinned request. */
    method PinnedReply(id: int)
      requires Valid() && id in inFlight && inFlight[id].Pinned?
      modifies `states, `posted, `loadOf, `inFlight
      ensures Valid() && inFlight == old(inFlight) - {id}
      ensures var f := old(inFlight)[id].folder;
              && f in old(states) && old(states)[f].pinnedRequestId == id
              && !old(states)[f].pinnedReceived
              && (var st := old(states)[f].(pinnedRequestId := 0, pinnedReceived := true);
                  if st.listReceived then states == old(states) - {f} && posted == old(posted) + [f]
                  else states == old(states)[f := st] && posted == old(posted))
      ensures forall f :: old(Stuck(f)) ==> Stuck(f)
    {
      hide FlightsOk, StatesOk, Notified;
      var folder := inFlight[id].folder;
      FlightHasState(states, inFlight, loadOf, sentBy, id);
      PinnedAnswered(states, inFlight, loadOf, sentBy, stale, id);
      assert states[folder := states[folder].(pinnedRequestId := 0, pinnedReceived := true)].Keys == states.Keys;
      inFlight := inFlight - {id};
      if folder in states {
        states := states[folder := states[folder].(pinnedRequestId := 0, pinnedReceived := true)];
        DialogsLoadFinish(folder);
      }
    }

    /** `requestMoreDialogsIfNeeded`. */
    method RequestMoreDialogsIfNeeded(around: Surroundings)
      requires Valid()
      modifies this
      ensures Valid() && posted == old(posted) && loadTill == old(loadTill)
      ensures started == old(started) && stale == old(stale)
      ensures around.loadedExceptions ==> states == old(states) && inFlight == old(inFlight)
      ensures forall f :: old(Stuck(f)) ==> Stuck(f)
      ensures SameFlags(old(states), states)
      ensures states.Keys == old(states).Keys
    {
      if around.loadedExceptions {
        return;
      } else if Main in states && !states[Main].listReceived {
        if states[Main].requestId != 0 {
          return;
        }
        RequestDialogs(Main);
      } else if around.archive.Some? {
        if around.archiveNeeded {
          RequestMoreDialogs(around.archive.value);
        }
      }
    }

    /** `requestMoreBlockedByDateDialogs`. */
    method RequestMoreBlockedByDate(timeSlice: int, now: int)
      requires Valid()
      modifies this
      ensures Valid() && posted == old(posted) && started == old(started) && stale == old(stale)
      ensures forall f :: old(Stuck(f)) ==> Stuck(f)
      ensures Main !in old(states) ==> states == old(states) && inFlight == old(inFlight) && loadTill == old(loadTill)
      ensures Main in old(states) ==>
                loadTill == (if old(states)[Main].offsetDate != 0 then old(states)[Main].offsetDate else now) - timeSlice
      ensures SameFlags(old(states), states)
      ensures states.Keys == old(states).Keys
    {
      if Main !in states {
        return;
      }
      loadTill := if states[Main].offsetDate != 0 then states[Main].offsetDate - timeSlice else now - timeSlice;
      RefreshDialogsLoadBlocked();
      RequestDialogs(Main);
    }

    /** One event.  A reply to a request that is not in flight does not occur, so it is skipped. */
    method Step(e: Event)
      requires Valid()
      modifies this
      ensures Valid()
      ensures forall f :: old(Stuck(f)) ==> Stuck(f)
      ensures started == old(started)
              || (e.Request? && e.folder != Main && e.folder !in old(states) && started == old(started) + [e.folder])
      ensures e.Request? ==> e.folder == Main || e.folder in old(states) || started == old(started) + [e.folder]
      ensures Advances(old(states), states, old(posted), posted, WhatCompletes(e, old(inFlight)))
      ensures stale == old(stale) || (e.Replied? && e.result.NotModified? && stale == old(stale) + {Id(e.id)})
    {
      hide FullList, Advances, SameFlags, HasList, HasPinned, FlightsOk, StatesOk, NoneFinished, Notified;
      match e
      case Request(folder) =>
        RequestDialogs(folder);
        SameAdvances(old(states), states, posted);
      case RequestMore(folder) =>
        RequestMoreDialogs(folder);
        SameAdvances(old(states), states, posted);
      case Replied(id, result, around) =>
        if id in inFlight && inFlight[id].List? {
          ListDone(id, result, around);
        } else if id in inFlight {
          ghost var f := inFlight[id].folder;
          PinnedReply(id);
          PinnedAdvances(old(states), states, old(posted), posted, f);
        } else {
          NoChange(states);
          SameAdvances(states, states, posted);
        }
      case Errored(id) =>
        if id in inFlight && inFlight[id].List? {
          ListFailed(id);
          SameAdvances(old(states), states, posted);
        } else if id in inFlight {
          ghost var f := inFlight[id].folder;
          PinnedReply(id);
          PinnedAdvances(old(states), states, old(posted), posted, f);
        } else {
          NoChange(states);
          SameAdvances(states, states, posted);
        }
      case Unblock(timeSlice, now) =>
        RequestMoreBlockedByDate(timeSlice, now);
        SameAdvances(old(states), states, posted);
    }
  }

  lemma FullListIs(result: ListResult)
    ensures (result.NotModified? ==> !FullList(result)) && (result.All? ==> FullList(result))
  {
  }

  lemma NoChange(states: States)
    ensures SameFlags(states, states)
  {
  }

  lemma LoadKnown(states: States, inFlight: map<int, Sent>, loadOf: map<Folder, nat>, stale: set<Id>, f: Folder)
    requires StatesOk(states, inFlight, loadOf, stale) && f in states
    ensures f in loadOf
  {
    assert f in loadOf.Keys;
  }

  lemma FlightNotStuck(states: States, inFlight: map<int, Sent>, loadOf: map<Folder, nat>, stale: set<Id>, id: int)
    requires StatesOk(states, inFlight, loadOf, stale) && id in inFlight
    ensures Id(id) !in stale
  {
    assert Id(id).value == id;
  }

  lemma NotFinishedYet(states: States, f: Folder)
    requires NoneFinished(states) && f in states
    ensures !Finished(states[f])
  {
  }

  lemma DatedIsComplete(result: ListResult)
    ensures result.Slice? && LastDate(result.dialogs, result.messages) != 0 ==> LastComplete(result.dialogs).Some?
  {
    if result.Slice? {
      LastDateMeans(result.dialogs, result.messages);
      LastCompleteMeans(result.dialogs);
    }
  }

  // ---------------------------------------------------------------- all runs

  datatype Event =
    | Request(folder: Folder)
    | RequestMore(folder: Folder)
    | Replied(id: int, result: ListResult, around: Surroundings)
    | Errored(id: int)
    | Unblock(timeSlice: int, now: int)

  /** What an event completes, given the requests in flight. */
  ghost function WhatCompletes(e: Event, inFlight: map<int, Sent>): Completes {
    match e
    case Replied(id, result, _) =>
      if id !in inFlight then Nothing
      else if inFlight[id].Pinned? then CompletesPinned(inFlight[id].folder)
      else if FullList(result) then CompletesList(inFlight[id].folder) else Nothing
    case Errored(id) => if id in inFlight && inFlight[id].Pinned? then CompletesPinned(inFlight[id].folder) else Nothing
    case _ => Nothing
  }

  /** How often the list of a folder, or its pinned chats, were completed. */
  function ListsOf(steps: seq<Completes>, f: Folder): nat {
    if steps == [] then 0 else ListsOf(steps[..|steps| - 1], f) + (if steps[|steps| - 1] == CompletesList(f) then 1 else 0)
  }

  function PinnedOf(steps: seq<Completes>, f: Folder): nat {
    if steps == [] then 0 else PinnedOf(steps[..|steps| - 1], f) + (if steps[|steps| - 1] == CompletesPinned(f) then 1 else 0)
  }

  /** Every completed half has led to a notification, or its load still waits for the other half. */
  ghost predicate Tallied(states: States, posted: seq<Folder>, steps: seq<Completes>) {
    && (forall f :: ListsOf(steps, f) == Count(posted, f) + (if HasList(states, f) then 1 else 0))
    && (forall f :: PinnedOf(steps, f) == Count(posted, f) + (if HasPinned(states, f) then 1 else 0))
  }

  lemma TalliedMore(was: States, now: States, posted0: seq<Folder>, posted: seq<Folder>, steps: seq<Completes>, c: Completes)
    requires Tallied(was, posted0, steps) && Advances(was, now, posted0, posted, c)
    requires forall f :: !(HasList(was, f) && HasPinned(was, f))
    ensures Tallied(now, posted, steps + [c])
  {
    assert (steps + [c])[..|steps|] == steps;
    forall f
      ensures ListsOf(steps + [c], f) == Count(posted, f) + (if HasList(now, f) then 1 else 0)
      ensures PinnedOf(steps + [c], f) == Count(posted, f) + (if HasPinned(now, f) then 1 else 0)
    {
      if Ends(was, c) != [] {
        CountAppend(posted0, c.folder, f);
      } else {
        assert posted == posted0;
      }
    }
  }

  lemma OneHalfOnly(states: States)
    requires NoneFinished(states)
    ensures forall f :: !(HasList(states, f) && HasPinned(states, f))
  {
    assert forall f :: f in states ==> !Finished(states[f]);
  }

  lemma TalliedCounts(states: States, posted: seq<Folder>, steps: seq<Completes>)
    requires Tallied(states, posted, steps) && forall f :: !(HasList(states, f) && HasPinned(states, f))
    ensures forall f :: Count(posted, f) == if ListsOf(steps, f) <= PinnedOf(steps, f) then ListsOf(steps, f) else PinnedOf(steps, f)
  {
  }

  lemma NothingTallied()
    ensures Tallied(map[Main := NewState], [], [])
  {
  }

  function Requests(events: seq<Event>, f: Folder): nat {
    if events == [] then 0
    else Requests(events[..|events| - 1], f) + (if events[|events| - 1] == Request(f) then 1 else 0)
  }

  /** What a run has done is accounted for by its events: every folder asked for was loaded, and a load was started
      only by such a call. */
  ghost predicate Traced(started: seq<Folder>, stale: set<Id>, events: seq<Event>) {
    && (forall k :: 0 <= k < |events| && events[k].Request? ==> Count(started, events[k].folder) >= 1)
    && (forall f :: Count(started, f) <= Requests(events, f) + (if f == Main then 1 else 0))
    && (forall id :: id in stale ==> exists k :: 0 <= k < |events| && Unmodified(events[k], id))
  }

  predicate Unmodified(e: Event, id: Id) { e.Replied? && e.id == id.value && e.result.NotModified? }

  lemma NothingTraced()
    ensures Traced([Main], {}, [])
  {
    forall f ensures Count([Main], f) == if f == Main then 1 else 0 {
      CountAppend([], Main, f);
      assert [] + [Main] == [Main];
    }
  }

  lemma TracedMore(started0: seq<Folder>, stale0: set<Id>, events: seq<Event>, e: Event, started: seq<Folder>, stale: set<Id>)
    requires Traced(started0, stale0, events)
    requires started == started0 || (e.Request? && started == started0 + [e.folder])
    requires e.Request? ==> Count(started, e.folder) >= 1
    requires forall id :: id in stale ==> id in stale0 || Unmodified(e, id)
    ensures Traced(started, stale, events + [e])
  {
    var more := events + [e];
    assert more[..|events|] == events && more[|events|] == e && forall k :: 0 <= k < |events| ==> more[k] == events[k];
    forall f ensures Count(started0, f) <= Count(started, f) <= Count(started0, f) + if e == Request(f) then 1 else 0 {
      if e.Request? { CountAppend(started0, e.folder, f); }
    }
    forall id | id in stale ensures exists k :: 0 <= k < |more| && Unmodified(more[k], id) {
      if id in stale0 {
        var k :| 0 <= k < |events| && Unmodified(events[k], id);
        assert Unmodified(more[k], id);
      } else {
        assert Unmodified(more[|events|], id);
      }
    }
  }

  /** Any sequence of calls and replies, with the requests in flight before each.  Requests never double up; each
      folder has posted a notification exactly as often as both its list and its pinned chats were completed; every
      load that was started has posted one or is alive; and a load that waits for its list has its request in flight
      unless that was answered with "not modified". */
  method Run(events: seq<Event>) returns (l: Loader, ghost flights: seq<map<int, Sent>>, ghost steps: seq<Completes>)
    ensures l.Valid() && Traced(l.started, l.stale, events)
    ensures |flights| == |steps| == |events| && forall k :: 0 <= k < |events| ==> steps[k] == WhatCompletes(events[k], flights[k])
    ensures forall f :: Count(l.posted, f) == if ListsOf(steps, f) <= PinnedOf(steps, f) then ListsOf(steps, f) else PinnedOf(steps, f)
    ensures forall a, b :: a in l.inFlight && b in l.inFlight && l.inFlight[a] == l.inFlight[b] ==> a == b
    ensures forall f :: Count(l.posted, f) + (if f in l.states then 1 else 0) == Count(l.started, f)
    ensures forall f :: f in l.states && l.states[f].requestId != 0 && !l.states[f].listReceived ==>
              (l.states[f].requestId in l.inFlight <==> Id(l.states[f].requestId) !in l.stale)
  {
    hide Traced, Notified, FlightsOk, StatesOk, NoneFinished, Count, Tallied, Advances, WhatCompletes;
    NothingTraced();
    NothingTallied();
    l := new Loader();
    flights, steps := [], [];
    for i := 0 to |events|
      invariant fresh(l) && l.Valid() && Traced(l.started, l.stale, events[..i])
      invariant |flights| == |steps| == i && forall k :: 0 <= k < i ==> steps[k] == WhatCompletes(events[k], flights[k])
      invariant Tallied(l.states, l.posted, steps)
    {
      ghost var started0, posted0, stale0, states0 := l.started, l.posted, l.stale, l.states;
      if events[i].Request? {
        NotifiedCounts(l.states.Keys, started0, posted0, events[i].folder);
        CountAppend(started0, events[i].folder, events[i].folder);
      }
      OneHalfOnly(l.states);
      flights, steps := flights + [l.inFlight], steps + [WhatCompletes(events[i], l.inFlight)];
      l.Step(events[i]);
      assert events[..i + 1] == events[..i] + [events[i]];
      TracedMore(started0, stale0, events[..i], events[i], l.started, l.stale);
      TalliedMore(states0, l.states, posted0, l.posted, steps[..i], steps[i]);
      assert steps[..i] + [steps[i]] == steps;
    }
    assert events[..|events|] == events;
    OneHalfOnly(l.states);
    TalliedCounts(l.states, l.posted, steps);
    forall a, b | a in l.inFlight && b in l.inFlight && l.inFlight[a] == l.inFlight[b] ensures a == b {
      OneOfEachInFlight(l.states, l.inFlight, l.loadOf, l.sentBy, a, b);
    }
    forall f ensures Count(l.posted, f) + (if f in l.states then 1 else 0) == Count(l.started, f) {
      NotifiedCounts(l.states.Keys, l.started, l.posted, f);
    }
    forall f | f in l.states && l.states[f].requestId != 0 && !l.states[f].listReceived
      ensures l.states[f].requestId in l.inFlight <==> Id(l.states[f].requestId) !in l.stale
    {
      l.StuckIff(f);
    }
  }

  /** A stuck load stays stuck whatever happens: it is never finished and never notified of. */
  method StuckForever(l: Loader, events: seq<Event>)
    requires l.Valid()
    modifies l
    ensures l.Valid() && forall f :: old(l.Stuck(f)) ==> l.Stuck(f) && Count(l.posted, f) == old(Count(l.posted, f))
  {
    hide Notified, FlightsOk, StatesOk, NoneFinished, Count;
    for i := 0 to |events|
      invariant l.Valid() && forall f :: old(l.Stuck(f)) ==> l.Stuck(f) && Count(l.posted, f) == old(Count(l.posted, f))
    {
      ghost var started0, posted0, states0 := l.started, l.posted, l.states;
      l.Step(events[i]);
      forall f | f in states0 && f in l.states ensures Count(l.posted, f) == Count(posted0, f) {
        NotifiedCounts(states0.Keys, started0, posted0, f);
        NotifiedCounts(l.states.Keys, l.started, l.posted, f);
        if l.started != started0 { CountAppend(started0, events[i].folder, f); }
      }
    }
  }

  /** It happens: with nothing in flight the main list still waits. */
  method StuckLoad() returns (l: Loader)
    ensures l.Valid() && l.inFlight == map[] && l.Stuck(Main)
  {
    hide Notified, FlightsOk, StatesOk, NoneFinished;
    l := new Loader();
    l.RequestMoreDialogs(Main);
    var list, pinned := l.states[Main].requestId, l.states[Main].pinnedRequestId;
    l.ListReply(list, NotModified);
    l.PinnedReply(pinned);
    assert l.inFlight == map[];
  }
}
