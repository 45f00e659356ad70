/** The throttle of "typing..." and other progress notifications (`SendProgressManager`).

    Times are milliseconds of a clock that never goes back; every reading is an argument.  `log` records each
    accepted update and each effective stop.  The class keeps the log spaced, and the lemmas at the end turn
    the spacing into a bound on any window of time. */
module SendProgress {
  import opened Collections

  type History = int
  type Time = int

  datatype Type =
    | Typing | RecordVideo | UploadVideo | RecordVoice | UploadVoice | RecordRound | UploadRound | UploadPhoto
    | UploadFile | ChooseLocation | ChooseContact | ChooseSticker | PlayGame | Speaking

  datatype Key = Key(history: History, topMsgId: int, kind: Type)

  const CANCEL_TYPING_TIMEOUT: Time := 5000
  const MY_SPEAKING_INTERVAL: Time := 3 * 1000
  const MY_TYPING_INTERVAL: Time := 5 * 1000
  const TYPINGS_TO_OFFLINE_FOR: int := 30

  function SendEach(key: Key): (r: Time) {
    if key.kind == Speaking then MY_SPEAKING_INTERVAL else MY_TYPING_INTERVAL
  }

  /** What the program reads about the other side: who it is and when it was last seen. */
  datatype Peer =
    | Self
    | User(bot: bool, support: bool, recently: bool, onlineTill: int)
    | Chat
    | Channel(megagroup: bool)

  predicate Ignored(peer: Peer, kind: Type) {
    peer.Self? || (peer.Channel? && !peer.megagroup && kind != Speaking)
  }

  /** `skipRequest`, with the unix time of the call. */
  predicate SkipRequest(peer: Peer, unixtime: int) {
    match peer
    case Self => true
    case User(bot, support, recently, onlineTill) =>
      if bot && !support then true
      else if recently then false
      else if onlineTill != 0 then onlineTill < unixtime - TYPINGS_TO_OFFLINE_FOR
      else true
    case Chat => false
    case Channel(_) => false
  }

  // ---------------------------------------------------------------- the log

  /** An update that passed the throttle (`sent` when a request really went out), or an effective stop. */
  datatype Entry =
    | Accepted(key: Key, time: Time, sent: bool)
    | Stopped(key: Key, time: Time)

  /** The time of the last accepted update of `key`, unless a stop came after it. */
  function Last(log: seq<Entry>, key: Key): Option<Time> {
    if log == [] then None
    else
      var e := log[|log| - 1];
      if e.key != key then Last(log[..|log| - 1], key)
      else if e.Accepted? then Some(e.time)
      else None
  }

  /** Times do not decrease and end no later than `now`; an accepted update comes at least SendEach after the
      previous one of its key unless a stop lies between. */
  ghost predicate Spaced(log: seq<Entry>, now: Time) {
    log == [] ||
    (var rest, e := log[..|log| - 1], log[|log| - 1];
     && Spaced(rest, e.time) && e.time <= now
     && (e.Accepted? ==> match Last(rest, e.key) case None => true case Some(t) => t + SendEach(e.key) <= e.time))
  }

  /** The throttle: an update passes when no accepted one came within SendEach, a stop when one did within
      twice SendEach. */
  predicate Passes(last: Option<Time>, key: Key, doing: bool, time: Time) {
    match last
    case None => doing
    case Some(t) => if doing then t + SendEach(key) <= time else time < t + 2 * SendEach(key)
  }

  function NewEntry(key: Key, doing: bool, peer: Peer, time: Time, unixtime: int): Entry {
    if doing then Accepted(key, time, !SkipRequest(peer, unixtime)) else Stopped(key, time)
  }

  lemma NewEntryIs(key: Key, doing: bool, peer: Peer, time: Time, unixtime: int)
    ensures var e := NewEntry(key, doing, peer, time, unixtime);
            e.key == key && e.time == time && e.Accepted? == doing && (doing ==> e.sent == !SkipRequest(peer, unixtime))
  {
  }

  lemma SpacedLater(log: seq<Entry>, now: Time, later: Time)
    requires Spaced(log, now) && now <= later
    ensures Spaced(log, later)
  {
  }

  // ---------------------------------------------------------------- the manager

  datatype Id = Id(value: int)

  class Manager {
    var requests: map<Key, int>
    var updated: map<Key, Time>
    var stopTypingHistory: Option<History>
    var stopTypingTimer: Option<Time>     // when it fires

    var inFlight: map<int, Key>           // requests on the wire, not answered and not cancelled
    var lastId: int
    ghost var log: seq<Entry>
    ghost var now: Time
    ghost var lost: set<Id>               // requests that failed

    /** Every request in flight is the table entry of its key, so no key has two; an entry is in flight unless its
        request failed. */
    ghost predicate TableOk()
      reads `requests, `inFlight, `lastId, `stopTypingTimer, `stopTypingHistory, `lost
    {
      && (forall key :: key in requests ==> (requests[key] in inFlight <==> Id(requests[key]) !in lost))
      && (forall id :: id in lost ==> id.value <= lastId)
      && lastId >= 0
      && (forall key :: key in requests ==> 0 < requests[key] <= lastId)
      && (forall a, b :: a in requests && b in requests && requests[a] == requests[b] ==> a == b)
      && (forall id :: id in inFlight ==> inFlight[id] in requests && requests[inFlight[id]] == id)
      && (stopTypingTimer.Some? ==> stopTypingHistory.Some?)
    }

    /** The log is spaced, and `updated` holds the last accepted update of each key, two intervals ahead. */
    ghost predicate ThrottleOk()
      reads `updated, `log, `now
    {
      && Spaced(log, now)
      && (forall key :: key in updated <==> Last(log, key).Some?)
      && (forall key :: key in updated ==> updated[key] == Last(log, key).value + 2 * SendEach(key))
    }

    ghost predicate Valid()
      reads this
    {
      TableOk() && ThrottleOk()
    }

    constructor ()
      ensures Valid() && requests == map[] && inFlight == map[] && log == [] && now == 0 && lastId == 0 && lost == {}
    {
      requests, updated, stopTypingHistory, stopTypingTimer := map[], map[], None, None;
      inFlight, lastId, log, now, lost := map[], 0, [], 0, {};
    }

    /** `cancel`. */
    method Cancel(key: Key)
      requires TableOk()
      modifies `requests, `inFlight
      ensures TableOk() && requests == old(requests) - {key}
      ensures inFlight == old(inFlight) - (if key in old(requests) then {old(requests)[key]} else {})
    {
      if key in requests {
        inFlight := inFlight - {requests[key]};
        requests := requests - {key};
      }
    }

    /** `cancelTyping`. */
    method CancelTyping(history: History)
      requires TableOk()
      modifies `requests, `inFlight, `stopTypingTimer
      ensures TableOk() && stopTypingTimer == None && requests == old(requests) - {Key(history, 0, Typing)}
      ensures Key(history, 0, Typing) !in inFlight.Values
    {
      stopTypingTimer := None;
      Cancel(Key(history, 0, Typing));
      forall id | id in inFlight ensures inFlight[id] != Key(history, 0, Typing) {}
    }

    /** The timer callback: the history it takes is there whenever the timer is armed. */
    method TimerFired()
      requires Valid() && stopTypingTimer.Some?
      modifies this
      ensures Valid() && stopTypingTimer == None && stopTypingHistory == None
      ensures requests == old(requests) - {Key(old(stopTypingHistory).value, 0, Typing)}
      ensures log == old(log) && updated == old(updated) && now == old(now) && lastId == old(lastId) && lost == old(lost)
    {
      var history := stopTypingHistory.value;
      stopTypingTimer := None;
      stopTypingHistory := None;
      CancelTyping(history);
    }

    /** `updated`: may this update pass, given the time now? */
    method Updated(key: Key, doing: bool, time: Time, ghost entry: Entry) returns (pass: bool)
      requires ThrottleOk() && now <= time
      requires entry.key == key && entry.time == time && entry.Accepted? == doing
      modifies `updated, `log, `now
      ensures ThrottleOk() && now == time
      ensures pass == Passes(Last(old(log), key), key, doing, time)
      ensures log == if pass then old(log) + [entry] else old(log)
      ensures updated == if !pass then old(updated)
                         else if doing then old(updated)[key := time + 2 * SendEach(key)]
                         else old(updated) - {key}
    {
      SpacedLater(log, now, time);
      LastAppended(log, entry);
      now := time;
      if doing {
        var sendEach := SendEach(key);
        if key !in updated {
          updated := updated[key := time + 2 * sendEach];
        } else if updated[key] > time + sendEach {
          return false;
        } else {
          updated := updated[key := time + 2 * sendEach];
        }
      } else {
        if key !in updated {
          return false;
        } else if updated[key] <= time {
          return false;
        } else {
          updated := updated - {key};
        }
      }
      log := log + [entry];
      return true;
    }

    /** `send`; the caller has removed the key from the request table. */
    method Send(key: Key, peer: Peer, time: Time, unixtime: int) returns (sent: bool)
      requires TableOk() && key !in requests
      modifies `requests, `inFlight, `lastId, `stopTypingHistory, `stopTypingTimer
      ensures TableOk() && sent == !SkipRequest(peer, unixtime)
      ensures sent ==> requests == old(requests)[key := lastId] && inFlight == old(inFlight)[lastId := key]
      ensures sent ==> lastId == old(lastId) + 1
      ensures !sent ==> requests == old(requests) && inFlight == old(inFlight) && lastId == old(lastId)
      ensures sent && key.kind == Typing ==>
                stopTypingHistory == Some(key.history) && stopTypingTimer == Some(time + 5000)
      ensures !(sent && key.kind == Typing) ==>
                stopTypingHistory == old(stopTypingHistory) && stopTypingTimer == old(stopTypingTimer)
    {
      if SkipRequest(peer, unixtime) {
        return false;
      }
      lastId := lastId + 1;
      assert lastId !in inFlight;
      inFlight := inFlight[lastId := key];
      requests := requests[key := lastId];
      if key.kind == Typing {
        stopTypingHistory := Some(key.history);
        stopTypingTimer := Some(time + CANCEL_TYPING_TIMEOUT);
      }
      return true;
    }

    /** An update that passed: the request of the key that is still out is cancelled, and a new one sent. */
    method Resend(key: Key, doing: bool, peer: Peer, time: Time, unixtime: int)
      requires TableOk()
      modifies `requests, `inFlight, `lastId, `stopTypingHistory, `stopTypingTimer
      ensures TableOk()
      ensures var sent := doing && !SkipRequest(peer, unixtime);
              var kept := old(inFlight) - (if key in old(requests) then {old(requests)[key]} else {});
              && requests == (if sent then (old(requests) - {key})[key := lastId] else old(requests) - {key})
              && inFlight == (if sent then kept[lastId := key] else kept)
              && lastId == old(lastId) + if sent then 1 else 0
    {
      hide TableOk, SkipRequest;
      Cancel(key);
      if doing {
        var sent := Send(key, peer, time, unixtime);
      }
    }

    /** `update`: throttle, cancel the request of the key that is still out, send the new one. */
    method Update(key: Key, progress: int, peer: Peer, time: Time, unixtime: int)
      requires Valid() && now <= time
      modifies this
      ensures Valid() && now == time && lost == old(lost)
      ensures log == if !Ignored(peer, key.kind) && Passes(Last(old(log), key), key, progress >= 0, time)
                     then old(log) + [NewEntry(key, progress >= 0, peer, time, unixtime)]
                     else old(log)
      ensures log == old(log) ==> requests == old(requests) && inFlight == old(inFlight)
      ensures log != old(log) ==>
                var sent := progress >= 0 && !SkipRequest(peer, unixtime);
                var kept := old(inFlight) - (if key in old(requests) then {old(requests)[key]} else {});
                && requests == (if sent then (old(requests) - {key})[key := lastId] else old(requests) - {key})
                && inFlight == (if sent then kept[lastId := key] else kept)
      ensures lastId == old(lastId) + if log != old(log) && progress >= 0 && !SkipRequest(peer, unixtime) then 1 else 0
    {
      hide TableOk, Spaced, Passes, NewEntry, SkipRequest;
      if Ignored(peer, key.kind) {
        SpacedLater(log, now, time);
        now := time;
        return;
      }
      NewEntryIs(key, progress >= 0, peer, time, unixtime);
      var doing := progress >= 0;
      var pass := Updated(key, doing, time, NewEntry(key, doing, peer, time, unixtime));
      if pass {
        Resend(key, doing, peer, time, unixtime);
      }
    }

    /** The done handler: the entry with this request id leaves the table. */
    method Done(id: int)
      requires TableOk() && id in inFlight
      modifies `requests, `inFlight
      ensures TableOk() && inFlight == old(inFlight) - {id} && requests == old(requests) - {old(inFlight)[id]}
    {
      ghost var key := inFlight[id];
      inFlight := inFlight - {id};
      var keys := requests.Keys;
      while keys != {}
        invariant keys <= requests.Keys && requests == old(requests) && key in keys && inFlight == old(inFlight) - {id}
        decreases keys
      {
        var k := Pick(keys);
        if requests[k] == id {
          requests := requests - {k};
          return;
        }
        keys := keys - {k};
      }
    }

    /** There is no fail handler: the request is gone, its table entry stays. */
    method Failed(id: int)
      requires TableOk() && id in inFlight
      modifies `inFlight, `lost
      ensures TableOk() && inFlight == old(inFlight) - {id} && lost == old(lost) + {Id(id)}
      ensures requests[old(inFlight)[id]] == id
    {
      inFlight := inFlight - {id};
      lost := lost + {Id(id)};
    }

    /** One event.  A timer that is not armed does not fire, and a reply to a request that is not in flight does not
        occur, so they are skipped. */
    method Step(time: Time, e: Event)
      requires Valid() && now <= time
      modifies this
      ensures Valid() && old(now) <= now <= time
      ensures log == old(log) + Entries(old(log), time, e)
      ensures lastId == old(lastId) + Sent(Entries(old(log), time, e))
      ensures lost == old(lost) + if e.Fail? && e.id in old(inFlight) then {Id(e.id)} else {}
    {
      hide Spaced, Passes, SkipRequest;
      SentSmall();
      match e
      case Progress(key, progress, peer, unixtime) => Update(key, progress, peer, time, unixtime);
      case CancelKey(key) => Cancel(key);
      case StopTyping(history) => CancelTyping(history);
      case Timer => if stopTypingTimer.Some? { TimerFired(); }
      case Reply(id) => if id in inFlight { Done(id); }
      case Fail(id) => if id in inFlight { Failed(id); }
    }
  }

  lemma LastAppended(log: seq<Entry>, e: Entry)
    ensures Last(log + [e], e.key) == if e.Accepted? then Some(e.time) else None
    ensures forall key :: key != e.key ==> Last(log + [e], key) == Last(log, key)
    ensures (log + [e])[..|log|] == log
  {
    assert (log + [e])[..|log|] == log;
  }

  // ---------------------------------------------------------------- any window of time

  predicate Within(e: Entry, key: Key, from: Time, to: Time) { e.key == key && from <= e.time <= to }

  /** Accepted updates of `key` between `from` and `to`, both included. */
  function Accepts(log: seq<Entry>, key: Key, from: Time, to: Time): nat {
    if log == [] then 0
    else
      var e := log[|log| - 1];
      Accepts(log[..|log| - 1], key, from, to) + (if e.Accepted? && Within(e, key, from, to) then 1 else 0)
  }

  /** Requests really sent for `key` in the same window. */
  function Sends(log: seq<Entry>, key: Key, from: Time, to: Time): nat {
    if log == [] then 0
    else
      var e := log[|log| - 1];
      Sends(log[..|log| - 1], key, from, to) + (if e.Accepted? && e.sent && Within(e, key, from, to) then 1 else 0)
  }

  /** Effective stops of `key` in the same window. */
  function Stops(log: seq<Entry>, key: Key, from: Time, to: Time): nat {
    if log == [] then 0
    else
      var e := log[|log| - 1];
      Stops(log[..|log| - 1], key, from, to) + (if e.Stopped? && Within(e, key, from, to) then 1 else 0)
  }

  /** The positions of the requests sent in the window, and of the stops. */
  ghost function SentAt(log: seq<Entry>, key: Key, from: Time, to: Time): set<nat> {
    set i: nat | i < |log| && log[i].Accepted? && log[i].sent && log[i].key == key && from <= log[i].time <= to
  }

  ghost function StoppedAt(log: seq<Entry>, key: Key, from: Time, to: Time): set<nat> {
    set i: nat | i < |log| && log[i].Stopped? && log[i].key == key && from <= log[i].time <= to
  }

  lemma {:induction false} SendsMean(log: seq<Entry>, key: Key, from: Time, to: Time)
    ensures Sends(log, key, from, to) == |SentAt(log, key, from, to)|
  {
    if log != [] {
      var n := |log| - 1;
      SendsMean(log[..n], key, from, to);
      SentAtMore(log[..n], log[n], key, from, to);
      assert log[..n] + [log[n]] == log;
    }
  }

  lemma SentAtMore(log: seq<Entry>, e: Entry, key: Key, from: Time, to: Time)
    ensures |SentAt(log + [e], key, from, to)| == |SentAt(log, key, from, to)| +
              if e.Accepted? && e.sent && Within(e, key, from, to) then 1 else 0
  {
    var more: set<nat> := if e.Accepted? && e.sent && Within(e, key, from, to) then {|log|} else {};
    assert SentAt(log + [e], key, from, to) == SentAt(log, key, from, to) + more;
  }

  lemma {:induction false} StopsMean(log: seq<Entry>, key: Key, from: Time, to: Time)
    ensures Stops(log, key, from, to) == |StoppedAt(log, key, from, to)|
  {
    if log != [] {
      var n := |log| - 1;
      StopsMean(log[..n], key, from, to);
      StoppedAtMore(log[..n], log[n], key, from, to);
      assert log[..n] + [log[n]] == log;
    }
  }

  lemma StoppedAtMore(log: seq<Entry>, e: Entry, key: Key, from: Time, to: Time)
    ensures |StoppedAt(log + [e], key, from, to)| == |StoppedAt(log, key, from, to)| +
              if e.Stopped? && Within(e, key, from, to) then 1 else 0
  {
    var more: set<nat> := if e.Stopped? && Within(e, key, from, to) then {|log|} else {};
    assert StoppedAt(log + [e], key, from, to) == StoppedAt(log, key, from, to) + more;
  }

  lemma {:induction false} SendsAreAccepted(log: seq<Entry>, key: Key, from: Time, to: Time)
    ensures Sends(log, key, from, to) <= Accepts(log, key, from, to)
  {
    if log != [] { SendsAreAccepted(log[..|log| - 1], key, from, to); }
  }

  lemma {:induction false} NothingBefore(log: seq<Entry>, now: Time, key: Key, from: Time, to: Time)
    requires Spaced(log, now) && now < from
    ensures Accepts(log, key, from, to) == 0 && Stops(log, key, from, to) == 0
    ensures Last(log, key).Some? ==> Last(log, key).value < from
  {
    if log != [] { NothingBefore(log[..|log| - 1], log[|log| - 1].time, key, from, to); }
  }

  lemma {:induction false} LastIsPast(log: seq<Entry>, now: Time, key: Key)
    requires Spaced(log, now)
    ensures Last(log, key).Some? ==> Last(log, key).value <= now
  {
    if log != [] { LastIsPast(log[..|log| - 1], log[|log| - 1].time, key); }
  }

  /** The invariant of a run inside one window: each accepted update beyond the first of its stretch has
      used up one interval. */
  lemma {:induction false} Stretches(log: seq<Entry>, now: Time, key: Key, from: Time, to: Time)
    requires Spaced(log, now) && from <= now <= to
    ensures var k := Accepts(log, key, from, to) - Stops(log, key, from, to);
            var last := Last(log, key);
            if last.Some? && from <= last.value then (k - 1) * SendEach(key) <= last.value - from
            else k * SendEach(key) <= now - from
  {
    if log != [] {
      var rest, e := log[..|log| - 1], log[|log| - 1];
      if e.time < from {
        NothingBefore(rest, e.time, key, from, to);
      } else {
        Stretches(rest, e.time, key, from, to);
        LastIsPast(rest, e.time, key);
      }
    }
  }

  /** Two accepted updates of one key with no effective stop between them are at least SendEach apart. */
  lemma {:induction false} AcceptedAreApart(log: seq<Entry>, now: Time, i: nat, j: nat)
    requires Spaced(log, now) && i < j < |log|
    requires log[i].Accepted? && log[j].Accepted? && log[i].key == log[j].key
    requires forall k :: i < k < j ==> !(log[k].Stopped? && log[k].key == log[i].key)
    ensures log[i].time + SendEach(log[i].key) <= log[j].time
    decreases |log|
  {
    var n := |log| - 1;
    var rest := log[..n];
    if j < n {
      assert forall k :: 0 <= k < n ==> rest[k] == log[k];
      AcceptedAreApart(rest, log[n].time, i, j);
    } else {
      LastSince(rest, log[n].time, i);
    }
  }

  lemma {:induction false} LastSince(log: seq<Entry>, now: Time, i: nat)
    requires Spaced(log, now) && i < |log| && log[i].Accepted?
    requires forall k :: i < k < |log| ==> !(log[k].Stopped? && log[k].key == log[i].key)
    ensures Last(log, log[i].key).Some? && log[i].time <= Last(log, log[i].key).value <= now
  {
    var n := |log| - 1;
    var rest := log[..n];
    if i < n {
      assert forall k :: 0 <= k < n ==> rest[k] == log[k];
      LastSince(rest, log[n].time, i);
    }
  }

  /** In any window of time, with `s` effective stops in it, at most s + 1 + floor(length / SendEach) requests
      are sent for one key. */
  lemma {:induction false} AtMostInWindow(log: seq<Entry>, now: Time, key: Key, from: Time, to: Time)
    requires Spaced(log, now) && from <= to
    ensures Sends(log, key, from, to) <= Stops(log, key, from, to) + 1 + (to - from) / SendEach(key)
  {
    if log != [] {
      var rest, e := log[..|log| - 1], log[|log| - 1];
      if e.time > to {
        AtMostInWindow(rest, e.time, key, from, to);
      } else if e.time < from {
        NothingBefore(log, e.time, key, from, to);
        SendsAreAccepted(log, key, from, to);
      } else {
        Stretches(log, e.time, key, from, to);
        SendsAreAccepted(log, key, from, to);
        LastIsPast(log, e.time, key);
        Divide(Accepts(log, key, from, to) - Stops(log, key, from, to) - 1, SendEach(key), to - from);
      }
    }
  }

  lemma Divide(k: int, each: Time, length: Time)
    requires each == MY_SPEAKING_INTERVAL || each == MY_TYPING_INTERVAL
    requires k * each <= length
    ensures k <= length / each
  {
    if each == MY_SPEAKING_INTERVAL {
      assert k * 3000 <= length;
    } else {
      assert k * 5000 <= length;
    }
  }

  // ---------------------------------------------------------------- all runs

  datatype Event =
    | Progress(key: Key, progress: int, peer: Peer, unixtime: int)
    | CancelKey(key: Key)
    | StopTyping(history: History)
    | Timer
    | Reply(id: int)
    | Fail(id: int)

  /** What one event adds to the history: an update that is not ignored and passes the throttle. */
  function Entries(log: seq<Entry>, time: Time, e: Event): seq<Entry> {
    match e
    case Progress(key, progress, peer, unixtime) =>
      if !Ignored(peer, key.kind) && Passes(Last(log, key), key, progress >= 0, time)
      then [NewEntry(key, progress >= 0, peer, time, unixtime)] else []
    case _ => []
  }

  /** The latest entry of the key. */
  ghost predicate LatestAt(log: seq<Entry>, key: Key, i: int) {
    0 <= i < |log| && log[i].key == key && forall j :: i < j < |log| ==> log[j].key != key
  }

  lemma {:induction false} LastMeans(log: seq<Entry>, key: Key)
    ensures Last(log, key).Some? ==> exists i :: LatestAt(log, key, i) && log[i].Accepted? && log[i].time == Last(log, key).value
    ensures Last(log, key).None? ==> forall i :: LatestAt(log, key, i) ==> log[i].Stopped?
  {
    if log != [] {
      var n := |log| - 1;
      if log[n].key == key {
        assert LatestAt(log, key, n);
      } else {
        LastMeans(log[..n], key);
        assert forall i :: LatestAt(log[..n], key, i) <==> LatestAt(log, key, i);
      }
    }
  }

  /** What a call of `update` adds to the history, in the numbers of the program.  The times are of the latest
      accepted update of the key that no stop has ended. */
  lemma UpdateMeans(log: seq<Entry>, time: Time, key: Key, progress: int, peer: Peer, unixtime: int)
    ensures var r := Entries(log, time, Progress(key, progress, peer, unixtime));
            var each := if key.kind == Speaking then 3000 else 5000;
            var dropped := peer == Self || (peer == Channel(false) && key.kind != Speaking);
            var asleep := match peer
                          case User(bot, support, recently, till) =>
                            (bot && !support) || (!recently && (till == 0 || unixtime - till > 30))
                          case _ => false;
            if dropped then r == []
            else if progress >= 0 then
              r == match Last(log, key)
                   case None => [Accepted(key, time, !asleep)]
                   case Some(t) => if time - t < each then [] else [Accepted(key, time, !asleep)]
            else
              r == match Last(log, key)
                   case None => []
                   case Some(t) => if time - t < each + each then [Stopped(key, time)] else []
  {
    hide Last;
  }

  /** The history that the calls of a run make. */
  function Happened(events: seq<(Time, Event)>): seq<Entry> {
    if events == [] then []
    else
      var log, last := Happened(events[..|events| - 1]), events[|events| - 1];
      log + Entries(log, last.0, last.1)
  }

  /** The requests really sent, for all keys. */
  function Sent(log: seq<Entry>): nat {
    if log == [] then 0
    else Sent(log[..|log| - 1]) + (if log[|log| - 1].Accepted? && log[|log| - 1].sent then 1 else 0)
  }

  lemma SentSmall()
    ensures Sent([]) == 0 && forall e :: Sent([e]) == if e.Accepted? && e.sent then 1 else 0
  {
    assert forall e: Entry :: [e][..0] == [];
  }

  lemma {:induction false} SentAppend(log: seq<Entry>, more: seq<Entry>)
    ensures Sent(log + more) == Sent(log) + Sent(more)
  {
    if more == [] {
      assert log + more == log;
    } else {
      var n := |more| - 1;
      assert (log + more)[..|log| + n] == log + more[..n] && (log + more)[|log| + n] == more[n];
      SentAppend(log, more[..n]);
    }
  }

  /** Any sequence of calls, timer shots and replies along a clock that never goes back. */
  method Run(events: seq<(Time, Event)>) returns (m: Manager)
    requires forall i, j :: 0 <= i < j < |events| ==> 0 <= events[i].0 <= events[j].0
    requires events != [] ==> 0 <= events[0].0
    ensures m.Valid() && m.log == Happened(events) && m.lastId == Sent(m.log)
    ensures forall a, b :: a in m.inFlight && b in m.inFlight && m.inFlight[a] == m.inFlight[b] ==> a == b
    ensures forall key :: key in m.requests ==> (m.requests[key] in m.inFlight <==> Id(m.requests[key]) !in m.lost)
    ensures forall id :: id in m.lost ==> exists k :: 0 <= k < |events| && events[k].1 == Fail(id.value)
    ensures forall key, from, to :: from <= to ==>
              Sends(m.log, key, from, to) <= Stops(m.log, key, from, to) + 1 + (to - from) / SendEach(key)
  {
    hide Spaced, Sent, Entries;
    m := new Manager();
    assert Sent([]) == 0 by { SentSmall(); }
    for i := 0 to |events|
      invariant fresh(m) && m.Valid() && m.log == Happened(events[..i]) && m.lastId == Sent(m.log)
      invariant forall id :: id in m.lost ==> exists k :: 0 <= k < i && events[k].1 == Fail(id.value)
      invariant m.now <= if i == 0 then 0 else events[i - 1].0
    {
      assert events[..i + 1][..i] == events[..i];
      SentAppend(m.log, Entries(m.log, events[i].0, events[i].1));
      m.Step(events[i].0, events[i].1);
    }
    assert events[..|events|] == events;
    forall key, from, to | from <= to { AtMostInWindow(m.log, m.now, key, from, to); }
  }
}
