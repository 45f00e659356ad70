/** Forwarding messages in batches (`forwardMessages`): the draft is cut where the source peer changes, each
    piece is sent with its own peer, and a shared counter decides when the success callback runs. */
module Forward {

  type Peer = int

  datatype Item = Item(peer: Peer, id: int)

  /** One MTPmessages_ForwardMessages request. */
  datatype Batch = Batch(from: Peer, ids: seq<int>, randomIds: seq<int>)

  function ItemsOf(b: Batch): (r: seq<Item>)
    ensures |r| == |b.ids| && forall k :: 0 <= k < |r| ==> r[k] == Item(b.from, b.ids[k])
  {
    seq(|b.ids|, k requires 0 <= k < |b.ids| => Item(b.from, b.ids[k]))
  }

  /** All items of the batches, in order, each with the peer it is sent from. */
  function Joined(batches: seq<Batch>): seq<Item> {
    if batches == [] then [] else Joined(batches[..|batches| - 1]) + ItemsOf(batches[|batches| - 1])
  }

  function JoinedRandoms(batches: seq<Batch>): seq<int> {
    if batches == [] then [] else JoinedRandoms(batches[..|batches| - 1]) + batches[|batches| - 1].randomIds
  }

  /** Nonempty batches that change peer from one to the next. */
  ghost predicate Maximal(batches: seq<Batch>) {
    && (forall k :: 0 <= k < |batches| ==> batches[k].ids != [] && |batches[k].randomIds| == |batches[k].ids|)
    && (forall k :: 0 < k < |batches| ==> batches[k - 1].from != batches[k].from)
  }

  /** The batches are the maximal runs of the draft. */
  ghost predicate Runs(items: seq<Item>, batches: seq<Batch>) {
    Maximal(batches) && Joined(batches) == items
  }

  /** The state of the splitting loop: finished batches, the batch being collected, and what both hold. */
  ghost predicate Splitting(batches: seq<Batch>, current: Batch, items: seq<Item>, randoms: seq<int>) {
    && Maximal(batches) && (batches != [] ==> batches[|batches| - 1].from != current.from)
    && |current.ids| == |current.randomIds|
    && Joined(batches) + ItemsOf(current) == items
    && JoinedRandoms(batches) + current.randomIds == randoms
  }

  lemma Flush(batches: seq<Batch>, current: Batch, items: seq<Item>, randoms: seq<int>)
    requires Splitting(batches, current, items, randoms) && current.ids != []
    ensures Maximal(batches + [current]) && Joined(batches + [current]) == items
    ensures JoinedRandoms(batches + [current]) == randoms
  {
    assert (batches + [current])[..|batches|] == batches;
  }

  lemma Collect(batches: seq<Batch>, current: Batch, items: seq<Item>, randoms: seq<int>, item: Item, random: int)
    requires Splitting(batches, current, items, randoms) && item.peer == current.from
    ensures Splitting(batches, Batch(current.from, current.ids + [item.id], current.randomIds + [random]),
                      items + [item], randoms + [random])
  {
    assert ItemsOf(Batch(current.from, current.ids + [item.id], current.randomIds + [random])) == ItemsOf(current) + [item];
    assert Joined(batches) + (ItemsOf(current) + [item]) == items + [item];
    assert JoinedRandoms(batches) + (current.randomIds + [random]) == randoms + [random];
  }

  lemma StartBatch(batches: seq<Batch>, from: Peer, items: seq<Item>, randoms: seq<int>)
    requires Maximal(batches) && (batches != [] ==> batches[|batches| - 1].from != from)
    requires Joined(batches) == items && JoinedRandoms(batches) == randoms
    ensures Splitting(batches, Batch(from, [], []), items, randoms)
  {
    assert ItemsOf(Batch(from, [], [])) == [];
  }

  function Randoms(n: nat, random: nat -> int): (r: seq<int>)
    ensures |r| == n && forall k :: 0 <= k < n ==> r[k] == random(k)
  {
    seq(n, k requires 0 <= k < n => random(k))
  }

  /** The number of messages in the first `k` batches. */
  function Before(batches: seq<Batch>, k: nat): nat
    requires k <= |batches|
  {
    if k == 0 then 0 else Before(batches, k - 1) + |batches[k - 1].ids|
  }

  /** The j-th message of a batch has its place in the draft, and the random id of this place. */
  ghost predicate InPlace(items: seq<Item>, randoms: seq<int>, b: Batch, at: nat, j: nat) {
    && j < |b.ids| == |b.randomIds| && at + j < |items| == |randoms|
    && items[at + j].peer == b.from && items[at + j].id == b.ids[j] && randoms[at + j] == b.randomIds[j]
  }

  lemma {:induction false} PlacesMean(batches: seq<Batch>, items: seq<Item>, randoms: seq<int>)
    requires Joined(batches) == items && JoinedRandoms(batches) == randoms
    requires forall k :: 0 <= k < |batches| ==> |batches[k].randomIds| == |batches[k].ids|
    ensures Before(batches, |batches|) == |items| == |randoms|
    ensures forall k: nat, j: nat :: k < |batches| && j < |batches[k].ids| ==>
              InPlace(items, randoms, batches[k], Before(batches, k), j)
  {
    if batches != [] {
      var n := |batches| - 1;
      var rest, last := batches[..n], batches[n];
      PlacesMean(rest, Joined(rest), JoinedRandoms(rest));
      SameBefore(batches, n, n);
      assert items == Joined(rest) + ItemsOf(last) && randoms == JoinedRandoms(rest) + last.randomIds;
      forall k: nat, j: nat | k < |batches| && j < |batches[k].ids|
        ensures InPlace(items, randoms, batches[k], Before(batches, k), j)
      {
        if k < n {
          SameBefore(batches, n, k);
          assert InPlace(Joined(rest), JoinedRandoms(rest), rest[k], Before(rest, k), j);
        }
      }
    }
  }

  lemma {:induction false} SameBefore(batches: seq<Batch>, n: nat, k: nat)
    requires k <= n <= |batches|
    ensures Before(batches[..n], k) == Before(batches, k)
  {
    if k > 0 { SameBefore(batches, n, k - 1); }
  }

  /** The splitting loop, with the final flush. */
  method Split(items: seq<Item>, random: nat -> int) returns (batches: seq<Batch>)
    requires items != []
    ensures Runs(items, batches) && batches != []
    ensures JoinedRandoms(batches) == Randoms(|items|, random)
    ensures Before(batches, |batches|) == |items|
    ensures forall k: nat, j: nat :: k < |batches| && j < |batches[k].ids| ==>
              InPlace(items, Randoms(|items|, random), batches[k], Before(batches, k), j)
    ensures forall k :: 0 <= k < |batches| ==> batches[k].ids != []
    ensures forall k :: 0 < k < |batches| ==> batches[k - 1].from != batches[k].from
  {
    hide Splitting, Maximal, Joined, JoinedRandoms;
    batches := [];
    var forwardFrom := items[0].peer;
    var ids: seq<int>, randomIds: seq<int> := [], [];
    assert Maximal([]) && Joined([]) == [] && JoinedRandoms([]) == [] by { Nothing(); }
    StartBatch([], forwardFrom, [], []);
    for i := 0 to |items|
      invariant Splitting(batches, Batch(forwardFrom, ids, randomIds), items[..i], Randoms(i, random))
      invariant ids == [] ==> i == 0
      invariant i == 0 ==> forwardFrom == items[0].peer
    {
      var newFrom := items[i].peer;
      if forwardFrom != newFrom {
        Flush(batches, Batch(forwardFrom, ids, randomIds), items[..i], Randoms(i, random));
        batches := batches + [Batch(forwardFrom, ids, randomIds)];
        StartBatch(batches, newFrom, items[..i], Randoms(i, random));
        ids, randomIds := [], [];
        forwardFrom := newFrom;
      }
      Collect(batches, Batch(forwardFrom, ids, randomIds), items[..i], Randoms(i, random), items[i], random(i));
      ids := ids + [items[i].id];
      randomIds := randomIds + [random(i)];
      assert items[..i + 1] == items[..i] + [items[i]];
      assert Randoms(i + 1, random) == Randoms(i, random) + [random(i)];
    }
    assert items[..|items|] == items;
    Flush(batches, Batch(forwardFrom, ids, randomIds), items, Randoms(|items|, random));
    batches := batches + [Batch(forwardFrom, ids, randomIds)];
    MaximalMeans(batches);
    PlacesMean(batches, items, Randoms(|items|, random));
  }

  lemma MaximalMeans(batches: seq<Batch>)
    requires Maximal(batches)
    ensures forall k :: 0 <= k < |batches| ==> batches[k].ids != [] && |batches[k].randomIds| == |batches[k].ids|
    ensures forall k :: 0 < k < |batches| ==> batches[k - 1].from != batches[k].from
  {
  }

  lemma Nothing()
    ensures Maximal([]) && Joined([]) == [] && JoinedRandoms([]) == []
  {
  }

  // ---------------------------------------------------------------- the runs are determined by the draft

  function Bare(b: Batch): Batch { b.(randomIds := []) }

  /** Where the last run starts: its items share its peer, the item before them does not. */
  lemma {:induction false} LastRun(items: seq<Item>, batches: seq<Batch>)
    requires Runs(items, batches) && batches != []
    ensures var last := batches[|batches| - 1];
            && 0 < |last.ids| <= |items|
            && items[..|items| - |last.ids|] == Joined(batches[..|batches| - 1])
            && items[|items| - |last.ids|..] == ItemsOf(last)
            && (|last.ids| < |items| ==> items[|items| - |last.ids| - 1].peer != last.from)
            && Runs(items[..|items| - |last.ids|], batches[..|batches| - 1])
            && forall k :: |items| - |last.ids| <= k < |items| ==> items[k].peer == last.from
    decreases |batches|
  {
    var n := |batches| - 1;
    var last, before := batches[n], Joined(batches[..n]);
    assert items == before + ItemsOf(last);
    if n > 0 {
      LastRun(before, batches[..n]);
    }
  }

  /** Any two ways to cut a draft into maximal runs agree on the peers and the messages of every run. */
  lemma {:induction false} RunsAreUnique(items: seq<Item>, a: seq<Batch>, b: seq<Batch>)
    requires Runs(items, a) && Runs(items, b)
    ensures |a| == |b| && forall k :: 0 <= k < |a| ==> Bare(a[k]) == Bare(b[k])
    decreases |items|
  {
    hide Runs;
    if items == [] {
      NoRuns(a);
      NoRuns(b);
    } else {
      SameLastRun(items, a, b);
      var n, m := |a| - 1, |b| - 1;
      RunsAreUnique(items[..|items| - |a[n].ids|], a[..n], b[..m]);
      forall k | 0 <= k < |a| ensures Bare(a[k]) == Bare(b[k]) {
        if k < n {
          assert a[..n][k] == a[k] && b[..m][k] == b[k];
        }
      }
    }
  }

  lemma SameLastRun(items: seq<Item>, a: seq<Batch>, b: seq<Batch>)
    requires Runs(items, a) && Runs(items, b) && items != []
    ensures a != [] && b != [] && Bare(a[|a| - 1]) == Bare(b[|b| - 1]) && 0 < |a[|a| - 1].ids| <= |items|
    ensures var before := items[..|items| - |a[|a| - 1].ids|];
            Runs(before, a[..|a| - 1]) && Runs(before, b[..|b| - 1])
  {
    SomeRuns(items, a);
    SomeRuns(items, b);
    hide Runs, ItemsOf;
    LastRun(items, a);
    LastRun(items, b);
    var la, lb := a[|a| - 1], b[|b| - 1];
    assert items[|items| - 1].peer == la.from && items[|items| - 1].peer == lb.from;
    NotShorter(items, |la.ids|, |lb.ids|, la.from);
    NotShorter(items, |lb.ids|, |la.ids|, la.from);
    SameIds(la, lb);
  }

  lemma NoRuns(batches: seq<Batch>)
    requires Runs([], batches)
    ensures batches == []
  {
    if batches != [] { LastRun([], batches); }
  }

  lemma SomeRuns(items: seq<Item>, batches: seq<Batch>)
    requires Runs(items, batches) && items != []
    ensures batches != []
  {
  }

  lemma NotShorter(items: seq<Item>, p: nat, q: nat, from: Peer)
    requires p <= |items| && q <= |items| && (p < |items| ==> items[|items| - p - 1].peer != from)
    requires forall k :: |items| - q <= k < |items| ==> items[k].peer == from
    ensures p >= q
  {
  }

  lemma SameIds(a: Batch, b: Batch)
    requires ItemsOf(a) == ItemsOf(b)
    ensures a.ids == b.ids
  {
    assert |a.ids| == |ItemsOf(a)| == |ItemsOf(b)| == |b.ids|;
    assert forall k :: 0 <= k < |a.ids| ==> a.ids[k] == ItemsOf(a)[k].id && b.ids[k] == ItemsOf(b)[k].id;
  }

  // ---------------------------------------------------------------- the shared counter

  /** SharedCallback and the replies to the batches. */
  class Sharing {
    var requestsLeft: int
    var called: nat                       // how often the success callback ran
    var inFlight: set<Request>
    ghost var failed: set<Request>

    ghost predicate Valid()
      reads this
    {
      && failed !! inFlight && requestsLeft == |inFlight| + |failed|
      && called == if requestsLeft == 0 then 1 else 0
    }

    /** All batches of a draft are counted while they are sent; no reply comes before the last is sent. */
    constructor (batches: seq<Batch>)
      requires batches != []
      ensures Valid() && failed == {} && inFlight == set k | 0 <= k < |batches| :: Request(k)
    {
      requestsLeft, called, inFlight, failed := 0, 0, {}, {};
      new;
      for i := 0 to |batches|
        invariant failed == {} && called == 0 && requestsLeft == i == |inFlight|
        invariant inFlight == set k | 0 <= k < i :: Request(k)
      {
        requestsLeft := requestsLeft + 1;
        inFlight := inFlight + {Request(i)};
      }
    }

    method Done(r: Request)
      requires Valid() && r in inFlight
      modifies this
      ensures Valid() && inFlight == old(inFlight) - {r} && failed == old(failed)
      ensures called == old(called) + (if inFlight == {} && failed == {} then 1 else 0)
    {
      inFlight := inFlight - {r};
      requestsLeft := requestsLeft - 1;
      if requestsLeft == 0 {
        called := called + 1;
      }
    }

    method Failed(r: Request)
      requires Valid() && r in inFlight
      modifies `inFlight, `failed
      ensures Valid() && inFlight == old(inFlight) - {r} && failed == old(failed) + {r}
    {
      inFlight := inFlight - {r};
      failed := failed + {r};
    }
  }

  datatype Request = Request(batch: nat)

  /** The answer to one request. */
  datatype Answer = Answer(request: Request, success: bool)

  /** Replies in any order, each request answered at most once: the callback has run once when every batch
      was answered with success, and never otherwise. */
  method RunReplies(batches: seq<Batch>, answers: seq<Answer>) returns (s: Sharing)
    requires batches != []
    requires forall i :: 0 <= i < |answers| ==> answers[i].request.batch < |batches|
    requires forall i, j :: 0 <= i < j < |answers| ==> answers[i].request != answers[j].request
    ensures s.called == if AllSucceeded(batches, answers) then 1 else 0
  {
    hide Tallied, AllSucceeded;
    s := new Sharing(batches);
    StartTally(batches, s.inFlight);
    for i := 0 to |answers|
      invariant fresh(s) && s.Valid() && Tallied(batches, answers[..i], s.inFlight, s.failed)
    {
      var a := answers[i];
      TallyStep(batches, answers[..i], s.inFlight, s.failed, a);
      assert answers[..i + 1] == answers[..i] + [a];
      if a.success {
        s.Done(a.request);
      } else {
        s.Failed(a.request);
      }
    }
    assert answers[..|answers|] == answers;
    TalliedAll(batches, answers, s.inFlight, s.failed);
  }

  lemma StartTally(batches: seq<Batch>, inFlight: set<Request>)
    requires inFlight == set k | 0 <= k < |batches| :: Request(k)
    ensures Tallied(batches, [], inFlight, {})
  {
    forall r: Request ensures r in inFlight <==> r.batch < |batches| {
      assert r == Request(r.batch);
    }
  }

  lemma TallyStep(batches: seq<Batch>, answers: seq<Answer>, inFlight: set<Request>, failed: set<Request>, a: Answer)
    requires Tallied(batches, answers, inFlight, failed) && a.request.batch < |batches|
    requires forall k :: 0 <= k < |answers| ==> answers[k].request != a.request
    ensures a.request in inFlight
    ensures Tallied(batches, answers + [a], inFlight - {a.request}, if a.success then failed else failed + {a.request})
  {
  }

  ghost predicate Tallied(batches: seq<Batch>, answers: seq<Answer>, inFlight: set<Request>, failed: set<Request>) {
    && (forall r :: r in inFlight <==> r.batch < |batches| && Answer(r, true) !in answers && Answer(r, false) !in answers)
    && (forall r :: r in failed <==> Answer(r, false) in answers)
  }

  ghost predicate AllSucceeded(batches: seq<Batch>, answers: seq<Answer>) {
    && (forall r: Request :: r.batch < |batches| ==> Answer(r, true) in answers)
    && (forall r: Request :: Answer(r, false) !in answers)
  }

  lemma TalliedAll(batches: seq<Batch>, answers: seq<Answer>, inFlight: set<Request>, failed: set<Request>)
    requires Tallied(batches, answers, inFlight, failed)
    ensures AllSucceeded(batches, answers) ==> |inFlight| + |failed| == 0
    ensures |inFlight| + |failed| == 0 && (forall r :: Answer(r, false) !in answers) ==> AllSucceeded(batches, answers)
    ensures |failed| == 0 ==> forall r :: Answer(r, false) !in answers
  {
    if AllSucceeded(batches, answers) {
      assert inFlight == {} && failed == {};
    }
    if |failed| == 0 {
      assert failed == {};
    }
  }
}
