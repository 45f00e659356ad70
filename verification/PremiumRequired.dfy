/** The queue that asks which users accept messages from premium accounts only
    (`resolvePremiumRequired`, `requestPremiumRequiredSlice` and its `finish`).

    Users are collected in an ordered set, asked about in slices of at most one hundred with one slice in
    flight, and answered by position.  A slice is started by a call queued on the main thread, guarded by a
    flag.  The methods of Premium are the program; `queued` and `inFlight` are what the main thread and the
    network hold for it. */
module PremiumRequired {
  import opened Collections

  type User = int

  const PER_REQUEST: nat := 100

  /** RequirePremiumToWriteKnown and MeRequiresPremiumToWrite. */
  datatype Answer = Unknown | Known(require: bool)

  // ---------------------------------------------------------------- the ordered set

  predicate Sorted(s: seq<User>) {
    forall i, j :: 0 <= i < j < |s| ==> s[i] < s[j]
  }

  /** `flat_set::emplace`. */
  function Insert(s: seq<User>, user: User): (r: seq<User>)
    requires Sorted(s)
    ensures Sorted(r) && forall u :: u in r <==> u in s || u == user
  {
    if s == [] || user < s[0] then [user] + s
    else if s[0] == user then s
    else
      var rest := Insert(s[1..], user);
      assert forall k :: 0 <= k < |rest| ==> rest[k] in rest;
      [s[0]] + rest
  }

  function Min(a: nat, b: nat): nat { if a < b then a else b }

  /** Slices needed for `n` users. */
  function Slices(n: nat): nat { (n + PER_REQUEST - 1) / PER_REQUEST }

  lemma RoundedUp(n: nat)
    ensures n <= 100 * Slices(n) < n + 100
    ensures n > 0 ==> Slices(n) == 1 + Slices(n - Min(n, PER_REQUEST))
  {
  }

  function Lookup(answers: map<User, Answer>, u: User): Answer {
    if u in answers then answers[u] else Unknown
  }

  /** The loop of `finish`: one running index over the answers, one pass over the users asked. */
  method AnswerInOrder(taken: seq<User>, list: seq<bool>, answers: map<User, Answer>) returns (r: map<User, Answer>)
    requires Sorted(taken)
    ensures forall i :: 0 <= i < |taken| ==> Lookup(r, taken[i]) == Known(i < |list| && list[i])
    ensures forall u :: u !in taken ==> Lookup(r, u) == Lookup(answers, u)
  {
    r := answers;
    var index := 0;
    for k := 0 to |taken|
      invariant index == Min(k, |list|)
      invariant forall i :: 0 <= i < k ==> Lookup(r, taken[i]) == Known(i < |list| && list[i])
      invariant forall u :: u !in taken[..k] ==> Lookup(r, u) == Lookup(answers, u)
    {
      var require := false;
      if index < |list| {
        require := list[index];
        index := index + 1;
      }
      r := r[taken[k] := Known(require)];
    }
    assert taken[..|taken|] == taken;
  }

  // ---------------------------------------------------------------- the queue

  class Premium {
    var required: seq<User>
    var requested: seq<User>
    var scheduled: bool
    var answers: map<User, Answer>

    var queued: nat                       // calls waiting on the main thread
    var inFlight: Option<seq<User>>       // the request on the wire, with the users it names
    ghost var asked: set<User>            // every user ever passed to Resolve

    /** A waiting user always has exactly one thing coming for it: a scheduled call or a slice in flight. */
    ghost predicate Valid()
      reads this
    {
      && Sorted(required) && Sorted(requested) && |requested| <= PER_REQUEST
      && queued == (if scheduled then 1 else 0)
      && inFlight == (if requested == [] then None else Some(requested))
      && (required != [] ==> scheduled || requested != [])
      && (scheduled ==> requested == [] && required != [])
      && (forall u :: u in asked ==> u in required || u in requested || IsKnown(u))
    }

    function AnswerOf(u: User): Answer
      reads this
    {
      Lookup(answers, u)
    }

    predicate IsKnown(u: User)
      reads this
    {
      AnswerOf(u).Known?
    }

    constructor ()
      ensures Valid() && required == [] && requested == [] && asked == {} && answers == map[]
    {
      required, requested, scheduled, answers := [], [], false, map[];
      queued, inFlight, asked := 0, None, {};
    }

    /** `resolvePremiumRequired`. */
    method Resolve(user: User)
      requires Valid()
      modifies this
      ensures Valid()
      ensures required == Insert(old(required), user) && requested == old(requested)
      ensures scheduled == (old(requested) == []) && answers == old(answers) && inFlight == old(inFlight)
      ensures asked == old(asked) + {user}
    {
      required := Insert(required, user);
      asked := asked + {user};
      assert user in required;
      if !scheduled && requested == [] {
        scheduled := true;
        queued := queued + 1;
      }
    }

    /** The queued call: `requestPremiumRequiredSlice`.  Its early return is never taken. */
    method RunQueued()
      requires Valid() && queued > 0
      modifies this
      ensures Valid()
      ensures var n := Min(|old(required)|, PER_REQUEST);
              requested == old(required)[..n] && required == old(required)[n..] && requested != []
      ensures |requested| == (if |old(required)| > 100 then 100 else |old(required)|) && inFlight == Some(requested)
      ensures !scheduled && answers == old(answers) && asked == old(asked)
    {
      queued := queued - 1;
      scheduled := false;
      if requested != [] || required == [] {
        assert false;
        return;
      }
      if |required| > PER_REQUEST {
        requested := required[..PER_REQUEST];
        required := required[PER_REQUEST..];
      } else {
        requested := required;
        required := [];
      }
      inFlight := Some(requested);
      assert forall u :: u in old(required) ==> u in requested || u in required;
    }

    /** `finish`: the i-th answer goes to the i-th user asked, and a missing answer means no. */
    method Finish(list: seq<bool>)
      requires Valid() && inFlight.Some?
      modifies this
      ensures Valid()
      ensures forall i :: 0 <= i < |old(requested)| ==> AnswerOf(old(requested)[i]) == Known(i < |list| && list[i])
      ensures forall u :: u !in old(requested) ==> AnswerOf(u) == old(AnswerOf(u))
      ensures requested == [] && required == old(required) && scheduled == (required != []) && asked == old(asked)
    {
      inFlight := None;
      var taken := requested;
      requested := [];
      answers := AnswerInOrder(taken, list, answers);
      if !scheduled && required != [] {
        scheduled := true;
        queued := queued + 1;
      }
    }

    /** With no further arrivals `n` users take exactly ceil(n / 100) slices, whatever the server answers. */
    method Drain(reply: nat -> seq<bool>) returns (slices: nat)
      requires Valid() && requested == []
      modifies this
      ensures Valid() && required == [] && requested == [] && !scheduled
      ensures slices == Slices(|old(required)|) && |old(required)| <= 100 * slices < |old(required)| + 100
      ensures forall u :: u in old(required) ==> IsKnown(u)
      ensures asked == old(asked)
    {
      hide Slices;
      slices := 0;
      RoundedUp(0);
      RoundedUp(|required|);
      while queued > 0
        invariant Valid() && requested == [] && asked == old(asked)
        invariant slices + Slices(|required|) == Slices(|old(required)|)
        invariant forall u :: u in old(required) ==> u in required || IsKnown(u)
        decreases |required|
      {
        RoundedUp(|required|);
        OneSlice(reply(slices));
        slices := slices + 1;
      }
    }

    /** One slice and its answer, with nothing in between. */
    method OneSlice(list: seq<bool>)
      requires Valid() && requested == [] && queued > 0
      modifies this
      ensures Valid() && requested == [] && asked == old(asked)
      ensures |old(required)| > 0 && |required| == |old(required)| - Min(|old(required)|, PER_REQUEST)
      ensures forall u :: u in old(required) ==> u in required || IsKnown(u)
      ensures forall u :: old(IsKnown(u)) ==> IsKnown(u)
    {
      ghost var was := required;
      RunQueued();
      ghost var slice := requested;
      assert was == slice + required;
      Finish(list);
      assert forall u :: u in was ==> u in slice || u in required;
      assert forall i :: 0 <= i < |slice| ==> IsKnown(slice[i]);
    }
  }

  // ---------------------------------------------------------------- all runs

  datatype Event = Ask(user: User) | MainCall | Done(list: seq<bool>) | Failed

  /** Any sequence of arrivals, main-thread turns and replies.  A turn with nothing queued and a reply with
      nothing in flight do not occur, so they are skipped. */
  method Run(events: seq<Event>) returns (p: Premium)
    ensures p.Valid()
    ensures p.required != [] ==> p.queued == 1 || p.inFlight.Some?
    ensures p.inFlight.Some? ==> p.inFlight.value == p.requested && 1 <= |p.requested| <= 100
    ensures forall i, j :: 0 <= i < j < |p.required| ==> p.required[i] < p.required[j]
    ensures forall i, j :: 0 <= i < j < |p.requested| ==> p.requested[i] < p.requested[j]
    ensures forall k :: 0 <= k < |events| && events[k].Ask? ==> events[k].user in p.asked
    ensures p.queued == 0 && p.inFlight == None ==>
              forall k :: 0 <= k < |events| && events[k].Ask? ==> p.IsKnown(events[k].user)
  {
    p := new Premium();
    for i := 0 to |events|
      invariant fresh(p) && p.Valid()
      invariant forall k :: 0 <= k < i && events[k].Ask? ==> events[k].user in p.asked
    {
      match events[i]
      case Ask(user) => p.Resolve(user);
      case MainCall => if p.queued > 0 { p.RunQueued(); }
      case Done(list) => if p.inFlight.Some? { p.Finish(list); }
      case Failed => if p.inFlight.Some? { p.Finish([]); }
    }
  }
}
