/** Bookkeeping for callbacks that must run exactly once.

    A callback is known by a ticket, numbered from one as callbacks are accepted.  The ledger says where each
    ticket is: at home under some key of a table, taken out and about to run, or run.  The lemmas are the
    moves between these places; each keeps every ticket in exactly one of them. */
module Callbacks {
  import opened Collections

  type Ticket = nat

  predicate Distinct(s: seq<Ticket>) {
    forall i, j :: 0 <= i < j < |s| ==> s[i] != s[j]
  }

  /** The sequence lists the set, each element once. */
  ghost predicate Lists(s: seq<Ticket>, m: set<Ticket>) {
    Distinct(s) && forall t :: t in s <==> t in m
  }

  datatype Ledger<K(==)> = Ledger(last: nat, home: map<Ticket, K>, taken: set<Ticket>, ran: seq<Ticket>) {

    /** Every ticket given out is in exactly one place. */
    ghost predicate Ok() {
      && (forall t :: t in home || t in taken || t in ran <==> 1 <= t <= last)
      && (forall t :: t in home ==> t !in taken && t !in ran)
      && (forall t :: t in taken ==> t !in ran)
      && Distinct(ran)
    }

    /** The tickets at home under `k`. */
    ghost function At(k: K): set<Ticket> {
      set t | t in home && home[t] == k
    }

    /** A new callback is accepted under `k`. */
    ghost function Give(k: K): Ledger<K> {
      Ledger(last + 1, home[last + 1 := k], taken, ran)
    }

    /** A new callback is accepted and about to run at once. */
    ghost function Hand(): Ledger<K> {
      Ledger(last + 1, home, taken + {last + 1}, ran)
    }

    /** All callbacks under `k` are taken out. */
    ghost function Take(k: K): Ledger<K> {
      Ledger(last, map t | t in home && home[t] != k :: home[t], taken + At(k), ran)
    }

    /** A taken callback runs. */
    ghost function Run(t: Ticket): Ledger<K> {
      Ledger(last, home, taken - {t}, ran + [t])
    }

    lemma Given(k: K)
      requires Ok()
      ensures Give(k).Ok() && Give(k).At(k) == At(k) + {last + 1} && last + 1 !in At(k)
      ensures forall j :: j != k ==> Give(k).At(j) == At(j)
    {
    }

    lemma Handed()
      requires Ok()
      ensures Hand().Ok() && last + 1 !in taken && last + 1 !in ran && forall k :: Hand().At(k) == At(k)
    {
    }

    lemma Taken(k: K)
      requires Ok()
      ensures Take(k).Ok() && Take(k).At(k) == {} && At(k) !! taken
      ensures forall j :: j != k ==> Take(k).At(j) == At(j)
    {
    }

    lemma Ran(t: Ticket)
      requires Ok() && t in taken
      ensures Run(t).Ok() && t !in ran && forall k :: Run(t).At(k) == At(k)
    {
    }
  }

  lemma NothingAtHome<K(!new)>(l: Ledger<K>)
    requires l.Ok() && l.taken == {} && forall k :: l.At(k) == {}
    ensures forall t :: t in l.ran <==> 1 <= t <= l.last
  {
    assert forall t :: t in l.home ==> t in l.At(l.home[t]);
  }

  lemma ListsAppend(s: seq<Ticket>, m: set<Ticket>, t: Ticket)
    requires Lists(s, m) && t !in m
    ensures Lists(s + [t], m + {t})
  {
  }

  /** What a run can only add to. */
  ghost predicate Grown<K>(before: Ledger<K>, after: Ledger<K>) {
    before.last <= after.last && before.ran <= after.ran
  }

  // ---------------------------------------------------------------- the calls of a run

  /** The tickets that a series of calls was given, in order; a call without a callback has none. */
  predicate Numbered(tickets: seq<Option<Ticket>>, last: nat) {
    && (forall k :: 0 <= k < |tickets| && tickets[k].Some? ==> 1 <= tickets[k].value <= last)
    && (forall j, k :: 0 <= j < k < |tickets| && tickets[j].Some? && tickets[k].Some? ==> tickets[j].value < tickets[k].value)
  }

  lemma NothingNumbered()
    ensures Numbered([], 0)
  {
  }

  lemma AllWithin(tickets: seq<Option<Ticket>>, last: nat)
    requires Numbered(tickets, last)
    ensures forall k :: 0 <= k < |tickets| && tickets[k].Some? ==> 1 <= tickets[k].value <= last
    ensures forall j, k :: 0 <= j < k < |tickets| && tickets[j].Some? && tickets[k].Some? ==> tickets[j].value < tickets[k].value
  {
  }

  lemma NumberedMore(tickets: seq<Option<Ticket>>, last: nat, t: Option<Ticket>, now: nat)
    requires Numbered(tickets, last) && last <= now && (t.Some? ==> last < t.value <= now)
    ensures Numbered(tickets + [t], now)
  {
  }
}
