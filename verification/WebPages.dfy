/** Resolving pending web page previews (`resolveWebPages`, `gotWebPages`).

    One pass over the pending pages groups the due ones by channel and marks each with a negative temporary
    id: -1 for messages outside channels, -index-2 for the channel that came index-th.  The requests are then
    sent, and a second pass replaces the marks by the ids of the requests. */
module WebPages {
  import opened Collections

  datatype Page = Page(key: int)
  datatype Channel = Channel(id: int)

  /** The message a page preview belongs to. */
  datatype Item = Item(channel: Option<Channel>, id: int)

  /** A request on the wire, for one channel or for none. */
  datatype Sent = Sent(channel: Option<Channel>, ids: seq<int>)

  /** `IndexAndMessageIds`. */
  datatype Group = Group(index: nat, ids: seq<int>)

  // ---------------------------------------------------------------- what the passes compute

  /** What the passes read: the pending pages, when each page may be asked about, and its message if known. */
  datatype View = View(pending: map<Page, int>, tills: map<Page, int>, items: map<Page, Item>, now: int) {
    ghost predicate Ok() {
      pending.Keys <= tills.Keys && forall p :: p in pending ==> pending[p] >= 0
    }

    /** No request yet, the time has come, and the message is known. */
    predicate Due(p: Page)
      requires Ok()
    {
      p in pending && pending[p] <= 0 && tills[p] <= now && p in items
    }
  }

  /** The channel indices are a bijection onto 0 .. n-1. */
  ghost predicate Indexed(byChannel: map<Channel, Group>, order: seq<Channel>) {
    && (forall i :: 0 <= i < |order| ==> order[i] in byChannel && byChannel[order[i]].index == i)
    && (forall c :: c in byChannel ==> byChannel[c].index < |order| && order[byChannel[c].index] == c)
  }

  /** The mark of a due page. */
  function Mark(item: Item, byChannel: map<Channel, Group>): int
    requires item.channel.Some? ==> item.channel.value in byChannel
  {
    match item.channel
    case None => -1
    case Some(c) => -(byChannel[c].index as int) - 2
  }

  predicate Visited(v: View, todo: set<Page>, p: Page)
    requires v.Ok()
  {
    p !in todo && v.Due(p)
  }

  /** Visited due pages carry their marks, all others are as they were. */
  ghost predicate Marked(v: View, todo: set<Page>, marked: map<Page, int>, byChannel: map<Channel, Group>)
    requires v.Ok()
  {
    && marked.Keys == v.pending.Keys
    && (forall p :: p in marked && !Visited(v, todo, p) ==> marked[p] == v.pending[p])
    && (forall p :: Visited(v, todo, p) && v.items[p].channel.Some? ==> v.items[p].channel.value in byChannel)
    && (forall p :: Visited(v, todo, p) ==> marked[p] == Mark(v.items[p], byChannel))
  }

  /** `ids` are the messages of exactly the visited due pages with this channel, one for each page. */
  ghost predicate Gathers(v: View, todo: set<Page>, channel: Option<Channel>, pages: seq<Page>, ids: seq<int>)
    requires v.Ok()
  {
    && (forall i, j :: 0 <= i < j < |pages| ==> pages[i] != pages[j])
    && (forall p :: p in pages <==> Visited(v, todo, p) && v.items[p].channel == channel)
    && |ids| == |pages| && (forall k :: 0 <= k < |pages| ==> pages[k] in v.items && ids[k] == v.items[pages[k]].id)
  }

  function IdsFor(ids: seq<int>, byChannel: map<Channel, Group>, channel: Option<Channel>): seq<int> {
    match channel
    case None => ids
    case Some(c) => if c in byChannel then byChannel[c].ids else []
  }

  ghost function PagesFor(pages: map<Option<Channel>, seq<Page>>, channel: Option<Channel>): seq<Page> {
    if channel in pages then pages[channel] else []
  }

  ghost predicate Gathered(v: View, todo: set<Page>, ids: seq<int>, byChannel: map<Channel, Group>,
                           pages: map<Option<Channel>, seq<Page>>)
    requires v.Ok()
  {
    && (forall ch :: Gathers(v, todo, ch, PagesFor(pages, ch), IdsFor(ids, byChannel, ch)))
    && (forall c :: c in byChannel ==> byChannel[c].ids != [])
  }

  // ---------------------------------------------------------------- one step of the first pass

  lemma SkipStep(v: View, todo: set<Page>, p: Page, marked: map<Page, int>, ids: seq<int>, byChannel: map<Channel, Group>,
                 pages: map<Option<Channel>, seq<Page>>)
    requires v.Ok() && p in todo && !v.Due(p)
    requires Marked(v, todo, marked, byChannel) && Gathered(v, todo, ids, byChannel, pages)
    ensures Marked(v, todo - {p}, marked, byChannel) && Gathered(v, todo - {p}, ids, byChannel, pages)
  {
    assert forall q :: Visited(v, todo - {p}, q) <==> Visited(v, todo, q);
    forall ch
      ensures Gathers(v, todo - {p}, ch, PagesFor(pages, ch), IdsFor(ids, byChannel, ch))
    {
      assert Gathers(v, todo, ch, PagesFor(pages, ch), IdsFor(ids, byChannel, ch));
    }
  }

  /** One due page joins the messages of its channel. */
  lemma GatherStep(v: View, todo: set<Page>, p: Page, ch: Option<Channel>, list: seq<Page>, ids: seq<int>)
    requires v.Ok() && p in todo && v.Due(p) && Gathers(v, todo, ch, list, ids)
    ensures v.items[p].channel == ch ==> Gathers(v, todo - {p}, ch, list + [p], ids + [v.items[p].id])
    ensures v.items[p].channel != ch ==> Gathers(v, todo - {p}, ch, list, ids)
  {
    assert forall q :: Visited(v, todo - {p}, q) <==> Visited(v, todo, q) || q == p;
  }

  lemma MarkStep(v: View, todo: set<Page>, p: Page, marked: map<Page, int>, before: map<Channel, Group>,
                 after: map<Channel, Group>)
    requires v.Ok() && p in todo && v.Due(p) && Marked(v, todo, marked, before)
    requires forall c :: c in before ==> c in after && after[c].index == before[c].index
    requires v.items[p].channel.Some? ==> v.items[p].channel.value in after
    ensures Marked(v, todo - {p}, marked[p := Mark(v.items[p], after)], after)
  {
    assert forall q :: Visited(v, todo - {p}, q) <==> Visited(v, todo, q) || q == p;
  }

  lemma GatheredStep(v: View, todo: set<Page>, p: Page, ids: seq<int>, before: map<Channel, Group>,
                     pages: map<Option<Channel>, seq<Page>>, ids': seq<int>, after: map<Channel, Group>)
    requires v.Ok() && p in todo && v.Due(p) && Gathered(v, todo, ids, before, pages)
    requires forall ch :: IdsFor(ids', after, ch) ==
               if ch == v.items[p].channel then IdsFor(ids, before, ch) + [v.items[p].id] else IdsFor(ids, before, ch)
    requires forall c :: c in after ==> after[c].ids != []
    ensures Gathered(v, todo - {p}, ids', after, pages[v.items[p].channel := PagesFor(pages, v.items[p].channel) + [p]])
  {
    hide Gathers;
    var pages' := pages[v.items[p].channel := PagesFor(pages, v.items[p].channel) + [p]];
    forall ch ensures Gathers(v, todo - {p}, ch, PagesFor(pages', ch), IdsFor(ids', after, ch)) {
      GatherStep(v, todo, p, ch, PagesFor(pages, ch), IdsFor(ids, before, ch));
    }
  }

  lemma IndexedStep(byChannel: map<Channel, Group>, order: seq<Channel>, c: Channel, ids: seq<int>)
    requires Indexed(byChannel, order) && |order| == |byChannel|
    ensures c !in byChannel ==> Indexed(byChannel[c := Group(|byChannel|, ids)], order + [c])
    ensures c in byChannel ==> Indexed(byChannel[c := Group(byChannel[c].index, ids)], order)
  {
  }

  lemma Untouched(v: View, todo: set<Page>, marked: map<Page, int>, byChannel: map<Channel, Group>, p: Page)
    requires v.Ok() && Marked(v, todo, marked, byChannel) && p in todo && p in v.pending
    ensures p in marked && marked[p] == v.pending[p]
  {
  }

  lemma Start(v: View)
    requires v.Ok()
    ensures Marked(v, v.pending.Keys, v.pending, map[]) && Gathered(v, v.pending.Keys, [], map[], map[])
    ensures Indexed(map[], [])
  {
  }

  /** The state of the first pass. */
  ghost predicate Pass(v: View, todo: set<Page>, marked: map<Page, int>, ids: seq<int>, byChannel: map<Channel, Group>,
                       order: seq<Channel>, pages: map<Option<Channel>, seq<Page>>)
  {
    && v.Ok() && Marked(v, todo, marked, byChannel) && Gathered(v, todo, ids, byChannel, pages)
    && Indexed(byChannel, order) && |order| == |byChannel|
  }

  /** The message of a due page joins those of its channel. */
  method Join(byChannel: map<Channel, Group>, channel: Channel, id: int, ghost order: seq<Channel>)
    returns (r: map<Channel, Group>, ghost order': seq<Channel>)
    requires Indexed(byChannel, order) && |order| == |byChannel|
    ensures Indexed(r, order') && |order'| == |r| && channel in r
    ensures forall c :: c in byChannel ==> c in r && r[c].index == byChannel[c].index
    ensures forall c :: c in r && c != channel ==> c in byChannel && r[c] == byChannel[c]
    ensures r[channel].ids == (if channel in byChannel then byChannel[channel].ids else []) + [id]
  {
    if channel !in byChannel {
      IndexedStep(byChannel, order, channel, [id]);
      order' := order + [channel];
      r := byChannel[channel := Group(|byChannel|, [id])];
    } else {
      IndexedStep(byChannel, order, channel, byChannel[channel].ids + [id]);
      order' := order;
      r := byChannel[channel := Group(byChannel[channel].index, byChannel[channel].ids + [id])];
    }
  }

  lemma PassStep(v: View, todo: set<Page>, p: Page, marked: map<Page, int>, ids: seq<int>, byChannel: map<Channel, Group>,
                 order: seq<Channel>, pages: map<Option<Channel>, seq<Page>>, ids': seq<int>, byChannel': map<Channel, Group>,
                 order': seq<Channel>)
    requires Pass(v, todo, marked, ids, byChannel, order, pages) && p in todo && v.Due(p)
    requires Indexed(byChannel', order') && |order'| == |byChannel'|
    requires forall c :: c in byChannel ==> c in byChannel' && byChannel'[c].index == byChannel[c].index
    requires match v.items[p].channel
             case None => byChannel' == byChannel && ids' == ids + [v.items[p].id]
             case Some(channel) =>
               && ids' == ids && channel in byChannel'
               && (forall c :: c in byChannel' && c != channel ==> c in byChannel && byChannel'[c] == byChannel[c])
               && byChannel'[channel].ids == (if channel in byChannel then byChannel[channel].ids else []) + [v.items[p].id]
    ensures Pass(v, todo - {p}, marked[p := Mark(v.items[p], byChannel')], ids', byChannel', order',
                 pages[v.items[p].channel := PagesFor(pages, v.items[p].channel) + [p]])
  {
    hide Marked, Indexed, Mark, Gathers;
    assert forall c :: c in byChannel' ==> byChannel'[c].ids != [];
    MarkStep(v, todo, p, marked, byChannel, byChannel');
    forall ch
      ensures IdsFor(ids', byChannel', ch) ==
                if ch == v.items[p].channel then IdsFor(ids, byChannel, ch) + [v.items[p].id] else IdsFor(ids, byChannel, ch)
    {
    }
    hide Gathered;
    GatheredStep(v, todo, p, ids, byChannel, pages, ids', byChannel');
  }

  lemma PassSkip(v: View, todo: set<Page>, p: Page, marked: map<Page, int>, ids: seq<int>, byChannel: map<Channel, Group>,
                 order: seq<Channel>, pages: map<Option<Channel>, seq<Page>>)
    requires Pass(v, todo, marked, ids, byChannel, order, pages) && p in todo && !v.Due(p)
    ensures Pass(v, todo - {p}, marked, ids, byChannel, order, pages)
  {
    hide Marked, Gathered, Indexed;
    SkipStep(v, todo, p, marked, ids, byChannel, pages);
  }

  /** The first pass. */
  method MarkDue(v: View)
    returns (marked: map<Page, int>, ids: seq<int>, byChannel: map<Channel, Group>, ghost order: seq<Channel>,
             ghost pages: map<Option<Channel>, seq<Page>>)
    requires v.Ok()
    ensures Marked(v, {}, marked, byChannel) && Gathered(v, {}, ids, byChannel, pages)
    ensures Indexed(byChannel, order) && |order| == |byChannel|
  {
    hide Marked, Gathered, Indexed;
    marked, ids, byChannel, order, pages := v.pending, [], map[], [], map[];
    var todo := v.pending.Keys;
    Start(v);
    while todo != {}
      invariant todo <= v.pending.Keys && Pass(v, todo, marked, ids, byChannel, order, pages)
      decreases todo
    {
      var p := Pick(todo);
      Untouched(v, todo, marked, byChannel, p);
      if marked[p] <= 0 && v.tills[p] <= v.now && p in v.items {
        var item := v.items[p];
        ghost var before, ids0, marked0, order0 := byChannel, ids, marked, order;
        if item.channel.Some? {
          byChannel, order := Join(byChannel, item.channel.value, item.id, order);
          marked := marked[p := -(byChannel[item.channel.value].index as int) - 2];
        } else {
          ids := ids + [item.id];
          marked := marked[p := -1];
        }
        PassStep(v, todo, p, marked0, ids0, before, order0, pages, ids, byChannel, order);
        pages := pages[item.channel := PagesFor(pages, item.channel) + [p]];
      } else {
        PassSkip(v, todo, p, marked, ids, byChannel, order, pages);
      }
      todo := todo - {p};
    }
  }

  // ---------------------------------------------------------------- the requests and the second pass

  /** Requests with consecutive ids from `first` on: `plain` if any messages, and one per channel. */
  ghost predicate RequestsSent(ids: seq<int>, byChannel: map<Channel, Group>, before: map<int, Sent>, lastId: int,
                               after: map<int, Sent>, plain: int, reqs: seq<int>, order: seq<Channel>)
  {
    && |reqs| == |order|
    && (if ids == [] then plain == 0 else plain > lastId && plain in after && after[plain] == Sent(None, ids))
    && (forall i :: 0 <= i < |order| ==> order[i] in byChannel && reqs[i] > lastId)
    && (forall i :: 0 <= i < |order| ==> reqs[i] in after && after[reqs[i]] == Sent(Some(order[i]), byChannel[order[i]].ids))
    && (forall id :: id in before ==> id in after && after[id] == before[id])
    && (forall id :: id in after && id !in before ==> id == plain || id in reqs)
  }

  /** The same with the channels in `todo` still to come. */
  ghost predicate Sending(byChannel: map<Channel, Group>, todo: set<Channel>, base: map<int, Sent>, lastId: int,
                          after: map<int, Sent>, reqs: seq<int>, order: seq<Channel>)
  {
    && |reqs| == |order|
    && (forall i :: 0 <= i < |order| && order[i] !in todo ==> order[i] in byChannel && reqs[i] > lastId)
    && (forall i :: 0 <= i < |order| && order[i] !in todo ==>
          reqs[i] in after && after[reqs[i]] == Sent(Some(order[i]), byChannel[order[i]].ids))
    && (forall i :: 0 <= i < |order| && order[i] in todo ==> reqs[i] !in after)
    && (forall id :: id in base ==> id in after && after[id] == base[id])
    && (forall id :: id in after && id !in base ==> id in reqs)
  }

  lemma SendStep(byChannel: map<Channel, Group>, todo: set<Channel>, base: map<int, Sent>, lastId: int,
                 after: map<int, Sent>, reqs: seq<int>, order: seq<Channel>, c: Channel, id: int)
    requires Indexed(byChannel, order) && Sending(byChannel, todo, base, lastId, after, reqs, order)
    requires c in todo && c in byChannel && id > lastId && id !in after && id > 0
    requires forall i :: i in after ==> 0 < i < id
    requires forall i :: 0 <= i < |order| && order[i] in todo ==> reqs[i] == 0
    ensures var reqs' := reqs[byChannel[c].index := id];
            && Sending(byChannel, todo - {c}, base, lastId, after[id := Sent(Some(c), byChannel[c].ids)], reqs', order)
            && forall i :: 0 <= i < |order| && order[i] in todo - {c} ==> reqs'[i] == 0
  {
    var at := byChannel[c].index;
    var reqs' := reqs[at := id];
    forall i | i in after && i !in base ensures i in reqs' {
      var k :| 0 <= k < |reqs| && reqs[k] == i;
      assert reqs'[k] == i;
    }
    assert reqs'[at] == id;
  }

  /** Replace one mark; -index-2 is undone exactly. */
  function Resolve(id: int, plain: int, reqs: seq<int>): int
    requires id < -1 ==> -id - 2 < |reqs|
  {
    if id >= 0 then id else if id == -1 then plain else reqs[-id - 2]
  }

  /** The second pass. */
  method Replace(marked: map<Page, int>, plain: int, reqs: seq<int>) returns (r: map<Page, int>)
    requires forall p :: p in marked && marked[p] < -1 ==> -marked[p] - 2 < |reqs|
    requires plain >= 0 && forall i :: 0 <= i < |reqs| ==> reqs[i] > 0
    ensures r.Keys == marked.Keys && forall p :: p in marked ==> r[p] == Resolve(marked[p], plain, reqs)
  {
    r := marked;
    var todo := marked.Keys;
    while todo != {}
      invariant todo <= marked.Keys == r.Keys
      invariant forall p :: p in marked ==> r[p] == if p in todo then marked[p] else Resolve(marked[p], plain, reqs)
      decreases todo
    {
      var p := Pick(todo);
      if r[p] > 0 {
      } else if r[p] < 0 {
        if r[p] == -1 {
          r := r[p := plain];
        } else {
          r := r[p := reqs[-r[p] - 2]];
        }
      }
      todo := todo - {p};
    }
  }

  /** Every due page ends with the request of its own channel, which asks for its own message; all other
      pages keep what they had. */
  ghost predicate Settled(v: View, result: map<Page, int>, lastId: int, inFlight: map<int, Sent>)
    requires v.Ok()
  {
    && result.Keys == v.pending.Keys
    && (forall p :: p in result && !v.Due(p) ==> result[p] == v.pending[p])
    && (forall p :: v.Due(p) ==> result[p] > lastId && result[p] in inFlight)
    && (forall p :: v.Due(p) ==> inFlight[result[p]].channel == v.items[p].channel && v.items[p].id in inFlight[result[p]].ids)
    && (forall p, q :: v.Due(p) && v.Due(q) && v.items[p].channel == v.items[q].channel ==> result[p] == result[q])
  }

  /** The mark of one due page resolves to the request that asks for its message. */
  lemma SettlesPage(v: View, ids: seq<int>, byChannel: map<Channel, Group>, order: seq<Channel>,
                    pages: map<Option<Channel>, seq<Page>>, before: map<int, Sent>, lastId: int, after: map<int, Sent>,
                    plain: int, reqs: seq<int>, p: Page)
    requires v.Ok() && v.Due(p) && Gathered(v, {}, ids, byChannel, pages) && Indexed(byChannel, order)
    requires RequestsSent(ids, byChannel, before, lastId, after, plain, reqs, order)
    requires v.items[p].channel.Some? ==> v.items[p].channel.value in byChannel
    ensures var mark := Mark(v.items[p], byChannel);
            && (mark < -1 ==> -mark - 2 < |reqs|)
            && (var id := Resolve(mark, plain, reqs);
                id > lastId && id in after && after[id].channel == v.items[p].channel && v.items[p].id in after[id].ids)
  {
    var item := v.items[p];
    assert Visited(v, {}, p);
    var list := PagesFor(pages, item.channel);
    assert Gathers(v, {}, item.channel, list, IdsFor(ids, byChannel, item.channel));
    var k :| 0 <= k < |list| && list[k] == p;
    assert IdsFor(ids, byChannel, item.channel)[k] == item.id;
  }

  lemma Settles(v: View, marked: map<Page, int>, ids: seq<int>, byChannel: map<Channel, Group>, order: seq<Channel>,
                pages: map<Option<Channel>, seq<Page>>, before: map<int, Sent>, lastId: int, after: map<int, Sent>,
                plain: int, reqs: seq<int>, result: map<Page, int>)
    requires v.Ok() && Marked(v, {}, marked, byChannel) && Gathered(v, {}, ids, byChannel, pages) && Indexed(byChannel, order)
    requires RequestsSent(ids, byChannel, before, lastId, after, plain, reqs, order)
    requires result.Keys == marked.Keys && forall p :: p in marked && marked[p] < -1 ==> -marked[p] - 2 < |reqs|
    requires forall p :: p in marked ==> result[p] == Resolve(marked[p], plain, reqs)
    ensures Settled(v, result, lastId, after)
  {
    hide Gathered, Indexed, RequestsSent, Mark;
    forall p | v.Due(p)
      ensures p in marked && v.items[p].channel.Some? ==> v.items[p].channel.value in byChannel
      ensures p in marked && marked[p] == Mark(v.items[p], byChannel)
      ensures p in result && result[p] > lastId && result[p] in after && after[result[p]].channel == v.items[p].channel
      ensures p in result && result[p] in after && v.items[p].id in after[result[p]].ids
    {
      assert Visited(v, {}, p);
      SettlesPage(v, ids, byChannel, order, pages, before, lastId, after, plain, reqs, p);
    }
    assert forall p, q :: v.Due(p) && v.Due(q) && v.items[p].channel == v.items[q].channel ==> marked[p] == marked[q] by {
      forall p, q | v.Due(p) && v.Due(q) && v.items[p].channel == v.items[q].channel ensures marked[p] == marked[q] {
        SameMark(v.items[p], v.items[q], byChannel);
      }
    }
  }

  lemma SameMark(a: Item, b: Item, byChannel: map<Channel, Group>)
    requires a.channel == b.channel && (a.channel.Some? ==> a.channel.value in byChannel)
    ensures Mark(a, byChannel) == Mark(b, byChannel)
  {
  }

  /** Each new request asks for the messages of exactly the due pages of one channel, once per page. */
  ghost predicate NothingElseAsked(v: View, before: map<int, Sent>, after: map<int, Sent>, pages: map<Option<Channel>, seq<Page>>)
    requires v.Ok()
  {
    forall id :: id in after && id !in before ==>
      Gathers(v, {}, after[id].channel, PagesFor(pages, after[id].channel), after[id].ids)
  }

  lemma OnlyDueAsked(v: View, ids: seq<int>, byChannel: map<Channel, Group>, order: seq<Channel>,
                     pages: map<Option<Channel>, seq<Page>>, before: map<int, Sent>, lastId: int, after: map<int, Sent>,
                     plain: int, reqs: seq<int>)
    requires v.Ok() && Gathered(v, {}, ids, byChannel, pages)
    requires RequestsSent(ids, byChannel, before, lastId, after, plain, reqs, order) && 0 !in after
    ensures NothingElseAsked(v, before, after, pages)
  {
    forall id | id in after && id !in before
      ensures Gathers(v, {}, after[id].channel, PagesFor(pages, after[id].channel), after[id].ids)
    {
      var ch := after[id].channel;
      assert Gathers(v, {}, ch, PagesFor(pages, ch), IdsFor(ids, byChannel, ch));
      if id != plain {
        var i :| 0 <= i < |reqs| && reqs[i] == id;
      }
    }
  }

  lemma IndexInRange(byChannel: map<Channel, Group>, order: seq<Channel>, c: Channel)
    requires Indexed(byChannel, order) && c in byChannel
    ensures byChannel[c].index < |order|
  {
  }

  lemma NothingSentYet(byChannel: map<Channel, Group>, base: map<int, Sent>, lastId: int, reqs: seq<int>, order: seq<Channel>)
    requires Indexed(byChannel, order) && |reqs| == |order| && forall id :: id in base ==> id > 0
    requires forall i :: 0 <= i < |reqs| ==> reqs[i] == 0
    ensures Sending(byChannel, byChannel.Keys, base, lastId, base, reqs, order)
  {
  }

  lemma AllSent(ids: seq<int>, byChannel: map<Channel, Group>, before: map<int, Sent>, lastId: int, base: map<int, Sent>,
                from: int, after: map<int, Sent>, plain: int, reqs: seq<int>, order: seq<Channel>)
    requires Sending(byChannel, {}, base, from, after, reqs, order) && lastId >= 0
    requires if ids == [] then base == before && plain == 0 && from == lastId
             else plain == lastId + 1 && base == before[plain := Sent(None, ids)] && from == plain && plain !in before
    ensures RequestsSent(ids, byChannel, before, lastId, after, plain, reqs, order)
    ensures forall i :: 0 <= i < |reqs| ==> reqs[i] > 0
  {
  }

  lemma SettledRange(v: View, result: map<Page, int>, lastId: int, inFlight: map<int, Sent>, last: int)
    requires v.Ok() && Settled(v, result, lastId, inFlight) && lastId >= 0
    requires forall p :: p in v.pending ==> v.pending[p] <= last
    requires forall id :: id in inFlight ==> id <= last
    ensures result.Keys == v.pending.Keys && forall p :: p in result ==> 0 <= result[p] <= last
  {
    forall p | p in result ensures 0 <= result[p] <= last {
      if !v.Due(p) { assert result[p] == v.pending[p]; }
    }
  }

  /** The two passes in the fields themselves: a due page gets a new request, for its channel and with its message;
      the others keep what they had, and a new request asks for messages of due pages only. */
  lemma ResolvedMeans(v: View, result: map<Page, int>, lastId: int, before: map<int, Sent>, after: map<int, Sent>,
                      pages: map<Option<Channel>, seq<Page>>)
    requires v.Ok() && Settled(v, result, lastId, after) && NothingElseAsked(v, before, after, pages)
    ensures forall p :: p in result <==> p in v.pending
    ensures forall p :: p in result && !(v.pending[p] <= 0 && v.tills[p] <= v.now && p in v.items) ==> result[p] == v.pending[p]
    ensures forall p :: p in v.pending && v.pending[p] <= 0 && v.tills[p] <= v.now && p in v.items ==>
              && p in result && result[p] > lastId && result[p] in after
              && after[result[p]].channel == v.items[p].channel && v.items[p].id in after[result[p]].ids
    ensures forall id, m :: id in after && id !in before && m in after[id].ids ==>
              exists p :: p in v.pending && v.pending[p] <= 0 && v.tills[p] <= v.now && p in v.items &&
                          v.items[p] == Item(after[id].channel, m)
  {
    assert forall p :: p in v.pending && v.pending[p] <= 0 && v.tills[p] <= v.now && p in v.items <==> v.Due(p);
    forall id, m | id in after && id !in before && m in after[id].ids
      ensures exists p :: p in v.pending && v.pending[p] <= 0 && v.tills[p] <= v.now && p in v.items &&
                          v.items[p] == Item(after[id].channel, m)
    {
      AskedForDue(v, after[id].channel, PagesFor(pages, after[id].channel), after[id].ids, m);
    }
  }

  lemma AskedForDue(v: View, ch: Option<Channel>, list: seq<Page>, ids: seq<int>, m: int)
    requires v.Ok() && Gathers(v, {}, ch, list, ids) && m in ids
    ensures exists p :: p in v.pending && v.pending[p] <= 0 && v.tills[p] <= v.now && p in v.items && v.items[p] == Item(ch, m)
  {
    var k :| 0 <= k < |ids| && ids[k] == m;
    assert list[k] in list && Visited(v, {}, list[k]);
    assert list[k] in v.pending;
  }

  // ---------------------------------------------------------------- what a received page changes

  datatype Id = Id(value: int)

  /** The pending pages, `pendingTill` of the known pages, and the failed ones. */
  datatype Local = Local(pending: map<Page, int>, tills: map<Page, int>, failed: set<Page>)

  /** One web page in an answer: an empty one, or one whose fields `applyChanges` applied or ignored. */
  datatype Change = Emptied(page: Page) | Filled(page: Page, till: int, applied: bool)

  function Till(tills: map<Page, int>, page: Page): int { if page in tills then tills[page] else 0 }

  /** `requestWebPageDelayed`, without its timer. */
  function Delayed(l: Local, page: Page): Local {
    if page in l.failed || Till(l.tills, page) == 0 || page in l.pending then l else l.(pending := l.pending[page := 0])
  }

  /** `processWebpage`. */
  function AfterChange(l: Local, c: Change): Local {
    match c
    case Emptied(page) =>
      if Till(l.tills, page) > 0 then l.(tills := l.tills[page := 0], failed := l.failed + {page}) else l
    case Filled(page, till, applied) =>
      var was := Till(l.tills, page);
      var r := if applied then Local(if was > 0 && till <= 0 then l.pending - {page} else l.pending,
                                     l.tills[page := till], l.failed)
               else l;
      if was == 0 && till > 0 then Delayed(r, page) else r
  }

  /** What one page of an answer changes, for every page.  An empty page that was waited for has failed.  A page that
      is there now, or not due later, is no longer waited for; one that is due later for the first time is. */
  lemma ChangeMeans(l: Local, page: Page, till: int, applied: bool, q: Page)
    ensures var was := if page in l.tills then l.tills[page] else 0;
            var r := AfterChange(l, Emptied(page));
            r == if was > 0 then Local(l.pending, l.tills[page := 0], l.failed + {page}) else l
    ensures var was := if page in l.tills then l.tills[page] else 0;
            var r := AfterChange(l, Filled(page, till, applied));
            && r.failed == l.failed && r.tills == (if applied then l.tills[page := till] else l.tills)
            && (q != page ==> (q in r.pending <==> q in l.pending) && (q in r.pending ==> r.pending[q] == l.pending[q]))
            && (applied && was > 0 && till <= 0 ==> page !in r.pending)
            && (applied && was == 0 && till > 0 && page !in l.failed && page !in l.pending ==>
                  page in r.pending && r.pending[page] == 0)
            && (!applied || was < 0 || (was > 0 && till > 0) || (was == 0 && (till <= 0 || page in l.failed || page in l.pending))
                ==>
                  r.pending == l.pending)
  {
  }

  /** `requestWebPageDelayed`: a page that has not failed, has a time, and is not waited for yet enters without a request. */
  lemma DelayedMeans(l: Local, page: Page)
    ensures var due := page !in l.failed && page in l.tills && l.tills[page] != 0 && page !in l.pending;
            Delayed(l, page) == Local(if due then l.pending[page := 0] else l.pending, l.tills, l.failed)
  {
  }

  /** The pages of an answer are taken one after the other. */
  lemma ChangesInOrder(l: Local, changes: seq<Change>, c: Change)
    ensures AfterChanges(l, []) == l && AfterChanges(l, changes + [c]) == AfterChange(AfterChanges(l, changes), c)
  {
    hide AfterChange;
    assert (changes + [c])[..|changes|] == changes;
  }

  function AfterChanges(l: Local, changes: seq<Change>): Local {
    if changes == [] then l else AfterChange(AfterChanges(l, changes[..|changes| - 1]), changes[|changes| - 1])
  }

  /** The change ends the wait of this page. */
  predicate Ends(c: Change, page: Page) { c.Filled? && c.page == page && c.applied && c.till <= 0 }

  /** Changes only drop pages whose wait they end, and only add pages without a request. */
  lemma {:induction false} ChangesKeepIds(l: Local, changes: seq<Change>, p: Page)
    ensures var r := AfterChanges(l, changes);
            && (p in r.pending ==> r.pending[p] == 0 || (p in l.pending && r.pending[p] == l.pending[p]))
            && (p in l.pending && (forall k :: 0 <= k < |changes| ==> !Ends(changes[k], p)) ==>
                  p in r.pending && r.pending[p] == l.pending[p])
  {
    if changes != [] {
      ChangesKeepIds(l, changes[..|changes| - 1], p);
    }
  }

  lemma ChangeKeeps(l: Local, c: Change)
    requires l.pending.Keys <= l.tills.Keys
    ensures var r := AfterChange(l, c);
            && r.pending.Keys <= r.tills.Keys
            && (forall p :: p in r.pending ==> r.pending[p] == 0 || (p in l.pending && r.pending[p] == l.pending[p]))
            && (forall p :: p in l.pending && !Ends(c, p) ==> p in r.pending && r.pending[p] == l.pending[p])
  {
  }

  lemma {:induction false} ChangesKeepKnown(l: Local, changes: seq<Change>)
    requires l.pending.Keys <= l.tills.Keys
    ensures AfterChanges(l, changes).pending.Keys <= AfterChanges(l, changes).tills.Keys
  {
    if changes != [] {
      ChangesKeepKnown(l, changes[..|changes| - 1]);
    }
  }

  // ---------------------------------------------------------------- the requests of the pending pages

  /** Every positive id belongs to a request in flight, for the channel of the page's own message and with that
      message, unless this request was lost. */
  ghost predicate Tied(pending: map<Page, int>, asked: map<Page, Item>, inFlight: map<int, Sent>, lost: set<Id>) {
    && (forall p :: p in pending && pending[p] > 0 && Id(pending[p]) !in lost ==> p in asked && Asks(pending[p], asked[p], inFlight))
    && (forall id :: id in lost ==> id.value !in inFlight)
  }

  ghost predicate Asks(id: int, item: Item, inFlight: map<int, Sent>) {
    id in inFlight && inFlight[id].channel == item.channel && item.id in inFlight[id].ids
  }

  lemma SettledTied(v: View, asked: map<Page, Item>, before: map<int, Sent>, lost: set<Id>, lastId: int,
                    result: map<Page, int>, after: map<int, Sent>, asked': map<Page, Item>)
    requires v.Ok() && Settled(v, result, lastId, after) && Tied(v.pending, asked, before, lost)
    requires forall id :: id in before ==> id in after && after[id] == before[id]
    requires forall id :: id in after && id !in before ==> id > lastId
    requires forall id :: id in lost ==> id.value <= lastId
    requires forall p :: p in v.pending ==> p in asked' || p !in asked
    requires forall p :: p in v.pending && v.Due(p) ==> p in asked' && asked'[p] == v.items[p]
    requires forall p :: p in v.pending && !v.Due(p) && p in asked ==> p in asked' && asked'[p] == asked[p]
    ensures Tied(result, asked', after, lost)
  {
    forall p | p in result && result[p] > 0 && Id(result[p]) !in lost ensures p in asked' && Asks(result[p], asked'[p], after) {
      if !v.Due(p) {
        assert Asks(v.pending[p], asked[p], before);
      }
    }
    forall id | id in lost ensures id.value !in after {
      assert id.value !in before && id.value <= lastId;
    }
  }

  lemma GotTied(l: Local, changes: seq<Change>, id: int, asked: map<Page, Item>, inFlight: map<int, Sent>, lost: set<Id>,
                pending: map<Page, int>)
    requires Tied(l.pending, asked, inFlight, lost)
    requires forall p :: p in pending ==>
               p in AfterChanges(l, changes).pending && pending[p] == AfterChanges(l, changes).pending[p] && pending[p] != id
    ensures Tied(pending, asked, inFlight - {id}, lost)
  {
    forall p | p in pending && pending[p] > 0 && Id(pending[p]) !in lost
      ensures p in asked && Asks(pending[p], asked[p], inFlight - {id})
    {
      ChangesKeepIds(l, changes, p);
      assert Asks(pending[p], asked[p], inFlight);
    }
  }

  lemma LostTied(pending: map<Page, int>, asked: map<Page, Item>, inFlight: map<int, Sent>, lost: set<Id>, id: int)
    requires Tied(pending, asked, inFlight, lost)
    ensures Tied(pending, asked, inFlight - {id}, lost + {Id(id)})
  {
    forall p | p in pending && pending[p] > 0 && Id(pending[p]) !in lost + {Id(id)}
      ensures p in asked && Asks(pending[p], asked[p], inFlight - {id})
    {
      assert Asks(pending[p], asked[p], inFlight);
    }
  }

  lemma FewerTied(pending: map<Page, int>, asked: map<Page, Item>, inFlight: map<int, Sent>, lost: set<Id>, now: map<Page, int>)
    requires Tied(pending, asked, inFlight, lost)
    requires forall p :: p in now && now[p] > 0 ==> p in pending && pending[p] == now[p]
    ensures Tied(now, asked, inFlight, lost)
  {
  }

  /** With the request not lost the page's id is in flight; with the request lost it is not. */
  lemma InFlightUnlessLost(pending: map<Page, int>, asked: map<Page, Item>, inFlight: map<int, Sent>, lost: set<Id>, p: Page)
    requires Tied(pending, asked, inFlight, lost) && p in pending && pending[p] > 0
    ensures pending[p] in inFlight <==> Id(pending[p]) !in lost
    ensures pending[p] in inFlight ==> p in asked && Asks(pending[p], asked[p], inFlight)
  {
    assert Id(pending[p]) in lost ==> Id(pending[p]).value !in inFlight;
  }

  class WebPageRequests {
    var pending: map<Page, int>
    var tills: map<Page, int>             // page->pendingTill
    var failed: set<Page>                 // page->failed

    var inFlight: map<int, Sent>
    var lastId: int
    ghost var asked: map<Page, Item>      // the message a page was last asked with
    ghost var lost: set<Id>               // requests that failed

    ghost function Here(): Local
      reads `pending, `tills, `failed
    {
      Local(pending, tills, failed)
    }

    ghost predicate Valid()
      reads this
    {
      && pending.Keys <= tills.Keys
      && (forall p :: p in pending ==> 0 <= pending[p] <= lastId)
      && lastId >= 0 && (forall id :: id in inFlight ==> 0 < id <= lastId) && (forall id :: id in lost ==> id.value <= lastId)
      && Tied(pending, asked, inFlight, lost)
    }

    /** The page waits for a request that failed. */
    ghost predicate Lost(p: Page)
      reads `pending, `lost
    {
      p in pending && pending[p] > 0 && Id(pending[p]) in lost
    }

    constructor (tills: map<Page, int>)
      ensures Valid() && pending == map[] && inFlight == map[] && this.tills == tills && lost == {} && failed == {}
    {
      pending, failed, inFlight, lastId, asked, lost := map[], {}, map[], 0, map[], {};
      this.tills := tills;
    }

    /** `requestWebPageDelayed`, without its timer. */
    method RequestDelayed(page: Page)
      modifies `pending
      ensures Here() == Delayed(old(Here()), page)
    {
      if page in failed || Till(tills, page) == 0 {
        return;
      }
      if page !in pending {
        pending := pending[page := 0];
      }
    }

    /** `clearWebPageRequest`, without its timer. */
    method ClearRequest(page: Page)
      modifies `pending
      ensures pending == old(pending) - {page}
    {
      pending := pending - {page};
    }

    /** Send the requests: the plain one first, then one per channel in any order. */
    method SendAll(ids: seq<int>, byChannel: map<Channel, Group>, ghost order: seq<Channel>)
      returns (plain: int, reqs: seq<int>)
      requires Indexed(byChannel, order) && |order| == |byChannel|
      requires lastId >= 0 && forall id :: id in inFlight ==> 0 < id <= lastId
      modifies `inFlight, `lastId
      ensures RequestsSent(ids, byChannel, old(inFlight), old(lastId), inFlight, plain, reqs, order)
      ensures lastId >= old(lastId) && |reqs| == |order| && plain >= 0 && forall i :: 0 <= i < |reqs| ==> reqs[i] > 0
      ensures forall id :: id in inFlight ==> 0 < id <= lastId
      ensures forall id :: id in old(inFlight) ==> id in inFlight && inFlight[id] == old(inFlight)[id]
      ensures forall id :: id in inFlight && id !in old(inFlight) ==> id > old(lastId)
      ensures ids == [] ==> plain == 0
      ensures ids != [] ==> plain != 0
    {
      hide Indexed, Sending;
      plain := 0;
      if ids != [] {
        lastId := lastId + 1;
        inFlight := inFlight[lastId := Sent(None, ids)];
        plain := lastId;
      }
      ghost var base, from := inFlight, lastId;
      reqs := seq(|byChannel|, _ => 0);
      var todo := byChannel.Keys;
      NothingSentYet(byChannel, base, from, reqs, order);
      while todo != {}
        invariant todo <= byChannel.Keys && lastId >= from && |reqs| == |order|
        invariant forall id :: id in inFlight ==> 0 < id <= lastId
        invariant forall id :: id in inFlight && id !in old(inFlight) ==> id > old(lastId)
        invariant Sending(byChannel, todo, base, from, inFlight, reqs, order)
        invariant forall i :: 0 <= i < |order| && order[i] in todo ==> reqs[i] == 0
        decreases todo
      {
        var c := Pick(todo);
        SendStep(byChannel, todo, base, from, inFlight, reqs, order, c, lastId + 1);
        IndexInRange(byChannel, order, c);
        lastId := lastId + 1;
        inFlight := inFlight[lastId := Sent(Some(c), byChannel[c].ids)];
        reqs := reqs[byChannel[c].index := lastId];
        todo := todo - {c};
      }
      AllSent(ids, byChannel, old(inFlight), old(lastId), base, from, inFlight, plain, reqs, order);
    }

    /** `resolveWebPages`. */
    method ResolveWebPages(items: map<Page, Item>, now: int) returns (ghost pages: map<Option<Channel>, seq<Page>>)
      requires Valid()
      modifies `pending, `inFlight, `lastId, `asked
      ensures Valid()
      ensures var v := View(old(pending), tills, items, now);
              Settled(v, pending, old(lastId), inFlight) && NothingElseAsked(v, old(inFlight), inFlight, pages)
      ensures forall p :: p in pending <==> p in old(pending)
      ensures forall p :: p in pending && !(old(pending)[p] <= 0 && tills[p] <= now && p in items) ==> pending[p] == old(pending)[p]
      ensures forall p :: p in old(pending) && old(pending)[p] <= 0 && tills[p] <= now && p in items ==>
                && p in pending && pending[p] > old(lastId) && pending[p] in inFlight
                && inFlight[pending[p]].channel == items[p].channel && items[p].id in inFlight[pending[p]].ids
      ensures forall id, m :: id in inFlight && id !in old(inFlight) && m in inFlight[id].ids ==>
                exists p :: p in old(pending) && old(pending)[p] <= 0 && tills[p] <= now && p in items &&
                            items[p] == Item(inFlight[id].channel, m)
      ensures forall id :: id in old(inFlight) ==> id in inFlight && inFlight[id] == old(inFlight)[id]
      ensures forall p :: old(Lost(p)) ==> Lost(p) && pending[p] == old(pending)[p]
    {
      hide Settled, NothingElseAsked, Tied;
      var v := View(pending, tills, items, now);
      pages := BothPasses(v);
      ResolvedMeans(v, pending, old(lastId), old(inFlight), inFlight, pages);
      asked := map p | p in pending && (v.Due(p) || p in asked) :: if v.Due(p) then items[p] else asked[p];
      SettledTied(v, old(asked), old(inFlight), lost, old(lastId), pending, inFlight, asked);
      SettledKeeps(v, pending, old(lastId), inFlight);
    }

    /** The two passes over the pending pages, and the requests between them. */
    method BothPasses(v: View) returns (ghost pages: map<Option<Channel>, seq<Page>>)
      requires v.Ok() && v.pending == pending && lastId >= 0
      requires (forall p :: p in pending ==> pending[p] <= lastId) && forall id :: id in inFlight ==> 0 < id <= lastId
      modifies `pending, `inFlight, `lastId
      ensures Settled(v, pending, old(lastId), inFlight) && NothingElseAsked(v, old(inFlight), inFlight, pages)
      ensures lastId >= old(lastId) && pending.Keys == old(pending).Keys && forall p :: p in pending ==> 0 <= pending[p] <= lastId
      ensures forall id :: id in inFlight ==> 0 < id <= lastId
      ensures forall id :: id in old(inFlight) ==> id in inFlight && inFlight[id] == old(inFlight)[id]
      ensures forall id :: id in inFlight && id !in old(inFlight) ==> id > old(lastId)
    {
      hide Marked, Gathered, Settled, NothingElseAsked, Indexed, RequestsSent, Resolve;
      ghost var order;
      var marked, ids, byChannel;
      marked, ids, byChannel, order, pages := MarkDue(v);
      MarksInRange(v, marked, byChannel, order);
      var plain, reqs := SendAll(ids, byChannel, order);
      pending := marked;
      if plain != 0 || reqs != [] {
        pending := Replace(marked, plain, reqs);
      } else {
        NoMarks(v, marked, ids, byChannel, order, pages);
        Unmarked(marked, plain, reqs);
      }
      Settles(v, marked, ids, byChannel, order, pages, old(inFlight), old(lastId), inFlight, plain, reqs, pending);
      OnlyDueAsked(v, ids, byChannel, order, pages, old(inFlight), old(lastId), inFlight, plain, reqs);
      SettledRange(v, pending, old(lastId), inFlight, lastId);
    }

    /** `processWebpage` and what it calls, for one page of an answer. */
    method ApplyChange(c: Change)
      modifies `pending, `tills, `failed
      ensures Here() == AfterChange(old(Here()), c)
    {
      match c {
        case Emptied(page) =>
          if Till(tills, page) > 0 {
            tills := tills[page := 0];
            failed := failed + {page};
          }
        case Filled(page, till, applied) =>
          var requestPending := Till(tills, page) == 0 && till > 0;
          if applied {
            if Till(tills, page) > 0 && till <= 0 {
              ClearRequest(page);
            }
            tills := tills[page := till];
          }
          if requestPending {
            RequestDelayed(page);
          }
      }
    }

    /** `gotWebPages`: the answer is applied; then exactly the pages of this request leave, marked failed when
        they were still waiting. */
    method GotWebPages(id: int, changes: seq<Change>)
      requires Valid() && id in inFlight
      modifies `pending, `tills, `failed, `inFlight
      ensures Valid() && inFlight == old(inFlight) - {id}
      ensures Erased(AfterChanges(old(Here()), changes), id, Here())
      ensures forall p :: old(Lost(p)) && (forall k :: 0 <= k < |changes| ==> !Ends(changes[k], p)) ==>
                Lost(p) && pending[p] == old(pending)[p]
    {
      hide Tied, Erased, Ends, AfterChange;
      inFlight := inFlight - {id};
      for i := 0 to |changes|
        invariant Here() == AfterChanges(old(Here()), changes[..i]) && inFlight == old(inFlight) - {id}
      {
        assert changes[..i + 1][..i] == changes[..i];
        ApplyChange(changes[i]);
      }
      assert changes[..|changes|] == changes;
      EraseGot(id);
      ChangesKeepKnown(old(Here()), changes);
      ErasedSubset(AfterChanges(old(Here()), changes), id, Here());
      GotKeepsRange(old(Here()), changes, id, Here(), lastId);
      GotTied(old(Here()), changes, id, asked, old(inFlight), lost, pending);
      NotLostYet(old(pending), asked, old(inFlight), lost, id);
      GotKeepsLost(old(Here()), changes, id, lost, Here());
    }

    /** The erasing loop. */
    method EraseGot(id: int)
      modifies `pending, `tills, `failed
      ensures Erased(old(Here()), id, Here())
    {
      var todo := pending.Keys;
      while todo != {}
        invariant todo <= old(pending).Keys
        invariant forall p :: p in pending <==> p in old(pending) && (p in todo || old(pending)[p] != id)
        invariant forall p :: p in pending ==> pending[p] == old(pending)[p]
        invariant forall p :: Till(tills, p) ==
                    if p in old(pending) && p !in todo && old(pending)[p] == id && Till(old(tills), p) > 0 then 0
                    else Till(old(tills), p)
        invariant tills.Keys == old(tills).Keys
        invariant forall p :: p in failed <==>
                    p in old(failed) || (p in old(pending) && p !in todo && old(pending)[p] == id && Till(old(tills), p) > 0)
        decreases todo
      {
        var p := Pick(todo);
        if pending[p] == id {
          if Till(tills, p) > 0 {
            tills := tills[p := 0];
            failed := failed + {p};
          }
          pending := pending - {p};
        }
        todo := todo - {p};
      }
    }

    /** There is no fail handler: the pages of a failed request keep its id. */
    method Failed(id: int)
      requires Valid() && id in inFlight
      modifies `inFlight, `lost
      ensures Valid() && inFlight == old(inFlight) - {id} && lost == old(lost) + {Id(id)}
      ensures forall p :: p in pending && pending[p] == id ==> Lost(p)
    {
      hide Tied;
      LostTied(pending, asked, inFlight, lost, id);
      inFlight := inFlight - {id};
      lost := lost + {Id(id)};
    }

    /** One event.  A reply to a request that is not in flight does not occur, so it is skipped. */
    method Step(e: Event)
      requires Valid()
      modifies this
      ensures Valid()
      ensures forall p :: old(Lost(p)) && !Frees(e, p) ==> Lost(p) && pending[p] == old(pending)[p]
      ensures lost == old(lost) + if e.Fails? && e.id in old(inFlight) then {Id(e.id)} else {}
      ensures Moves(e, old(Here()), Here())
    {
      hide Tied, Erased, AfterChanges, AfterChange, Ends;
      match e
      case Delays(page) =>
        RequestDelayed(page);
        FewerTied(old(pending), asked, inFlight, lost, pending);
      case Clears(page) =>
        ClearRequest(page);
        FewerTied(old(pending), asked, inFlight, lost, pending);
      case Updates(change) =>
        ApplyChange(change);
        ChangeKeeps(old(Here()), change);
        FewerTied(old(pending), asked, inFlight, lost, pending);
      case Resolves(items, now) => ghost var pages := ResolveWebPages(items, now);
      case Got(id, changes) => if id in inFlight { GotWebPages(id, changes); }
      case Fails(id) => if id in inFlight { Failed(id); }
    }
  }

  datatype Event =
    | Delays(page: Page)
    | Clears(page: Page)
    | Updates(change: Change)                            // a web page received in an update
    | Resolves(items: map<Page, Item>, now: int)
    | Got(id: int, changes: seq<Change>)
    | Fails(id: int)

  /** What an event does to the pages: delaying, clearing and answers as specified; a resolve changes ids only. */
  ghost predicate Moves(e: Event, l: Local, r: Local) {
    match e
    case Delays(page) => r == Delayed(l, page)
    case Updates(change) => r == AfterChange(l, change)
    case Clears(page) => r == l.(pending := l.pending - {page})
    case Resolves(_, _) => r.pending.Keys == l.pending.Keys && r.tills == l.tills && r.failed == l.failed
    case Got(id, changes) => r == l || Erased(AfterChanges(l, changes), id, r)
    case Fails(_) => r == l
  }

  /** The event takes the page out of the pending ones from outside. */
  predicate Frees(e: Event, p: Page) {
    match e
    case Clears(page) => page == p
    case Updates(change) => Ends(change, p)
    case Got(_, changes) => exists k :: 0 <= k < |changes| && Ends(changes[k], p)
    case _ => false
  }

  /** A lost page stays lost whatever happens, until an event takes it out: no resolve asks for it again. */
  method LostForever(w: WebPageRequests, events: seq<Event>)
    requires w.Valid()
    modifies w
    ensures w.Valid()
    ensures forall p :: old(w.Lost(p)) && (forall k :: 0 <= k < |events| ==> !Frees(events[k], p)) ==>
              w.Lost(p) && w.pending[p] == old(w.pending)[p]
  {
    hide Tied, Frees;
    for i := 0 to |events|
      invariant w.Valid()
      invariant forall p :: old(w.Lost(p)) && (forall k :: 0 <= k < i ==> !Frees(events[k], p)) ==>
                  w.Lost(p) && w.pending[p] == old(w.pending)[p]
    {
      w.Step(events[i]);
    }
  }

  /** Any sequence of events, with the pages after each: a positive id is in flight, with the page's own message,
      exactly when its request did not fail; and a request is lost only by failing. */
  method Run(tills: map<Page, int>, events: seq<Event>) returns (w: WebPageRequests, ghost trace: seq<Local>)
    ensures w.Valid()
    ensures |trace| == |events| + 1 && trace[0] == Local(map[], tills, {}) && trace[|events|] == w.Here()
    ensures forall k :: 0 <= k < |events| ==> Moves(events[k], trace[k], trace[k + 1])
    ensures forall p :: p in w.pending && w.pending[p] > 0 ==>
              (w.pending[p] in w.inFlight <==> Id(w.pending[p]) !in w.lost)
              && (w.pending[p] in w.inFlight ==> p in w.asked && Asks(w.pending[p], w.asked[p], w.inFlight))
    ensures forall id :: id in w.lost ==> Fails(id.value) in events
  {
    hide Tied, Moves;
    w := new WebPageRequests(tills);
    trace := [w.Here()];
    for i := 0 to |events|
      invariant fresh(w) && w.Valid() && forall id :: id in w.lost ==> Fails(id.value) in events[..i]
      invariant |trace| == i + 1 && trace[0] == Local(map[], tills, {}) && trace[i] == w.Here()
      invariant forall k :: 0 <= k < i ==> Moves(events[k], trace[k], trace[k + 1])
    {
      assert events[..i + 1] == events[..i] + [events[i]];
      w.Step(events[i]);
      trace := trace + [w.Here()];
    }
    assert events[..|events|] == events;
    forall p | p in w.pending && w.pending[p] > 0
      ensures w.pending[p] in w.inFlight <==> Id(w.pending[p]) !in w.lost
      ensures w.pending[p] in w.inFlight ==> p in w.asked && Asks(w.pending[p], w.asked[p], w.inFlight)
    {
      InFlightUnlessLost(w.pending, w.asked, w.inFlight, w.lost, p);
    }
  }

  /** It happens: after a failure a page waits for a request that is not in flight. */
  method PageIsLost() returns (w: WebPageRequests)
    ensures w.Valid() && w.Lost(Page(1)) && w.pending[Page(1)] !in w.inFlight
  {
    hide Tied;
    var page, item := Page(1), Item(None, 5);
    w := new WebPageRequests(map[page := 1]);
    w.RequestDelayed(page);
    FewerTied(map[], w.asked, w.inFlight, w.lost, w.pending);
    ghost var v := View(w.pending, w.tills, map[page := item], 1);
    ghost var pages := w.ResolveWebPages(map[page := item], 1);
    assert v.Due(page);
    w.Failed(w.pending[page]);
  }

  /** The erasing loop of `gotWebPages`. */
  ghost predicate Erased(l: Local, id: int, r: Local) {
    && (forall p :: p in r.pending <==> p in l.pending && l.pending[p] != id)
    && (forall p :: p in r.pending ==> r.pending[p] == l.pending[p])
    && r.tills.Keys == l.tills.Keys
    && (forall p :: Till(r.tills, p) == if p in l.pending && l.pending[p] == id && Till(l.tills, p) > 0 then 0 else Till(l.tills, p))
    && (forall p :: p in r.failed <==> p in l.failed || (p in l.pending && l.pending[p] == id && Till(l.tills, p) > 0))
  }

  lemma ErasedSubset(l: Local, id: int, r: Local)
    requires Erased(l, id, r) && l.pending.Keys <= l.tills.Keys
    ensures r.pending.Keys <= r.tills.Keys
    ensures forall p :: p in r.pending ==> p in l.pending && r.pending[p] == l.pending[p] && r.pending[p] != id
  {
  }

  lemma GotKeepsRange(l: Local, changes: seq<Change>, id: int, r: Local, last: int)
    requires Erased(AfterChanges(l, changes), id, r) && (forall p :: p in l.pending ==> 0 <= l.pending[p] <= last) && last >= 0
    ensures forall p :: p in r.pending ==> 0 <= r.pending[p] <= last
  {
    forall p | p in r.pending ensures 0 <= r.pending[p] <= last {
      ChangesKeepIds(l, changes, p);
    }
  }

  lemma GotKeepsLost(l: Local, changes: seq<Change>, id: int, lost: set<Id>, r: Local)
    requires Erased(AfterChanges(l, changes), id, r) && Id(id) !in lost
    ensures forall p :: p in l.pending && Id(l.pending[p]) in lost && (forall k :: 0 <= k < |changes| ==> !Ends(changes[k], p)) ==>
              p in r.pending && r.pending[p] == l.pending[p]
  {
    forall p | p in l.pending && Id(l.pending[p]) in lost && forall k :: 0 <= k < |changes| ==> !Ends(changes[k], p)
      ensures p in r.pending && r.pending[p] == l.pending[p]
    {
      ChangesKeepIds(l, changes, p);
    }
  }

  lemma NotLostYet(pending: map<Page, int>, asked: map<Page, Item>, inFlight: map<int, Sent>, lost: set<Id>, id: int)
    requires Tied(pending, asked, inFlight, lost) && id in inFlight
    ensures Id(id) !in lost
  {
    assert Id(id).value == id;
  }

  lemma SettledKeeps(v: View, result: map<Page, int>, lastId: int, inFlight: map<int, Sent>)
    requires v.Ok() && Settled(v, result, lastId, inFlight)
    ensures forall p :: p in v.pending && v.pending[p] > 0 ==> p in result && result[p] == v.pending[p]
  {
    assert forall p :: p in v.pending && v.pending[p] > 0 ==> !v.Due(p);
  }

  lemma MarksInRange(v: View, marked: map<Page, int>, byChannel: map<Channel, Group>, order: seq<Channel>)
    requires v.Ok() && Marked(v, {}, marked, byChannel) && Indexed(byChannel, order)
    ensures marked.Keys == v.pending.Keys
    ensures forall p :: p in marked ==> (marked[p] < -1 ==> -marked[p] - 2 < |order|)
    ensures forall p :: p in marked ==> marked[p] < 0 || marked[p] == v.pending[p]
  {
    forall p | p in marked ensures (marked[p] < -1 ==> -marked[p] - 2 < |order|) && (marked[p] < 0 || marked[p] == v.pending[p]) {
      assert Visited(v, {}, p) || marked[p] == v.pending[p];
    }
  }

  /** With no request to send no page was marked. */
  lemma NoMarks(v: View, marked: map<Page, int>, ids: seq<int>, byChannel: map<Channel, Group>, order: seq<Channel>,
                pages: map<Option<Channel>, seq<Page>>)
    requires v.Ok() && Marked(v, {}, marked, byChannel) && Gathered(v, {}, ids, byChannel, pages) && Indexed(byChannel, order)
    requires ids == [] && order == []
    ensures forall p :: p in marked ==> marked[p] == v.pending[p] && marked[p] >= 0
  {
    forall ch ensures Gathers(v, {}, ch, [], []) {
      assert Gathers(v, {}, ch, PagesFor(pages, ch), IdsFor(ids, byChannel, ch));
    }
    assert forall p :: Visited(v, {}, p) ==> Gathers(v, {}, v.items[p].channel, [], []);
  }

  lemma Unmarked(marked: map<Page, int>, plain: int, reqs: seq<int>)
    requires forall p :: p in marked ==> marked[p] >= 0
    ensures forall p :: p in marked ==> marked[p] == Resolve(marked[p], plain, reqs)
  {
  }
}
