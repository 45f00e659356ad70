/** The hash of the featured sticker sets (`CountFeaturedHash`).

    Each set gives its id and, while it is unread, one more word.  Reading a set therefore takes a word out, and
    the guarantee for single edits does not apply. */
module FeaturedHash {
  import opened ApiHash
  import opened KeptState

  // ---------------------------------------------------------------- featured sets

  /** The words of one featured set: its id, and a one when it is unread. */
  function FeaturedWord(sets: map<SetId, SetInfo>, id: SetId): seq<uint64> {
    if id in sets && sets[id].unread then [id.bits, 1] else [id.bits]
  }

  function FeaturedWords(sets: map<SetId, SetInfo>, order: seq<SetId>): seq<uint64> {
    if order == [] then []
    else FeaturedWords(sets, order[..|order| - 1]) + FeaturedWord(sets, order[|order| - 1])
  }

  /** One more listed id: the id, and a one when its set is there and unread. */
  lemma FeaturedWordsMean(sets: map<SetId, SetInfo>, order: seq<SetId>, id: SetId)
    ensures FeaturedWords(sets, []) == []
    ensures FeaturedWords(sets, order + [id])
         == FeaturedWords(sets, order) + [id.bits] + if id in sets && sets[id].unread then [1] else []
  {
    assert (order + [id])[..|order|] == order;
  }

  method CountFeaturedHash(sets: map<SetId, SetInfo>, order: seq<SetId>) returns (result: uint64)
    ensures result == Hash(FeaturedWords(sets, order))
  {
    hide Update;
    result := 0;
    for i := 0 to |order|
      invariant result == Hash(FeaturedWords(sets, order[..i]))
    {
      ghost var seen := FeaturedWords(sets, order[..i]);
      assert order[..i + 1][..i] == order[..i];
      result := HashUpdate(result, order[i].bits);
      HashAppend(seen, order[i].bits);
      if order[i] in sets && sets[order[i]].unread {
        result := HashUpdate(result, 1);
        HashAppend(seen + [order[i].bits], 1);
        assert seen + [order[i].bits] + [1] == seen + [order[i].bits, 1];
      }
    }
    assert order[..|order|] == order;
  }

  lemma {:induction false} FeaturedWordsSplit(sets: map<SetId, SetInfo>, a: seq<SetId>, b: seq<SetId>)
    ensures FeaturedWords(sets, a + b) == FeaturedWords(sets, a) + FeaturedWords(sets, b)
  {
    hide FeaturedWord;
    if b == [] {
      assert a + b == a;
    } else {
      var n := |b| - 1;
      assert (a + b)[..|a| + n] == a + b[..n];
      assert (a + b)[|a| + n] == b[n] && |a + b| - 1 == |a| + n;
      FeaturedWordsSplit(sets, a, b[..n]);
    }
  }

  lemma {:induction false} FeaturedWordsLocal(sets: map<SetId, SetInfo>, order: seq<SetId>, id: SetId, s: SetInfo)
    requires id !in order
    ensures FeaturedWords(sets[id := s], order) == FeaturedWords(sets, order)
  {
    if order != [] {
      var n := |order| - 1;
      assert id !in order[..n] && order[n] in order;
      FeaturedWordsLocal(sets, order[..n], id, s);
      assert FeaturedWord(sets[id := s], order[n]) == FeaturedWord(sets, order[n]);
    }
  }

  lemma SplitAround(sets: map<SetId, SetInfo>, before: seq<SetId>, id: SetId, after: seq<SetId>)
    ensures FeaturedWords(sets, before + [id] + after)
         == FeaturedWords(sets, before) + FeaturedWord(sets, id) + FeaturedWords(sets, after)
  {
    FeaturedWordsSplit(sets, before + [id], after);
    FeaturedWordsSplit(sets, before, [id]);
    assert [id][..0] == [];
    assert FeaturedWords(sets, [id]) == [] + FeaturedWord(sets, id);
  }

  /** The sets after one of them was read. */
  function Read(sets: map<SetId, SetInfo>, id: SetId): map<SetId, SetInfo>
    requires id in sets
  {
    sets[id := sets[id].(unread := false)]
  }

  /** Reading a listed set keeps the hash exactly when the state reached with its id is STUCK. */
  lemma ReadingAFeaturedSet(sets: map<SetId, SetInfo>, before: seq<SetId>, id: SetId, after: seq<SetId>)
    requires id in sets && sets[id].unread && id !in before && id !in after
    ensures Hash(FeaturedWords(Read(sets, id), before + [id] + after)) == Hash(FeaturedWords(sets, before + [id] + after))
       <==> Hash(FeaturedWords(sets, before) + [id.bits]) == STUCK
  {
    var a, b := FeaturedWords(sets, before), FeaturedWords(sets, after);
    FeaturedWordsLocal(sets, before, id, Read(sets, id)[id]);
    FeaturedWordsLocal(sets, after, id, Read(sets, id)[id]);
    SplitAround(sets, before, id, after);
    SplitAround(Read(sets, id), before, id, after);
    hide Update, Hash;
    CommonEndsCancel(a, [id.bits, 1], [id.bits], b);
    assert a + [id.bits] + [1] == a + [id.bits, 1];
    HashAppend(a + [id.bits], 1);
    OneKeptState(Hash(a + [id.bits]));
  }

  /** It happens: a single unread set whose id is STUCK. */
  lemma ReadingIsNotSeen()
    ensures var id := SetId(STUCK);
            var sets := map[id := SetInfo(id, 0, false, false, true)];
            Hash(FeaturedWords(Read(sets, id), [id])) == Hash(FeaturedWords(sets, [id]))
  {
    var id := SetId(STUCK);
    var sets := map[id := SetInfo(id, 0, false, false, true)];
    ReadingAFeaturedSet(sets, [], id, []);
    FirstWord();
    assert FeaturedWords(sets, []) + [id.bits] == [STUCK];
    assert [] + [id] + [] == [id];
  }

  lemma FirstWord()
    ensures Hash([STUCK]) == STUCK
  {
    FirstUpdate();
    hide Update;
    assert [STUCK][..0] == [];
    assert FoldFrom(0, []) == 0;
  }

  lemma FirstUpdate()
    ensures Update(0, STUCK) == STUCK
  {
  }
}
