/** The 64-bit collection hash of the API (`HashInit`, `HashUpdate`, `CountHash`) and the hashes of sticker
    set lists built on it.

    What the client relies on is that an edited list does not keep its hash.  The lemmas say how far that
    is true: every update permutes the state, so one changed value always changes the result, and any single
    position can be solved for any wanted result in exactly one way. */
module ApiHash {

  type uint64 = bv64

  // ---------------------------------------------------------------- HashUpdate

  function ShiftRight21(h: uint64): uint64 { h ^ (h >> 21) }

  function ShiftLeft35(h: uint64): uint64 { h ^ (h << 35) }

  function ShiftRight4(h: uint64): uint64 { h ^ (h >> 4) }

  function Plus(h: uint64, v: uint64): uint64 { h + v }

  function Minus(h: uint64, v: uint64): uint64 { h - v }

  /** The three exclusive-or shifts of one update. */
  function Mix(h: uint64): uint64 { ShiftRight4(ShiftLeft35(ShiftRight21(h))) }

  /** The new state of one update. */
  function Update(h: uint64, v: uint64): uint64 { Plus(Mix(h), v) }

  /** `HashUpdate(uint64 &already, uint64 value)`, step by step. */
  method HashUpdate(already: uint64, value: uint64) returns (r: uint64)
    ensures r == Update(already, value)
  {
    r := already;
    ShiftsMean(r);
    r := r ^ (r >> 21);
    ShiftsMean(r);
    r := r ^ (r << 35);
    ShiftsMean(r);
    r := r ^ (r >> 4);
    PlusMeans(r, value);
    r := r + value;
  }

  lemma ShiftsMean(h: uint64)
    ensures ShiftRight21(h) == h ^ (h >> 21) && ShiftLeft35(h) == h ^ (h << 35) && ShiftRight4(h) == h ^ (h >> 4)
  {
  }

  lemma PlusMeans(h: uint64, v: uint64)
    ensures Plus(h, v) == h + v
  {
  }

  // ---------------------------------------------------------------- one update is a permutation

  function UnshiftRight21(h: uint64): uint64 { h ^ (h >> 21) ^ (h >> 42) ^ (h >> 63) }

  function UnshiftRight4(h: uint64): uint64 {
    var y := h ^ (h >> 4);
    var z := y ^ (y >> 8);
    var w := z ^ (z >> 16);
    w ^ (w >> 32)
  }

  function Unmix(h: uint64): uint64 { UnshiftRight21(ShiftLeft35(UnshiftRight4(h))) }

  /** The state before an update with `v` that ended in `h`. */
  function Undo(h: uint64, v: uint64): uint64 { Unmix(Minus(h, v)) }

  // Each bit-level identity is stated with the inner function unfolded; the paired lemma closes it over the names.

  lemma Undo21Bits(h: uint64)
    ensures UnshiftRight21(h ^ (h >> 21)) == h
  {
  }

  lemma Undo21(h: uint64)
    ensures UnshiftRight21(ShiftRight21(h)) == h
  {
    hide UnshiftRight21;
    Undo21Bits(h);
  }

  lemma Redo21Bits(h: uint64)
    ensures ShiftRight21(h ^ (h >> 21) ^ (h >> 42) ^ (h >> 63)) == h
  {
  }

  lemma Redo21(h: uint64)
    ensures ShiftRight21(UnshiftRight21(h)) == h
  {
    hide ShiftRight21;
    Redo21Bits(h);
  }

  lemma Undo35Bits(h: uint64)
    ensures ShiftLeft35(h ^ (h << 35)) == h
  {
  }

  lemma Undo35(h: uint64)
    ensures ShiftLeft35(ShiftLeft35(h)) == h
  {
    Undo35Bits(h);
  }

  lemma Undo4Bits(h: uint64)
    ensures UnshiftRight4(h ^ (h >> 4)) == h
  {
  }

  lemma Undo4(h: uint64)
    ensures UnshiftRight4(ShiftRight4(h)) == h
  {
    hide UnshiftRight4;
    Undo4Bits(h);
  }

  lemma Redo4Bits(h: uint64)
    ensures var y := h ^ (h >> 4); var z := y ^ (y >> 8); var w := z ^ (z >> 16); ShiftRight4(w ^ (w >> 32)) == h
  {
  }

  lemma Redo4(h: uint64)
    ensures ShiftRight4(UnshiftRight4(h)) == h
  {
    hide ShiftRight4;
    Redo4Bits(h);
  }

  lemma PlusMinusBits(h: uint64, v: uint64)
    ensures Minus(h + v, v) == h
  {
  }

  lemma PlusMinus(h: uint64, v: uint64)
    ensures Minus(Plus(h, v), v) == h
  {
    hide Minus;
    PlusMinusBits(h, v);
  }

  lemma MinusPlusBits(h: uint64, v: uint64)
    ensures Plus(h - v, v) == h
  {
  }

  lemma MinusPlus(h: uint64, v: uint64)
    ensures Plus(Minus(h, v), v) == h
  {
    hide Plus;
    MinusPlusBits(h, v);
  }

  lemma PlusMinusLeftBits(h: uint64, v: uint64)
    ensures Minus(h + v, h) == v
  {
  }

  lemma PlusMinusLeft(h: uint64, v: uint64)
    ensures Minus(Plus(h, v), h) == v
  {
    hide Minus;
    PlusMinusLeftBits(h, v);
  }

  lemma MinusPlusLeftBits(h: uint64, v: uint64)
    ensures Plus(h, v - h) == v
  {
  }

  lemma MinusPlusLeft(h: uint64, v: uint64)
    ensures Plus(h, Minus(v, h)) == v
  {
    hide Plus;
    MinusPlusLeftBits(h, v);
  }

  /** For each value the update is a bijection of the state. */
  lemma UpdateIsBijective(h: uint64, v: uint64)
    ensures Undo(Update(h, v), v) == h && Update(Undo(h, v), v) == h
  {
    hide ShiftRight21, ShiftLeft35, ShiftRight4, UnshiftRight21, UnshiftRight4, Plus, Minus;
    PlusMinus(Mix(h), v);
    Undo4(ShiftLeft35(ShiftRight21(h)));
    Undo35(ShiftRight21(h));
    Undo21(h);
    var g := Minus(h, v);
    MinusPlus(h, v);
    Redo21(ShiftLeft35(UnshiftRight4(g)));
    Undo35(UnshiftRight4(g));
    Redo4(g);
    assert Mix(Unmix(g)) == g;
  }

  /** For each state the update is a bijection of the value. */
  lemma ValueIsBijective(h: uint64, v: uint64)
    ensures Minus(Update(h, v), Mix(h)) == v && Update(h, Minus(v, Mix(h))) == v
  {
    hide Mix, Plus, Minus;
    PlusMinusLeft(Mix(h), v);
    MinusPlusLeft(Mix(h), v);
  }

  // ---------------------------------------------------------------- CountHash

  /** The state after folding the values into `h`. */
  function FoldFrom(h: uint64, values: seq<uint64>): uint64 {
    if values == [] then h else Update(FoldFrom(h, values[..|values| - 1]), values[|values| - 1])
  }

  /** `CountHash`: HashInit, one update per value, HashFinalize. */
  function Hash(values: seq<uint64>): uint64 { FoldFrom(0, values) }

  lemma HashAppend(values: seq<uint64>, v: uint64)
    ensures Hash(values + [v]) == Update(Hash(values), v)
  {
    hide Update;
    assert (values + [v])[..|values|] == values;
  }

  method CountHash(range: seq<uint64>) returns (result: uint64)
    ensures result == Hash(range)
  {
    result := 0;
    for i := 0 to |range|
      invariant result == Hash(range[..i])
    {
      assert range[..i + 1][..i] == range[..i];
      result := HashUpdate(result, range[i]);
    }
    assert range[..|range|] == range;
  }

  lemma {:induction false} FoldSplit(h: uint64, a: seq<uint64>, b: seq<uint64>)
    ensures FoldFrom(h, a + b) == FoldFrom(FoldFrom(h, a), b)
  {
    hide Update;
    if b == [] {
      assert a + b == a;
    } else {
      var n := |b| - 1;
      assert (a + b)[..|a| + n] == a + b[..n];
      FoldSplit(h, a, b[..n]);
    }
  }

  /** Undo a whole suffix. */
  function Unfold(h: uint64, values: seq<uint64>): uint64
    decreases |values|
  {
    if values == [] then h else Unfold(Undo(h, values[|values| - 1]), values[..|values| - 1])
  }

  lemma {:induction false} FoldIsBijective(h: uint64, values: seq<uint64>)
    ensures Unfold(FoldFrom(h, values), values) == h && FoldFrom(Unfold(h, values), values) == h
    decreases |values|
  {
    hide Update, Undo;
    if values != [] {
      var n := |values| - 1;
      UpdateIsBijective(FoldFrom(h, values[..n]), values[n]);
      UpdateIsBijective(h, values[n]);
      FoldIsBijective(h, values[..n]);
      FoldIsBijective(Undo(h, values[n]), values[..n]);
    }
  }

  /** The only value that can stand at `i` if the whole is to hash to `target`. */
  function Solve(values: seq<uint64>, i: nat, target: uint64): uint64
    requires i < |values|
  {
    Minus(Unfold(target, values[i + 1..]), Mix(Hash(values[..i])))
  }

  /** Every result is reachable by editing any one position, in exactly one way. */
  lemma OnePositionDecides(values: seq<uint64>, i: nat, v: uint64, target: uint64)
    requires i < |values|
    ensures Hash(values[i := v]) == target <==> v == Solve(values, i, target)
  {
    hide Update, Undo, Mix, Minus;
    var a, b := values[..i], values[i + 1..];
    assert values[i := v] == (a + [v]) + b;
    FoldSplit(0, a + [v], b);
    FoldSplit(0, a, [v]);
    assert [v][..0] == [];
    var h := Hash(a);
    assert FoldFrom(h, [v]) == Update(FoldFrom(h, []), v) == Update(h, v);
    assert Hash(values[i := v]) == FoldFrom(Update(h, v), b);
    FoldIsBijective(Update(h, v), b);
    FoldIsBijective(target, b);
    ValueIsBijective(h, v);
    ValueIsBijective(h, Unfold(target, b));
  }

  /** Two lists that differ in exactly one position never hash equally. */
  lemma OneEditIsSeen(values: seq<uint64>, i: nat, v: uint64)
    requires i < |values| && v != values[i]
    ensures Hash(values[i := v]) != Hash(values)
  {
    assert values[i := values[i]] == values;
    OnePositionDecides(values, i, values[i], Hash(values));
    OnePositionDecides(values, i, v, Hash(values));
  }

  /** A common prefix and a common suffix never matter: only the middles are compared. */
  lemma CommonEndsCancel(before: seq<uint64>, a: seq<uint64>, b: seq<uint64>, after: seq<uint64>)
    ensures Hash(before + a + after) == Hash(before + b + after) <==> Hash(before + a) == Hash(before + b)
  {
    hide Update;
    FoldSplit(0, before + a, after);
    FoldSplit(0, before + b, after);
    FoldIsBijective(Hash(before + a), after);
    FoldIsBijective(Hash(before + b), after);
  }

  // ---------------------------------------------------------------- sticker set lists

  datatype SetId = SetId(bits: uint64)

  const DEFAULT_SET_ID: SetId := SetId(0)

  /** The fields of a StickersSet that the hashes read. */
  datatype SetInfo = SetInfo(id: SetId, hash: uint64, special: bool, archived: bool, unread: bool)

  /** A set that contributes to the order hash. */
  predicate Counted(s: SetInfo) { s.id != DEFAULT_SET_ID && !s.special && !s.archived }

  /** What one listed id contributes: the hash of a present, counted set. */
  function OrderWord(sets: map<SetId, SetInfo>, id: SetId): seq<uint64> {
    if id in sets && Counted(sets[id]) then [sets[id].hash] else []
  }

  function OrderWords(sets: map<SetId, SetInfo>, order: seq<SetId>): seq<uint64> {
    if order == [] then []
    else OrderWords(sets, order[..|order| - 1]) + OrderWord(sets, order[|order| - 1])
  }

  /** One more listed id: its set's hash, when the set is there, has a real id, and is neither special nor archived. */
  lemma OrderWordsMean(sets: map<SetId, SetInfo>, order: seq<SetId>, id: SetId)
    ensures OrderWords(sets, []) == []
    ensures OrderWords(sets, order + [id]) == OrderWords(sets, order) +
              if id in sets && sets[id].id != SetId(0) && !sets[id].special && !sets[id].archived then [sets[id].hash] else []
  {
    assert (order + [id])[..|order|] == order;
  }

  /** A set with the legacy default id is listed. */
  predicate Outdated(sets: map<SetId, SetInfo>, order: seq<SetId>) {
    exists k :: 0 <= k < |order| && order[k] in sets && sets[order[k]].id == DEFAULT_SET_ID
  }

  lemma OutdatedStep(sets: map<SetId, SetInfo>, order: seq<SetId>, i: nat)
    requires i < |order|
    ensures Outdated(sets, order[..i + 1])
       <==> Outdated(sets, order[..i]) || (order[i] in sets && sets[order[i]].id == DEFAULT_SET_ID)
  {
    if k :| 0 <= k < i && order[k] in sets && sets[order[k]].id == DEFAULT_SET_ID {
      assert order[..i][k] == order[..i + 1][k] == order[k];
    }
  }

  lemma EmptyOrder(sets: map<SetId, SetInfo>)
    ensures Hash([]) == 0 && !Outdated(sets, [])
  {
  }

  method CountStickersOrderHash(sets: map<SetId, SetInfo>, order: seq<SetId>, checkOutdatedInfo: bool)
    returns (r: uint64)
    ensures r == if checkOutdatedInfo && Outdated(sets, order) then 0 else Hash(OrderWords(sets, order))
  {
    hide Update, Outdated, Hash;
    var result, foundOutdated := 0, false;
    assert Hash([]) == 0 && !Outdated(sets, []) by { EmptyOrder(sets); }
    for i := 0 to |order|
      invariant result == Hash(OrderWords(sets, order[..i]))
      invariant foundOutdated == Outdated(sets, order[..i])
    {
      ghost var seen := OrderWords(sets, order[..i]);
      assert order[..i + 1][..i] == order[..i];
      assert OrderWords(sets, order[..i + 1]) == seen + OrderWord(sets, order[i]) && seen + [] == seen;
      OutdatedStep(sets, order, i);
      if order[i] in sets {
        var s := sets[order[i]];
        if s.id == DEFAULT_SET_ID {
          foundOutdated := true;
        } else if !s.special && !s.archived {
          result := HashUpdate(result, s.hash);
          HashAppend(seen, s.hash);
        }
      }
    }
    assert order[..|order|] == order;
    return if !checkOutdatedInfo || !foundOutdated then result else 0;
  }

  lemma {:induction false} OrderWordsSplit(sets: map<SetId, SetInfo>, a: seq<SetId>, b: seq<SetId>)
    ensures OrderWords(sets, a + b) == OrderWords(sets, a) + OrderWords(sets, b)
  {
    if b == [] {
      assert a + b == a;
    } else {
      var n := |b| - 1;
      assert (a + b)[..|a| + n] == a + b[..n];
      OrderWordsSplit(sets, a, b[..n]);
    }
  }

  lemma {:induction false} OrderWordsLocal(sets: map<SetId, SetInfo>, order: seq<SetId>, id: SetId, s: SetInfo)
    requires id !in order
    ensures OrderWords(sets[id := s], order) == OrderWords(sets, order)
  {
    if order != [] {
      var n := |order| - 1;
      assert id !in order[..n] && order[n] in order;
      OrderWordsLocal(sets, order[..n], id, s);
      assert OrderWord(sets[id := s], order[n]) == OrderWord(sets, order[n]);
    }
  }

  /** When the contents of one listed set change, so that its hash changes, the hash of the list changes. */
  lemma ChangedSetIsSeen(sets: map<SetId, SetInfo>, before: seq<SetId>, id: SetId, after: seq<SetId>, hash: uint64)
    requires id in sets && Counted(sets[id]) && hash != sets[id].hash
    requires id !in before && id !in after
    ensures Hash(OrderWords(sets[id := sets[id].(hash := hash)], before + [id] + after))
         != Hash(OrderWords(sets, before + [id] + after))
  {
    hide Update, Counted;
    var sets' := sets[id := sets[id].(hash := hash)];
    var words := OrderWords(sets, before + [id] + after);
    var at := |OrderWords(sets, before)|;
    OrderWordsLocal(sets, before, id, sets'[id]);
    OrderWordsLocal(sets, after, id, sets'[id]);
    SplitAround(sets, before, id, after);
    assert Counted(sets'[id]) by { StillCounted(sets[id], hash); }
    SplitAround(sets', before, id, after);
    assert words[at := hash] == OrderWords(sets, before) + [hash] + OrderWords(sets, after);
    OneEditIsSeen(words, at, hash);
  }

  lemma StillCounted(s: SetInfo, hash: uint64)
    requires Counted(s)
    ensures Counted(s.(hash := hash))
  {
  }

  lemma SplitAround(sets: map<SetId, SetInfo>, before: seq<SetId>, id: SetId, after: seq<SetId>)
    requires id in sets && Counted(sets[id])
    ensures OrderWords(sets, before + [id] + after) == OrderWords(sets, before) + [sets[id].hash] + OrderWords(sets, after)
  {
    hide Counted;
    OrderWordsSplit(sets, before + [id], after);
    OrderWordsSplit(sets, before, [id]);
    assert [id][..0] == [];
    assert OrderWords(sets, [id]) == [] + OrderWord(sets, id);
  }
}
