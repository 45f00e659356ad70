/** Searching messages in one chat (`RequestToToken`, `searchMessages`, `searchMore`, `searchRequest`,
    `searchReceived`): first pages are cached by a token that serializes the request, and replies that are not
    to the latest request are dropped. */
module MessagesSearch {
  import opened Collections

  // ---------------------------------------------------------------- tokens

  /** Data::ReactionId. */
  datatype ReactionId = Emoji(text: string) | CustomEmoji(id: nat) {
    function Custom(): nat { if CustomEmoji? then id else 0 }

    /** The paid reaction is stored as a star, and has no emoji. */
    function EmojiText(): string { if Emoji? && text != "*" then text else "" }
  }

  datatype Request = Request(query: string, from: Option<nat>, tags: seq<ReactionId>)

  const DIGITS: string := "0123456789"

  /** `QString::number`. */
  function Number(n: nat): (r: string)
    ensures r != [] && forall c :: c in r ==> '0' <= c <= '9'
    ensures |r| == 1 <==> n < 10
  {
    if n < 10 then [DIGITS[n]] else Number(n / 10) + [DIGITS[n % 10]]
  }

  function TagPiece(tag: ReactionId): string {
    if tag.Custom() != 0 then "custom" + Number(tag.Custom()) else "emoji" + tag.EmojiText()
  }

  function FromPieces(from: Option<nat>): seq<string> {
    match from
    case None => []
    case Some(id) => [Number(id)]
  }

  function TagPieces(tags: seq<ReactionId>): (r: seq<string>)
    ensures |r| == |tags| && forall k :: 0 <= k < |r| ==> r[k] == TagPiece(tags[k])
  {
    seq(|tags|, k requires 0 <= k < |tags| => TagPiece(tags[k]))
  }

  /** Everything after the query, piece by piece. */
  function Pieces(request: Request): seq<string> { FromPieces(request.from) + TagPieces(request.tags) }

  /** The query, then each piece on a line of its own. */
  function Join(first: string, pieces: seq<string>): string {
    if pieces == [] then first else Join(first, pieces[..|pieces| - 1]) + "\n" + pieces[|pieces| - 1]
  }

  function Token(request: Request): string { Join(request.query, Pieces(request)) }

  lemma JoinAppend(first: string, pieces: seq<string>, piece: string)
    ensures Join(first, pieces + [piece]) == Join(first, pieces) + "\n" + piece
  {
    assert (pieces + [piece])[..|pieces|] == pieces;
  }

  /** `RequestToToken`. */
  method RequestToToken(request: Request) returns (result: string)
    ensures result == Token(request)
  {
    hide Join, Number;
    result := request.query;
    var from := FromPieces(request.from);
    ghost var tags := TagPieces(request.tags);
    assert Join(request.query, []) == request.query by { JoinNothing(request.query); }
    if request.from.Some? {
      result := result + "\n" + Number(request.from.value);
      JoinAppend(request.query, [], Number(request.from.value));
      assert [] + [Number(request.from.value)] == from;
    }
    assert from + tags[..0] == from;
    for i := 0 to |request.tags|
      invariant result == Join(request.query, from + tags[..i])
    {
      var tag := request.tags[i];
      ghost var before := result;
      result := result + "\n";
      if tag.Custom() != 0 {
        result := result + ("custom" + Number(tag.Custom()));
      } else {
        result := result + ("emoji" + tag.EmojiText());
      }
      assert result == before + "\n" + TagPiece(tag);
      JoinAppend(request.query, from + tags[..i], tags[i]);
      assert from + tags[..i + 1] == from + tags[..i] + [tags[i]];
    }
    assert tags[..|request.tags|] == tags;
  }

  lemma JoinNothing(first: string)
    ensures Join(first, []) == first
  {
  }

  // ---------------------------------------------------------------- when tokens are equal

  predicate OneLine(s: string) { '\n' !in s }

  predicate OneLiners(pieces: seq<string>) { forall k :: 0 <= k < |pieces| ==> OneLine(pieces[k]) }

  /** No newline in the query or in an emoji. */
  predicate Plain(request: Request) {
    OneLine(request.query) && forall k :: 0 <= k < |request.tags| ==> OneLine(request.tags[k].EmojiText())
  }

  /** The paid reaction, the empty reaction and a custom reaction with id zero are serialized alike. */
  function CanonTag(tag: ReactionId): ReactionId {
    if tag.Custom() != 0 then CustomEmoji(tag.Custom()) else Emoji(tag.EmojiText())
  }

  function Canon(request: Request): Request {
    request.(tags := seq(|request.tags|, k requires 0 <= k < |request.tags| => CanonTag(request.tags[k])))
  }

  lemma {:induction false} NumberInjective(a: nat, b: nat)
    requires Number(a) == Number(b)
    ensures a == b
  {
    if a >= 10 && b >= 10 {
      var x, y := Number(a / 10), Number(b / 10);
      assert Number(a) == x + [DIGITS[a % 10]] && Number(b) == y + [DIGITS[b % 10]];
      assert x == Number(a)[..|Number(a)| - 1] == y;
      assert DIGITS[a % 10] == Number(a)[|Number(a)| - 1] == DIGITS[b % 10];
      NumberInjective(a / 10, b / 10);
      DigitInjective(a % 10, b % 10);
    } else if a < 10 && b < 10 {
      assert DIGITS[a] == Number(a)[0] == DIGITS[b];
      DigitInjective(a, b);
    }
  }

  lemma DigitInjective(a: nat, b: nat)
    requires a < 10 && b < 10 && DIGITS[a] == DIGITS[b]
    ensures a == b
  {
    assert DIGITS == ['0', '1', '2', '3', '4', '5', '6', '7', '8', '9'];
  }

  /** Where the last line of a joined string starts. */
  lemma LastLine(a: string, x: string, b: string, y: string)
    requires OneLine(x) && OneLine(y) && a + "\n" + x == b + "\n" + y
    ensures a == b && x == y
  {
    NewlineBefore(a, x, b, y);
    NewlineBefore(b, y, a, x);
    var s := a + "\n" + x;
    assert a == s[..|a|] && x == s[|a| + 1..];
  }

  lemma NewlineBefore(a: string, x: string, b: string, y: string)
    requires OneLine(x) && a + "\n" + x == b + "\n" + y
    ensures |b| <= |a|
  {
    var s := a + "\n" + x;
    assert s[|b|] == '\n';
    assert forall k :: |a| < k < |s| ==> s[k] == x[k - |a| - 1] && x[k - |a| - 1] in x;
  }

  lemma {:induction false} JoinInjective(first: string, a: seq<string>, first': string, b: seq<string>)
    requires OneLine(first) && OneLine(first') && OneLiners(a) && OneLiners(b)
    requires Join(first, a) == Join(first', b)
    ensures first == first' && a == b
    decreases |a|
  {
    if a == [] && b == [] {
    } else if a == [] {
      JoinHasNewline(first', b);
    } else if b == [] {
      JoinHasNewline(first, a);
    } else {
      var n, m := |a| - 1, |b| - 1;
      LastLine(Join(first, a[..n]), a[n], Join(first', b[..m]), b[m]);
      JoinInjective(first, a[..n], first', b[..m]);
      assert a == a[..n] + [a[n]] && b == b[..m] + [b[m]];
    }
  }

  lemma JoinHasNewline(first: string, pieces: seq<string>)
    requires pieces != []
    ensures !OneLine(Join(first, pieces))
  {
    var before := Join(first, pieces[..|pieces| - 1]);
    assert Join(first, pieces)[|before|] == '\n';
  }

  lemma TagPieceInjective(a: ReactionId, b: ReactionId)
    requires TagPiece(a) == TagPiece(b)
    ensures CanonTag(a) == CanonTag(b)
  {
    var s := TagPiece(a);
    assert a.Custom() != 0 ==> s[0] == 'c' && s[6..] == Number(a.Custom());
    assert b.Custom() != 0 ==> s[0] == 'c' && s[6..] == Number(b.Custom());
    assert a.Custom() == 0 ==> s[0] == 'e' && s[5..] == a.EmojiText();
    assert b.Custom() == 0 ==> s[0] == 'e' && s[5..] == b.EmojiText();
    if a.Custom() != 0 {
      NumberInjective(a.Custom(), b.Custom());
    }
  }

  lemma NumberIsOneLine(n: nat)
    ensures OneLine(Number(n))
  {
  }

  lemma PiecesAreOneLine(request: Request)
    requires Plain(request)
    ensures OneLiners(Pieces(request))
  {
    var from := FromPieces(request.from);
    forall k | 0 <= k < |Pieces(request)| ensures OneLine(Pieces(request)[k]) {
      if k < |from| {
        NumberIsOneLine(request.from.value);
      } else {
        var tag := request.tags[k - |from|];
        assert Pieces(request)[k] == TagPiece(tag);
        NumberIsOneLine(tag.Custom());
        assert OneLine(tag.EmojiText());
      }
    }
  }

  /** The first piece tells a sender from a tag. */
  lemma FirstPiece(r: Request)
    ensures r.from.Some? ==> Pieces(r) != [] && Pieces(r)[0] == Number(r.from.value) && '0' <= Pieces(r)[0][0] <= '9'
    ensures r.from.None? && r.tags != [] ==> Pieces(r) != [] && Pieces(r)[0] != [] && Pieces(r)[0][0] > '9'
    ensures r.from.None? && r.tags == [] ==> Pieces(r) == []
    ensures |Pieces(r)| == (if r.from.Some? then 1 else 0) + |r.tags|
  {
    if r.from.Some? {
      assert Number(r.from.value)[0] in Number(r.from.value);
    } else if r.tags != [] {
      assert Pieces(r)[0] == TagPiece(r.tags[0]);
      assert "custom"[0] == 'c' && "emoji"[0] == 'e';
    }
  }

  lemma PiecesInjective(a: Request, b: Request)
    requires Pieces(a) == Pieces(b)
    ensures a.from == b.from && Canon(a).tags == Canon(b).tags
  {
    hide Number;
    FirstPiece(a);
    FirstPiece(b);
    if a.from.Some? {
      NumberInjective(a.from.value, b.from.value);
    }
    var n := |FromPieces(a.from)|;
    forall k | 0 <= k < |a.tags| ensures CanonTag(a.tags[k]) == CanonTag(b.tags[k]) {
      assert Pieces(a)[n + k] == TagPiece(a.tags[k]) && Pieces(b)[n + k] == TagPiece(b.tags[k]);
      TagPieceInjective(a.tags[k], b.tags[k]);
    }
  }

  lemma CanonPieces(a: Request, b: Request)
    requires Canon(a) == Canon(b)
    ensures Pieces(a) == Pieces(b)
  {
    assert |a.tags| == |Canon(a).tags| == |b.tags|;
    forall k | 0 <= k < |a.tags| ensures TagPiece(a.tags[k]) == TagPiece(b.tags[k]) {
      assert Canon(a).tags[k] == Canon(b).tags[k];
    }
  }

  /** Without newlines, two requests have the same token exactly when they differ at most in reactions that
      are serialized alike. */
  lemma TokenIsInjective(a: Request, b: Request)
    requires Plain(a) && Plain(b)
    ensures Token(a) == Token(b) <==> Canon(a) == Canon(b)
  {
    if Token(a) == Token(b) {
      PiecesAreOneLine(a);
      PiecesAreOneLine(b);
      JoinInjective(a.query, Pieces(a), b.query, Pieces(b));
      PiecesInjective(a, b);
    }
    if Canon(a) == Canon(b) {
      CanonPieces(a, b);
      assert a.query == Canon(a).query == b.query;
    }
  }

  lemma TokenOfQuery(token: string)
    ensures Token(Request(token, None, [])) == token
  {
    assert Pieces(Request(token, None, [])) == [];
  }

  /** Without the condition on newlines it fails for every request with a sender or a tag: its whole token can be
      the query of another request. */
  lemma NewlinesAlwaysCollide(request: Request)
    requires request.from.Some? || request.tags != []
    ensures var other := Request(Token(request), None, []);
            Token(other) == Token(request) && Canon(other) != Canon(request) && !Plain(other)
  {
    TokenOfQuery(Token(request));
    FirstPiece(request);
    JoinHasNewline(request.query, Pieces(request));
    assert Canon(Request(Token(request), None, [])).from == None && Canon(Request(Token(request), None, [])).tags == [];
    assert |Canon(request).tags| == |request.tags|;
  }

  /** The token, built up: the query, a line with the sender's id, and a line for each reaction. */
  lemma TokenMeans(query: string, from: nat, tags: seq<ReactionId>, sender: Option<nat>, tag: ReactionId)
    ensures Token(Request(query, None, [])) == query
    ensures Token(Request(query, Some(from), [])) == query + "\n" + Number(from)
    ensures Token(Request(query, sender, tags + [tag])) == Token(Request(query, sender, tags)) + "\n" +
              match tag
              case CustomEmoji(id) => if id > 0 then "custom" + Number(id) else "emoji"
              case Emoji(text) => if text == "*" then "emoji" else "emoji" + text
  {
    hide Number;
    assert Pieces(Request(query, Some(from), [])) == [] + [Number(from)];
    JoinAppend(query, [], Number(from));
    var r := Request(query, sender, tags);
    assert Pieces(Request(query, sender, tags + [tag])) == Pieces(r) + [TagPiece(tag)];
    JoinAppend(query, Pieces(r), TagPiece(tag));
  }

  /** Decimal digits, most significant first. */
  lemma NumberMeans(n: nat)
    ensures n < 10 ==> Number(n) == [('0' as int + n) as char]
    ensures n >= 10 ==> Number(n) == Number(n / 10) + [('0' as int + n % 10) as char]
  {
    assert forall d: nat :: d < 10 ==> DIGITS[d] == ('0' as int + d) as char;
  }

  /** A newline in the query, or two reactions without text, make different requests collide. */
  lemma TokensCollide()
    ensures Token(Request("a\n5", None, [])) == Token(Request("a", Some(5), []))
    ensures Token(Request("a", None, [Emoji("*")])) == Token(Request("a", None, [Emoji("")]))
  {
    assert Number(5) == "5";
    var a := Request("a", Some(5), []);
    assert Pieces(a) == ["5"] && ["5"][..0] == [];
    assert Join("a", ["5"]) == "a" + "\n" + "5" == "a\n5";
    assert Pieces(Request("a\n5", None, [])) == [];
    CanonPieces(Request("a", None, [Emoji("*")]), Request("a", None, [Emoji("")]));
  }

  // ---------------------------------------------------------------- the search

  /** What the server sends: not-modified carries no messages. */
  datatype Answer = NotModified | Page(id: int)

  /** A request on the wire: what it asks for, and the token its handlers captured. */
  datatype Sent = Sent(request: Request, offset: int, token: string)

  /** FoundMessages. */
  datatype Found = Found(items: seq<int>, token: string)

  /** An answer the server has given, and to what. */
  datatype Given = Given(request: Request, offset: int, answer: Answer)

  function LastOf(items: seq<int>): int { if items == [] then 0 else items[|items| - 1] }

  /** Every cached page answers, from offset zero, a request with the token it is cached under. */
  ghost predicate Honest(cache: map<string, Answer>, given: set<Given>) {
    forall token :: token in cache ==> Known(token, cache[token], given)
  }

  /** A page found in the cache answers the very request it is looked up for, up to reactions that are
      serialized alike. */
  lemma CacheHitAnswersTheRequest(cache: map<string, Answer>, given: set<Given>, request: Request)
    requires Honest(cache, given) && Token(request) in cache && Plain(request)
    requires forall g :: g in given ==> Plain(g.request)
    ensures exists g :: g in given && g.offset == 0 && g.answer == cache[Token(request)] && Canon(g.request) == Canon(request)
  {
    var g :| g in given && g.offset == 0 && g.answer == cache[Token(request)] && Token(g.request) == Token(request);
    TokenIsInjective(g.request, request);
  }

  /** The server has given this very answer, from offset zero, to a request with this token. */
  ghost predicate Known(token: string, answer: Answer, given: set<Given>) {
    exists g :: g in given && g.offset == 0 && g.answer == answer && Token(g.request) == token
  }

  /** The tokens of the requests in flight, in the order they were sent. */
  function Tokens(inFlight: map<int, Sent>, last: int): seq<string> {
    if last <= 0 then [] else Tokens(inFlight, last - 1) + if last in inFlight then [inFlight[last].token] else []
  }

  class Search {
    var request: Request
    var offsetId: int
    var requestId: int                    // the request whose reply is awaited, or 0
    var queued: bool                      // _searchInHistoryRequest is not 0
    var cache: map<string, Answer>
    var founds: seq<Found>                // what messagesFounds() has fired

    // The history queue: while a Delete request of this chat is out it keeps every search back.
    var deletes: nat                      // Delete requests out
    var waiting: seq<string>              // the tokens of the send callbacks kept back

    var inFlight: map<int, Sent>
    var lastId: int
    ghost var given: set<Given>
    ghost var asked: map<int, Sent>       // all requests ever sent
    ghost var misfires: nat               // how often a send callback was run with a wrong token

    ghost predicate IdsOk()
      reads `inFlight, `lastId, `requestId, `asked
    {
      && lastId >= 0 && (forall id :: id in inFlight ==> 0 < id <= lastId) && 0 <= requestId <= lastId
      && (forall id :: id in asked ==> 0 < id <= lastId)
      && (forall id :: id in inFlight ==> id in asked && asked[id] == inFlight[id])
    }

    /** No callback waits while a search is in flight, and none waits without a reason. */
    ghost predicate QueueOk()
      reads `deletes, `waiting, `inFlight
    {
      (deletes > 0 ==> inFlight == map[]) && (waiting != [] ==> deletes > 0)
    }

    /** The awaited reply is to the current request at the current offset. */
    ghost predicate AwaitedOk()
      reads `request, `offsetId, `requestId, `inFlight
    {
      requestId in inFlight ==> inFlight[requestId].request == request && inFlight[requestId].offset == offsetId
    }

    ghost predicate Valid()
      reads `request, `offsetId, `requestId, `inFlight, `lastId, `asked, `deletes, `waiting
    {
      IdsOk() && QueueOk() && AwaitedOk()
    }

    /** A first page filed under this token now would be filed under the token of another request. */
    predicate Wrong(token: string)
      reads `request, `offsetId, `cache
    {
      token !in cache && offsetId == 0 && token != Token(request)
    }

    /** The awaited reply will be shown and filed under the token of the current request. */
    ghost predicate TokenCurrent()
      reads `request, `requestId, `inFlight
    {
      requestId in inFlight ==> inFlight[requestId].token == Token(request)
    }

    /** The awaited reply would be filed so. */
    ghost predicate AwaitsWrong()
      reads `request, `offsetId, `requestId, `cache, `inFlight
    {
      requestId in inFlight && Wrong(inFlight[requestId].token)
    }

    constructor ()
      ensures Valid() && cache == map[] && inFlight == map[] && founds == [] && given == {} && requestId == 0
      ensures deletes == 0 && waiting == [] && asked == map[] && misfires == 0 && request == Request("", None, [])
      ensures lastId == 0 && offsetId == 0 && !queued && TokenCurrent() && !AwaitsWrong()
    {
      request, offsetId, requestId, queued, cache, founds := Request("", None, []), 0, 0, false, map[], [];
      deletes, waiting, inFlight, lastId, given, asked, misfires := 0, [], map[], 0, {}, map[], 0;
    }

    /** `searchMessages`.  `items` is what the page shows if it comes from the cache. */
    method SearchMessages(next: Request, items: seq<int>)
      requires Valid()
      modifies this
      ensures Valid() && request == next && cache == old(cache) && given == old(given) && deletes == old(deletes)
      ensures misfires == old(misfires) && !AwaitsWrong() && TokenCurrent()
      ensures Token(next) in old(cache) ==>
                requestId == 0 && inFlight == old(inFlight) && asked == old(asked) && waiting == old(waiting)
                && offsetId == LastOf(Shown(old(cache)[Token(next)], items))
                && founds == old(founds) + [FoundIn(old(cache)[Token(next)], items, Token(next))]
      ensures Token(next) !in old(cache) ==> offsetId == 0 && founds == old(founds)
      ensures Token(next) !in old(cache) && deletes == 0 ==>
                SentNow(Sent(next, 0, Token(next)), old(inFlight), old(asked), old(lastId)) && waiting == old(waiting)
      ensures Token(next) !in old(cache) && deletes > 0 ==>
                requestId == old(requestId) && inFlight == old(inFlight) && asked == old(asked)
                && waiting == old(waiting) + [Token(next)]
    {
      hide Token, Honest;
      request := next;
      offsetId := 0;
      SearchRequest(items);
    }

    /** One request was sent, and its reply is awaited. */
    ghost predicate SentNow(sent: Sent, inFlight0: map<int, Sent>, asked0: map<int, Sent>, lastId0: int)
      reads `requestId, `inFlight, `asked, `lastId
    {
      && requestId == lastId == lastId0 + 1
      && inFlight == inFlight0[lastId := sent] && asked == asked0[lastId := sent]
    }

    /** `searchMore`. */
    method SearchMore(items: seq<int>)
      requires Valid()
      modifies this
      ensures Valid() && request == old(request) && cache == old(cache) && given == old(given) && deletes == old(deletes)
      ensures misfires == old(misfires) && (AwaitsWrong() ==> old(AwaitsWrong())) && (old(TokenCurrent()) ==> TokenCurrent())
      ensures var idle := old(queued) || old(requestId) != 0;
              var hit := old(offsetId) == 0 && Token(request) in cache;
              && (idle || hit || deletes > 0 ==> inFlight == old(inFlight) && asked == old(asked))
              && (!idle && hit ==> requestId == 0 && offsetId == LastOf(Shown(cache[Token(request)], items)))
              && (idle || !hit ==> offsetId == old(offsetId) && founds == old(founds))
              && (idle || (!hit && deletes > 0) ==> requestId == old(requestId))
              && waiting == (if !idle && !hit && deletes > 0 then old(waiting) + [Token(request)] else old(waiting))
              && (!idle && !hit && deletes == 0 ==>
                    SentNow(Sent(request, offsetId, Token(request)), old(inFlight), old(asked), old(lastId)))
    {
      hide Token, Honest;
      if queued || requestId != 0 {
        return;
      }
      SearchRequest(items);
    }

    /** `searchRequest`, with `Histories::sendRequest`: the send callback runs at once unless a Delete is out. */
    method SearchRequest(items: seq<int>)
      requires IdsOk() && QueueOk()
      modifies `requestId, `offsetId, `cache, `founds, `queued, `waiting, `inFlight, `lastId, `asked
      ensures Valid() && cache == old(cache) && !AwaitsWrong() && TokenCurrent()
      ensures var hit := old(offsetId) == 0 && Token(request) in cache;
              && (hit || deletes > 0 ==> inFlight == old(inFlight) && asked == old(asked))
              && (hit ==> requestId == 0 && offsetId == LastOf(Shown(cache[Token(request)], items))
                          && founds == old(founds) + [FoundIn(cache[Token(request)], items, Token(request))])
              && (!hit ==> offsetId == old(offsetId) && founds == old(founds))
              && (!hit && deletes > 0 ==> requestId == old(requestId))
              && waiting == (if !hit && deletes > 0 then old(waiting) + [Token(request)] else old(waiting))
              && (!hit && deletes == 0 ==>
                    SentNow(Sent(request, offsetId, Token(request)), old(inFlight), old(asked), old(lastId)))
    {
      hide Token, Honest;
      var nextToken := RequestToToken(request);
      if offsetId == 0 && nextToken in cache {
        requestId := 0;
        Received(cache[nextToken], items, requestId, nextToken);
        return;
      }
      if deletes > 0 {
        waiting := waiting + [nextToken];
      } else {
        Generate(nextToken);
      }
      queued := true;
    }

    /** The send callback, which reads the request and the offset when it runs. */
    method Generate(nextToken: string)
      requires IdsOk()
      modifies `requestId, `inFlight, `lastId, `asked
      ensures IdsOk() && SentNow(Sent(request, offsetId, nextToken), old(inFlight), old(asked), old(lastId))
    {
      lastId := lastId + 1;
      inFlight := inFlight[lastId := Sent(request, offsetId, nextToken)];
      asked := asked[lastId := Sent(request, offsetId, nextToken)];
      requestId := lastId;
    }

    /** A Delete request is sent: the searches in flight are cancelled and their callbacks kept back. */
    method DeleteSent()
      requires Valid()
      modifies `deletes, `inFlight, `waiting
      ensures Valid() && deletes == old(deletes) + 1 && inFlight == map[]
      ensures waiting == old(waiting) + Tokens(old(inFlight), lastId)
    {
      deletes := deletes + 1;
      for id := 1 to lastId + 1
        invariant waiting == old(waiting) + Tokens(old(inFlight), id - 1) && inFlight == old(inFlight)
        invariant deletes == old(deletes) + 1
      {
        if id in inFlight {
          waiting := waiting + [inFlight[id].token];
        }
      }
      inFlight := map[];
    }

    /** A Delete request ends.  With the last one all callbacks kept back run, and the last of them is awaited: its
        reply will be filed wrongly exactly when its token is wrong now. */
    method DeleteDone()
      requires Valid() && deletes > 0
      modifies `deletes, `waiting, `requestId, `inFlight, `lastId, `asked, `misfires
      ensures Valid() && deletes == old(deletes) - 1
      ensures deletes > 0 || old(waiting) == [] ==>
                waiting == old(waiting) && requestId == old(requestId) && inFlight == map[] && asked == old(asked)
      ensures deletes == 0 && old(waiting) != [] ==>
                && waiting == [] && requestId in inFlight
                && inFlight[requestId] == Sent(request, offsetId, old(waiting)[|old(waiting)| - 1])
      ensures AwaitsWrong() <==> deletes == 0 && old(waiting) != [] && Wrong(old(waiting)[|old(waiting)| - 1])
      ensures misfires == old(misfires) + if AwaitsWrong() then 1 else 0
      ensures forall id :: id in old(asked) ==> id in asked && asked[id] == old(asked)[id]
      ensures forall id :: id in asked && id !in old(asked) ==> id in inFlight
      ensures deletes == 0 ==> forall t :: t in old(waiting) ==> exists id :: id in asked && asked[id].token == t
    {
      hide Token;
      deletes := deletes - 1;
      if deletes > 0 || waiting == [] {
        return;
      }
      var kept := waiting;
      waiting := [];
      for i := 0 to |kept|
        invariant IdsOk() && lastId >= old(lastId) && waiting == [] && deletes == 0 && misfires == old(misfires)
        invariant i > 0 ==> requestId in inFlight && inFlight[requestId] == Sent(request, offsetId, kept[i - 1])
        invariant forall id :: id in old(asked) ==> id in asked && asked[id] == old(asked)[id]
        invariant forall id :: id in asked && id !in old(asked) ==> id in inFlight
        invariant forall k :: 0 <= k < i ==> exists id :: id in asked && asked[id].token == kept[k]
      {
        ghost var asked0 := asked;
        Generate(kept[i]);
        assert asked[lastId].token == kept[i];
        forall k | 0 <= k < i ensures exists id :: id in asked && asked[id].token == kept[k] {
          var id :| id in asked0 && asked0[id].token == kept[k];
          assert id in asked && asked[id].token == kept[k];
        }
      }
      misfires := misfires + if Wrong(kept[|kept| - 1]) then 1 else 0;
    }

    /** `searchReceived`. */
    method Received(answer: Answer, items: seq<int>, id: int, nextToken: string)
      modifies `requestId, `offsetId, `cache, `founds
      ensures id != old(requestId) ==>
                requestId == old(requestId) && offsetId == old(offsetId) && cache == old(cache) && founds == old(founds)
      ensures id == old(requestId) ==>
                && requestId == 0 && offsetId == (if answer.NotModified? || items == [] then 0 else items[|items| - 1])
                && founds == old(founds) + [if answer.NotModified? then Found([], "") else Found(items, nextToken)]
                && cache == if old(offsetId) == 0 && nextToken !in old(cache) then old(cache)[nextToken := answer] else old(cache)
    {
      if id != requestId {
        return;
      }
      var found := FoundIn(answer, items, nextToken);
      if offsetId == 0 && nextToken !in cache {
        cache := cache[nextToken := answer];
      }
      requestId := 0;
      offsetId := if found.items == [] then 0 else found.items[|found.items| - 1];
      founds := founds + [found];
    }

    /** The done handler: only the reply to the current request at the current offset is accepted.  An honest cache
        stays honest exactly unless the page is filed wrongly and the server has not given it rightly before. */
    method Reply(id: int, answer: Answer, items: seq<int>)
      requires Valid() && id in inFlight
      modifies `queued, `inFlight, `given, `requestId, `offsetId, `cache, `founds
      ensures Valid() && inFlight == old(inFlight) - {id}
      ensures given == old(given) + {Given(old(inFlight)[id].request, old(inFlight)[id].offset, answer)}
      ensures id != old(requestId) ==>
                founds == old(founds) && cache == old(cache) && offsetId == old(offsetId) && requestId == old(requestId)
      ensures id == old(requestId) ==>
                var sent := old(inFlight)[id];
                && sent.request == request && sent.offset == old(offsetId)
                && requestId == 0 && offsetId == (if answer.NotModified? || items == [] then 0 else items[|items| - 1])
                && founds == old(founds) + [if answer.NotModified? then Found([], "") else Found(items, sent.token)]
                && cache == if old(offsetId) == 0 && sent.token !in old(cache) then old(cache)[sent.token := answer] else old(cache)
      ensures (AwaitsWrong() ==> old(AwaitsWrong())) && (old(TokenCurrent()) ==> TokenCurrent())
      ensures old(Honest(cache, given)) ==>
                (Honest(cache, given) <==>
                   (id == old(requestId) && old(AwaitsWrong()) ==> Known(old(inFlight)[id].token, answer, old(given))))
    {
      hide Token, Honest, Known;
      queued := false;
      var sent := inFlight[id];
      ghost var g := Given(sent.request, sent.offset, answer);
      if Honest(cache, given) {
        FilingIff(cache, given, g, sent.token);
      }
      inFlight := inFlight - {id};
      given := given + {g};
      Received(answer, items, id, sent.token);
    }

    /** The fail handler. */
    method Failed(id: int, queryEmpty: bool)
      requires Valid() && id in inFlight
      modifies `queued, `inFlight, `requestId, `founds
      ensures Valid() && (AwaitsWrong() ==> old(AwaitsWrong())) && (old(TokenCurrent()) ==> TokenCurrent())
      ensures inFlight == old(inFlight) - {id}
      ensures requestId == if old(requestId) == id then 0 else old(requestId)
      ensures founds == if queryEmpty then old(founds) + [Found([], old(inFlight)[id].token)] else old(founds)
    {
      queued := false;
      if requestId == id {
        requestId := 0;
      }
      if queryEmpty {
        founds := founds + [Found([], inFlight[id].token)];
      }
      inFlight := inFlight - {id};
    }

    /** A search with this token was answered from the cache, waits in the history queue or was sent. */
    ghost predicate Followed(token: string)
      reads `cache, `waiting, `asked
    {
      token in cache || token in waiting || exists id :: id in asked && asked[id].token == token
    }

    /** One event.  A reply, an error or the end of a Delete that cannot occur now is skipped. */
    method Step(e: Event)
      requires Valid()
      modifies this
      ensures Valid() && request == if e.Start? then e.request else old(request)
      ensures misfires >= old(misfires)
      ensures misfires == old(misfires) && old(!AwaitsWrong() && Honest(cache, given)) ==> !AwaitsWrong() && Honest(cache, given)
      ensures misfires > old(misfires) ==> e.DeleteEnds? && AwaitsWrong()
      ensures !e.DeleteEnds? && old(TokenCurrent()) ==> TokenCurrent()
      ensures deletes == if e.DeleteStarts? then old(deletes) + 1 else if e.DeleteEnds? && old(deletes) > 0 then old(deletes) - 1
                         else old(deletes)
      ensures forall id :: id in old(asked) ==> id in asked && asked[id] == old(asked)[id]
      ensures forall token :: old(Followed(token)) ==> Followed(token)
      ensures e.Start? ==> Followed(Token(e.request))
      ensures given == if e.Replied? && e.id in old(inFlight)
                       then old(given) + {Given(old(asked)[e.id].request, old(asked)[e.id].offset, e.answer)} else old(given)
      ensures forall g :: g in given ==> g in old(given) || AnsweredBy(asked, g, e)
      ensures forall id :: id in asked && id !in inFlight && !(id in old(asked) && id !in old(inFlight)) ==> e.Closes(id)
    {
      hide Token, Honest, Known, Tokens;
      match e
      case Start(next, items) => SearchMessages(next, items);
      case More(items) => SearchMore(items);
      case DeleteStarts => DeleteSent();
      case DeleteEnds => if deletes > 0 { DeleteDone(); }
      case Replied(id, answer, items) => if id in inFlight { Reply(id, answer, items); }
      case Errored(id, queryEmpty) => if id in inFlight { Failed(id, queryEmpty); }
    }
  }

  function Shown(answer: Answer, items: seq<int>): seq<int> { if answer.NotModified? then [] else items }

  function FoundIn(answer: Answer, items: seq<int>, token: string): Found {
    if answer.NotModified? then Found([], "") else Found(items, token)
  }

  /** Filing `g.answer` under a token. */
  lemma FilingIff(cache: map<string, Answer>, given: set<Given>, g: Given, token: string)
    requires Honest(cache, given)
    ensures Honest(cache, given + {g})
    ensures Honest(cache[token := g.answer], given + {g}) <==>
              (g.offset == 0 && Token(g.request) == token) || Known(token, g.answer, given)
  {
    hide Token;
    forall t, a ensures Known(t, a, given + {g}) <==>
                        Known(t, a, given) || (g.offset == 0 && g.answer == a && Token(g.request) == t)
    {
      KnownMore(t, a, given, g);
    }
    hide Known;
    var filed := cache[token := g.answer];
    assert Honest(filed, given + {g}) ==> Known(token, filed[token], given + {g});
  }

  lemma KnownMore(token: string, answer: Answer, given: set<Given>, g: Given)
    ensures Known(token, answer, given + {g}) <==>
              Known(token, answer, given) || (g.offset == 0 && g.answer == answer && Token(g.request) == token)
  {
    hide Token;
    assert g in given + {g};
    assert forall h :: h in given ==> h in given + {g};
  }

  // ---------------------------------------------------------------- all runs

  datatype Event =
    | Start(request: Request, items: seq<int>)
    | More(items: seq<int>)
    | DeleteStarts
    | DeleteEnds
    | Replied(id: int, answer: Answer, items: seq<int>)
    | Errored(id: int, queryEmpty: bool)
  {
    predicate Closes(i: int) { DeleteStarts? || ((Replied? || Errored?) && id == i) }
  }

  function LastStarted(events: seq<Event>): Request {
    if events == [] then Request("", None, [])
    else if events[|events| - 1].Start? then events[|events| - 1].request
    else LastStarted(events[..|events| - 1])
  }

  /** Any sequence of searches, replies and Delete requests.  The awaited reply is always to the current request at
      the current offset, no callback waits while a search is in flight, and the cache is honest when no Delete
      ended with a wrong token last in the queue; without Delete requests it always is. */
  method Run(events: seq<Event>) returns (s: Search)
    ensures s.Valid() && s.request == LastStarted(events)
    ensures s.misfires == 0 ==> Honest(s.cache, s.given) && !s.AwaitsWrong()
    ensures DeleteEnds !in events ==> s.misfires == 0 && s.TokenCurrent()
    ensures forall k :: 0 <= k < |events| && events[k].Start? ==> s.Followed(Token(events[k].request))
    ensures Traced(s.asked, s.inFlight, s.given, events)
  {
    hide Token, Honest, Known, Traced, Search.Valid, Search.AwaitsWrong, Search.TokenCurrent, Search.Followed;
    s := new Search();
    NothingTraced();
    assert Honest(map[], {}) by { NothingCached(); }
    for i := 0 to |events|
      invariant fresh(s) && s.Valid() && s.request == LastStarted(events[..i])
      invariant s.misfires == 0 ==> !s.AwaitsWrong() && Honest(s.cache, s.given)
      invariant DeleteEnds !in events[..i] ==> s.misfires == 0 && s.TokenCurrent()
      invariant forall k :: 0 <= k < i && events[k].Start? ==> s.Followed(Token(events[k].request))
      invariant Traced(s.asked, s.inFlight, s.given, events[..i])
    {
      assert events[..i + 1] == events[..i] + [events[i]];
      ghost var asked0, inFlight0, given0 := s.asked, s.inFlight, s.given;
      s.Step(events[i]);
      TracedMore(asked0, inFlight0, given0, events[..i], events[i], s.asked, s.inFlight, s.given);
    }
    assert events[..|events|] == events;
  }

  lemma NothingCached()
    ensures Honest(map[], {})
  {
  }

  lemma NothingTraced()
    ensures Traced(map[], map[], {}, [])
  {
  }

  lemma TracedMore(asked0: map<int, Sent>, inFlight0: map<int, Sent>, given0: set<Given>, events: seq<Event>, e: Event,
                   asked: map<int, Sent>, inFlight: map<int, Sent>, given: set<Given>)
    requires Traced(asked0, inFlight0, given0, events)
    requires forall id :: id in asked0 ==> id in asked && asked[id] == asked0[id]
    requires forall g :: g in given ==> g in given0 || AnsweredBy(asked, g, e)
    requires forall id :: id in asked && id !in inFlight && !(id in asked0 && id !in inFlight0) ==> e.Closes(id)
    ensures Traced(asked, inFlight, given, events + [e])
  {
    var more := events + [e];
    assert more[|events|] == e && forall k :: 0 <= k < |events| ==> more[k] == events[k];
    forall g | g in given ensures exists k :: 0 <= k < |more| && AnsweredBy(asked, g, more[k]) {
      if g in given0 {
        var k :| 0 <= k < |events| && AnsweredBy(asked0, g, events[k]);
        assert AnsweredBy(asked, g, more[k]);
      } else {
        assert AnsweredBy(asked, g, more[|events|]);
      }
    }
    forall id | id in asked && id !in inFlight ensures exists k :: 0 <= k < |more| && more[k].Closes(id) {
      if id in asked0 && id !in inFlight0 {
        var k :| 0 <= k < |events| && events[k].Closes(id);
        assert more[k].Closes(id);
      } else {
        assert more[|events|].Closes(id);
      }
    }
  }

  /** Every answer that was given is the content of a reply among the events, to a request that was sent; and
      every request no longer in flight was answered, failed or was cancelled for a Delete. */
  ghost predicate Traced(asked: map<int, Sent>, inFlight: map<int, Sent>, given: set<Given>, events: seq<Event>) {
    && (forall g :: g in given ==> exists k :: 0 <= k < |events| && AnsweredBy(asked, g, events[k]))
    && (forall id :: id in asked && id !in inFlight ==> exists k :: 0 <= k < |events| && events[k].Closes(id))
  }

  ghost predicate AnsweredBy(asked: map<int, Sent>, g: Given, e: Event) {
    e.Replied? && e.id in asked && g == Given(asked[e.id].request, asked[e.id].offset, e.answer)
  }

  /** When a Delete ends with a wrong token last in the queue, the next reply makes an honest cache dishonest, unless
      the server happens to have given that very answer to a request with this token. */
  method WrongTokenMisfiles(s: Search, answer: Answer, items: seq<int>)
    requires s.Valid() && Honest(s.cache, s.given) && s.deletes == 1 && s.waiting != []
    modifies s
    ensures var token := old(s.waiting)[|old(s.waiting)| - 1];
            s.Valid() && (Honest(s.cache, s.given) <==> (old(s.Wrong(token)) ==> Known(token, answer, old(s.given))))
  {
    hide Token, Honest, Known;
    s.DeleteDone();
    s.Reply(s.requestId, answer, items);
  }

  /** It happens: "c" has no results, "a" is searched while a Delete is out, "c" is then shown from the cache, and the
      callback of "a" sends the query "c" under the token of "a". */
  method PostponedCallbackMisfiles() returns (s: Search)
    ensures s.Valid() && !Honest(s.cache, s.given)
  {
    var a, c := Request("a", None, []), Request("c", None, []);
    TokenOfQuery("a");
    TokenOfQuery("c");
    hide Token, Honest, Known;
    s := new Search();
    assert Honest(map[], {}) by { NothingCached(); }
    s.SearchMessages(c, []);
    s.Reply(s.requestId, Page(7), []);
    s.DeleteSent();
    assert s.waiting == [] by { NoTokens(s.lastId); }
    s.SearchMessages(a, []);
    s.SearchMessages(c, []);
    NothingKnown("a", Page(8), s.given);
    WrongTokenMisfiles(s, Page(8), []);
  }

  lemma {:induction false} NoTokens(last: int)
    ensures Tokens(map[], last) == []
  {
    if last > 0 { NoTokens(last - 1); }
  }

  lemma NothingKnown(token: string, answer: Answer, given: set<Given>)
    requires forall g :: g in given ==> g.offset != 0 || g.answer != answer || Token(g.request) != token
    ensures !Known(token, answer, given)
  {
  }
}
