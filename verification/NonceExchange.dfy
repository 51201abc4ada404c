/** Nonce exchanges between any number of clients and servers, any number of them at once, also of one pair. */
module NonceExchange {
  import opened Prelude
  import opened LruCache
  import opened NonceCaches
  import Base64

  type Node = string

  datatype Pair = Pair(client: Node, server: Node)

  type ExchangeId = nat

  /** How far an exchange is. */
  datatype Stage = Asked | Answered(answer: NonceCaches.Answer) | Taken(answer: NonceCaches.Answer) | Lost

  datatype Exchange = Exchange(pair: Pair, generated: bytes, stage: Stage)

  /** Each side's caches change by whole exchanges, as `NonceCaches.ExchangesAreAtomic` shows. */
  datatype World = World(clients: map<Node, Twin>, servers: map<Node, Twin>, exchanges: map<ExchangeId, Exchange>)

  const START: World := World(map[], map[], map[])

  datatype Move =
    | Ask(id: ExchangeId, pair: Pair, generated: bytes)   // the client draws a nonce and sends it
    | Serve(id: ExchangeId, drawn: bytes)                 // the server draws a nonce and answers
    | Finish(id: ExchangeId)                              // the client takes the answer
    | Fail(id: ExchangeId)                                // the request or the answer is lost

  function TwinOf(m: map<Node, Twin>, n: Node): Twin {
    if n in m then m[n] else EMPTY_TWIN
  }

  function To(x: Exchange, stage: Stage): Exchange {
    x.(stage := stage)
  }

  function Go(w: World, move: Move): World {
    if move.Ask? then
      if move.id in w.exchanges then w else w.(exchanges := w.exchanges[move.id := Exchange(move.pair, move.generated, Stage.Asked)])
    else if move.id !in w.exchanges then w
    else
      var x := w.exchanges[move.id];
      match (move, x.stage)
      case (Serve(id, drawn), Asked) =>
        var nonce := Base64.Decode(Base64.Encode(x.generated));
        if nonce.Some? && ValidNonce(nonce.value) then
          w.(servers := w.servers[x.pair.server := Keep(TwinOf(w.servers, x.pair.server), x.pair.client, nonce.value, drawn)],
             exchanges := w.exchanges[id := To(x, Answered(Granted(Base64.Encode(drawn))))])
        else w.(exchanges := w.exchanges[id := To(x, Answered(BadRequest("Invalid nonce")))])
      case (Finish(id), Answered(answer)) =>
        if answer.Granted? && Base64.Decode(answer.nonce).Some? then
          w.(clients := w.clients[x.pair.client := Keep(TwinOf(w.clients, x.pair.client), x.pair.server, Base64.Decode(answer.nonce).value, x.generated)],
             exchanges := w.exchanges[id := To(x, Taken(answer))])
        else w.(exchanges := w.exchanges[id := To(x, Lost)])
      case (Fail(id), Asked) => w.(exchanges := w.exchanges[id := To(x, Lost)])
      case (Fail(id), Answered(_)) => w.(exchanges := w.exchanges[id := To(x, Lost)])
      case _ => w
  }

  function Reached(moves: seq<Move>): World {
    if moves == [] then START else Go(Reached(moves[..|moves| - 1]), moves[|moves| - 1])
  }

  // Which exchanges of a pair were the last

  /** An exchange with the nonce of the client and that of the server. */
  datatype Trade = Trade(id: ExchangeId, client: bytes, server: bytes)

  /** The server of `p` answers an exchange in this move. */
  predicate Serves(w: World, move: Move, p: Pair) {
    move.Serve? && move.id in w.exchanges && w.exchanges[move.id].pair == p && w.exchanges[move.id].stage.Asked?
    && ValidNonce(w.exchanges[move.id].generated)
  }

  /** The client of `p` takes an answer in this move. */
  predicate Takes(w: World, move: Move, p: Pair) {
    move.Finish? && move.id in w.exchanges && w.exchanges[move.id].pair == p && w.exchanges[move.id].stage.Answered?
    && w.exchanges[move.id].stage.answer.Granted? && Base64.Decode(w.exchanges[move.id].stage.answer.nonce).Some?
  }

  /** The last exchange that the server of the pair answered. */
  function LastServed(moves: seq<Move>, p: Pair): Option<Trade> {
    if moves == [] then None
    else
      var before, move := moves[..|moves| - 1], moves[|moves| - 1];
      if Serves(Reached(before), move, p) then Some(Trade(move.id, Reached(before).exchanges[move.id].generated, move.drawn))
      else LastServed(before, p)
  }

  /** The last exchange whose answer the client of the pair took. */
  function LastTaken(moves: seq<Move>, p: Pair): Option<Trade> {
    if moves == [] then None
    else
      var before, move := moves[..|moves| - 1], moves[|moves| - 1];
      if Takes(Reached(before), move, p) then
        var x := Reached(before).exchanges[move.id];
        Some(Trade(move.id, x.generated, Base64.Decode(x.stage.answer.nonce).value))
      else LastTaken(before, p)
  }

  // What the caches hold

  /** A cache holds this nonce for `key`, unless it has forgotten it. */
  predicate Holds(c: Lru, key: string, nonce: Option<bytes>) {
    Get(c, key).None? || Get(c, key) == nonce
  }

  function Drawn(t: Option<Trade>): Option<bytes> {
    if t.None? then None else Some(t.value.server)
  }

  function Sent(t: Option<Trade>): Option<bytes> {
    if t.None? then None else Some(t.value.client)
  }

  predicate ServerHolds(w: World, p: Pair, t: Option<Trade>) {
    var s := TwinOf(w.servers, p.server);
    Holds(s.received, p.client, Sent(t)) && Holds(s.generated, p.client, Drawn(t))
  }

  predicate ClientHolds(w: World, p: Pair, t: Option<Trade>) {
    var c := TwinOf(w.clients, p.client);
    Holds(c.received, p.server, Drawn(t)) && Holds(c.generated, p.server, Sent(t))
  }

  lemma {:induction false} KeepHolds(t: Twin, key: string, received: bytes, generated: bytes, x: string, r: Option<bytes>, g: Option<bytes>)
    requires Holds(t.received, x, r) && Holds(t.generated, x, g)
    ensures var k := Keep(t, key, received, generated);
      && Holds(k.received, x, if x == key then Some(received) else r)
      && Holds(k.generated, x, if x == key then Some(generated) else g)
  {
    GetAfterPut(t.received, key, received, x);
    GetAfterPut(t.generated, key, generated, x);
  }

  lemma {:induction false} ServerStep(w: World, move: Move, p: Pair, t: Option<Trade>)
    requires ServerHolds(w, p, t)
    ensures ServerHolds(Go(w, move), p, if Serves(w, move, p) then Some(Trade(move.id, w.exchanges[move.id].generated, move.drawn)) else t)
  {
    if move.Serve? && move.id in w.exchanges && w.exchanges[move.id].stage.Asked? {
      var x := w.exchanges[move.id];
      Base64.DecodeInvertsEncode(Base64.Encode(x.generated), x.generated);
      if p.server == x.pair.server {
        KeepHolds(TwinOf(w.servers, p.server), x.pair.client, x.generated, move.drawn, p.client, Sent(t), Drawn(t));
      }
    }
  }

  lemma {:induction false} ClientStep(w: World, move: Move, p: Pair, t: Option<Trade>)
    requires ClientHolds(w, p, t)
    ensures ClientHolds(Go(w, move), p,
      if Takes(w, move, p) then
        Some(Trade(move.id, w.exchanges[move.id].generated, Base64.Decode(w.exchanges[move.id].stage.answer.nonce).value))
      else t)
  {
    if move.Finish? && move.id in w.exchanges && Takes(w, move, w.exchanges[move.id].pair) {
      var x := w.exchanges[move.id];
      if p.client == x.pair.client {
        KeepHolds(TwinOf(w.clients, p.client), x.pair.server, Base64.Decode(x.stage.answer.nonce).value, x.generated, p.server, Drawn(t), Sent(t));
      }
    }
  }

  lemma {:induction false} CachesInEveryRun(moves: seq<Move>, p: Pair)
    ensures ServerHolds(Reached(moves), p, LastServed(moves, p))
    ensures ClientHolds(Reached(moves), p, LastTaken(moves, p))
  {
    if moves != [] {
      var before, move := moves[..|moves| - 1], moves[|moves| - 1];
      CachesInEveryRun(before, p);
      ServerStep(Reached(before), move, p, LastServed(before, p));
      ClientStep(Reached(before), move, p, LastTaken(before, p));
    }
  }

  /** What is on record of an exchange fits what was served and taken. */
  predicate ServedIsOnRecord(w: World, t: Option<Trade>) {
    t.Some? ==>
      && t.value.id in w.exchanges && w.exchanges[t.value.id].generated == t.value.client
      && !w.exchanges[t.value.id].stage.Asked?
      && (!w.exchanges[t.value.id].stage.Lost? ==> w.exchanges[t.value.id].stage.answer == Granted(Base64.Encode(t.value.server)))
  }

  predicate TakenIsOnRecord(w: World, t: Option<Trade>) {
    t.Some? ==>
      && t.value.id in w.exchanges && w.exchanges[t.value.id].generated == t.value.client
      && w.exchanges[t.value.id].stage.Taken? && w.exchanges[t.value.id].stage.answer.Granted?
      && Base64.Decode(w.exchanges[t.value.id].stage.answer.nonce) == Some(t.value.server)
  }

  lemma {:induction false} TakenInEveryRun(moves: seq<Move>, p: Pair)
    ensures TakenIsOnRecord(Reached(moves), LastTaken(moves, p))
  {
    if moves != [] {
      TakenInEveryRun(moves[..|moves| - 1], p);
    }
  }

  lemma {:induction false} ServedInEveryRun(moves: seq<Move>, p: Pair)
    ensures ServedIsOnRecord(Reached(moves), LastServed(moves, p))
  {
    if moves != [] {
      var before, move := moves[..|moves| - 1], moves[|moves| - 1];
      ServedInEveryRun(before, p);
      if Serves(Reached(before), move, p) {
        var x := Reached(before).exchanges[move.id];
        Base64.DecodeInvertsEncode(Base64.Encode(x.generated), x.generated);
      }
    }
  }

  /**
   In every interleaving of exchanges, between the same two or others: if the
   last exchange that the server answered is the last one that the client
   took, then what each side received from the other is what the other
   generated, as long as neither has forgotten it.
   */
  lemma {:induction false} BothSidesAgree(moves: seq<Move>, p: Pair)
    requires LastServed(moves, p).Some? && LastTaken(moves, p).Some? && LastServed(moves, p).value.id == LastTaken(moves, p).value.id
    ensures LastServed(moves, p) == LastTaken(moves, p)
    ensures var c, s := TwinOf(Reached(moves).clients, p.client), TwinOf(Reached(moves).servers, p.server);
      && Same(Get(c.received, p.server), Get(s.generated, p.client))
      && Same(Get(c.generated, p.server), Get(s.received, p.client))
  {
    var t := LastServed(moves, p).value;
    CachesInEveryRun(moves, p);
    ServedInEveryRun(moves, p);
    TakenInEveryRun(moves, p);
    Base64.DecodeInvertsEncode(Base64.Encode(t.server), t.server);
  }

  /** Two caches do not contradict each other: where both still have a value, it is the same. */
  predicate Same(a: Option<bytes>, b: Option<bytes>) {
    a.Some? && b.Some? ==> a == b
  }

  /** Exactly: while nothing is forgotten, the sides agree if and only if the last exchange served and the last one taken have the same nonces. */
  lemma {:induction false} BothSidesAgreeIff(moves: seq<Move>, p: Pair)
    requires var c, s := TwinOf(Reached(moves).clients, p.client), TwinOf(Reached(moves).servers, p.server);
      && Get(c.received, p.server).Some? && Get(c.generated, p.server).Some?
      && Get(s.received, p.client).Some? && Get(s.generated, p.client).Some?
    ensures var c, s := TwinOf(Reached(moves).clients, p.client), TwinOf(Reached(moves).servers, p.server);
      && LastServed(moves, p).Some? && LastTaken(moves, p).Some?
      && (Get(c.received, p.server) == Get(s.generated, p.client) && Get(c.generated, p.server) == Get(s.received, p.client)
          <==> LastServed(moves, p).value.client == LastTaken(moves, p).value.client && LastServed(moves, p).value.server == LastTaken(moves, p).value.server)
  {
    CachesInEveryRun(moves, p);
  }

  /** Clients draw no nonce twice. */
  predicate FreshNonces(w: World) {
    forall i, j :: i in w.exchanges && j in w.exchanges && i != j ==> w.exchanges[i].generated != w.exchanges[j].generated
  }

  /** Then, while nothing is forgotten, the sides agree if and only if the last exchange served is the last one taken. */
  lemma {:induction false} BothSidesAgreeOnTheSame(moves: seq<Move>, p: Pair)
    requires FreshNonces(Reached(moves))
    requires var c, s := TwinOf(Reached(moves).clients, p.client), TwinOf(Reached(moves).servers, p.server);
      && Get(c.received, p.server).Some? && Get(c.generated, p.server).Some?
      && Get(s.received, p.client).Some? && Get(s.generated, p.client).Some?
    ensures var c, s := TwinOf(Reached(moves).clients, p.client), TwinOf(Reached(moves).servers, p.server);
      && LastServed(moves, p).Some? && LastTaken(moves, p).Some?
      && (Get(c.received, p.server) == Get(s.generated, p.client) && Get(c.generated, p.server) == Get(s.received, p.client)
          <==> LastServed(moves, p).value.id == LastTaken(moves, p).value.id)
  {
    BothSidesAgreeIff(moves, p);
    ServedInEveryRun(moves, p);
    TakenInEveryRun(moves, p);
    if LastServed(moves, p).value.id == LastTaken(moves, p).value.id {
      BothSidesAgree(moves, p);
    }
  }

  lemma {:induction false} KeptIsThere(t: Twin, key: string, received: bytes, generated: bytes)
    ensures var k := Keep(t, key, received, generated); Get(k.received, key) == Some(received) && Get(k.generated, key) == Some(generated)
  {
    GetAfterPut(t.received, key, received, key);
    GetAfterPut(t.generated, key, generated, key);
  }

  /** What both sides hold for the pair right after a server answered or a client took an answer. */
  lemma {:induction false} ServedIsThere(w: World, id: ExchangeId, p: Pair, n: bytes, m: bytes)
    requires id in w.exchanges && w.exchanges[id] == Exchange(p, n, Stage.Asked) && ValidNonce(n)
    ensures var v := Go(w, Serve(id, m)); var s := TwinOf(v.servers, p.server);
      && v.clients == w.clients && v.exchanges == w.exchanges[id := Exchange(p, n, Answered(Granted(Base64.Encode(m))))]
      && Get(s.received, p.client) == Some(n) && Get(s.generated, p.client) == Some(m)
  {
    Base64.DecodeInvertsEncode(Base64.Encode(n), n);
    KeptIsThere(TwinOf(w.servers, p.server), p.client, n, m);
  }

  lemma {:induction false} TakenIsThere(w: World, id: ExchangeId, p: Pair, n: bytes, m: bytes)
    requires id in w.exchanges && w.exchanges[id] == Exchange(p, n, Answered(Granted(Base64.Encode(m))))
    ensures var v := Go(w, Finish(id)); var c := TwinOf(v.clients, p.client);
      && v.servers == w.servers && v.exchanges == w.exchanges[id := Exchange(p, n, Taken(Granted(Base64.Encode(m))))]
      && Get(c.received, p.server) == Some(m) && Get(c.generated, p.server) == Some(n)
  {
    Base64.DecodeInvertsEncode(Base64.Encode(m), m);
    KeptIsThere(TwinOf(w.clients, p.client), p.server, m, n);
  }

  /** Right after an exchange with nonces as generated, both sides do have both of them. */
  lemma {:induction false} ExchangeStoresBoth(w: World, id: ExchangeId, p: Pair, n: bytes, m: bytes)
    requires id !in w.exchanges && |n| == 32 && |m| == 32
    ensures var v := Go(Go(Go(w, Ask(id, p, n)), Serve(id, m)), Finish(id));
      var c, s := TwinOf(v.clients, p.client), TwinOf(v.servers, p.server);
      && Get(c.generated, p.server) == Some(n) && Get(s.received, p.client) == Some(n)
      && Get(c.received, p.server) == Some(m) && Get(s.generated, p.client) == Some(m)
  {
    var asked := Go(w, Ask(id, p, n));
    ServedIsThere(asked, id, p, n, m);
    TakenIsThere(Go(asked, Serve(id, m)), id, p, n, m);
  }

  /**
   Whenever two exchanges of one pair are on their way, and their answers are
   taken in the other order, each side ends with the nonces of another
   exchange: nothing is forgotten, and they agree only if the nonces happen to
   be equal.
   */
  lemma {:induction false} CrossedExchangesDisagree(w: World, p: Pair, i: ExchangeId, j: ExchangeId, n1: bytes, n2: bytes, m1: bytes, m2: bytes)
    requires i != j && i in w.exchanges && j in w.exchanges
    requires w.exchanges[i] == Exchange(p, n1, Stage.Asked) && w.exchanges[j] == Exchange(p, n2, Stage.Asked)
    requires ValidNonce(n1) && ValidNonce(n2)
    ensures var v := Go(Go(Go(Go(w, Serve(i, m1)), Serve(j, m2)), Finish(j)), Finish(i));
      var c, s := TwinOf(v.clients, p.client), TwinOf(v.servers, p.server);
      && Get(c.received, p.server) == Some(m1) && Get(s.generated, p.client) == Some(m2)
      && Get(c.generated, p.server) == Some(n1) && Get(s.received, p.client) == Some(n2)
  {
    var w1 := Go(w, Serve(i, m1));
    var w2 := Go(w1, Serve(j, m2));
    var w3 := Go(w2, Finish(j));
    ServedIsThere(w, i, p, n1, m1);
    ServedIsThere(w1, j, p, n2, m2);
    TakenIsThere(w2, j, p, n2, m2);
    TakenIsThere(w3, i, p, n1, m1);
  }
}
