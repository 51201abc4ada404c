/**
 The ordered, lossless channels a task works on. A channel is what will still
 arrive before it closes; a task's doings are recorded as effects in order.
 */
module Channel {
  import opened Prelude

  /** A data channel message: a string or a binary one. */
  datatype Message = Message(isString: bool, data: bytes)

  function Binary(data: bytes): Message {
    Message(false, data)
  }

  function StringMessage(data: bytes): Message {
    Message(true, data)
  }

  /** The one-character string "0" that closes a run of binary messages. */
  const DELIMITER: Message := Message(true, ['0' as int])

  predicate IsDelimiter(m: Message) {
    m.isString && |m.data| <= 1
  }

  /** What a task does between two receives: send to its peer, or tell its application. */
  datatype Effect<+E> = Send(message: Message) | Tell(event: E)

  function SentBy<E>(e: Effect<E>): seq<Message> {
    if e.Send? then [e.message] else []
  }

  function ToldBy<E>(e: Effect<E>): seq<E> {
    if e.Tell? then [e.event] else []
  }

  function Sends<E>(es: seq<Effect<E>>): seq<Message> {
    if es == [] then [] else SentBy(es[0]) + Sends(es[1..])
  }

  function Tells<E>(es: seq<Effect<E>>): seq<E> {
    if es == [] then [] else ToldBy(es[0]) + Tells(es[1..])
  }

  function SendAll<E>(ms: seq<Message>): seq<Effect<E>> {
    if ms == [] then [] else [Send(ms[0])] + SendAll(ms[1..])
  }

  lemma {:induction false} SendsTellsAppend<E>(a: seq<Effect<E>>, b: seq<Effect<E>>)
    ensures Sends(a + b) == Sends(a) + Sends(b)
    ensures Tells(a + b) == Tells(a) + Tells(b)
  {
    if a == [] {
      assert a + b == b;
    } else {
      SendsTellsAppend(a[1..], b);
      assert (a + b)[0] == a[0] && (a + b)[1..] == a[1..] + b;
      Associative(SentBy(a[0]), Sends(a[1..]), Sends(b));
      Associative(ToldBy(a[0]), Tells(a[1..]), Tells(b));
    }
  }

  lemma {:induction false} OneEffect<E>(e: Effect<E>)
    ensures Sends([e]) == SentBy(e) && Tells([e]) == ToldBy(e)
  {
    assert [e][1..] == [];
    assert Sends([e]) == SentBy(e) + Sends<E>([]) && Tells([e]) == ToldBy(e) + Tells<E>([]);
  }

  lemma {:induction false} SendsOfSendAll<E>(ms: seq<Message>)
    ensures Sends<E>(SendAll<E>(ms)) == ms
    ensures Tells<E>(SendAll<E>(ms)) == []
  {
    if ms != [] {
      SendsOfSendAll<E>(ms[1..]);
      assert ms == [ms[0]] + ms[1..];
    }
  }

  /** The receiving end of a channel whose remaining content is `queue`. */
  class Receiver<T> {
    var queue: seq<T>

    constructor (queue: seq<T>)
      ensures this.queue == queue
    {
      this.queue := queue;
    }

    method Recv() returns (item: Option<T>)
      modifies this
      ensures item == if old(queue) == [] then None else Some(old(queue)[0])
      ensures queue == if old(queue) == [] then [] else old(queue)[1..]
    {
      if queue == [] {
        return None;
      }
      item := Some(queue[0]);
      queue := queue[1..];
    }
  }

  /** Everything a task has done so far, in order. */
  class Journal<E> {
    var trace: seq<Effect<E>>

    constructor ()
      ensures trace == []
    {
      trace := [];
    }

    method Do(effect: Effect<E>)
      modifies this
      ensures trace == old(trace) + [effect]
    {
      trace := trace + [effect];
    }
  }
}
