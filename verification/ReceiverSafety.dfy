/** What the receiver does with any messages whatsoever once it has granted the selection. */
module ReceiverSafety {
  import opened Prelude
  import opened Channel
  import opened TwoTasks
  import opened Protocol
  import opened R = Receiver

  function Drop<T>(s: seq<T>, n: nat): seq<T> {
    if n <= |s| then s[n..] else []
  }

  const STRAY: Event := FileFailed("unknown", "Received binary data without a header")

  /** What is given once the selection is granted: the agreement, the verdicts to come and the messages to come. */
  datatype Reception = Reception(cfg: ReceiverConfig, agreed: Agreement, verdicts: seq<FileVerdict>, q: seq<Message>)
  {
    /** Message `j` announces the file `id` as agreed. */
    predicate AnnouncedAt(j: nat, id: string)
      requires j < |q|
    {
      && q[j].isString && id in agreed.tokens && Listed(agreed.files, id)
      && cfg.json.header.parse(q[j].data) == Some(FileHeader(id, agreed.tokens[id]))
    }

    /** The file a message opens, judged by itself. */
    function Opens(m: Message): Option<string> {
      if !m.isString then None
      else match cfg.json.header.parse(m.data)
        case None => None
        case Some(h) =>
          if h.id in agreed.tokens && agreed.tokens[h.id] == h.token && Listed(agreed.files, h.id) then Some(h.id) else None
    }

    /** The position of the last string message before position `j`, or -1. */
    function LastString(j: nat): (i: int)
      requires j <= |q|
      ensures -1 <= i < j && (i >= 0 ==> q[i].isString) && forall k :: i < k < j ==> !q[k].isString
    {
      if j == 0 then -1 else if q[j - 1].isString then j - 1 else LastString(j - 1)
    }

    /** The file that is open when message `j` arrives: the one opened by the last string message. */
    function OpenAt(j: nat): Option<string>
      requires j <= |q|
    {
      var i := LastString(j);
      if i < 0 then None else Opens(q[i])
    }

    /** The end delimiter ends the transfer, but only if it finds a file open. */
    predicate EndsAt(j: nat)
      requires j < |q|
    {
      IsDelimiter(q[j]) && OpenAt(j).Some?
    }

    predicate BreaksAt(j: nat)
      requires j < |q|
    {
      q[j].isString && !EndsAt(j) && cfg.json.header.parse(q[j].data) == None
    }

    /** How far the messages are read: up to and including the first that ends or breaks the transfer. */
    function ReadUpTo(from: nat): (n: nat)
      requires from <= |q|
      ensures from <= n <= |q|
      decreases |q| - from
    {
      if from == |q| then from else if EndsAt(from) || BreaksAt(from) then from + 1 else ReadUpTo(from + 1)
    }

    /** The file that message `j` closes, if it is a string message and finds one open. */
    function ClosesAt(j: nat): (ids: seq<string>)
      ensures |ids| <= 1
    {
      if j < |q| && q[j].isString && OpenAt(j).Some? then [OpenAt(j).value] else []
    }

    /** The ids of the files that are closed by the first `j` messages, in order. */
    function ClosedBefore(j: nat): seq<string> {
      UpTo((i: nat) => ClosesAt(i), j)
    }

    function VerdictsAt(j: nat): seq<FileVerdict> {
      Drop(verdicts, |ClosedBefore(j)|)
    }

    function ResponseMessage(id: string, left: seq<FileVerdict>): Message {
      StringMessage(cfg.json.fileResponse.show(R.Response(id, left)))
    }

    /** The response message `j` leads to: it takes the next verdict. */
    function RespondsAt(j: nat): seq<Message> {
      if ClosesAt(j) == [] then [] else [ResponseMessage(ClosesAt(j)[0], VerdictsAt(j))]
    }

    /** What message `j` must lead to if it is a binary one: its data goes to the open file, or it is reported. */
    function FateAt(j: nat): seq<Event> {
      if j >= |q| || q[j].isString then []
      else [if OpenAt(j).Some? then FileData(OpenAt(j).value, q[j].data) else STRAY]
    }

    /** The reply to a message that announces a file. */
    function Announcement(h: FileHeader): Event {
      if h.id !in agreed.tokens then FileFailed(h.id, "File not found")
      else if h.token != agreed.tokens[h.id] then FileFailed(h.id, "Invalid token")
      else if !Listed(agreed.files, h.id) then FileFailed(h.id, "File not found in file list")
      else FileOpened(h.id)
    }

    function AnnouncesAt(j: nat): seq<Event> {
      if j >= |q| || !q[j].isString || EndsAt(j) || BreaksAt(j) then []
      else [Announcement(cfg.json.header.parse(q[j].data).value)]
    }

    /** What message `j` makes the receiver do, by looking back at the messages before it. */
    function DoneAt(j: nat): seq<Doing> {
      if ClosesAt(j) != [] then
        if AnnouncesAt(j) == [] then [Tell(FileClosed(ClosesAt(j)[0])), Send(RespondsAt(j)[0])]
        else [Tell(FileClosed(ClosesAt(j)[0])), Send(RespondsAt(j)[0]), Tell(AnnouncesAt(j)[0])]
      else if AnnouncesAt(j) != [] then [Tell(AnnouncesAt(j)[0])]
      else if FateAt(j) != [] then [Tell(FateAt(j)[0])]
      else []
    }

    /** Where the receiver is after the first `j` messages, if none of them ended the transfer. */
    function WaitsAt(j: nat): ReceiverCtl
      requires j <= |q|
    {
      AwaitFiles(agreed, OpenAt(j), VerdictsAt(j))
    }

    /** Where message `j` leaves the receiver. */
    function LeftAt(j: nat): ReceiverCtl
      requires j < |q|
    {
      if EndsAt(j) then ReceiverDone(Received(agreed))
      else if BreaksAt(j) then ReceiverDone(ReceiveFailed)
      else WaitsAt(j + 1)
    }

    /** Everything the receiver does. */
    function Outcome(): Outcome<ReceiverCtl, Event> {
      Run(ReceiverTask(cfg), AwaitFiles(agreed, None, verdicts), q)
    }
  }

  // One message

  lemma {:induction false} VerdictsStep(t: Reception, j: nat)
    ensures t.VerdictsAt(j + 1) == if t.ClosesAt(j) == [] then t.VerdictsAt(j) else Tail(t.VerdictsAt(j))
  {
    assert t.ClosedBefore(j + 1) == t.ClosedBefore(j) + t.ClosesAt(j);
  }

  lemma {:induction false} OneString(t: Reception, j: nat)
    requires j < |t.q| && t.q[j].isString
    ensures R.OnFiles(t.cfg, t.agreed, t.OpenAt(j), t.VerdictsAt(j), Some(t.q[j])) == Reaction(t.DoneAt(j), t.LeftAt(j))
  {
    VerdictsStep(t, j);
    assert t.LastString(j + 1) == j;
    assert t.OpenAt(j + 1) == t.Opens(t.q[j]);
    if !t.EndsAt(j) && !t.BreaksAt(j) {
      OneHeader(t, j);
    }
  }

  /** A header opens its file, or is answered by a report. */
  lemma {:induction false} OneHeader(t: Reception, j: nat)
    requires j < |t.q| && t.q[j].isString && !t.EndsAt(j) && !t.BreaksAt(j)
    ensures R.OpenFile(t.agreed, t.cfg.json.header.parse(t.q[j].data).value) == Opening([Tell(t.AnnouncesAt(j)[0])], t.Opens(t.q[j]))
  {
  }

  lemma {:induction false} OneBinary(t: Reception, j: nat)
    requires j < |t.q| && !t.q[j].isString
    ensures R.OnFiles(t.cfg, t.agreed, t.OpenAt(j), t.VerdictsAt(j), Some(t.q[j])) == Reaction(t.DoneAt(j), t.LeftAt(j))
  {
    VerdictsStep(t, j);
    assert t.LastString(j + 1) == t.LastString(j);
  }

  lemma {:induction false} OneMessage(t: Reception, j: nat)
    requires j < |t.q|
    ensures var rest := Run(ReceiverTask(t.cfg), t.LeftAt(j), t.q[j + 1..]);
      Run(ReceiverTask(t.cfg), t.WaitsAt(j), t.q[j..]) == rest.(effects := t.DoneAt(j) + rest.effects)
  {
    if t.q[j].isString {
      OneString(t, j);
    } else {
      OneBinary(t, j);
    }
    ReactionFirst(t.cfg, t.WaitsAt(j), t.q, j);
  }

  lemma {:induction false} ReactionFirst(cfg: ReceiverConfig, ctl: ReceiverCtl, q: seq<Message>, j: nat)
    requires j < |q| && !ctl.ReceiverDone?
    ensures var r := R.React(cfg, ctl, Some(q[j]));
      var rest := Run(ReceiverTask(cfg), r.next, q[j + 1..]);
      Run(ReceiverTask(cfg), ctl, q[j..]) == rest.(effects := r.effects + rest.effects)
  {
    assert q[j..][0] == q[j] && q[j..][1..] == q[j + 1..];
    RunFirst(ReceiverTask(cfg), ctl, q[j..]);
  }

  // All messages

  function DoneBefore(t: Reception, j: nat): seq<Doing> {
    UpTo((i: nat) => t.DoneAt(i), j)
  }

  /** Where the receiver is when it has read all it reads. */
  function EndsUp(t: Reception, from: nat, to: nat): ReceiverCtl
    requires from <= to <= |t.q|
  {
    if from == to then t.WaitsAt(from) else t.LeftAt(to - 1)
  }

  lemma {:induction false} LoopStep(t: Reception, from: nat)
    requires from < |t.q|
    ensures var rest := Run(ReceiverTask(t.cfg), t.LeftAt(from), t.q[from + 1..]);
      var o := Run(ReceiverTask(t.cfg), t.WaitsAt(from), t.q[from..]);
      && DoneBefore(t, from) + o.effects == DoneBefore(t, from + 1) + rest.effects
      && o.ctl == rest.ctl && o.unread == rest.unread
  {
    OneMessage(t, from);
    var rest := Run(ReceiverTask(t.cfg), t.LeftAt(from), t.q[from + 1..]);
    assert DoneBefore(t, from + 1) == DoneBefore(t, from) + t.DoneAt(from);
    Associative(DoneBefore(t, from), t.DoneAt(from), rest.effects);
  }

  /** From message `from` on, the loop does what `DoneAt` says and reads up to message `n`. */
  ghost predicate LooksBack(t: Reception, from: nat, n: nat)
    requires from <= n <= |t.q|
  {
    var o := Run(ReceiverTask(t.cfg), t.WaitsAt(from), t.q[from..]);
    DoneBefore(t, from) + o.effects == DoneBefore(t, n) && o.ctl == EndsUp(t, from, n) && o.unread == t.q[n..]
  }

  lemma {:induction false} LoopAtEnd(t: Reception, n: nat)
    requires n == |t.q|
    ensures LooksBack(t, n, n)
  {
    NothingLeft(ReceiverTask(t.cfg), t.WaitsAt(n), t.q[n..]);
    assert DoneBefore(t, n) + [] == DoneBefore(t, n);
  }

  lemma {:induction false} LoopLast(t: Reception, j: nat)
    requires j < |t.q| && (t.EndsAt(j) || t.BreaksAt(j))
    ensures LooksBack(t, j, j + 1)
  {
    LoopStep(t, j);
    NothingLeft(ReceiverTask(t.cfg), t.LeftAt(j), t.q[j + 1..]);
    assert DoneBefore(t, j + 1) + [] == DoneBefore(t, j + 1);
  }

  lemma {:induction false} LoopGoesOn(t: Reception, from: nat, n: nat)
    requires from < n <= |t.q| && !t.EndsAt(from) && !t.BreaksAt(from)
    requires LooksBack(t, from + 1, n)
    ensures LooksBack(t, from, n)
  {
    LoopStep(t, from);
  }

  lemma {:induction false} LoopFrom(t: Reception, from: nat)
    requires from <= |t.q|
    ensures LooksBack(t, from, t.ReadUpTo(from))
    decreases |t.q| - from
  {
    if from == |t.q| {
      LoopAtEnd(t, from);
    } else if t.EndsAt(from) || t.BreaksAt(from) {
      LoopLast(t, from);
    } else {
      LoopFrom(t, from + 1);
      LoopGoesOn(t, from, t.ReadUpTo(from + 1));
    }
  }

  lemma {:induction false} ReadUpToMeans(t: Reception, from: nat)
    requires from <= |t.q|
    ensures var n := t.ReadUpTo(from);
      && (forall j :: from <= j < n - 1 ==> !t.EndsAt(j) && !t.BreaksAt(j))
      && (n < |t.q| ==> n > from && (t.EndsAt(n - 1) || t.BreaksAt(n - 1)))
    decreases |t.q| - from
  {
    if from < |t.q| && !t.EndsAt(from) && !t.BreaksAt(from) {
      ReadUpToMeans(t, from + 1);
    }
  }

  /**
   The receive loop keeps state from message to message; what it does is
   nevertheless given, message by message, by looking back at what arrived.
   It reads up to and including the first message that ends or breaks the
   transfer, or else everything.
   */
  lemma {:induction false} LoopLooksBack(t: Reception)
    ensures var n := t.ReadUpTo(0);
      && t.Outcome() == Outcome(DoneBefore(t, n), EndsUp(t, 0, n), t.q[n..])
      && (forall j :: 0 <= j < n - 1 ==> !t.EndsAt(j) && !t.BreaksAt(j))
      && (n < |t.q| ==> n > 0 && (t.EndsAt(n - 1) || t.BreaksAt(n - 1)))
  {
    ReadUpToMeans(t, 0);
    LoopFrom(t, 0);
    assert t.q[0..] == t.q && t.VerdictsAt(0) == t.verdicts && t.WaitsAt(0) == AwaitFiles(t.agreed, None, t.verdicts);
    assert DoneBefore(t, 0) + t.Outcome().effects == t.Outcome().effects;
  }

  // Consequences for an arbitrary queue

  lemma {:induction false} OpenedAsAgreed(t: Reception, j: nat, id: string)
    requires Tell(FileOpened(id)) in t.DoneAt(j)
    ensures j < |t.q| && t.AnnouncedAt(j, id)
  {
  }

  /** Message `j` is a chunk, and the last string message before it announced its file as agreed. */
  predicate ChunkAt(t: Reception, j: nat, id: string, data: bytes)
    requires j < |t.q|
  {
    t.q[j] == Binary(data) && t.LastString(j) >= 0 && t.AnnouncedAt(t.LastString(j), id)
  }

  lemma {:induction false} DataAsAgreed(t: Reception, j: nat, id: string, data: bytes)
    requires Tell(FileData(id, data)) in t.DoneAt(j)
    ensures j < |t.q| && ChunkAt(t, j, id, data)
  {
  }

  /**
   Every file that is published was selected, is in the file list, and was
   announced with the token issued for it.
   */
  lemma {:induction false} PublishedOnlyAsAgreed(t: Reception, id: string)
    requires Tell(FileOpened(id)) in t.Outcome().effects
    ensures exists j :: 0 <= j < |t.q| && t.AnnouncedAt(j, id)
    ensures id in t.agreed.tokens && exists f :: f in t.agreed.files && f.id == id
  {
    LoopLooksBack(t);
    var j := Somewhere((i: nat) => t.DoneAt(i), t.ReadUpTo(0), Tell(FileOpened(id)));
    OpenedAsAgreed(t, j, id);
  }

  /** Every chunk that is published came in a binary message, and the last string message before it announced its file as agreed. */
  lemma {:induction false} DataOnlyAsAgreed(t: Reception, id: string, data: bytes)
    requires Tell(FileData(id, data)) in t.Outcome().effects
    ensures exists j :: 0 <= j < |t.q| && ChunkAt(t, j, id, data)
  {
    LoopLooksBack(t);
    var j := Somewhere((i: nat) => t.DoneAt(i), t.ReadUpTo(0), Tell(FileData(id, data)));
    DataAsAgreed(t, j, id, data);
  }

  predicate IsFate(e: Event) {
    e.FileData? || e == STRAY
  }

  function FateOf(e: Doing): seq<Event> {
    if e.Tell? && IsFate(e.event) then [e.event] else []
  }

  /** What is told about binary messages, in order. */
  function Fates(es: seq<Doing>): seq<Event> {
    if es == [] then [] else FateOf(es[0]) + Fates(es[1..])
  }

  lemma {:induction false} FatesAppend(a: seq<Doing>, b: seq<Doing>)
    ensures Fates(a + b) == Fates(a) + Fates(b)
  {
    if a == [] {
      assert a + b == b;
    } else {
      FatesAppend(a[1..], b);
      assert (a + b)[1..] == a[1..] + b;
      Associative(FateOf(a[0]), Fates(a[1..]), Fates(b));
    }
  }

  lemma {:induction false} FatesUpTo(f: nat -> seq<Doing>, g: nat -> seq<Event>, n: nat)
    requires forall j: nat :: j < n ==> Fates(f(j)) == g(j)
    ensures Fates(UpTo(f, n)) == UpTo(g, n)
  {
    if n > 0 {
      FatesUpTo(f, g, n - 1);
      FatesAppend(UpTo(f, n - 1), f(n - 1));
    }
  }

  lemma {:induction false} SendsUpTo(f: nat -> seq<Doing>, g: nat -> seq<Message>, n: nat)
    requires forall j: nat :: j < n ==> Sends(f(j)) == g(j)
    ensures Sends(UpTo(f, n)) == UpTo(g, n)
  {
    if n > 0 {
      SendsUpTo(f, g, n - 1);
      SendsTellsAppend(UpTo(f, n - 1), f(n - 1));
    }
  }

  lemma {:induction false} SendsOfThree<E>(a: Effect<E>, b: Effect<E>, c: Effect<E>)
    ensures Sends([a]) == SentBy(a) && Sends([a, b]) == SentBy(a) + SentBy(b)
    ensures Sends([a, b, c]) == SentBy(a) + SentBy(b) + SentBy(c)
  {
    OneEffect(a);
    OneEffect(b);
    OneEffect(c);
    SendsTellsAppend([a], [b]);
    SendsTellsAppend([a, b], [c]);
  }

  lemma {:induction false} FatesOfOne(e: Doing)
    ensures Fates([e]) == FateOf(e)
  {
    assert [e][1..] == [];
    assert Fates([e]) == FateOf(e) + Fates([]);
  }

  lemma {:induction false} FatesOfThree(a: Doing, b: Doing, c: Doing)
    ensures Fates([a]) == FateOf(a) && Fates([a, b]) == FateOf(a) + FateOf(b)
    ensures Fates([a, b, c]) == FateOf(a) + FateOf(b) + FateOf(c)
  {
    FatesOfOne(a);
    FatesOfOne(b);
    FatesOfOne(c);
    FatesAppend([a], [b]);
    FatesAppend([a, b], [c]);
  }

  lemma {:induction false} SendsAt(t: Reception, j: nat)
    ensures Sends(t.DoneAt(j)) == t.RespondsAt(j)
  {
    var es := t.DoneAt(j);
    if es != [] {
      SendsOfThree(es[0], if |es| > 1 then es[1] else es[0], if |es| > 2 then es[2] else es[0]);
    }
  }

  lemma {:induction false} OthersAreNoFates(t: Reception, h: FileHeader, id: string, m: Message)
    ensures FateOf(Tell(t.Announcement(h))) == [] && FateOf(Tell(FileClosed(id))) == [] && FateOf(Send(m)) == []
  {
    assert |"File not found"| != |STRAY.error| && |"Invalid token"| != |STRAY.error| && |"File not found in file list"| != |STRAY.error|;
  }

  lemma {:induction false} FatesOfString(t: Reception, j: nat)
    requires j < |t.q| && t.q[j].isString
    ensures Fates(t.DoneAt(j)) == []
  {
    var es := t.DoneAt(j);
    if es != [] {
      var header := t.cfg.json.header.parse(t.q[j].data);
      OthersAreNoFates(t, if header.Some? then header.value else FileHeader("", ""),
                       if t.ClosesAt(j) != [] then t.ClosesAt(j)[0] else "",
                       if t.RespondsAt(j) != [] then t.RespondsAt(j)[0] else t.q[j]);
      FatesOfThree(es[0], if |es| > 1 then es[1] else es[0], if |es| > 2 then es[2] else es[0]);
    }
  }

  lemma {:induction false} FatesAt(t: Reception, j: nat)
    ensures Fates(t.DoneAt(j)) == t.FateAt(j)
  {
    if j < |t.q| && t.q[j].isString {
      FatesOfString(t, j);
    } else if j < |t.q| {
      FatesOfOne(Tell(t.FateAt(j)[0]));
    }
  }

  /** Every binary message that is read goes to the open file or is reported, in order, and nothing else does. */
  lemma {:induction false} EveryBinaryHasItsFate(t: Reception)
    ensures Fates(t.Outcome().effects) == UpTo((j: nat) => t.FateAt(j), t.ReadUpTo(0))
  {
    LoopLooksBack(t);
    forall j: nat ensures Fates(t.DoneAt(j)) == t.FateAt(j) {
      FatesAt(t, j);
    }
    FatesUpTo((j: nat) => t.DoneAt(j), (j: nat) => t.FateAt(j), t.ReadUpTo(0));
  }

  /** Each closed file gets one response, in order, and each response takes the next verdict. */
  ghost predicate Paired(t: Reception, ids: seq<string>, ms: seq<Message>) {
    |ms| == |ids| && forall k :: 0 <= k < |ids| ==> ms[k] == t.ResponseMessage(ids[k], Drop(t.verdicts, k))
  }

  lemma {:induction false} PairedOnce(t: Reception, ids: seq<string>, ms: seq<Message>, id: string, m: Message)
    requires Paired(t, ids, ms) && m == t.ResponseMessage(id, Drop(t.verdicts, |ids|))
    ensures Paired(t, ids + [id], ms + [m])
  {
  }

  lemma {:induction false} PairedAt(t: Reception, j: nat, ms: seq<Message>)
    requires Paired(t, t.ClosedBefore(j), ms)
    ensures Paired(t, t.ClosedBefore(j) + t.ClosesAt(j), ms + t.RespondsAt(j))
  {
    var ids, closes := t.ClosedBefore(j), t.ClosesAt(j);
    if closes == [] {
      assert ids + closes == ids && ms + t.RespondsAt(j) == ms;
    } else {
      PairedOnce(t, ids, ms, closes[0], t.RespondsAt(j)[0]);
      assert closes == [closes[0]];
    }
  }

  lemma {:induction false} PairedInOrder(t: Reception, n: nat)
    ensures Paired(t, t.ClosedBefore(n), UpTo((j: nat) => t.RespondsAt(j), n))
  {
    if n > 0 {
      var sofar := UpTo((j: nat) => t.RespondsAt(j), n - 1);
      PairedInOrder(t, n - 1);
      PairedAt(t, n - 1, sofar);
      assert t.ClosedBefore(n) == t.ClosedBefore(n - 1) + t.ClosesAt(n - 1);
      assert UpTo((j: nat) => t.RespondsAt(j), n) == sofar + t.RespondsAt(n - 1);
    }
  }

  /**
   The responses sent are exactly those to the files closed by a later string
   message, in order, and the k-th carries the k-th verdict.
   */
  lemma {:induction false} ResponsesAreExact(t: Reception)
    ensures Paired(t, t.ClosedBefore(t.ReadUpTo(0)), Sends(t.Outcome().effects))
  {
    LoopLooksBack(t);
    forall j: nat ensures Sends(t.DoneAt(j)) == t.RespondsAt(j) {
      SendsAt(t, j);
    }
    SendsUpTo((j: nat) => t.DoneAt(j), (j: nat) => t.RespondsAt(j), t.ReadUpTo(0));
    PairedInOrder(t, t.ReadUpTo(0));
  }

  /**
   What a response says. The k-th is for the k-th closed file; it reports a
   success if and only if the application's k-th verdict is one, and otherwise
   an error: the application's own, or one for its silence.
   */
  lemma {:induction false} ResponsesSayVerdicts(t: Reception, k: nat)
    requires RoundTrips(t.cfg.json.fileResponse) && k < |Sends(t.Outcome().effects)|
    ensures var sent, ids := Sends(t.Outcome().effects), t.ClosedBefore(t.ReadUpTo(0));
      var r := t.cfg.json.fileResponse.parse(sent[k].data);
      && |sent| == |ids| && sent[k].isString && r.Some? && r.value.id == ids[k]
      && (r.value.success <==> k < |t.verdicts| && t.verdicts[k].success)
      && (r.value.error.None? <==> r.value.success)
      && (k >= |t.verdicts| ==> r.value.error == Some("Failed to receive file result"))
      && (k < |t.verdicts| && !t.verdicts[k].success ==>
           r.value.error == if t.verdicts[k].error.Some? then t.verdicts[k].error else Some("Unknown error"))
  {
    var ids, left := t.ClosedBefore(t.ReadUpTo(0)), Drop(t.verdicts, k);
    ResponsesAreExact(t);
    assert Sends(t.Outcome().effects)[k] == t.ResponseMessage(ids[k], left);
    var response := R.Response(ids[k], left);
    assert t.cfg.json.fileResponse.parse(t.cfg.json.fileResponse.show(response)) == Some(response);
    assert k < |t.verdicts| ==> left[0] == t.verdicts[k];
  }

  // The loop itself

  /** The open file's stream ends, and the application's verdict on it is passed on. */
  method FinishFile(cfg: ReceiverConfig, id: string, journal: Journal<Event>, results: Receiver<FileVerdict>)
    modifies journal, results
    ensures journal.trace == old(journal.trace) + CloseFile(cfg, id, old(results.queue))
    ensures results.queue == Tail(old(results.queue))
  {
    journal.Do(Tell(FileClosed(id)));
    var verdict := results.Recv();
    var error :=
      if verdict.None? then Some("Failed to receive file result")
      else if verdict.value.success then None
      else Some(if verdict.value.error.Some? then verdict.value.error.value else "Unknown error");
    journal.Do(Send(StringMessage(cfg.json.fileResponse.show(SendFileResponse(id, error.None?, error)))));
  }

  method BeginFile(agreed: Agreement, header: FileHeader, journal: Journal<Event>) returns (open: Option<string>)
    modifies journal
    ensures Opening(journal.trace, open) == var o := OpenFile(agreed, header); o.(effects := old(journal.trace) + o.effects)
  {
    open := None;
    if header.id !in agreed.tokens {
      journal.Do(Tell(FileFailed(header.id, "File not found")));
    } else if header.token != agreed.tokens[header.id] {
      journal.Do(Tell(FileFailed(header.id, "Invalid token")));
    } else if !Listed(agreed.files, header.id) {
      journal.Do(Tell(FileFailed(header.id, "File not found in file list")));
    } else {
      open := Some(header.id);
      journal.Do(Tell(FileOpened(header.id)));
    }
  }

  // An application that drops the channel of a file

  predicate IsData(e: Doing) {
    e.Tell? && e.event.FileData?
  }

  function DataIn(es: seq<Doing>): nat {
    if es == [] then 0 else DataIn(es[..|es| - 1]) + if IsData(es[|es| - 1]) then 1 else 0
  }

  /** What is done before more than `n` chunks are published. */
  function UpToData(es: seq<Doing>, n: nat): seq<Doing> {
    if es == [] then [] else if DataIn(es) <= n then es else UpToData(es[..|es| - 1], n)
  }

  lemma {:induction false} DataInSnoc(es: seq<Doing>, e: Doing)
    ensures DataIn(es + [e]) == DataIn(es) + if IsData(e) then 1 else 0
  {
    assert (es + [e])[..|es|] == es;
  }

  lemma {:induction false} NoDataIn(es: seq<Doing>, more: seq<Doing>)
    requires forall e :: e in more ==> !IsData(e)
    ensures DataIn(es + more) == DataIn(es)
  {
    if more == [] {
      assert es + more == es;
    } else {
      var front, last := more[..|more| - 1], more[|more| - 1];
      NoDataIn(es, front);
      assert es + more == es + front + [last];
      DataInSnoc(es + front, last);
    }
  }

  lemma {:induction false} DataGrows(es: seq<Doing>, more: seq<Doing>)
    ensures DataIn(es) <= DataIn(es + more)
  {
    if more == [] {
      assert es + more == es;
    } else {
      var front, last := more[..|more| - 1], more[|more| - 1];
      DataGrows(es, front);
      assert es + more == es + front + [last];
      DataInSnoc(es + front, last);
    }
  }

  /** The first chunk too many is where it stops. */
  lemma {:induction false} StopsThere(es: seq<Doing>, e: Doing, rest: seq<Doing>)
    requires IsData(e)
    ensures UpToData(es + [e] + rest, DataIn(es)) == es
  {
    var all := es + [e] + rest;
    DataInSnoc(es, e);
    DataGrows(es + [e], rest);
    if rest == [] {
      assert all == es + [e] && all[..|all| - 1] == es;
      assert es != [] ==> UpToData(es, DataIn(es)) == es;
    } else {
      StopsThere(es, e, rest[..|rest| - 1]);
      assert all[..|all| - 1] == es + [e] + rest[..|rest| - 1];
    }
  }

  /** What the receiver does with what is still to come, if the application takes any number of chunks. */
  function Receiving(cfg: ReceiverConfig, agreed: Agreement, open: Option<string>, verdicts: seq<FileVerdict>, q: seq<Message>): Next {
    RunToClose(cfg, AwaitFiles(agreed, open, verdicts), q)
  }

  /** The loop, up to the first chunk that the application does not take because it has dropped the channel of the file. */
  ghost predicate StopsAsTaken(full: Next, patience: Option<nat>, es: seq<Doing>, result: ReceiverResult) {
    if patience.Some? && DataIn(full.effects) > patience.value then
      es == UpToData(full.effects, patience.value) && result == ReceiveFailed
    else
      full == Reaction(es, ReceiverDone(result))
  }

  /** The loop has done `done`, with `taken` chunks in it, and `rest` is still to come. */
  ghost predicate Midway(full: Next, patience: Option<nat>, done: seq<Doing>, taken: nat, rest: Next) {
    full == R.Then(done, rest) && taken == DataIn(done) && (patience.Some? ==> taken <= patience.value)
  }

  lemma {:induction false} Untouched(full: Next, patience: Option<nat>, start: seq<Doing>)
    ensures Midway(full, patience, [], 0, full) && start + [] == start
  {
    assert [] + full.effects == full.effects;
  }

  lemma {:induction false} StringStep(cfg: ReceiverConfig, agreed: Agreement, open: Option<string>, verdicts: seq<FileVerdict>, q: seq<Message>,
                                      full: Next, patience: Option<nat>, done: seq<Doing>, taken: nat)
    requires q != [] && q[0].isString && Midway(full, patience, done, taken, Receiving(cfg, agreed, open, verdicts, q))
    ensures var r := R.OnFiles(cfg, agreed, open, verdicts, Some(q[0]));
      Midway(full, patience, done + r.effects, taken, RunToClose(cfg, r.next, q[1..]))
  {
    OneRead(cfg, agreed, open, verdicts, q, done);
    StringsBringNoData(cfg, agreed, open, verdicts, q[0], done);
  }

  lemma {:induction false} BinaryStep(cfg: ReceiverConfig, agreed: Agreement, open: Option<string>, verdicts: seq<FileVerdict>, q: seq<Message>,
                                      full: Next, patience: Option<nat>, done: seq<Doing>, taken: nat)
    requires q != [] && !q[0].isString && Midway(full, patience, done, taken, Receiving(cfg, agreed, open, verdicts, q))
    requires open.None? || patience != Some(taken)
    ensures var e := Tell(if open.Some? then FileData(open.value, q[0].data) else STRAY);
      Midway(full, patience, done + [e], if open.Some? then taken + 1 else taken, Receiving(cfg, agreed, open, verdicts, q[1..]))
  {
    OneRead(cfg, agreed, open, verdicts, q, done);
    DataInSnoc(done, Tell(if open.Some? then FileData(open.value, q[0].data) else STRAY));
  }

  lemma {:induction false} DropStep(cfg: ReceiverConfig, agreed: Agreement, open: Option<string>, verdicts: seq<FileVerdict>, q: seq<Message>,
                                    full: Next, patience: Option<nat>, done: seq<Doing>, taken: nat)
    requires q != [] && !q[0].isString && Midway(full, patience, done, taken, Receiving(cfg, agreed, open, verdicts, q))
    requires open.Some? && patience == Some(taken)
    ensures StopsAsTaken(full, patience, done, ReceiveFailed)
  {
    var e, rest := Tell(FileData(open.value, q[0].data)), Receiving(cfg, agreed, open, verdicts, q[1..]).effects;
    OneRead(cfg, agreed, open, verdicts, q, done);
    DataInSnoc(done, e);
    DataGrows(done + [e], rest);
    StopsThere(done, e, rest);
  }

  lemma {:induction false} EndStep(cfg: ReceiverConfig, result: ReceiverResult, q: seq<Message>, full: Next, patience: Option<nat>, done: seq<Doing>, taken: nat)
    requires Midway(full, patience, done, taken, RunToClose(cfg, ReceiverDone(result), q))
    ensures StopsAsTaken(full, patience, done, result)
  {
    NoMore(cfg, result, q, done);
  }

  lemma {:induction false} CloseStep(cfg: ReceiverConfig, agreed: Agreement, open: Option<string>, verdicts: seq<FileVerdict>,
                                     full: Next, patience: Option<nat>, done: seq<Doing>, taken: nat)
    requires Midway(full, patience, done, taken, Receiving(cfg, agreed, open, verdicts, []))
    ensures StopsAsTaken(full, patience, done + if open.Some? then [Tell(FileClosed(open.value))] else [], Interrupted(agreed))
  {
    var closing := if open.Some? then [Tell(FileClosed(open.value))] else [];
    NothingRead(cfg, agreed, open, verdicts, done);
    NoDataIn(done, closing);
  }

  lemma {:induction false} StringsBringNoData(cfg: ReceiverConfig, agreed: Agreement, open: Option<string>, verdicts: seq<FileVerdict>, m: Message, es: seq<Doing>)
    requires m.isString
    ensures DataIn(es + R.OnFiles(cfg, agreed, open, verdicts, Some(m)).effects) == DataIn(es)
  {
    NoDataIn(es, R.OnFiles(cfg, agreed, open, verdicts, Some(m)).effects);
  }

  /** A string message ends the open file, and the transfer or the next file begins with it. */
  method ReceiveString(cfg: ReceiverConfig, agreed: Agreement, open: Option<string>, m: Message, journal: Journal<Event>, results: Receiver<FileVerdict>)
    returns (end: Option<ReceiverResult>, file: Option<string>)
    requires m.isString
    modifies journal, results
    ensures var r := R.OnFiles(cfg, agreed, open, old(results.queue), Some(m));
      && journal.trace == old(journal.trace) + r.effects
      && r.next == if end.Some? then ReceiverDone(end.value) else AwaitFiles(agreed, file, results.queue)
  {
    ghost var before, closing := journal.trace, [];
    file := None;
    if open.Some? {
      closing := CloseFile(cfg, open.value, results.queue);
      FinishFile(cfg, open.value, journal, results);
      if IsDelimiter(m) {
        assert closing + [] == closing;
        return Some(Received(agreed)), None;
      }
    }
    assert journal.trace == before + closing;
    var header := cfg.json.header.parse(m.data);
    if header.None? {
      assert closing + [] == closing;
      return Some(ReceiveFailed), None;
    }
    end := None;
    file := BeginFile(agreed, header.value, journal);
    Associative(before, closing, OpenFile(agreed, header.value).effects);
  }

  method EndOfMessages(open: Option<string>, journal: Journal<Event>) returns (ghost closing: seq<Doing>)
    modifies journal
    ensures closing == if open.Some? then [Tell(FileClosed(open.value))] else []
    ensures journal.trace == old(journal.trace) + closing
  {
    closing := if open.Some? then [Tell(FileClosed(open.value))] else [];
    if open.Some? {
      journal.Do(Tell(FileClosed(open.value)));
    }
  }

  /** The receive loop. The application takes `patience` chunks, if any number, before it drops the channel of the file that is open. */
  method ReceiveFiles(cfg: ReceiverConfig, agreed: Agreement, journal: Journal<Event>, rx: Receiver<Message>, results: Receiver<FileVerdict>,
                      patience: Option<nat>)
    returns (result: ReceiverResult, ghost done: seq<Doing>)
    modifies journal, rx, results
    ensures journal.trace == old(journal.trace) + done
    ensures StopsAsTaken(Receiving(cfg, agreed, None, old(results.queue), old(rx.queue)), patience, done, result)
  {
    var open: Option<string> := None;
    var taken := 0;
    ghost var start := journal.trace;
    ghost var full := Receiving(cfg, agreed, open, results.queue, rx.queue);
    done := [];
    Untouched(full, patience, start);
    while true
      invariant journal.trace == start + done
      invariant Midway(full, patience, done, taken, Receiving(cfg, agreed, open, results.queue, rx.queue))
      decreases |rx.queue|
    {
      ghost var q, verdicts := rx.queue, results.queue;
      var message := rx.Recv();
      if message.None? {
        CloseStep(cfg, agreed, open, verdicts, full, patience, done, taken);
        ghost var closing := EndOfMessages(open, journal);
        Associative(start, done, closing);
        return Interrupted(agreed), done + closing;
      }
      var m := message.value;
      if m.isString {
        StringStep(cfg, agreed, open, verdicts, q, full, patience, done, taken);
        ghost var es := R.OnFiles(cfg, agreed, open, verdicts, Some(m)).effects;
        var end, file := ReceiveString(cfg, agreed, open, m, journal, results);
        Associative(start, done, es);
        done := done + es;
        if end.Some? {
          EndStep(cfg, end.value, rx.queue, full, patience, done, taken);
          return end.value, done;
        }
        open := file;
      } else if open.Some? && patience == Some(taken) {
        DropStep(cfg, agreed, open, verdicts, q, full, patience, done, taken);
        return ReceiveFailed, done;
      } else {
        BinaryStep(cfg, agreed, open, verdicts, q, full, patience, done, taken);
        var event := if open.Some? then FileData(open.value, m.data) else STRAY;
        journal.Do(Tell(event));
        Associative(start, done, [Tell(event)]);
        done := done + [Tell(event)];
        taken := if open.Some? then taken + 1 else taken;
      }
    }
  }

  /** One message taken off the front of a run. */
  lemma {:induction false} OneRead(cfg: ReceiverConfig, agreed: Agreement, open: Option<string>, verdicts: seq<FileVerdict>, q: seq<Message>, before: seq<Doing>)
    requires q != []
    ensures var r := R.OnFiles(cfg, agreed, open, verdicts, Some(q[0]));
      R.Then(before, RunToClose(cfg, AwaitFiles(agreed, open, verdicts), q))
      == R.Then(before + r.effects, RunToClose(cfg, r.next, q[1..]))
  {
    OneMoreReaction(cfg, AwaitFiles(agreed, open, verdicts), q, before);
  }

  lemma {:induction false} OneMoreReaction(cfg: ReceiverConfig, ctl: ReceiverCtl, q: seq<Message>, before: seq<Doing>)
    requires !ctl.ReceiverDone? && q != []
    ensures var r := R.React(cfg, ctl, Some(q[0]));
      R.Then(before, RunToClose(cfg, ctl, q)) == R.Then(before + r.effects, RunToClose(cfg, r.next, q[1..]))
  {
    var r := R.React(cfg, ctl, Some(q[0]));
    RunToCloseFirst(cfg, ctl, q);
    Associative(before, r.effects, RunToClose(cfg, r.next, q[1..]).effects);
  }

  lemma {:induction false} NothingRead(cfg: ReceiverConfig, agreed: Agreement, open: Option<string>, verdicts: seq<FileVerdict>, before: seq<Doing>)
    ensures R.Then(before, RunToClose(cfg, AwaitFiles(agreed, open, verdicts), []))
         == Reaction(before + if open.Some? then [Tell(FileClosed(open.value))] else [], ReceiverDone(Interrupted(agreed)))
  {
    var n := R.React(cfg, AwaitFiles(agreed, open, verdicts), None);
    RunToCloseLast(cfg, AwaitFiles(agreed, open, verdicts), []);
    assert UponClose(cfg, n.next) == Reaction([], n.next);
    assert n.effects + [] == n.effects;
  }

  lemma {:induction false} NoMore(cfg: ReceiverConfig, result: ReceiverResult, q: seq<Message>, trace: seq<Doing>)
    ensures R.Then(trace, RunToClose(cfg, ReceiverDone(result), q)) == Reaction(trace, ReceiverDone(result))
  {
    RunToCloseLast(cfg, ReceiverDone(result), q);
    assert trace + [] == trace;
  }
}
