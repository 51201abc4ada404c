/**
 Two sequential tasks that talk over two FIFO queues, scheduled in any order.
 A task that is done and has sent everything closes its outgoing queue.
 */
module TwoTasks {
  import opened Prelude
  import opened Channel

  /** What a task does upon a receive: some effects, and then it waits again or is done. */
  datatype Reaction<+C, +E> = Reaction(effects: seq<Effect<E>>, next: C)

  /** A sequential task. `react` gets the next message, or nothing once the queue is closed and empty. */
  datatype Task<!C, E> = Task(react: (C, Option<Message>) -> Reaction<C, E>, done: C -> bool)

  /** A task in the middle of a run: effects still to be carried out, where it waits next, and what it told so far. */
  datatype Side<+C, +E> = Side(todo: seq<Effect<E>>, ctl: C, log: seq<E>)

  datatype System<!S, !R, E> = System(sender: Task<S, E>, receiver: Task<R, E>)

  datatype World<+S, +R, +E> = World(
    sender: Side<S, E>, receiver: Side<R, E>, toReceiver: seq<Message>, toSender: seq<Message>)

  datatype Turn = SenderTurn | ReceiverTurn

  // One task running alone on a queue of messages

  datatype Outcome<+C, +E> = Outcome(effects: seq<Effect<E>>, ctl: C, unread: seq<Message>)

  /** Reads messages until it is done or the queue is empty. */
  function Run<C, E>(t: Task<C, E>, c: C, q: seq<Message>): Outcome<C, E>
    decreases |q|
  {
    if t.done(c) || q == [] then Outcome([], c, q)
    else
      var r := t.react(c, Some(q[0]));
      var rest := Run(t, r.next, q[1..]);
      rest.(effects := r.effects + rest.effects)
  }

  lemma {:induction false} RunFirst<C, E>(t: Task<C, E>, c: C, q: seq<Message>)
    requires !t.done(c) && q != []
    ensures var r := t.react(c, Some(q[0]));
      var rest := Run(t, r.next, q[1..]);
      Run(t, c, q) == rest.(effects := r.effects + rest.effects)
  {
  }

  lemma {:induction false} NothingLeft<C, E>(t: Task<C, E>, c: C, q: seq<Message>)
    requires t.done(c) || q == []
    ensures Run(t, c, q) == Outcome([], c, q)
  {
  }

  lemma {:induction false} RunAppend<C, E>(t: Task<C, E>, c: C, q: seq<Message>, more: seq<Message>)
    ensures var first := Run(t, c, q);
      var later := Run(t, first.ctl, first.unread + more);
      Run(t, c, q + more) == later.(effects := first.effects + later.effects)
    decreases |q|
  {
    if q == [] {
      assert q + more == more;
    } else if t.done(c) {
    } else {
      var r := t.react(c, Some(q[0]));
      RunAppend(t, r.next, q[1..], more);
      assert (q + more)[1..] == q[1..] + more;
      var rest := Run(t, r.next, q[1..]);
      var later := Run(t, rest.ctl, rest.unread + more);
      assert r.effects + (rest.effects + later.effects) == r.effects + rest.effects + later.effects;
    }
  }

  lemma {:induction false} RunOne<C, E>(t: Task<C, E>, ctl: C, m: Message)
    requires !t.done(ctl)
    ensures var r := t.react(ctl, Some(m)); Run(t, ctl, [m]) == Outcome(r.effects, r.next, [])
  {
    var r := t.react(ctl, Some(m));
    assert [m][1..] == [];
    assert Run(t, r.next, []) == Outcome([], r.next, []);
    assert r.effects + [] == r.effects;
  }

  /** What is sent and told in two stretches of a run. */
  lemma {:induction false} RunBoth<C, E>(t: Task<C, E>, ctl: C, q: seq<Message>, more: seq<Message>)
    requires Run(t, ctl, q).unread == []
    ensures var a := Run(t, ctl, q);
      var b := Run(t, a.ctl, more);
      var o := Run(t, ctl, q + more);
      && o.ctl == b.ctl && o.unread == b.unread
      && Sends(o.effects) == Sends(a.effects) + Sends(b.effects)
      && Tells(o.effects) == Tells(a.effects) + Tells(b.effects)
  {
    RunAppend(t, ctl, q, more);
    assert [] + more == more;
    var a := Run(t, ctl, q);
    SendsTellsAppend(a.effects, Run(t, a.ctl, more).effects);
  }

  // Single steps

  predicate Halted<C, E>(t: Task<C, E>, me: Side<C, E>) {
    me.todo == [] && t.done(me.ctl)
  }

  predicate Ready<C, E>(t: Task<C, E>, me: Side<C, E>, inbox: seq<Message>, peerHalted: bool) {
    me.todo != [] || (!t.done(me.ctl) && (inbox != [] || peerHalted))
  }

  datatype Progress<+C, +E> = Progress(me: Side<C, E>, inbox: seq<Message>, sent: seq<Message>)

  /** Carries out one pending effect, or else receives. */
  function Advance<C, E>(t: Task<C, E>, me: Side<C, E>, inbox: seq<Message>): Progress<C, E> {
    if me.todo != [] then
      match me.todo[0]
      case Send(m) => Progress(me.(todo := me.todo[1..]), inbox, [m])
      case Tell(e) => Progress(me.(todo := me.todo[1..], log := me.log + [e]), inbox, [])
    else if inbox != [] then
      var r := t.react(me.ctl, Some(inbox[0]));
      Progress(me.(todo := r.effects, ctl := r.next), inbox[1..], [])
    else
      var r := t.react(me.ctl, None);
      Progress(me.(todo := r.effects, ctl := r.next), inbox, [])
  }

  predicate Enabled<S, R, E>(sys: System<S, R, E>, w: World<S, R, E>, turn: Turn) {
    match turn
    case SenderTurn => Ready(sys.sender, w.sender, w.toSender, Halted(sys.receiver, w.receiver))
    case ReceiverTurn => Ready(sys.receiver, w.receiver, w.toReceiver, Halted(sys.sender, w.sender))
  }

  function Step<S, R, E>(sys: System<S, R, E>, w: World<S, R, E>, turn: Turn): World<S, R, E> {
    match turn
    case SenderTurn =>
      var p := Advance(sys.sender, w.sender, w.toSender);
      World(p.me, w.receiver, w.toReceiver + p.sent, p.inbox)
    case ReceiverTurn =>
      var p := Advance(sys.receiver, w.receiver, w.toReceiver);
      World(w.sender, p.me, p.inbox, w.toSender + p.sent)
  }

  // Runs: a schedule says whose turn it is, step by step

  predicate Possible<S, R, E>(sys: System<S, R, E>, w: World<S, R, E>, schedule: seq<Turn>)
    decreases |schedule|
  {
    schedule == [] || (Enabled(sys, w, schedule[0]) && Possible(sys, Step(sys, w, schedule[0]), schedule[1..]))
  }

  function After<S, R, E>(sys: System<S, R, E>, w: World<S, R, E>, schedule: seq<Turn>): World<S, R, E>
    decreases |schedule|
  {
    if schedule == [] then w else After(sys, Step(sys, w, schedule[0]), schedule[1..])
  }

  /** Neither task can move: each is done or waits on an empty queue that its peer keeps open. */
  predicate Stuck<S, R, E>(sys: System<S, R, E>, w: World<S, R, E>) {
    !Enabled(sys, w, SenderTurn) && !Enabled(sys, w, ReceiverTurn)
  }

  ghost predicate LeadsTo<S, R, E>(sys: System<S, R, E>, w: World<S, R, E>, v: World<S, R, E>) {
    exists schedule :: Possible(sys, w, schedule) && After(sys, w, schedule) == v
  }

  lemma {:induction false} AfterAppend<S, R, E>(sys: System<S, R, E>, w: World<S, R, E>, a: seq<Turn>, b: seq<Turn>)
    ensures Possible(sys, w, a + b) <==> Possible(sys, w, a) && Possible(sys, After(sys, w, a), b)
    ensures After(sys, w, a + b) == After(sys, After(sys, w, a), b)
    decreases |a|
  {
    if a == [] {
      assert a + b == b;
    } else {
      AfterAppend(sys, Step(sys, w, a[0]), a[1..], b);
      assert (a + b)[0] == a[0] && (a + b)[1..] == a[1..] + b;
    }
  }

  lemma {:induction false} LeadsToTransitive<S, R, E>(sys: System<S, R, E>, u: World<S, R, E>, v: World<S, R, E>, w: World<S, R, E>)
    requires LeadsTo(sys, u, v) && LeadsTo(sys, v, w)
    ensures LeadsTo(sys, u, w)
  {
    var a :| Possible(sys, u, a) && After(sys, u, a) == v;
    var b :| Possible(sys, v, b) && After(sys, v, b) == w;
    AfterAppend(sys, u, a, b);
  }

  lemma {:induction false} LeadsToItself<S, R, E>(sys: System<S, R, E>, w: World<S, R, E>)
    ensures LeadsTo(sys, w, w)
  {
    assert Possible(sys, w, []) && After(sys, w, []) == w;
  }

  lemma {:induction false} LeadsToStep<S, R, E>(sys: System<S, R, E>, w: World<S, R, E>, turn: Turn)
    requires Enabled(sys, w, turn)
    ensures LeadsTo(sys, w, Step(sys, w, turn))
  {
    assert [turn][1..] == [];
    var v := Step(sys, w, turn);
    assert Possible(sys, v, []) && After(sys, v, []) == v;
    assert Possible(sys, w, [turn]) && After(sys, w, [turn]) == v;
  }

  // Every order of turns gives the same run

  /** What the peer appends to the inbox does not change the step a ready task takes. */
  lemma {:induction false} AdvanceFrame<C, E>(t: Task<C, E>, me: Side<C, E>, inbox: seq<Message>, more: seq<Message>)
    requires Ready(t, me, inbox, false)
    ensures Ready(t, me, inbox + more, false)
    ensures Advance(t, me, inbox + more) == var p := Advance(t, me, inbox); p.(inbox := p.inbox + more)
  {
    if me.todo == [] {
      assert (inbox + more)[0] == inbox[0] && (inbox + more)[1..] == inbox[1..] + more;
    }
  }

  /** Two tasks that can both move can do so in either order, with the same result. */
  lemma {:induction false} TurnsCommute<S, R, E>(sys: System<S, R, E>, w: World<S, R, E>)
    requires Enabled(sys, w, SenderTurn) && Enabled(sys, w, ReceiverTurn)
    ensures Enabled(sys, Step(sys, w, SenderTurn), ReceiverTurn) && Enabled(sys, Step(sys, w, ReceiverTurn), SenderTurn)
    ensures Step(sys, Step(sys, w, SenderTurn), ReceiverTurn) == Step(sys, Step(sys, w, ReceiverTurn), SenderTurn)
  {
    assert Ready(sys.sender, w.sender, w.toSender, false) && Ready(sys.receiver, w.receiver, w.toReceiver, false);
    AdvanceFrame(sys.sender, w.sender, w.toSender, Advance(sys.receiver, w.receiver, w.toReceiver).sent);
    AdvanceFrame(sys.receiver, w.receiver, w.toReceiver, Advance(sys.sender, w.sender, w.toSender).sent);
  }

  function Other(turn: Turn): Turn {
    if turn.SenderTurn? then ReceiverTurn else SenderTurn
  }

  /** A run to the end can be reordered to begin with any turn that is possible now. */
  lemma {:induction false} MoveToFront<S, R, E>(sys: System<S, R, E>, w: World<S, R, E>, turn: Turn, run: seq<Turn>)
      returns (rest: seq<Turn>)
    requires Enabled(sys, w, turn)
    requires Possible(sys, w, run) && Stuck(sys, After(sys, w, run))
    ensures |run| == |rest| + 1
    ensures Possible(sys, Step(sys, w, turn), rest) && After(sys, Step(sys, w, turn), rest) == After(sys, w, run)
    decreases |run|
  {
    assert run != [];
    if run[0] == turn {
      rest := run[1..];
    } else {
      assert run[0] == Other(turn);
      TurnsCommute(sys, w);
      var tail := MoveToFront(sys, Step(sys, w, run[0]), turn, run[1..]);
      rest := [run[0]] + tail;
      assert rest[1..] == tail;
    }
  }

  /**
   If one run comes to an end, every run does: it is a beginning of a run of
   the same length that ends in the same world.
   */
  lemma {:induction false} EveryRunCompletes<S, R, E>(sys: System<S, R, E>, w: World<S, R, E>, run: seq<Turn>, some: seq<Turn>)
      returns (rest: seq<Turn>)
    requires Possible(sys, w, run) && Stuck(sys, After(sys, w, run))
    requires Possible(sys, w, some)
    ensures |run| == |some| + |rest|
    ensures Possible(sys, After(sys, w, some), rest)
    ensures After(sys, After(sys, w, some), rest) == After(sys, w, run)
    decreases |some|
  {
    if some == [] {
      rest := run;
    } else {
      var tail := MoveToFront(sys, w, some[0], run);
      rest := EveryRunCompletes(sys, Step(sys, w, some[0]), tail, some[1..]);
    }
  }

  // Moving one task as far as it gets

  /** The side of a task after it has carried out everything it had to do. */
  function Settled<C, E>(me: Side<C, E>): Side<C, E> {
    Side([], me.ctl, me.log + Tells(me.todo))
  }

  lemma {:induction false} SenderSettles<S, R, E>(sys: System<S, R, E>, w: World<S, R, E>)
    ensures LeadsTo(sys, w, w.(sender := Settled(w.sender), toReceiver := w.toReceiver + Sends(w.sender.todo)))
    decreases |w.sender.todo|
  {
    var goal := w.(sender := Settled(w.sender), toReceiver := w.toReceiver + Sends(w.sender.todo));
    if w.sender.todo == [] {
      assert goal == w;
      LeadsToItself(sys, w);
    } else {
      var v := Step(sys, w, SenderTurn);
      LeadsToStep(sys, w, SenderTurn);
      SenderSettles(sys, v);
      assert goal == v.(sender := Settled(v.sender), toReceiver := v.toReceiver + Sends(v.sender.todo));
      LeadsToTransitive(sys, w, v, goal);
    }
  }

  lemma {:induction false} ReceiverSettles<S, R, E>(sys: System<S, R, E>, w: World<S, R, E>)
    ensures LeadsTo(sys, w, w.(receiver := Settled(w.receiver), toSender := w.toSender + Sends(w.receiver.todo)))
    decreases |w.receiver.todo|
  {
    var goal := w.(receiver := Settled(w.receiver), toSender := w.toSender + Sends(w.receiver.todo));
    if w.receiver.todo == [] {
      assert goal == w;
      LeadsToItself(sys, w);
    } else {
      var v := Step(sys, w, ReceiverTurn);
      LeadsToStep(sys, w, ReceiverTurn);
      ReceiverSettles(sys, v);
      assert goal == v.(receiver := Settled(v.receiver), toSender := v.toSender + Sends(v.receiver.todo));
      LeadsToTransitive(sys, w, v, goal);
    }
  }

  /** The world after the sender has read what there is for it to read. */
  function SenderRan<S, R, E>(sys: System<S, R, E>, w: World<S, R, E>): World<S, R, E> {
    var o := Run(sys.sender, w.sender.ctl, w.toSender);
    World(Side([], o.ctl, w.sender.log + Tells(o.effects)), w.receiver, w.toReceiver + Sends(o.effects), o.unread)
  }

  function ReceiverRan<S, R, E>(sys: System<S, R, E>, w: World<S, R, E>): World<S, R, E> {
    var o := Run(sys.receiver, w.receiver.ctl, w.toReceiver);
    World(w.sender, Side([], o.ctl, w.receiver.log + Tells(o.effects)), o.unread, w.toSender + Sends(o.effects))
  }

  /** The world after the sender has read one message and done what follows. */
  function SenderReacted<S, R, E>(sys: System<S, R, E>, w: World<S, R, E>): World<S, R, E>
    requires w.toSender != []
  {
    var r := sys.sender.react(w.sender.ctl, Some(w.toSender[0]));
    w.(sender := Side([], r.next, w.sender.log + Tells(r.effects)),
       toSender := w.toSender[1..], toReceiver := w.toReceiver + Sends(r.effects))
  }

  lemma {:induction false} SenderReacts<S, R, E>(sys: System<S, R, E>, w: World<S, R, E>)
    requires w.sender.todo == [] && w.toSender != [] && !sys.sender.done(w.sender.ctl)
    ensures LeadsTo(sys, w, SenderReacted(sys, w))
  {
    var u := Step(sys, w, SenderTurn);
    LeadsToStep(sys, w, SenderTurn);
    SenderSettles(sys, u);
    var v := u.(sender := Settled(u.sender), toReceiver := u.toReceiver + Sends(u.sender.todo));
    assert u.toReceiver == w.toReceiver;
    assert v == SenderReacted(sys, w);
    LeadsToTransitive(sys, w, u, v);
  }

  lemma {:induction false} SenderRanOn<S, R, E>(sys: System<S, R, E>, w: World<S, R, E>)
    requires w.toSender != [] && !sys.sender.done(w.sender.ctl)
    ensures SenderRan(sys, SenderReacted(sys, w)) == SenderRan(sys, w)
  {
    var r := sys.sender.react(w.sender.ctl, Some(w.toSender[0]));
    var rest := Run(sys.sender, r.next, w.toSender[1..]).effects;
    RunFirst(sys.sender, w.sender.ctl, w.toSender);
    SendsTellsAppend(r.effects, rest);
    Associative(w.sender.log, Tells(r.effects), Tells(rest));
    Associative(w.toReceiver, Sends(r.effects), Sends(rest));
  }

  lemma {:induction false} SenderRuns<S, R, E>(sys: System<S, R, E>, w: World<S, R, E>)
    requires w.sender.todo == []
    ensures LeadsTo(sys, w, SenderRan(sys, w))
    decreases |w.toSender|
  {
    if sys.sender.done(w.sender.ctl) || w.toSender == [] {
      assert SenderRan(sys, w) == w;
      LeadsToItself(sys, w);
    } else {
      var v := SenderReacted(sys, w);
      SenderReacts(sys, w);
      SenderRuns(sys, v);
      SenderRanOn(sys, w);
      LeadsToTransitive(sys, w, v, SenderRan(sys, v));
    }
  }

  /** The world after the receiver has read one message and done what follows. */
  function ReceiverReacted<S, R, E>(sys: System<S, R, E>, w: World<S, R, E>): World<S, R, E>
    requires w.toReceiver != []
  {
    var r := sys.receiver.react(w.receiver.ctl, Some(w.toReceiver[0]));
    w.(receiver := Side([], r.next, w.receiver.log + Tells(r.effects)),
       toReceiver := w.toReceiver[1..], toSender := w.toSender + Sends(r.effects))
  }

  lemma {:induction false} ReceiverReacts<S, R, E>(sys: System<S, R, E>, w: World<S, R, E>)
    requires w.receiver.todo == [] && w.toReceiver != [] && !sys.receiver.done(w.receiver.ctl)
    ensures LeadsTo(sys, w, ReceiverReacted(sys, w))
  {
    var u := Step(sys, w, ReceiverTurn);
    LeadsToStep(sys, w, ReceiverTurn);
    ReceiverSettles(sys, u);
    var v := u.(receiver := Settled(u.receiver), toSender := u.toSender + Sends(u.receiver.todo));
    assert u.toSender == w.toSender;
    assert v == ReceiverReacted(sys, w);
    LeadsToTransitive(sys, w, u, v);
  }

  lemma {:induction false} ReceiverRanOn<S, R, E>(sys: System<S, R, E>, w: World<S, R, E>)
    requires w.toReceiver != [] && !sys.receiver.done(w.receiver.ctl)
    ensures ReceiverRan(sys, ReceiverReacted(sys, w)) == ReceiverRan(sys, w)
  {
    var r := sys.receiver.react(w.receiver.ctl, Some(w.toReceiver[0]));
    var rest := Run(sys.receiver, r.next, w.toReceiver[1..]).effects;
    RunFirst(sys.receiver, w.receiver.ctl, w.toReceiver);
    SendsTellsAppend(r.effects, rest);
    Associative(w.receiver.log, Tells(r.effects), Tells(rest));
    Associative(w.toSender, Sends(r.effects), Sends(rest));
  }

  lemma {:induction false} ReceiverRuns<S, R, E>(sys: System<S, R, E>, w: World<S, R, E>)
    requires w.receiver.todo == []
    ensures LeadsTo(sys, w, ReceiverRan(sys, w))
    decreases |w.toReceiver|
  {
    if sys.receiver.done(w.receiver.ctl) || w.toReceiver == [] {
      assert ReceiverRan(sys, w) == w;
      LeadsToItself(sys, w);
    } else {
      var v := ReceiverReacted(sys, w);
      ReceiverReacts(sys, w);
      ReceiverRuns(sys, v);
      ReceiverRanOn(sys, w);
      LeadsToTransitive(sys, w, v, ReceiverRan(sys, v));
    }
  }
}
