/** The slots through which the application answers a session: each can be used once. */
module Controllers {
  import opened Prelude
  import opened R = Receiver

  /** What a session and its application do to the slots, in the order in which the slots' locks are taken. */
  datatype Call =
    | PinRequest                            // the session asks for a PIN
    | SendPin(pin: string)
    | SendSelection(ids: set<string>)
    | DeclineAll

  /** A PIN request is known by its number. */
  datatype Slots = Slots(requests: nat, pinTx: Option<nat>, pins: seq<(nat, string)>, selected: Option<Choice>)

  const UNUSED: Slots := Slots(0, None, [], None)

  function Use(s: Slots, call: Call): Slots {
    match call
    case PinRequest => s.(requests := s.requests + 1, pinTx := Some(s.requests))
    case SendPin(pin) => if s.pinTx.Some? then s.(pinTx := None, pins := s.pins + [(s.pinTx.value, pin)]) else s
    case SendSelection(ids) => if s.selected.None? then s.(selected := Some(Select(ids))) else s
    case DeclineAll => if s.selected.None? then s.(selected := Some(Decline)) else s
  }

  function After(calls: seq<Call>): Slots {
    if calls == [] then UNUSED else Use(After(calls[..|calls| - 1]), calls[|calls| - 1])
  }

  class RTCReceiveController {
    var slots: Slots

    constructor ()
      ensures slots == UNUSED
    {
      slots := UNUSED;
    }

    method OnPinRequest()
      modifies this
      ensures slots == Use(old(slots), PinRequest)
    {
      slots := slots.(requests := slots.requests + 1, pinTx := Some(slots.requests));
    }

    method SendPin(pin: string) returns (ok: bool)
      modifies this
      ensures slots == Use(old(slots), Call.SendPin(pin)) && ok == old(slots).pinTx.Some?
      ensures ok ==> slots.pinTx.None? && slots.pins == old(slots).pins + [(old(slots).pinTx.value, pin)]
      ensures !ok ==> slots == old(slots)
    {
      if slots.pinTx.None? {
        return false;
      }
      var request := slots.pinTx.value;
      slots := slots.(pinTx := None);
      slots := slots.(pins := slots.pins + [(request, pin)]);
      ok := true;
    }

    method SendSelection(ids: set<string>) returns (ok: bool)
      modifies this
      ensures slots == Use(old(slots), Call.SendSelection(ids)) && ok == old(slots).selected.None?
    {
      if slots.selected.Some? {
        return false;
      }
      slots := slots.(selected := Some(Select(ids)));
      ok := true;
    }

    method DeclineTransfer() returns (ok: bool)
      modifies this
      ensures slots == Use(old(slots), DeclineAll) && ok == old(slots).selected.None?
    {
      if slots.selected.Some? {
        return false;
      }
      slots := slots.(selected := Some(Choice.Decline));
      ok := true;
    }
  }

  /** The answer to the file list that counts: the first that is given. */
  function FirstChoice(calls: seq<Call>): Option<Choice> {
    if calls == [] then None
    else if calls[0].SendSelection? then Some(Select(calls[0].ids))
    else if calls[0].DeclineAll? then Some(Decline)
    else FirstChoice(calls[1..])
  }

  function UseAll(s: Slots, calls: seq<Call>): Slots
    decreases |calls|
  {
    if calls == [] then s else UseAll(Use(s, calls[0]), calls[1..])
  }

  lemma {:induction false} AfterIsUseAll(before: seq<Call>, calls: seq<Call>)
    ensures After(before + calls) == UseAll(After(before), calls)
    decreases |calls|
  {
    if calls == [] {
      assert before + calls == before;
    } else {
      var next := before + [calls[0]];
      assert next[..|next| - 1] == before && before + calls == next + calls[1..];
      AfterIsUseAll(next, calls[1..]);
    }
  }

  lemma {:induction false} SelectedFrom(s: Slots, calls: seq<Call>)
    ensures UseAll(s, calls).selected == if s.selected.Some? then s.selected else FirstChoice(calls)
    decreases |calls|
  {
    if calls != [] {
      SelectedFrom(Use(s, calls[0]), calls[1..]);
    }
  }

  /** Of all selections and refusals the application sends, the session sees the first and no other. */
  lemma {:induction false} FirstChoiceCounts(calls: seq<Call>)
    ensures After(calls).selected == FirstChoice(calls)
  {
    AfterIsUseAll([], calls);
    SelectedFrom(UNUSED, calls);
    assert [] + calls == calls;
  }

  /** The request that is open, by looking back: the last of requests and PINs was a request. */
  predicate RequestOpen(calls: seq<Call>) {
    calls != [] && (calls[|calls| - 1].PinRequest? || (!calls[|calls| - 1].SendPin? && RequestOpen(calls[..|calls| - 1])))
  }

  function Requests(calls: seq<Call>): nat {
    if calls == [] then 0 else Requests(calls[..|calls| - 1]) + if calls[|calls| - 1].PinRequest? then 1 else 0
  }

  /** The PINs that are passed on, by looking back: each that is given while a request is open, to that request. */
  function PinsPassed(calls: seq<Call>): seq<(int, string)> {
    if calls == [] then []
    else
      var before, call := calls[..|calls| - 1], calls[|calls| - 1];
      PinsPassed(before) + if call.SendPin? && RequestOpen(before) then [(Requests(before) - 1, call.pin)] else []
  }

  /** Exactly these PINs are passed on, each to the request it is given for. */
  lemma {:induction false} PinsLookBack(calls: seq<Call>)
    ensures After(calls).pins == PinsPassed(calls)
  {
    if calls != [] {
      var before := calls[..|calls| - 1];
      PinsLookBack(before);
      EachRequestOnePin(before);
      assert PinsPassed(before) + [] == PinsPassed(before);
    }
  }

  /** A PIN is passed on exactly if a request is open, and then to the latest; so each request gets at most one, and in order. */
  lemma {:induction false} EachRequestOnePin(calls: seq<Call>)
    ensures var s := After(calls);
      && s.requests == Requests(calls)
      && s.pinTx == (if RequestOpen(calls) then Some(Requests(calls) - 1) else None)
      && (forall i, j :: 0 <= i < j < |s.pins| ==> s.pins[i].0 < s.pins[j].0)
      && (forall i :: 0 <= i < |s.pins| ==> s.pins[i].0 < s.requests - (if s.pinTx.Some? then 1 else 0))
  {
    if calls != [] {
      EachRequestOnePin(calls[..|calls| - 1]);
    }
  }
}
