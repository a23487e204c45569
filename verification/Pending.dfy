/** Pending requests: the handle that sends them, the futures that wait for them, the queue of
    updates, and the receiver that matches responses, as one system under any schedule. */
module Pending {
  import opened Bytes
  import opened Decoding
  import opened CSeqs
  import opened TypedHeaders
  import opened Statuses

  // ---------------------------------------------------------------- cells, updates and the map

  /** What a one-shot cell delivers; a continue brings the cell that replaces it. */
  datatype Payload = Continue(rest: nat) | Final(response: Message) | Cancelled

  /** A cell belongs to one request; `closed` is set by the receiving end. */
  datatype Cell = Cell(owner: nat, value: Option<Payload>, closed: bool)

  datatype Update = Add(c: cseq, cell: nat) | Remove(c: cseq)

  function ApplyTo(pending: map<cseq, nat>, u: Update): map<cseq, nat> {
    match u
    case Add(c, cell) => pending[c := cell]
    case Remove(c) => pending - {c}
  }

  function Lookup(pending: map<cseq, nat>, c: cseq): Option<nat> {
    if c in pending then Some(pending[c]) else None
  }

  /** What an update makes of the entry under `c`. */
  function Hit(entry: Option<nat>, u: Update, c: cseq): Option<nat> {
    if u.c != c then entry
    else match u case Add(_, cell) => Some(cell) case Remove(_) => None
  }

  function After(entry: Option<nat>, us: seq<Update>, c: cseq): Option<nat>
    decreases |us|
  {
    if us == [] then entry else After(Hit(entry, us[0], c), us[1..], c)
  }

  predicate NoUpdate(us: seq<Update>, c: cseq) {
    forall i :: 0 <= i < |us| ==> us[i].c != c
  }

  /** No addition meets an entry that is still there. */
  predicate Clean(entry: Option<nat>, us: seq<Update>, c: cseq)
    decreases |us|
  {
    us != [] ==>
      && (us[0].c == c && us[0].Add? ==> entry.None?)
      && Clean(Hit(entry, us[0], c), us[1..], c)
  }

  lemma {:induction false} AfterSnoc(entry: Option<nat>, us: seq<Update>, u: Update, c: cseq)
    ensures After(entry, us + [u], c) == Hit(After(entry, us, c), u, c)
    decreases |us|
  {
    if us != [] {
      assert (us + [u])[1..] == us[1..] + [u];
      AfterSnoc(Hit(entry, us[0], c), us[1..], u, c);
    }
  }

  lemma {:induction false} CleanSnoc(entry: Option<nat>, us: seq<Update>, u: Update, c: cseq)
    requires Clean(entry, us, c)
    requires u.c == c && u.Add? ==> After(entry, us, c).None?
    ensures Clean(entry, us + [u], c)
    decreases |us|
  {
    if us != [] {
      assert (us + [u])[1..] == us[1..] + [u];
      CleanSnoc(Hit(entry, us[0], c), us[1..], u, c);
    } else {
      assert us + [u] == [u];
    }
  }

  lemma {:induction false} CleanWithout(entry: Option<nat>, entry': Option<nat>, us: seq<Update>, c: cseq)
    requires Clean(entry, us, c) && (entry'.Some? ==> entry.Some?)
    ensures Clean(entry', us, c)
    decreases |us|
  {
    if us != [] {
      CleanWithout(Hit(entry, us[0], c), Hit(entry', us[0], c), us[1..], c);
    }
  }

  lemma {:induction false} AfterNone(entry: Option<nat>, us: seq<Update>, c: cseq)
    requires NoUpdate(us, c)
    ensures After(entry, us, c) == entry
    decreases |us|
  {
    if us != [] {
      AfterNone(entry, us[1..], c);
    }
  }

  lemma {:induction false} AfterForgets(entry: Option<nat>, entry': Option<nat>, us: seq<Update>, c: cseq)
    requires !NoUpdate(us, c)
    ensures After(entry, us, c) == After(entry', us, c)
    decreases |us|
  {
    if us[0].c != c {
      assert exists i :: 0 <= i < |us[1..]| && us[1..][i].c == c by {
        var i :| 0 <= i < |us| && us[i].c == c;
        assert us[1..][i - 1].c == c;
      }
      AfterForgets(entry, entry', us[1..], c);
    }
  }

  /** An entry made by the queue comes from the last update of its number. */
  lemma {:induction false} LastAdd(entry: Option<nat>, us: seq<Update>, c: cseq) returns (i: nat)
    requires !NoUpdate(us, c) && After(entry, us, c).Some?
    ensures i < |us| && us[i] == Add(c, After(entry, us, c).value)
    ensures NoUpdate(us[i + 1..], c)
    decreases |us|
  {
    if NoUpdate(us[1..], c) {
      AfterNone(Hit(entry, us[0], c), us[1..], c);
      i := 0;
      assert us[0].c == c;
    } else {
      var j := LastAdd(Hit(entry, us[0], c), us[1..], c);
      i := j + 1;
      assert us[i + 1..] == us[1..][j + 1..];
    }
  }

  // ---------------------------------------------------------------- the world

  datatype Delivery = Cont | Fin(response: Message) | Canc

  datatype Status =
    | Sending
    | Waiting
    | Finished(outcome: Delivery)
    | Withdrawing(dropping: bool)
    | TimedOut
    | Gone

  // A future that times out or is dropped first sends the removal and then closes its cell, and a response
  // may come in between; `Withdrawing` is that moment.

  /** One call of the handle: the number of the request, the cell its future holds, and, as history,
      how many responses had arrived when it was registered and what its owner has been told. */
  datatype Attempt = Attempt(
    number: nat,
    cell: nat,
    status: Status,
    since: Option<nat>,
    seen: seq<Delivery>)

  datatype World = World(
    start: cseq,
    sent: nat,
    attempts: seq<Attempt>,
    cells: seq<Cell>,
    updates: seq<Update>,
    pending: map<cseq, nat>,
    alive: bool,
    arrived: seq<Message>)

  function Initial(start: cseq): World {
    World(start, 0, [], [], [], map[], true, [])
  }

  predicate Live(t: Attempt) {
    t.status == Sending || t.status == Waiting
  }

  function CSeqNo(w: World, t: Attempt): cseq {
    Ahead(w.start, t.number)
  }

  predicate IsSending(w: World) {
    w.attempts != [] && w.attempts[|w.attempts| - 1].status == Sending
  }

  /** Whether a value can still be sent into the cell. */
  predicate IsOpen(w: World, id: nat)
    requires id < |w.cells| && w.cells[id].owner < |w.attempts|
  {
    !w.cells[id].closed && w.attempts[w.cells[id].owner].status != Gone
  }

  /** Sending an update fails silently once the response receiver is gone. */
  function Enqueue(w: World, u: Update): World {
    if w.alive then w.(updates := w.updates + [u]) else w
  }

  function WithAttempt(w: World, a: nat, t: Attempt): World
    requires a < |w.attempts|
  {
    w.(attempts := w.attempts[a := t])
  }

  // The steps. A request is sent in two, so that the connection may run between the registration and
  // the hand-over to the sender; the lock on the sequence number keeps the calls apart.

  function Begin(w: World): World {
    if !w.alive || IsSending(w) then w
    else
      var t := Attempt(w.sent, |w.cells|, Sending, None, []);
      w.(attempts := w.attempts + [t],
         cells := w.cells + [Cell(|w.attempts|, None, false)],
         updates := w.updates + [Add(CSeqNo(w, t), |w.cells|)])
  }

  function Commit(w: World, accepted: bool): World {
    if !IsSending(w) then w
    else
      var a := |w.attempts| - 1;
      var t := w.attempts[a];
      if accepted then WithAttempt(w, a, t.(status := Waiting)).(sent := w.sent + 1)
      else Enqueue(WithAttempt(w, a, t.(status := Gone)), Remove(CSeqNo(w, t)))
  }

  function Registered(w: World, u: Update): seq<Attempt> {
    if u.Add? && u.cell < |w.cells| && w.cells[u.cell].owner < |w.attempts| then
      var a := w.cells[u.cell].owner;
      w.attempts[a := w.attempts[a].(since := Some(|w.arrived|))]
    else w.attempts
  }

  function Apply(w: World): World {
    if !w.alive || w.updates == [] then w
    else
      w.(pending := ApplyTo(w.pending, w.updates[0]),
         updates := w.updates[1..],
         attempts := Registered(w, w.updates[0]))
  }

  function Respond(w: World, m: Message): World {
    if !w.alive || !m.Response? then w
    else
      var w' := w.(arrived := w.arrived + [m]);
      match CSeqOf(m)
      case None => w'
      case Some(c) =>
        if c !in w.pending then w'
        else
          var id := w.pending[c];
          if id >= |w.cells| || w.cells[id].owner >= |w.attempts| then w'
          else if m.status == CONTINUE then
            if IsOpen(w, id) then
              w'.(cells := w.cells[id := w.cells[id].(value := Some(Continue(|w.cells|)))]
                             + [Cell(w.cells[id].owner, None, false)],
                  pending := w.pending[c := |w.cells|])
            else w'.(pending := w.pending - {c})
          else
            w'.(cells := if IsOpen(w, id) then w.cells[id := w.cells[id].(value := Some(Final(m)))] else w.cells,
                pending := w.pending - {c})
  }

  /** The removal of the request is sent. */
  function Withdraw(w: World, a: nat, dropping: bool): World
    requires a < |w.attempts|
  {
    var t := w.attempts[a];
    Enqueue(WithAttempt(w, a, t.(status := Withdrawing(dropping))), Remove(CSeqNo(w, t)))
  }

  /** The cell of a request that was withdrawn is closed. */
  function Shut(w: World, a: nat): World {
    if a >= |w.attempts| || !w.attempts[a].status.Withdrawing? || w.attempts[a].cell >= |w.cells| then w
    else
      var t := w.attempts[a];
      WithAttempt(w, a, t.(status := if t.status.dropping then Gone else TimedOut))
        .(cells := w.cells[t.cell := w.cells[t.cell].(closed := true)])
  }

  /** A future is polled; `expired` is the clock's answer for either timer. */
  function Poll(w: World, a: nat, expired: bool): World {
    if a >= |w.attempts| || w.attempts[a].status != Waiting || w.attempts[a].cell >= |w.cells| then w
    else
      var t := w.attempts[a];
      match w.cells[t.cell].value
      case Some(Final(m)) => WithAttempt(w, a, t.(status := Finished(Fin(m)), seen := t.seen + [Fin(m)]))
      case Some(Cancelled) => WithAttempt(w, a, t.(status := Finished(Canc), seen := t.seen + [Canc]))
      case Some(Continue(rest)) =>
        var w' := WithAttempt(w, a, t.(cell := rest, seen := t.seen + [Cont]));
        if expired then Withdraw(w', a, false) else w'
      case None => if expired then Withdraw(w, a, false) else w
  }

  /** A future is dropped. It withdraws its request unless its cell is spent or was closed empty. */
  function Drop(w: World, a: nat): World {
    if a >= |w.attempts| || w.attempts[a].cell >= |w.cells| then w
    else
      var t := w.attempts[a];
      match t.status
      case Waiting => Withdraw(w, a, true)
      case TimedOut =>
        if w.cells[t.cell].value.None? then WithAttempt(w, a, t.(status := Gone)) else Withdraw(w, a, true)
      case Finished(_) => WithAttempt(w, a, t.(status := Gone))
      case _ => w
  }

  function Drain(w: World): World
    decreases |w.updates|
  {
    if !w.alive || w.updates == [] then w else Drain(Apply(w))
  }

  /** The cells of `ids` that are still open are cancelled. */
  function Silenced(w: World, ids: set<nat>): seq<Cell> {
    seq(|w.cells|, i requires 0 <= i < |w.cells| =>
      if i in ids && w.cells[i].owner < |w.attempts| && IsOpen(w, i)
      then w.cells[i].(value := Some(Cancelled)) else w.cells[i])
  }

  /** Every request still pending is told that no response will come. */
  function Silence(w: World): World {
    w.(alive := false, pending := map[], cells := Silenced(w, w.pending.Values))
  }

  /** The response receiver is dropped. */
  function Close(w: World): World {
    if !w.alive then w else Silence(Drain(w))
  }

  /** Responses matched one after the other. */
  function Heard(w: World, ms: seq<Message>): World {
    if ms == [] then w else Respond(Heard(w, ms[..|ms| - 1]), ms[|ms| - 1])
  }

  /** What one poll of the connection's receiver is for the response receiver: the queue is emptied, then
      responses are matched; at the end it is kept or dropped. */
  function Polled(w: World, ms: seq<Message>, kept: bool): World {
    var w' := Heard(Drain(w), ms);
    if kept then w' else Close(w')
  }

  datatype Event =
    | DoBegin
    | DoCommit(accepted: bool)
    | DoApply
    | DoRespond(response: Message)
    | DoPoll(a: nat, expired: bool)
    | DoDrop(a: nat)
    | DoShut(a: nat)
    | DoClose

  function Move(w: World, e: Event): World {
    match e
    case DoBegin => Begin(w)
    case DoCommit(accepted) => Commit(w, accepted)
    case DoApply => Apply(w)
    case DoRespond(m) => Respond(w, m)
    case DoPoll(a, expired) => Poll(w, a, expired)
    case DoDrop(a) => Drop(w, a)
    case DoShut(a) => Shut(w, a)
    case DoClose => Close(w)
  }

  /** A value can still come into the cell: its sending end is in the map or on its way there. */
  predicate CouldFill(w: World, t: Attempt) {
    Lookup(w.pending, CSeqNo(w, t)) == Some(t.cell) || Add(CSeqNo(w, t), t.cell) in w.updates
  }

  /** The future may yet send a removal of its number. */
  predicate Holds(w: World, t: Attempt) {
    match t.status
    case Sending => true
    case Waiting => true
    case Withdrawing(dropping) => !dropping && (IsFilled(w, t) || CouldFill(w, t))
    case TimedOut => IsFilled(w, t)
    case _ => false
  }

  predicate IsFilled(w: World, t: Attempt) {
    t.cell < |w.cells| && w.cells[t.cell].value.Some?
  }

  /** No future that may yet remove its number has the number of the next request. */
  predicate NextIsFree(w: World) {
    forall t :: t in w.attempts && Holds(w, t) ==> CSeqNo(w, t) != Ahead(w.start, w.sent)
  }

  /** Each new request finds its number free. */
  predicate Paced(w: World, events: seq<Event>)
    decreases |events|
  {
    events != [] ==>
      && (events[0] == DoBegin ==> NextIsFree(w))
      && Paced(Move(w, events[0]), events[1..])
  }

  function Run(w: World, events: seq<Event>): World
    decreases |events|
  {
    if events == [] then w else Run(Move(w, events[0]), events[1..])
  }

  // ---------------------------------------------------------------- following continues

  function Told(p: Payload): Delivery {
    match p
    case Continue(_) => Cont
    case Final(m) => Fin(m)
    case Cancelled => Canc
  }

  /** The last cell of the chain of unread continues. */
  function End(cells: seq<Cell>, id: nat): nat
    decreases |cells| - id
  {
    if id < |cells| && cells[id].value.Some? && cells[id].value.value.Continue?
       && id < cells[id].value.value.rest <= |cells|
    then End(cells, cells[id].value.value.rest) else id
  }

  /** What the chain has to say. */
  function Follow(cells: seq<Cell>, id: nat): seq<Delivery>
    decreases |cells| - id
  {
    if id >= |cells| || cells[id].value.None? then []
    else if cells[id].value.value.Continue? && id < cells[id].value.value.rest <= |cells|
    then [Cont] + Follow(cells, cells[id].value.value.rest)
    else [Told(cells[id].value.value)]
  }

  predicate Linked(cells: seq<Cell>, id: nat)
    requires id < |cells|
  {
    cells[id].value.Some? && cells[id].value.value.Continue? ==>
      var rest := cells[id].value.value.rest;
      id < rest < |cells| && cells[rest].owner == cells[id].owner
  }

  predicate AllLinked(cells: seq<Cell>) {
    forall id: nat :: id < |cells| ==> Linked(cells, id)
  }

  predicate OnlyContinues(s: seq<Delivery>) {
    forall i :: 0 <= i < |s| ==> s[i] == Cont
  }

  predicate Ended(s: seq<Delivery>) {
    s != [] && s[|s| - 1] != Cont
  }

  lemma {:induction false} EndOfChain(cells: seq<Cell>, id: nat)
    requires AllLinked(cells) && id < |cells|
    ensures var e, s := End(cells, id), Follow(cells, id);
      && id <= e < |cells| && cells[e].owner == cells[id].owner
      && (cells[e].value.Some? ==> !cells[e].value.value.Continue?)
      && (cells[e].value.None? ==> OnlyContinues(s))
      && (cells[e].value.Some? ==>
            s != [] && OnlyContinues(s[..|s| - 1]) && s[|s| - 1] == Told(cells[e].value.value))
    decreases |cells| - id
  {
    if cells[id].value.Some? && cells[id].value.value.Continue? {
      assert Linked(cells, id);
      EndOfChain(cells, cells[id].value.value.rest);
    }
  }

  /** Cells of the same owner that keep their values keep their chains. */
  predicate SameFor(cells: seq<Cell>, cells': seq<Cell>, owner: nat) {
    && |cells| <= |cells'|
    && forall i :: 0 <= i < |cells| && cells[i].owner == owner ==>
         cells'[i].value == cells[i].value && cells'[i].owner == owner
  }

  lemma {:induction false} ChainStays(cells: seq<Cell>, cells': seq<Cell>, id: nat)
    requires AllLinked(cells) && id < |cells| && SameFor(cells, cells', cells[id].owner)
    ensures End(cells', id) == End(cells, id) && Follow(cells', id) == Follow(cells, id)
    decreases |cells| - id
  {
    if cells[id].value.Some? && cells[id].value.value.Continue? {
      assert Linked(cells, id);
      ChainStays(cells, cells', cells[id].value.value.rest);
    }
  }

  /** A value sent into the last cell is read last. */
  lemma {:induction false} ChainGrows(cells: seq<Cell>, cells': seq<Cell>, id: nat, p: Payload)
    requires AllLinked(cells) && id < |cells|
    requires var e := End(cells, id);
      && e < |cells| && cells[e].value.None?
      && |cells| <= |cells'| && cells'[e].value == Some(p)
      && (forall i :: 0 <= i < |cells| && i != e && cells[i].owner == cells[id].owner ==>
            cells'[i].value == cells[i].value)
    requires p.Continue? ==> |cells| <= p.rest < |cells'| && cells'[p.rest].value.None?
    ensures Follow(cells', id) == Follow(cells, id) + [Told(p)]
    ensures End(cells', id) == if p.Continue? then p.rest else End(cells, id)
    decreases |cells| - id
  {
    if cells[id].value.Some? && cells[id].value.value.Continue? {
      assert Linked(cells, id);
      var rest := cells[id].value.value.rest;
      EndOfChain(cells, rest);
      ChainGrows(cells, cells', rest, p);
      assert [Cont] + (Follow(cells, rest) + [Told(p)]) == [Cont] + Follow(cells, rest) + [Told(p)];
    } else {
      assert Follow(cells, id) == [];
      if p.Continue? {
        assert Follow(cells', p.rest) == [] && End(cells', p.rest) == p.rest;
      }
    }
  }

  // ---------------------------------------------------------------- what an owner should be told

  function Meaning(m: Message): Delivery {
    if m.Response? && m.status == CONTINUE then Cont else Fin(m)
  }

  lemma ContinuesExact(m: Message)
    ensures Meaning(m) == Cont <==> m.Response? && m.status == 100
  {
  }

  /** The responses with number `c`, up to the first that is not a continue. */
  function Matching(ms: seq<Message>, c: cseq): seq<Delivery>
    decreases |ms|
  {
    if ms == [] then []
    else
      var before := Matching(ms[..|ms| - 1], c);
      var m := ms[|ms| - 1];
      if Ended(before) || CSeqOf(m) != Some(c) then before else before + [Meaning(m)]
  }

  lemma MatchingSnoc(ms: seq<Message>, m: Message, c: cseq)
    ensures Matching(ms + [m], c) ==
      if Ended(Matching(ms, c)) || CSeqOf(m) != Some(c) then Matching(ms, c)
      else Matching(ms, c) + [Meaning(m)]
  {
    assert (ms + [m])[..|ms|] == ms;
  }

  /** From its registration on; a cancellation follows if the receiver went first. */
  function Expected(w: World, t: Attempt): seq<Delivery>
    requires t.since.Some? && t.since.value <= |w.arrived|
  {
    var s := Matching(w.arrived[t.since.value..], CSeqNo(w, t));
    if w.alive || Ended(s) then s else s + [Canc]
  }
}
