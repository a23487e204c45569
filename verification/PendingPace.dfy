/** How fast requests may follow each other: when the next sequence number is free, and what happens when
    it is not. */
module PendingPace {
  import opened Bytes
  import opened Decoding
  import opened CSeqs
  import opened TypedHeaders
  import opened Statuses
  import opened Pending
  import opened PendingInvariants

  // ---------------------------------------------------------------- applying what is queued

  function Applies(n: nat): seq<Event> {
    if n == 0 then [] else [DoApply] + Applies(n - 1)
  }

  predicate SameAttempt(t: Attempt, u: Attempt) {
    t.number == u.number && t.cell == u.cell && t.status == u.status
  }

  /** Applying updates changes nothing but the map, the queue and who counts as registered. */
  predicate OnlyApplied(w: World, v: World, n: nat)
    requires n <= |w.updates|
  {
    && v.updates == w.updates[n..] && v.cells == w.cells && v.alive == w.alive && v.start == w.start
    && v.sent == w.sent && |v.attempts| == |w.attempts|
    && (forall a :: 0 <= a < |w.attempts| ==> SameAttempt(v.attempts[a], w.attempts[a]))
  }

  lemma {:induction false} AppliesRun(w: World, n: nat, c: cseq)
    requires w.alive && n <= |w.updates|
    ensures var v := Run(w, Applies(n));
      OnlyApplied(w, v, n) && Lookup(v.pending, c) == After(Lookup(w.pending, c), w.updates[..n], c)
    decreases n
  {
    if n > 0 {
      var w1 := Apply(w);
      assert Applies(n)[1..] == Applies(n - 1);
      assert Lookup(w1.pending, c) == Hit(Lookup(w.pending, c), w.updates[0], c);
      AppliesRun(w1, n - 1, c);
      assert w.updates[..n][1..] == w1.updates[..n - 1];
      hide Apply;
      var v := Run(w1, Applies(n - 1));
      forall a | 0 <= a < |w.attempts| ensures SameAttempt(v.attempts[a], w.attempts[a]) {
        assert SameAttempt(w1.attempts[a], w.attempts[a]);
        assert SameAttempt(v.attempts[a], w1.attempts[a]);
      }
    }
  }

  // ---------------------------------------------------------------- when an addition meets an entry

  /** A request that is sent or waited for under `c` and has not been told its end. */
  predicate Unanswered(w: World, a: nat, c: cseq)
    requires a < |w.attempts|
  {
    var t := w.attempts[a];
    && Live(t) && CSeqNo(w, t) == c
    && End(w.cells, t.cell) < |w.cells| && w.cells[End(w.cells, t.cell)].value.None?
  }

  predicate IsUnanswered(w: World, c: cseq) {
    exists a: nat :: a < |w.attempts| && Unanswered(w, a, c)
  }

  lemma CurIsUnanswered(w: World, c: cseq)
    requires Inv(w)
    ensures Cur(w, c).Some? <==> w.alive && IsUnanswered(w, c)
  {
    hide Matching, Clean, Follow, Expected;
    assert EntryOk(w, c);
    if Cur(w, c).Some? {
      var a := w.cells[Cur(w, c).value].owner;
      CurBelongs(w, a, c);
    }
    if IsUnanswered(w, c) && w.alive {
      var a: nat :| a < |w.attempts| && Unanswered(w, a, c);
      assert AttemptOk(w, a);
      if w.attempts[a].since.Some? {
        AfterNone(Lookup(w.pending, c), w.updates, c);
      }
    }
  }

  lemma CurBelongs(w: World, a: nat, c: cseq)
    requires Inv(w) && a < |w.attempts| && LiveUnder(w, a, c) && Cur(w, c).Some?
    ensures w.alive && Unanswered(w, a, c)
  {
    hide Matching, Clean, Expected;
    assert AttemptOk(w, a) && NumberOk(w, a);
    ChainOf(w, a);
    if w.attempts[a].since.Some? {
      AfterNone(Lookup(w.pending, c), w.updates, c);
    } else {
      assert End(w.cells, w.attempts[a].cell) == w.attempts[a].cell;
    }
  }

  /** In every reachable state: the addition of the next request will find an entry under its number if and
      only if an unanswered request bears that number. */
  lemma NextAdditionMeets(start: cseq, events: seq<Event>)
    requires Reached(start, events)
    requires RunOf(start, events).alive && !IsSending(RunOf(start, events))
    ensures var w := RunOf(start, events);
      var v, c := Run(Begin(w), Applies(|w.updates|)), Ahead(w.start, w.sent);
      && v.updates == [Add(c, |w.cells|)]
      && (c in v.pending <==> IsUnanswered(w, c))
  {
    ReachedKeeps(start, events);
    var w := RunOf(start, events);
    hide RunOf, Reached;
    var w1, c := Begin(w), Ahead(w.start, w.sent);
    assert w1.updates[..|w.updates|] == w.updates && w1.updates[|w.updates|..] == [Add(c, |w.cells|)];
    AppliesRun(w1, |w.updates|, c);
    CurIsUnanswered(w, c);
  }

  // ---------------------------------------------------------------- a sufficient pace

  /** It is enough that fewer requests than there are numbers were sent since the oldest future that was
      not dropped. */
  lemma PaceSuffices(w: World)
    requires Inv(w) && !IsSending(w)
    requires forall t :: t in w.attempts && t.status != Gone ==> w.sent < t.number + CYCLE
    ensures NextIsFree(w)
  {
    forall t | t in w.attempts && Holds(w, t) ensures CSeqNo(w, t) != Ahead(w.start, w.sent) {
      var a: nat :| a < |w.attempts| && w.attempts[a] == t;
      assert NumberOk(w, a);
      NumbersApart(w.start, t.number, w.sent);
    }
  }

  lemma NumbersApart(start: cseq, m: nat, n: nat)
    requires m < n < m + CYCLE
    ensures Ahead(start, m) != Ahead(start, n)
  {
  }

  // ---------------------------------------------------------------- the exact pace

  /** What the code relies on: the addition at hand finds no entry, and a future that waits with an empty
      cell will be found by a response. */
  predicate Sound(w: World) {
    && (w.updates != [] && w.updates[0].Add? ==> w.updates[0].c !in w.pending)
    && forall a: nat :: a < |w.attempts| ==> HasSender(w, w.attempts[a])
  }

  predicate HasSender(w: World, t: Attempt) {
    t.status == Waiting && t.cell < |w.cells| && w.cells[t.cell].value.None? ==> CouldFill(w, t)
  }

  lemma InvIsSound(w: World)
    requires Inv(w)
    ensures Sound(w)
  {
    if w.updates != [] && w.updates[0].Add? {
      assert EntryOk(w, w.updates[0].c);
    }
    forall a: nat | a < |w.attempts| ensures HasSender(w, w.attempts[a]) {
      assert AttemptOk(w, a);
      if w.attempts[a].status == Waiting && w.attempts[a].since.None? {
        var i := LastIsAdd(w, a);
      }
    }
  }

  predicate NoBegin(events: seq<Event>) {
    forall i :: 0 <= i < |events| ==> events[i] != DoBegin
  }

  lemma {:induction false} NoBeginIsPaced(w: World, events: seq<Event>)
    requires NoBegin(events)
    ensures Paced(w, events)
    decreases |events|
  {
    hide Move, NextIsFree;
    if events != [] {
      assert events[0] != DoBegin;
      NoBeginIsPaced(Move(w, events[0]), events[1..]);
    }
  }

  lemma {:induction false} AppliesBeginNothing(n: nat)
    ensures NoBegin(Applies(n))
  {
    if n > 0 {
      AppliesBeginNothing(n - 1);
    }
  }

  lemma RunOne(w: World, e: Event, events: seq<Event>)
    ensures Run(w, [e] + events) == Run(Move(w, e), events)
    ensures e != DoBegin && NoBegin(events) ==> NoBegin([e] + events)
  {
    hide Move;
    assert ([e] + events)[1..] == events;
  }

  /** The request at `b` waits with the empty cell `x` under `c`. */
  predicate AwaitsIn(w: World, b: nat, x: nat, c: cseq) {
    && w.alive && b < |w.attempts| && w.attempts[b].status == Waiting
    && w.attempts[b].cell == x && CSeqNo(w, w.attempts[b]) == c
    && x < |w.cells| && w.cells[x].value.None?
  }

  /** A waiting request whose number the queue will have removed is left alone. */
  lemma LeftAlone(w: World, b: nat, x: nat, c: cseq) returns (events: seq<Event>)
    requires AwaitsIn(w, b, x, c) && Cur(w, c).None?
    ensures NoBegin(events) && !Sound(Run(w, events))
  {
    events := Applies(|w.updates|);
    AppliesBeginNothing(|w.updates|);
    AppliesRun(w, |w.updates|, c);
    var v := Run(w, events);
    assert w.updates[..|w.updates|] == w.updates;
    assert SameAttempt(v.attempts[b], w.attempts[b]);
    assert !HasSender(v, v.attempts[b]);
  }

  /** A removal by another future takes the entry of the waiting one. */
  lemma RemovalTakes(w: World, a: nat, b: nat, x: nat, c: cseq) returns (events: seq<Event>)
    requires AwaitsIn(w, b, x, c) && a < |w.attempts| && a != b && CSeqNo(w, w.attempts[a]) == c
    requires w.attempts[a].cell < |w.cells|
    requires w.attempts[a].status == Waiting || (w.attempts[a].status == TimedOut && IsFilled(w, w.attempts[a]))
    ensures NoBegin(events) && !Sound(Run(w, events))
  {
    var v := Drop(w, a);
    assert v == Withdraw(w, a, true);
    AfterSnoc(Lookup(w.pending, c), w.updates, Remove(c), c);
    var later := LeftAlone(v, b, x, c);
    events := [DoDrop(a)] + later;
    RunOne(w, DoDrop(a), later);
  }

  lemma ShutThenRemoved(w: World, a: nat, b: nat, x: nat, c: cseq) returns (events: seq<Event>)
    requires AwaitsIn(w, b, x, c) && a < |w.attempts| && a != b && CSeqNo(w, w.attempts[a]) == c
    requires w.attempts[a].status == Withdrawing(false) && IsFilled(w, w.attempts[a])
    ensures NoBegin(events) && !Sound(Run(w, events))
  {
    var v := Shut(w, a);
    var later := RemovalTakes(v, a, b, x, c);
    events := [DoShut(a)] + later;
    RunOne(w, DoShut(a), later);
  }

  function Okay(c: cseq): (m: Message)
    ensures m.Response? && m.status != CONTINUE && CSeqOf(m) == Some(c)
  {
    CSeqReadsBack(Response(200, [], [], []), c);
    WithCSeq(Response(200, [], [], []), c)
  }

  /** A future that withdrew its request but has not closed its cell is still answered. */
  lemma AnsweredLate(w: World, a: nat, b: nat, x: nat, c: cseq) returns (events: seq<Event>)
    requires AwaitsIn(w, b, x, c) && a < |w.attempts| && a != b && CSeqNo(w, w.attempts[a]) == c
    requires w.attempts[a].status == Withdrawing(false)
    requires var y := w.attempts[a].cell;
      && y < |w.cells| && y != x && w.cells[y].owner == a && !w.cells[y].closed
      && Lookup(w.pending, c) == Some(y)
    ensures NoBegin(events) && !Sound(Run(w, events))
  {
    var v := Respond(w, Okay(c));
    var later := ShutThenRemoved(v, a, b, x, c);
    events := [DoRespond(Okay(c))] + later;
    RunOne(w, DoRespond(Okay(c)), later);
  }

  lemma RunTwo(w: World, a: seq<Event>, b: seq<Event>)
    ensures Run(w, a + b) == Run(Run(w, a), b)
    ensures NoBegin(a) && NoBegin(b) ==> NoBegin(a + b)
  {
    RunAppends(w, a, b);
  }

  /** The same, if the cell is still on its way into the map. */
  lemma AnsweredLater(w: World, a: nat, b: nat, x: nat, c: cseq) returns (events: seq<Event>)
    requires AwaitsIn(w, b, x, c) && a < |w.attempts| && a != b && CSeqNo(w, w.attempts[a]) == c
    requires w.attempts[a].status == Withdrawing(false)
    requires var y := w.attempts[a].cell;
      y < |w.cells| && y != x && w.cells[y].owner == a && !w.cells[y].closed
    requires CouldFill(w, w.attempts[a])
    ensures NoBegin(events) && !Sound(Run(w, events))
  {
    var y := w.attempts[a].cell;
    if Lookup(w.pending, c) == Some(y) {
      events := AnsweredLate(w, a, b, x, c);
    } else {
      var i: nat :| i < |w.updates| && w.updates[i] == Add(c, y);
      AppliesRun(w, i + 1, c);
      AppliesBeginNothing(i + 1);
      assert w.updates[..i + 1] == w.updates[..i] + [w.updates[i]];
      AfterSnoc(Lookup(w.pending, c), w.updates[..i], w.updates[i], c);
      var v := Run(w, Applies(i + 1));
      assert SameAttempt(v.attempts[a], w.attempts[a]) && SameAttempt(v.attempts[b], w.attempts[b]);
      var later := AnsweredLate(v, a, b, x, c);
      events := Applies(i + 1) + later;
      RunTwo(w, Applies(i + 1), later);
    }
  }

  /** If a future may yet remove the next number, there is a way for the request that takes the number to
      be left alone. */
  lemma TakenNumberHurts(w: World, a: nat) returns (events: seq<Event>)
    requires Inv(w) && w.alive && !IsSending(w)
    requires a < |w.attempts| && Holds(w, w.attempts[a]) && CSeqNo(w, w.attempts[a]) == Ahead(w.start, w.sent)
    ensures NoBegin(events) && !Sound(Run(Begin(w), events))
  {
    assert NumberOk(w, a) && CellOk(w, w.attempts[a].cell);
    hide Inv;
    var b, x, c := |w.attempts|, |w.cells|, Ahead(w.start, w.sent);
    var v := Commit(Begin(w), true);
    assert v.attempts[a] == w.attempts[a] && AwaitsIn(v, b, x, c);
    var later;
    if w.attempts[a].status != Withdrawing(false) {
      later := RemovalTakes(v, a, b, x, c);
    } else if IsFilled(w, w.attempts[a]) {
      later := ShutThenRemoved(v, a, b, x, c);
    } else {
      later := AnsweredLater(v, a, b, x, c);
    }
    events := [DoCommit(true)] + later;
    RunOne(Begin(w), DoCommit(true), later);
  }

  predicate SoundAfter(w: World, events: seq<Event>) {
    Paced(w, events) ==> Sound(Run(w, events))
  }

  /** The pace is exact: registering the next request is sound under every continuation that keeps the pace
      if and only if no future may yet remove its number. */
  lemma PaceExact(w: World)
    requires Inv(w) && w.alive && !IsSending(w)
    ensures NextIsFree(w) <==> forall events :: SoundAfter(Begin(w), events)
  {
    if NextIsFree(w) {
      BeginKeeps(w);
      forall events ensures SoundAfter(Begin(w), events) {
        hide Inv, Sound, Begin;
        if Paced(Begin(w), events) {
          RunKeeps(Begin(w), events);
          InvIsSound(Run(Begin(w), events));
        }
      }
    } else {
      var t :| t in w.attempts && Holds(w, t) && CSeqNo(w, t) == Ahead(w.start, w.sent);
      var a: nat :| a < |w.attempts| && w.attempts[a] == t;
      var events := TakenNumberHurts(w, a);
      NoBeginIsPaced(Begin(w), events);
      assert !SoundAfter(Begin(w), events);
    }
  }
}
