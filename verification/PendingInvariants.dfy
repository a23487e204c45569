/** What every schedule of the pending-request system keeps. */
module PendingInvariants {
  import opened Bytes
  import opened Decoding
  import opened CSeqs
  import opened TypedHeaders
  import opened Statuses
  import opened Pending

  // ---------------------------------------------------------------- the invariant

  function Cur(w: World, c: cseq): Option<nat> {
    After(Lookup(w.pending, c), w.updates, c)
  }

  /** The cell belongs to a request numbered `c`. */
  predicate OwnedBy(w: World, id: nat, c: cseq) {
    && id < |w.cells| && w.cells[id].owner < |w.attempts|
    && CSeqNo(w, w.attempts[w.cells[id].owner]) == c
  }

  predicate CellOk(w: World, id: nat)
    requires id < |w.cells|
  {
    && Linked(w.cells, id)
    && w.cells[id].owner < |w.attempts|
    && (w.cells[id].closed ==> w.attempts[w.cells[id].owner].status in {Withdrawing(true), TimedOut, Gone})
  }

  predicate CellsOk(w: World) {
    forall id: nat :: id < |w.cells| ==> CellOk(w, id)
  }

  predicate NumbersOk(w: World) {
    && (forall a: nat :: a < |w.attempts| ==> NumberOk(w, a))
    && (forall a: nat, b: nat :: a < b < |w.attempts| ==> Apart(w, w.attempts[a], w.attempts[b]))
  }

  predicate NumberOk(w: World, a: nat)
    requires a < |w.attempts|
  {
    var t := w.attempts[a];
    && (t.status == Sending ==> a == |w.attempts| - 1 && t.number == w.sent)
    && (t.status in {Waiting, TimedOut} || t.status.Finished? || t.status.Withdrawing? ==> t.number < w.sent)
    && (t.status == TimedOut ==> t.cell < |w.cells| && w.cells[t.cell].closed)
    && t.cell < |w.cells| && w.cells[t.cell].owner == a
  }

  /** Two futures that may both remove their numbers have different ones. */
  predicate Apart(w: World, t: Attempt, u: Attempt) {
    Holds(w, t) && Holds(w, u) ==> CSeqNo(w, t) != CSeqNo(w, u)
  }

  predicate EntryOk(w: World, c: cseq) {
    && (c in w.pending ==>
          && OwnedBy(w, w.pending[c], c)
          && w.cells[w.pending[c]].value.None?
          && w.attempts[w.cells[w.pending[c]].owner].since.Some?)
    && Clean(Lookup(w.pending, c), w.updates, c)
    && (Cur(w, c).Some? ==> OwnedBy(w, Cur(w, c).value, c) && Live(w.attempts[w.cells[Cur(w, c).value].owner]))
  }

  predicate EntriesOk(w: World) {
    forall c: cseq :: EntryOk(w, c)
  }

  predicate AddOk(w: World, u: Update) {
    u.Add? ==>
      && OwnedBy(w, u.cell, u.c)
      && w.cells[u.cell].value.None?
      && w.attempts[w.cells[u.cell].owner].since.None?
  }

  predicate Ordered(w: World, u: Update, v: Update)
    requires AddOk(w, u) && AddOk(w, v)
  {
    u.Add? && v.Add? ==> w.cells[u.cell].owner < w.cells[v.cell].owner
  }

  predicate QueueOk(w: World) {
    && (forall i: nat :: i < |w.updates| ==> AddOk(w, w.updates[i]))
    && (forall i: nat, j: nat :: i < j < |w.updates| ==> Ordered(w, w.updates[i], w.updates[j]))
    && (!w.alive ==> w.updates == [] && w.pending == map[])
  }

  /** Before registration the addition is the last word on the number and nothing was said; after it
      the map holds the end of the chain until the end is reached, and what was seen and what can
      still be read make up what should be told. */
  predicate LiveOk(w: World, t: Attempt)
    requires t.cell < |w.cells|
  {
    var c, e := CSeqNo(w, t), End(w.cells, t.cell);
    match t.since
    case None =>
      && w.alive && w.cells[t.cell].value.None? && t.seen == []
      && !NoUpdate(w.updates, c) && Cur(w, c) == Some(t.cell)
    case Some(k) =>
      && k <= |w.arrived|
      && NoUpdate(w.updates, c)
      && OnlyContinues(t.seen)
      && t.seen + Follow(w.cells, t.cell) == Expected(w, t)
      && e < |w.cells|
      && (if w.cells[e].value.None? then w.alive && Lookup(w.pending, c) == Some(e)
          else c !in w.pending)
  }

  predicate DoneOk(w: World, t: Attempt) {
    t.status.Finished? ==>
      && t.since.Some? && t.since.value <= |w.arrived|
      && Ended(t.seen) && OnlyContinues(t.seen[..|t.seen| - 1])
      && t.seen == Expected(w, t)
      && t.status.outcome == t.seen[|t.seen| - 1]
  }

  predicate AttemptOk(w: World, a: nat)
    requires a < |w.attempts|
  {
    var t := w.attempts[a];
    && t.cell < |w.cells|
    && (Live(t) ==> LiveOk(w, t))
    && DoneOk(w, t)
  }

  predicate AttemptsOk(w: World) {
    forall a: nat :: a < |w.attempts| ==> AttemptOk(w, a)
  }

  predicate Inv(w: World) {
    CellsOk(w) && NumbersOk(w) && EntriesOk(w) && QueueOk(w) && AttemptsOk(w)
  }

  /** Less than the invariant, and true of every run at any pace: what refers to a cell or an owner finds
      it, and nothing waits for a receiver that is gone. */
  predicate InRange(w: World) {
    && (forall id: nat :: id < |w.cells| ==> w.cells[id].owner < |w.attempts|)
    && (forall c: cseq :: c in w.pending ==> w.pending[c] < |w.cells|)
    && (forall i: nat :: i < |w.updates| && w.updates[i].Add? ==> w.updates[i].cell < |w.cells|)
    && (!w.alive ==> w.updates == [] && w.pending == map[])
  }

  lemma ApplyInRange(w: World)
    requires InRange(w)
    ensures InRange(Apply(w))
  {
  }

  lemma RespondInRange(w: World, m: Message)
    requires InRange(w)
    ensures InRange(Respond(w, m))
  {
    hide CSeqOf;
  }

  lemma {:induction false} DrainEmpties(w: World)
    requires w.alive
    ensures Drain(w).alive && Drain(w).updates == []
    decreases |w.updates|
  {
    if w.updates != [] {
      DrainEmpties(Apply(w));
    }
  }

  lemma SilenceInRange(w: World)
    requires InRange(w) && w.updates == []
    ensures InRange(Silence(w))
  {
  }

  lemma InitialKeeps(start: cseq)
    ensures Inv(Initial(start))
  {
  }

  // ---------------------------------------------------------------- numbers

  lemma NumbersDiffer(w: World, a: nat, b: nat)
    requires NumbersOk(w) && a < |w.attempts| && b < |w.attempts| && a != b
    requires Holds(w, w.attempts[a]) && Holds(w, w.attempts[b])
    ensures CSeqNo(w, w.attempts[a]) != CSeqNo(w, w.attempts[b])
  {
    assert Apart(w, w.attempts[if a < b then a else b], w.attempts[if a < b then b else a]);
  }

  lemma FreshNumbers(w: World)
    requires NextIsFree(w)
    ensures forall a: nat :: a < |w.attempts| && Holds(w, w.attempts[a]) ==>
      CSeqNo(w, w.attempts[a]) != Ahead(w.start, w.sent)
  {
    hide Holds, CSeqNo;
    assert forall a: nat :: a < |w.attempts| ==> w.attempts[a] in w.attempts;
  }

  /** A step that makes no future hold its number that did not keeps the numbers apart. */
  predicate Loosens(w: World, w': World) {
    && w'.start == w.start && |w'.attempts| == |w.attempts|
    && forall a: nat :: a < |w.attempts| ==> LoosensAt(w, w', a)
  }

  predicate LoosensAt(w: World, w': World, a: nat)
    requires a < |w.attempts| && a < |w'.attempts|
  {
    && w'.attempts[a].number == w.attempts[a].number
    && (Holds(w', w'.attempts[a]) ==> Holds(w, w.attempts[a]))
  }

  lemma ApartStays(w: World, w': World)
    requires NumbersOk(w) && Loosens(w, w')
    ensures forall a: nat, b: nat :: a < b < |w'.attempts| ==> Apart(w', w'.attempts[a], w'.attempts[b])
  {
    hide Holds;
    forall a: nat, b: nat | a < b < |w'.attempts| ensures Apart(w', w'.attempts[a], w'.attempts[b]) {
      assert LoosensAt(w, w', a) && LoosensAt(w, w', b) && Apart(w, w.attempts[a], w.attempts[b]);
    }
  }

  lemma ChainOf(w: World, a: nat)
    requires CellsOk(w) && NumbersOk(w) && a < |w.attempts|
    ensures AllLinked(w.cells)
    ensures var e := End(w.cells, w.attempts[a].cell);
      && e < |w.cells| && w.cells[e].owner == a
  {
    assert NumberOk(w, a);
    forall id: nat | id < |w.cells| ensures Linked(w.cells, id) {
      assert CellOk(w, id);
    }
    EndOfChain(w.cells, w.attempts[a].cell);
  }

  // ---------------------------------------------------------------- begin

  lemma BeginNumbers(w: World)
    requires Inv(w) && NextIsFree(w) && w.alive && !IsSending(w)
    ensures CellsOk(Begin(w)) && NumbersOk(Begin(w))
  {
    hide Linked, AttemptsOk, EntriesOk, QueueOk;
    var w' := Begin(w);
    FreshNumbers(w);
    forall id: nat | id < |w'.cells| ensures CellOk(w', id) {
      if id < |w.cells| { assert CellOk(w, id); }
      LinkedGrows(w.cells, Cell(|w.attempts|, None, false), id);
    }
    forall a: nat | a < |w'.attempts| ensures NumberOk(w', a) {
      if a < |w.attempts| { assert NumberOk(w, a); }
    }
    forall a: nat, b: nat | a < b < |w'.attempts| ensures Apart(w', w'.attempts[a], w'.attempts[b]) {
      assert NumberOk(w, a);
      BeginHolds(w, a);
      if b < |w.attempts| {
        assert NumberOk(w, b) && Apart(w, w.attempts[a], w.attempts[b]);
        BeginHolds(w, b);
      }
    }
  }

  lemma BeginHolds(w: World, a: nat)
    requires w.alive && !IsSending(w) && a < |w.attempts| && w.attempts[a].cell < |w.cells|
    ensures Begin(w).attempts[a] == w.attempts[a] && CSeqNo(Begin(w), w.attempts[a]) == CSeqNo(w, w.attempts[a])
    ensures Holds(Begin(w), w.attempts[a]) <==> Holds(w, w.attempts[a])
  {
  }

  lemma LinkedGrows(cells: seq<Cell>, cell: Cell, id: nat)
    requires id <= |cells| && (id < |cells| ==> Linked(cells, id)) && cell.value.None?
    ensures Linked(cells + [cell], id)
  {
  }

  lemma BeginEntry(w: World, c: cseq)
    requires Inv(w) && NextIsFree(w) && w.alive && !IsSending(w)
    ensures EntryOk(Begin(w), c)
  {
    hide AttemptsOk, CellsOk, QueueOk, Linked;
    var w' := Begin(w);
    var u := Add(Ahead(w.start, w.sent), |w.cells|);
    assert EntryOk(w, c);
    FreshNumbers(w);
    AfterSnoc(Lookup(w.pending, c), w.updates, u, c);
    CleanSnoc(Lookup(w.pending, c), w.updates, u, c);
  }

  lemma BeginQueue(w: World)
    requires Inv(w) && NextIsFree(w) && w.alive && !IsSending(w)
    ensures QueueOk(Begin(w))
  {
    hide AttemptsOk, CellsOk, EntriesOk, NumbersOk;
    var w' := Begin(w);
    forall i: nat | i < |w'.updates| ensures AddOk(w', w'.updates[i]) {
      if i < |w.updates| { assert AddOk(w, w.updates[i]); }
    }
    forall i: nat, j: nat | i < j < |w'.updates| ensures Ordered(w', w'.updates[i], w'.updates[j]) {
      assert AddOk(w, w.updates[i]);
      if j < |w.updates| { assert AddOk(w, w.updates[j]) && Ordered(w, w.updates[i], w.updates[j]); }
    }
  }

  lemma NoUpdateSnoc(us: seq<Update>, u: Update, c: cseq)
    ensures NoUpdate(us + [u], c) <==> NoUpdate(us, c) && u.c != c
  {
    assert forall i :: 0 <= i < |us| ==> (us + [u])[i] == us[i];
    assert (us + [u])[|us|] == u;
  }

  /** A new update about another number changes nothing for a live request. */
  lemma OtherUpdate(w: World, w': World, t: Attempt, u: Update)
    requires CellsOk(w) && t.cell < |w.cells| && LiveOk(w, t) && Live(t)
    requires w' == w.(attempts := w'.attempts, cells := w'.cells, sent := w'.sent, updates := w.updates + [u])
    requires u.c != CSeqNo(w, t) && SameFor(w.cells, w'.cells, w.cells[t.cell].owner)
    ensures LiveOk(w', t)
  {
    hide Matching, Linked;
    AllAreLinked(w);
    ChainStays(w.cells, w'.cells, t.cell);
    EndOfChain(w.cells, t.cell);
    NoUpdateSnoc(w.updates, u, CSeqNo(w, t));
    AfterSnoc(Lookup(w.pending, CSeqNo(w, t)), w.updates, u, CSeqNo(w, t));
  }

  lemma AllAreLinked(w: World)
    requires CellsOk(w)
    ensures AllLinked(w.cells)
  {
    forall id: nat | id < |w.cells| ensures Linked(w.cells, id) {
      assert CellOk(w, id);
    }
  }

  lemma BeginAttempts(w: World)
    requires Inv(w) && NextIsFree(w) && w.alive && !IsSending(w)
    ensures AttemptsOk(Begin(w))
  {
    hide Matching, End, Follow, After, NoUpdate, CellsOk, EntriesOk, QueueOk, Clean;
    var w' := Begin(w);
    var u := Add(Ahead(w.start, w.sent), |w.cells|);
    FreshNumbers(w);
    forall a: nat | a < |w'.attempts| ensures AttemptOk(w', a) {
      if a < |w.attempts| {
        assert AttemptOk(w, a) && NumberOk(w, a);
        if Live(w.attempts[a]) {
          OtherUpdate(w, w', w.attempts[a], u);
        }
      } else {
        NoUpdateSnoc(w.updates, u, u.c);
        AfterSnoc(Lookup(w.pending, u.c), w.updates, u, u.c);
      }
    }
  }

  lemma BeginKeeps(w: World)
    requires Inv(w) && NextIsFree(w)
    ensures Inv(Begin(w))
  {
    if w.alive && !IsSending(w) {
      hide CellsOk, NumbersOk, QueueOk, AttemptsOk, Begin, EntryOk;
      BeginNumbers(w);
      forall c: cseq ensures EntryOk(Begin(w), c) { BeginEntry(w, c); }
      BeginQueue(w);
      BeginAttempts(w);
    }
  }

  // ---------------------------------------------------------------- a request is withdrawn

  /** The request at `a` is over: its removal is sent. */
  predicate Withdraws(w: World, w': World, a: nat) {
    && a < |w.attempts| && Holds(w, w.attempts[a])
    && |w'.attempts| == |w.attempts|
    && (match w.attempts[a].status
        case Sending => w'.attempts[a].status == Gone
        case Waiting => w'.attempts[a].status.Withdrawing?
        case TimedOut => w'.attempts[a].status == Withdrawing(true)
        case _ => false)
    && w'.attempts == w.attempts[a := w.attempts[a].(status := w'.attempts[a].status)]
    && w' == Enqueue(w, Remove(CSeqNo(w, w.attempts[a]))).(attempts := w'.attempts)
  }

  lemma WithdrawLoosens(w: World, w': World, a: nat)
    requires Withdraws(w, w', a)
    ensures Loosens(w, w')
  {
    forall b: nat | b < |w.attempts| ensures LoosensAt(w, w', b) {
      assert w'.attempts[b] == if b == a then w'.attempts[a] else w.attempts[b];
    }
  }

  lemma WithdrawCells(w: World, w': World, a: nat)
    requires Inv(w) && Withdraws(w, w', a)
    ensures CellsOk(w') && NumbersOk(w') && QueueOk(w')
  {
    hide AttemptsOk, EntriesOk;
    WithdrawLoosens(w, w', a);
    ApartStays(w, w');
    hide Holds, Loosens, Apart;
    forall id: nat | id < |w'.cells| ensures CellOk(w', id) {
      assert CellOk(w, id);
    }
    forall b: nat | b < |w'.attempts| ensures NumberOk(w', b) {
      assert NumberOk(w, b);
    }
    forall i: nat | i < |w'.updates| ensures AddOk(w', w'.updates[i]) {
      if i < |w.updates| { assert AddOk(w, w.updates[i]); }
    }
    forall i: nat, j: nat | i < j < |w'.updates| ensures Ordered(w', w'.updates[i], w'.updates[j]) {
      assert AddOk(w, w.updates[i]);
      if j < |w.updates| { assert AddOk(w, w.updates[j]) && Ordered(w, w.updates[i], w.updates[j]); }
    }
  }

  lemma WithdrawEntry(w: World, w': World, a: nat, c: cseq)
    requires Inv(w) && Withdraws(w, w', a)
    ensures EntryOk(w', c)
  {
    hide AttemptsOk, NumbersOk, AddOk, Ordered, Linked;
    assert EntryOk(w, c);
    var u := Remove(CSeqNo(w, w.attempts[a]));
    if w.alive {
      AfterSnoc(Lookup(w.pending, c), w.updates, u, c);
      CleanSnoc(Lookup(w.pending, c), w.updates, u, c);
    }
  }

  /** A request whose cells keep their values is as before when nothing else it depends on changes. */
  lemma LiveStays(w: World, w': World, t: Attempt)
    requires CellsOk(w) && t.cell < |w.cells| && LiveOk(w, t) && Live(t)
    requires w' == w.(attempts := w'.attempts, cells := w'.cells, sent := w'.sent)
    requires SameFor(w.cells, w'.cells, w.cells[t.cell].owner)
    ensures LiveOk(w', t)
  {
    hide Matching, Linked, NoUpdate, After;
    AllAreLinked(w);
    ChainStays(w.cells, w'.cells, t.cell);
    EndOfChain(w.cells, t.cell);
  }

  lemma WithdrawAttempts(w: World, w': World, a: nat)
    requires Inv(w) && Withdraws(w, w', a)
    ensures AttemptsOk(w')
  {
    hide CellsOk, EntriesOk, QueueOk, Matching, End, Follow, After, NoUpdate;
    forall b: nat | b < |w'.attempts| ensures AttemptOk(w', b) {
      assert AttemptOk(w, b) && NumberOk(w, b);
      if b != a && Live(w.attempts[b]) {
        NumbersDiffer(w, a, b);
        if w.alive {
          OtherUpdate(w, w', w.attempts[b], Remove(CSeqNo(w, w.attempts[a])));
        } else {
          LiveStays(w, w', w.attempts[b]);
        }
      }
    }
  }

  lemma WithdrawKeeps(w: World, w': World, a: nat)
    requires Inv(w) && Withdraws(w, w', a)
    ensures Inv(w')
  {
    hide CellsOk, NumbersOk, QueueOk, AttemptsOk, EntryOk, Withdraws;
    WithdrawCells(w, w', a);
    forall c: cseq ensures EntryOk(w', c) { WithdrawEntry(w, w', a, c); }
    WithdrawAttempts(w, w', a);
  }

  // ---------------------------------------------------------------- only the status changes

  /** Nothing that the map and the queue depend on changes. */
  predicate Calm(w: World, w': World) {
    && w'.updates == w.updates && w'.pending == w.pending && w'.alive == w.alive && w'.start == w.start
    && w'.arrived == w.arrived && |w'.attempts| == |w.attempts| && |w'.cells| == |w.cells|
    && (forall a :: 0 <= a < |w.attempts| ==> CalmAttempt(w.attempts[a], w'.attempts[a]))
    && (forall i :: 0 <= i < |w.cells| ==> CalmCell(w.cells[i], w'.cells[i]))
  }

  predicate CalmAttempt(t: Attempt, t': Attempt) {
    && t' == t.(status := t'.status) && (Live(t') <==> Live(t))
    && (t'.status == t.status || !t'.status.Finished?)
  }

  predicate CalmCell(c: Cell, c': Cell) {
    c'.owner == c.owner && c'.value == c.value
  }

  lemma CalmEntries(w: World, w': World)
    requires EntriesOk(w) && Calm(w, w')
    ensures EntriesOk(w')
  {
    hide Live, Clean, After;
    forall c: cseq ensures EntryOk(w', c) {
      assert EntryOk(w, c);
    }
  }

  lemma CalmQueue(w: World, w': World)
    requires QueueOk(w) && Calm(w, w')
    ensures QueueOk(w')
  {
    hide Live;
    forall i: nat | i < |w'.updates| ensures AddOk(w', w'.updates[i]) {
      assert AddOk(w, w.updates[i]);
    }
    forall i: nat, j: nat | i < j < |w'.updates| ensures Ordered(w', w'.updates[i], w'.updates[j]) {
      assert AddOk(w, w.updates[i]) && AddOk(w, w.updates[j]) && Ordered(w, w.updates[i], w.updates[j]);
    }
  }

  lemma CalmLive(w: World, w': World, t: Attempt, t': Attempt)
    requires AllLinked(w.cells) && t.cell < |w.cells| && LiveOk(w, t) && Calm(w, w') && CalmAttempt(t, t')
    ensures LiveOk(w', t')
  {
    hide Matching, NoUpdate, After;
    assert SameFor(w.cells, w'.cells, w.cells[t.cell].owner);
    ChainStays(w.cells, w'.cells, t.cell);
    EndOfChain(w.cells, t.cell);
  }

  lemma CalmAttempts(w: World, w': World)
    requires CellsOk(w) && AttemptsOk(w) && Calm(w, w')
    ensures AttemptsOk(w')
  {
    AllAreLinked(w);
    hide LiveOk, Expected, Ended, OnlyContinues, CellsOk, AllLinked;
    forall b: nat | b < |w'.attempts| ensures AttemptOk(w', b) {
      assert AttemptOk(w, b) && CalmAttempt(w.attempts[b], w'.attempts[b]);
      if Live(w.attempts[b]) {
        CalmLive(w, w', w.attempts[b], w'.attempts[b]);
      }
      CalmDone(w, w', w.attempts[b], w'.attempts[b]);
    }
  }

  lemma CalmDone(w: World, w': World, t: Attempt, t': Attempt)
    requires DoneOk(w, t) && Calm(w, w') && CalmAttempt(t, t')
    ensures DoneOk(w', t')
  {
    hide Matching;
  }

  /** The request at `a` changes its status without touching anything else: it was handed over, or a
      future that waits no longer is dropped. */
  predicate Settles(w: World, w': World, a: nat) {
    && a < |w.attempts| && |w'.attempts| == |w.attempts|
    && w'.attempts == w.attempts[a := w.attempts[a].(status := w'.attempts[a].status)]
    && (if w.attempts[a].status == Sending
        then w'.attempts[a].status == Waiting && w' == w.(attempts := w'.attempts, sent := w.sent + 1)
        else
          && (w.attempts[a].status == TimedOut || w.attempts[a].status.Finished?)
          && w'.attempts[a].status == Gone && w' == w.(attempts := w'.attempts))
  }

  lemma SettleLoosens(w: World, w': World, a: nat)
    requires Settles(w, w', a)
    ensures Loosens(w, w')
  {
    forall b: nat | b < |w.attempts| ensures LoosensAt(w, w', b) {
      assert w'.attempts[b] == if b == a then w'.attempts[a] else w.attempts[b];
    }
  }

  lemma SettleKeeps(w: World, w': World, a: nat)
    requires Inv(w) && Settles(w, w', a)
    ensures Inv(w')
  {
    SettleLoosens(w, w', a);
    ApartStays(w, w');
    hide EntriesOk, QueueOk, AttemptsOk, Holds, Loosens, Apart, Linked;
    assert Calm(w, w') by {
      forall b | 0 <= b < |w.attempts| ensures CalmAttempt(w.attempts[b], w'.attempts[b]) {
      }
    }
    CalmEntries(w, w');
    CalmQueue(w, w');
    CalmAttempts(w, w');
    forall id: nat | id < |w'.cells| ensures CellOk(w', id) {
      assert CellOk(w, id);
    }
    forall b: nat | b < |w'.attempts| ensures NumberOk(w', b) {
      assert NumberOk(w, b) && NumberOk(w, a);
    }
  }

  lemma CommitKeeps(w: World, accepted: bool)
    requires Inv(w)
    ensures Inv(Commit(w, accepted))
  {
    hide Inv;
    if IsSending(w) {
      var a, w' := |w.attempts| - 1, Commit(w, accepted);
      if accepted {
        SettleKeeps(w, w', a);
      } else {
        WithdrawKeeps(w, w', a);
      }
    }
  }

  lemma DropKeeps(w: World, a: nat)
    requires Inv(w)
    ensures Inv(Drop(w, a))
  {
    hide Inv;
    var w' := Drop(w, a);
    if w' != w {
      var t := w.attempts[a];
      if t.status.Finished? || (t.status == TimedOut && w.cells[t.cell].value.None?) {
        SettleKeeps(w, w', a);
      } else {
        WithdrawKeeps(w, w', a);
      }
    }
  }

  // ---------------------------------------------------------------- a future is polled

  /** The future at `a` takes what its cell holds. */
  predicate Takes(w: World, w': World, a: nat, p: Payload) {
    && a < |w.attempts| && w.attempts[a].status == Waiting
    && w.attempts[a].cell < |w.cells| && w.cells[w.attempts[a].cell].value == Some(p)
    && w' == WithAttempt(w, a,
         if p.Continue? then w.attempts[a].(cell := p.rest, seen := w.attempts[a].seen + [Cont])
         else w.attempts[a].(status := Finished(Told(p)), seen := w.attempts[a].seen + [Told(p)]))
  }

  lemma ExpectedSame(w: World, w': World, t: Attempt, t': Attempt)
    requires w'.start == w.start && w'.alive == w.alive && w'.arrived == w.arrived
    requires t.since.Some? && t.since.value <= |w.arrived| && t'.since == t.since && t'.number == t.number
    ensures Expected(w', t') == Expected(w, t)
  {
  }

  lemma TakeContinue(w: World, w': World, a: nat, p: Payload)
    requires Takes(w, w', a, p) && p.Continue? && AllLinked(w.cells) && LiveOk(w, w.attempts[a])
    ensures p.rest < |w.cells| && w.cells[p.rest].owner == w.cells[w.attempts[a].cell].owner
    ensures LiveOk(w', w'.attempts[a])
  {
    hide Matching, NoUpdate, After, Expected;
    var t := w.attempts[a];
    ExpectedSame(w, w', t, w'.attempts[a]);
    EndOfChain(w.cells, t.cell);
    assert Linked(w.cells, t.cell);
    assert t.seen + ([Cont] + Follow(w.cells, p.rest)) == t.seen + [Cont] + Follow(w.cells, p.rest);
  }

  lemma TakeFinal(w: World, w': World, a: nat, p: Payload)
    requires Takes(w, w', a, p) && !p.Continue? && AllLinked(w.cells) && LiveOk(w, w.attempts[a])
    ensures DoneOk(w', w'.attempts[a])
    ensures Cur(w, CSeqNo(w, w.attempts[a])).None?
  {
    hide Matching, Expected;
    var t := w.attempts[a];
    ExpectedSame(w, w', t, w'.attempts[a]);
    assert Follow(w.cells, t.cell) == [Told(p)];
    AfterNone(Lookup(w.pending, CSeqNo(w, t)), w.updates, CSeqNo(w, t));
  }

  lemma TakeAttempt(w: World, w': World, a: nat, p: Payload)
    requires Inv(w) && Takes(w, w', a, p)
    ensures AttemptOk(w', a) && NumberOk(w', a)
    ensures !p.Continue? ==> Cur(w, CSeqNo(w, w.attempts[a])).None?
  {
    assert AttemptOk(w, a) && NumberOk(w, a);
    AllAreLinked(w);
    hide Inv, LiveOk, Cur, AllLinked;
    if p.Continue? {
      TakeContinue(w, w', a, p);
    } else {
      TakeFinal(w, w', a, p);
    }
  }

  lemma TakeLoosens(w: World, w': World, a: nat, p: Payload)
    requires Takes(w, w', a, p)
    ensures Loosens(w, w')
  {
    forall b: nat | b < |w.attempts| ensures LoosensAt(w, w', b) {
      assert w'.attempts[b] == if b == a then w'.attempts[a] else w.attempts[b];
    }
  }

  lemma TakeEntries(w: World, w': World, a: nat, p: Payload)
    requires Inv(w) && Takes(w, w', a, p)
    ensures EntriesOk(w') && QueueOk(w')
  {
    TakeAttempt(w, w', a, p);
    hide AttemptsOk, CellsOk, NumbersOk, After, Clean;
    forall c: cseq ensures EntryOk(w', c) {
      assert EntryOk(w, c);
    }
    forall i: nat | i < |w'.updates| ensures AddOk(w', w'.updates[i]) {
      assert AddOk(w, w.updates[i]);
    }
    forall i: nat, j: nat | i < j < |w'.updates| ensures Ordered(w', w'.updates[i], w'.updates[j]) {
      assert AddOk(w, w.updates[i]) && AddOk(w, w.updates[j]) && Ordered(w, w.updates[i], w.updates[j]);
    }
  }

  lemma TakeOthers(w: World, w': World, a: nat, p: Payload, b: nat)
    requires Takes(w, w', a, p) && b < |w.attempts| && b != a && AttemptOk(w, b)
    ensures AttemptOk(w', b)
  {
    hide Matching, End, Follow, After, NoUpdate;
  }

  lemma TakeKeeps(w: World, w': World, a: nat, p: Payload)
    requires Inv(w) && Takes(w, w', a, p)
    ensures Inv(w')
  {
    TakeAttempt(w, w', a, p);
    TakeEntries(w, w', a, p);
    TakeLoosens(w, w', a, p);
    ApartStays(w, w');
    hide EntriesOk, QueueOk, AttemptOk, Linked, Holds, Loosens, Apart;
    forall id: nat | id < |w'.cells| ensures CellOk(w', id) {
      assert CellOk(w, id);
    }
    forall b: nat | b < |w'.attempts| ensures NumberOk(w', b) {
      assert NumberOk(w, b) && NumberOk(w, a);
    }
    forall b: nat | b < |w'.attempts| ensures AttemptOk(w', b) {
      if b != a { TakeOthers(w, w', a, p, b); }
    }
  }

  lemma ExpireKeeps(w: World, a: nat)
    requires Inv(w) && a < |w.attempts| && w.attempts[a].status == Waiting
    ensures Inv(Withdraw(w, a, false))
  {
    hide Inv;
    WithdrawKeeps(w, Withdraw(w, a, false), a);
  }

  lemma PollKeeps(w: World, a: nat, expired: bool)
    requires Inv(w)
    ensures Inv(Poll(w, a, expired))
  {
    hide Inv, Withdraw;
    if a < |w.attempts| && w.attempts[a].status == Waiting && w.attempts[a].cell < |w.cells| {
      match w.cells[w.attempts[a].cell].value
      case None => if expired { ExpireKeeps(w, a); }
      case Some(p) =>
        var taken := Poll(w, a, false);
        TakeKeeps(w, taken, a, p);
        if p.Continue? && expired {
          ExpireKeeps(taken, a);
        }
    }
  }

  // ---------------------------------------------------------------- a cell is closed

  lemma ShutLoosens(w: World, a: nat)
    requires a < |w.attempts| && w.attempts[a].status.Withdrawing? && w.attempts[a].cell < |w.cells|
    ensures Loosens(w, Shut(w, a))
  {
    var w' := Shut(w, a);
    forall b: nat | b < |w.attempts| ensures LoosensAt(w, w', b) {
      assert w'.attempts[b].number == w.attempts[b].number && w'.attempts[b].cell == w.attempts[b].cell;
    }
  }

  lemma ShutKeeps(w: World, a: nat)
    requires Inv(w)
    ensures Inv(Shut(w, a))
  {
    var w' := Shut(w, a);
    if w' != w {
      ShutLoosens(w, a);
      ApartStays(w, w');
      hide EntriesOk, QueueOk, AttemptsOk, Holds, Loosens, Apart;
      assert NumberOk(w, a);
      assert Calm(w, w') by {
        forall b | 0 <= b < |w.attempts| ensures CalmAttempt(w.attempts[b], w'.attempts[b]) {
        }
      }
      CalmEntries(w, w');
      CalmQueue(w, w');
      CalmAttempts(w, w');
      forall id: nat | id < |w'.cells| ensures CellOk(w', id) {
        assert CellOk(w, id);
      }
      forall b: nat | b < |w'.attempts| ensures NumberOk(w', b) {
        assert NumberOk(w, b);
      }
    }
  }

  // ---------------------------------------------------------------- an update is applied

  predicate Applies(w: World) {
    w.alive && w.updates != []
  }

  /** The addition of a live request that is not registered is the last word on its number. */
  lemma LastIsAdd(w: World, a: nat) returns (i: nat)
    requires a < |w.attempts| && w.attempts[a].cell < |w.cells|
    requires LiveOk(w, w.attempts[a]) && w.attempts[a].since.None?
    ensures i < |w.updates| && w.updates[i] == Add(CSeqNo(w, w.attempts[a]), w.attempts[a].cell)
    ensures NoUpdate(w.updates[i + 1..], CSeqNo(w, w.attempts[a]))
  {
    var c := CSeqNo(w, w.attempts[a]);
    i := LastAdd(Lookup(w.pending, c), w.updates, c);
  }

  lemma HeadIsLast(w: World, a: nat, i: nat)
    requires QueueOk(w) && i < |w.updates| && w.updates[0].Add? && w.updates[i].Add?
    requires a < |w.attempts|
    requires w.updates[0].cell < |w.cells| && w.cells[w.updates[0].cell].owner == a
    requires w.updates[i].cell < |w.cells| && w.cells[w.updates[i].cell].owner == a
    ensures i == 0
  {
    assert AddOk(w, w.updates[0]) && AddOk(w, w.updates[i]);
    assert i > 0 ==> Ordered(w, w.updates[0], w.updates[i]);
  }

  lemma ApplyEntry(w: World, c: cseq)
    requires Inv(w) && Applies(w)
    ensures EntryOk(Apply(w), c) && Cur(Apply(w), c) == Cur(w, c)
  {
    hide AttemptsOk, NumbersOk, CellsOk, Linked;
    assert EntryOk(w, c);
    assert AddOk(w, w.updates[0]);
    assert Lookup(Apply(w).pending, c) == Hit(Lookup(w.pending, c), w.updates[0], c);
    EntryAfterApply(w, c);
  }

  lemma EntryAfterApply(w: World, c: cseq)
    requires Applies(w) && EntryOk(w, c) && AddOk(w, w.updates[0])
    ensures var w' := Apply(w); c in w'.pending ==>
      && OwnedBy(w', w'.pending[c], c)
      && w'.cells[w'.pending[c]].value.None?
      && w'.attempts[w'.cells[w'.pending[c]].owner].since.Some?
  {
    hide After, Clean, Live;
  }

  lemma ApplyLoosens(w: World)
    requires Applies(w)
    ensures Loosens(w, Apply(w))
  {
    var w' := Apply(w);
    forall a: nat | a < |w.attempts| ensures LoosensAt(w, w', a) {
      var c := CSeqNo(w, w.attempts[a]);
      assert Lookup(w'.pending, c) == Hit(Lookup(w.pending, c), w.updates[0], c);
      assert w.updates[0] in w.updates && forall u :: u in w'.updates ==> u in w.updates;
    }
  }

  lemma ApplyCells(w: World)
    requires Inv(w) && Applies(w)
    ensures CellsOk(Apply(w)) && NumbersOk(Apply(w)) && QueueOk(Apply(w))
  {
    hide AttemptsOk, EntriesOk, Linked;
    var w' := Apply(w);
    ApplyLoosens(w);
    ApartStays(w, w');
    hide Holds, Loosens, Apart;
    assert AddOk(w, w.updates[0]);
    forall id: nat | id < |w'.cells| ensures CellOk(w', id) {
      assert CellOk(w, id);
    }
    forall b: nat | b < |w'.attempts| ensures NumberOk(w', b) {
      assert NumberOk(w, b);
    }
    forall i: nat | i < |w'.updates| ensures AddOk(w', w'.updates[i]) {
      assert w'.updates[i] == w.updates[i + 1];
      assert AddOk(w, w.updates[i + 1]) && Ordered(w, w.updates[0], w.updates[i + 1]);
    }
    forall i: nat, j: nat | i < j < |w'.updates| ensures Ordered(w', w'.updates[i], w'.updates[j]) {
      assert w'.updates[i] == w.updates[i + 1] && w'.updates[j] == w.updates[j + 1];
      assert AddOk(w, w.updates[i + 1]) && AddOk(w, w.updates[j + 1]);
      assert Ordered(w, w.updates[i + 1], w.updates[j + 1]);
    }
  }

  /** The update registers the live request at `a`. */
  lemma ApplyRegisters(w: World, a: nat)
    requires Inv(w) && Applies(w) && a < |w.attempts| && Live(w.attempts[a]) && w.attempts[a].since.None?
    requires w.updates[0].Add? && w.cells[w.updates[0].cell].owner == a
    ensures AttemptOk(Apply(w), a)
  {
    hide CellsOk, EntriesOk, After;
    assert AttemptOk(w, a) && AddOk(w, w.updates[0]) && NumberOk(w, a);
    var t, c := w.attempts[a], CSeqNo(w, w.attempts[a]);
    var i := LastIsAdd(w, a);
    HeadIsLast(w, a, i);
    var t' := Apply(w).attempts[a];
    assert t' == t.(since := Some(|w.arrived|));
    assert w.arrived[|w.arrived|..] == [];
    assert Expected(Apply(w), t') == [];
    assert Follow(w.cells, t.cell) == [] && End(w.cells, t.cell) == t.cell;
  }

  lemma ApplyAttempt(w: World, a: nat)
    requires Inv(w) && Applies(w) && a < |w.attempts|
    requires !(w.updates[0].Add? && w.cells[w.updates[0].cell].owner == a)
    ensures AttemptOk(Apply(w), a)
  {
    hide CellsOk, EntriesOk, NumbersOk, Matching, End, Follow;
    assert AttemptOk(w, a) && AddOk(w, w.updates[0]);
    var t, w' := w.attempts[a], Apply(w);
    var c := CSeqNo(w, t);
    assert w'.attempts[a] == t;
    if Live(t) {
      if t.since.None? {
        ApplyKeepsLast(w, a);
      } else {
        assert w.updates[0].c != c;
        assert forall i :: 0 <= i < |w'.updates| ==> w'.updates[i] == w.updates[i + 1];
      }
    }
  }

  lemma ApplyKeepsLast(w: World, a: nat)
    requires Inv(w) && Applies(w) && a < |w.attempts| && Live(w.attempts[a]) && w.attempts[a].since.None?
    requires !(w.updates[0].Add? && w.cells[w.updates[0].cell].owner == a)
    ensures !NoUpdate(w.updates[1..], CSeqNo(w, w.attempts[a]))
    ensures Cur(Apply(w), CSeqNo(w, w.attempts[a])) == Some(w.attempts[a].cell)
  {
    assert AttemptOk(w, a) && NumberOk(w, a) && AddOk(w, w.updates[0]);
    var c := CSeqNo(w, w.attempts[a]);
    var i := LastIsAdd(w, a);
    assert i > 0 && w.updates[1..][i - 1] == w.updates[i];
    hide Inv, After, NoUpdate;
    ApplyEntry(w, c);
  }

  lemma ApplyKeeps(w: World)
    requires Inv(w)
    ensures Inv(Apply(w))
  {
    if Applies(w) {
      var w' := Apply(w);
      ApplyCells(w);
      assert AddOk(w, w.updates[0]);
      forall c: cseq ensures EntryOk(w', c) { ApplyEntry(w, c); }
      forall a: nat | a < |w'.attempts| ensures AttemptOk(w', a) {
        if w.updates[0].Add? && w.cells[w.updates[0].cell].owner == a
           && Live(w.attempts[a]) && w.attempts[a].since.None? {
          ApplyRegisters(w, a);
        } else {
          hide LiveOk, End, Follow, Expected;
          assert AttemptOk(w, a) && NumberOk(w, a);
          if !(w.updates[0].Add? && w.cells[w.updates[0].cell].owner == a) {
            ApplyAttempt(w, a);
          }
        }
      }
    }
  }

  // ---------------------------------------------------------------- a response arrives

  lemma ExpectedAfter(w: World, w': World, t: Attempt, m: Message)
    requires w.alive && w'.alive && w'.start == w.start && w'.arrived == w.arrived + [m]
    requires t.since.Some? && t.since.value <= |w.arrived|
    ensures Expected(w', t) ==
      if Ended(Expected(w, t)) || CSeqOf(m) != Some(CSeqNo(w, t)) then Expected(w, t)
      else Expected(w, t) + [Meaning(m)]
  {
    assert w'.arrived[t.since.value..] == w.arrived[t.since.value..] + [m];
    MatchingSnoc(w.arrived[t.since.value..], m, CSeqNo(w, t));
  }

  lemma DoneStays(w: World, w': World, t: Attempt, m: Message)
    requires w.alive && w'.alive && w'.start == w.start && w'.arrived == w.arrived + [m]
    requires DoneOk(w, t)
    ensures DoneOk(w', t)
  {
    if t.status.Finished? {
      ExpectedAfter(w, w', t, m);
    }
  }

  /** A live request that has been told its end was told all it should be. */
  lemma EndTold(w: World, t: Attempt)
    requires AllLinked(w.cells) && t.cell < |w.cells| && LiveOk(w, t) && t.since.Some?
    ensures Ended(Expected(w, t)) <==> w.cells[End(w.cells, t.cell)].value.Some?
  {
    var f := Follow(w.cells, t.cell);
    EndOfChain(w.cells, t.cell);
    var all := t.seen + f;
    if all != [] {
      assert all[|all| - 1] == if f == [] then t.seen[|t.seen| - 1] else f[|f| - 1];
    }
  }

  /** A live request to which the response does not speak. */
  lemma Unaddressed(w: World, w': World, t: Attempt, m: Message)
    requires CellsOk(w) && w.alive && t.cell < |w.cells| && LiveOk(w, t)
    requires w' == w.(arrived := w.arrived + [m], cells := w'.cells, pending := w'.pending)
    requires SameFor(w.cells, w'.cells, w.cells[t.cell].owner)
    requires Lookup(w'.pending, CSeqNo(w, t)) == Lookup(w.pending, CSeqNo(w, t))
    requires CSeqOf(m) == Some(CSeqNo(w, t)) ==> CSeqNo(w, t) !in w.pending
    ensures LiveOk(w', t)
  {
    hide Matching, After, NoUpdate, Expected, Linked;
    AllAreLinked(w);
    ChainStays(w.cells, w'.cells, t.cell);
    EndOfChain(w.cells, t.cell);
    if t.since.Some? {
      EndTold(w, t);
      ExpectedAfter(w, w', t, m);
    }
  }

  lemma IgnoredLoosens(w: World, w': World)
    requires w' == w.(arrived := w'.arrived)
    ensures Loosens(w, w')
  {
    forall a: nat | a < |w.attempts| ensures LoosensAt(w, w', a) {
    }
  }

  lemma IgnoredKeeps(w: World, w': World, m: Message)
    requires Inv(w) && w.alive && w' == w.(arrived := w.arrived + [m])
    requires CSeqOf(m).None? || CSeqOf(m).value !in w.pending
    ensures Inv(w')
  {
    hide CellOk, NumberOk, Apart, After, Clean, CSeqOf, Matching, End, Follow, NoUpdate;
    IgnoredLoosens(w, w');
    ApartStays(w, w');
    hide Holds, Loosens;
    forall id: nat | id < |w'.cells| ensures CellOk(w', id) {
      SameCell(w, w', id);
    }
    forall b: nat | b < |w'.attempts| ensures NumberOk(w', b) {
      SameNumber(w, w', b);
    }
    forall c: cseq ensures EntryOk(w', c) {
      assert EntryOk(w, c);
    }
    forall i: nat | i < |w'.updates| ensures AddOk(w', w'.updates[i]) {
      assert AddOk(w, w.updates[i]);
    }
    forall i: nat, j: nat | i < j < |w'.updates| ensures Ordered(w', w'.updates[i], w'.updates[j]) {
      assert AddOk(w, w.updates[i]) && AddOk(w, w.updates[j]) && Ordered(w, w.updates[i], w.updates[j]);
    }
    forall a: nat | a < |w'.attempts| ensures AttemptOk(w', a) {
      hide LiveOk, DoneOk;
      assert AttemptOk(w, a);
      DoneStays(w, w', w.attempts[a], m);
      if Live(w.attempts[a]) {
        Unaddressed(w, w', w.attempts[a], m);
      }
    }
  }

  lemma SameCell(w: World, w': World, id: nat)
    requires id < |w.cells| && CellOk(w, id) && w'.cells == w.cells && w'.attempts == w.attempts
    ensures CellOk(w', id)
  {
  }

  lemma SameNumber(w: World, w': World, a: nat)
    requires a < |w.attempts| && NumberOk(w, a)
    requires w'.cells == w.cells && w'.attempts == w.attempts && w'.sent == w.sent
    ensures NumberOk(w', a)
  {
  }

  /** The response meets an entry: what the cells and the map become. */
  predicate Meets(w: World, w': World, m: Message, c: cseq, id: nat) {
    && w.alive && m.Response? && CSeqOf(m) == Some(c) && Lookup(w.pending, c) == Some(id)
    && id < |w.cells| && w.cells[id].owner < |w.attempts|
    && w' == w.(arrived := w.arrived + [m], cells := w'.cells, pending := w'.pending)
    && var open, last := IsOpen(w, id), m.status != CONTINUE;
       && w'.pending == (if open && !last then w.pending[c := |w.cells|] else w.pending - {c})
       && w'.cells == (if !open then w.cells
            else if last then w.cells[id := w.cells[id].(value := Some(Final(m)))]
            else w.cells[id := w.cells[id].(value := Some(Continue(|w.cells|)))]
                   + [Cell(w.cells[id].owner, None, false)])
  }

  lemma MeetEntry(w: World, w': World, m: Message, c: cseq, id: nat, d: cseq)
    requires Inv(w) && Meets(w, w', m, c, id)
    ensures EntryOk(w', d)
  {
    hide CSeqOf, AttemptsOk, NumbersOk, QueueOk, CellsOk;
    assert EntryOk(w, d) && EntryOk(w, c);
    if d == c {
      CleanWithout(Lookup(w.pending, c), Lookup(w'.pending, c), w.updates, c);
      if NoUpdate(w.updates, c) {
        AfterNone(Lookup(w.pending, c), w.updates, c);
        AfterNone(Lookup(w'.pending, c), w.updates, c);
      } else {
        AfterForgets(Lookup(w.pending, c), Lookup(w'.pending, c), w.updates, c);
      }
    } else {
      assert Lookup(w'.pending, d) == Lookup(w.pending, d);
    }
  }

  lemma MeetLoosens(w: World, w': World, m: Message, c: cseq, id: nat)
    requires Inv(w) && Meets(w, w', m, c, id)
    ensures Loosens(w, w')
  {
    hide CSeqOf, AttemptsOk, QueueOk, After, Clean;
    assert EntryOk(w, c);
    forall a: nat | a < |w.attempts| ensures LoosensAt(w, w', a) {
      assert NumberOk(w, a);
    }
  }

  lemma MeetCells(w: World, w': World, m: Message, c: cseq, id: nat)
    requires Inv(w) && Meets(w, w', m, c, id)
    ensures CellsOk(w') && NumbersOk(w')
  {
    MeetLoosens(w, w', m, c, id);
    ApartStays(w, w');
    hide CSeqOf, AttemptsOk, EntriesOk, QueueOk, Apart, Holds, Loosens;
    forall i: nat | i < |w'.cells| ensures CellOk(w', i) {
      if i < |w.cells| { assert CellOk(w, i); }
    }
    forall b: nat | b < |w'.attempts| ensures NumberOk(w', b) {
      assert NumberOk(w, b);
    }
  }

  lemma MeetQueue(w: World, w': World, m: Message, c: cseq, id: nat)
    requires Inv(w) && Meets(w, w', m, c, id)
    ensures QueueOk(w')
  {
    hide CSeqOf, AttemptsOk, NumbersOk, CellsOk, After, Clean;
    assert EntryOk(w, c);
    forall i: nat | i < |w'.updates| ensures AddOk(w', w'.updates[i]) {
      assert AddOk(w, w.updates[i]);
    }
    forall i: nat, j: nat | i < j < |w'.updates| ensures Ordered(w', w'.updates[i], w'.updates[j]) {
      assert AddOk(w, w.updates[i]) && AddOk(w, w.updates[j]) && Ordered(w, w.updates[i], w.updates[j]);
    }
  }

  /** The live request the entry belongs to is told. */
  lemma MeetOwner(w: World, w': World, m: Message, c: cseq, id: nat, t: Attempt)
    requires CellsOk(w) && Meets(w, w', m, c, id) && IsOpen(w, id)
    requires t.cell < |w.cells| && t.since.Some? && LiveOk(w, t) && CSeqNo(w, t) == c
    requires id == End(w.cells, t.cell) && w.cells[id].value.None?
    ensures LiveOk(w', t)
  {
    hide CSeqOf, Matching, Expected, NoUpdate, Follow, End, AllLinked, CellOk, After;
    AllAreLinked(w);
    EndOfChain(w.cells, t.cell);
    EndTold(w, t);
    ExpectedAfter(w, w', t, m);
    var p := if m.status == CONTINUE then Continue(|w.cells|) else Final(m);
    ChainGrows(w.cells, w'.cells, t.cell, p);
    assert t.seen + Follow(w.cells, t.cell) + [Told(p)] == t.seen + (Follow(w.cells, t.cell) + [Told(p)]);
  }

  /** A live request under the same number that is not registered yet: the entry is a stranger's. */
  lemma MeetStranger(w: World, w': World, m: Message, c: cseq, id: nat, t: Attempt)
    requires CellsOk(w) && Meets(w, w', m, c, id)
    requires t.cell < |w.cells| && t.since.None? && LiveOk(w, t) && CSeqNo(w, t) == c
    requires w.cells[t.cell].owner != w.cells[id].owner
    ensures LiveOk(w', t)
  {
    hide CSeqOf, Matching, Linked;
    AfterForgets(Lookup(w.pending, c), Lookup(w'.pending, c), w.updates, c);
  }

  lemma MeetLive(w: World, w': World, m: Message, c: cseq, id: nat, a: nat)
    requires Inv(w) && Meets(w, w', m, c, id) && a < |w.attempts| && Live(w.attempts[a])
    ensures w.attempts[a].cell < |w.cells| && LiveOk(w', w.attempts[a])
  {
    var t := w.attempts[a];
    assert AttemptOk(w, a) && NumberOk(w, a) && EntryOk(w, c) && CellOk(w, id);
    hide CSeqOf, Matching, Expected, DoneOk, Clean, After, NoUpdate, Follow, Linked, Inv, EntryOk, CellOk, LiveOk;
    if CSeqNo(w, t) != c {
      Unaddressed(w, w', t, m);
    } else if t.since.None? {
      MeetStranger(w, w', m, c, id, t);
    } else {
      ChainOf(w, a);
      MeetOwner(w, w', m, c, id, t);
    }
  }

  lemma MeetAttempt(w: World, w': World, m: Message, c: cseq, id: nat, a: nat)
    requires Inv(w) && Meets(w, w', m, c, id) && a < |w.attempts|
    ensures AttemptOk(w', a)
  {
    var t := w.attempts[a];
    assert AttemptOk(w, a);
    if Live(t) {
      MeetLive(w, w', m, c, id, a);
    }
    hide Inv, LiveOk, DoneOk, Matching, Expected, Follow, CSeqOf;
    DoneStays(w, w', t, m);
  }

  lemma RespondKeeps(w: World, m: Message)
    requires Inv(w)
    ensures Inv(Respond(w, m))
  {
    if w.alive && m.Response? {
      var w' := Respond(w, m);
      if CSeqOf(m).None? || CSeqOf(m).value !in w.pending {
        IgnoredKeeps(w, w', m);
      } else {
        var c := CSeqOf(m).value;
        assert EntryOk(w, c);
        var id := w.pending[c];
        hide CellsOk, NumbersOk, QueueOk, EntryOk, AttemptOk, CSeqOf;
        assert Meets(w, w', m, c, id);
        MeetCells(w, w', m, c, id);
        MeetQueue(w, w', m, c, id);
        forall d: cseq ensures EntryOk(w', d) { MeetEntry(w, w', m, c, id, d); }
        forall a: nat | a < |w'.attempts| ensures AttemptOk(w', a) { MeetAttempt(w, w', m, c, id, a); }
      }
    }
  }

  // ---------------------------------------------------------------- the receiver goes

  lemma {:induction false} DrainKeeps(w: World)
    requires Inv(w)
    ensures Inv(Drain(w)) && (w.alive ==> Drain(w).alive && Drain(w).updates == [])
    decreases |w.updates|
  {
    hide Inv;
    if w.alive && w.updates != [] {
      ApplyKeeps(w);
      DrainKeeps(Apply(w));
    }
  }

  lemma ExpectedAtEnd(w: World, t: Attempt)
    requires w.alive && t.since.Some? && t.since.value <= |w.arrived|
    ensures Expected(Silence(w), t) ==
      if Ended(Expected(w, t)) then Expected(w, t) else Expected(w, t) + [Canc]
  {
    hide Matching;
  }

  /** Of a live request's cells only the end of its chain is in the map. */
  lemma OnlyTheEnd(w: World, a: nat, i: nat)
    requires Inv(w) && a < |w.attempts| && Live(w.attempts[a]) && w.attempts[a].since.Some?
    requires i < |w.cells| && w.cells[i].owner == a && i in w.pending.Values
    ensures i == End(w.cells, w.attempts[a].cell)
    ensures Lookup(w.pending, CSeqNo(w, w.attempts[a])) == Some(i)
  {
    hide Matching, End, Follow, After, Clean, NoUpdate;
    assert AttemptOk(w, a);
    var c :| c in w.pending && w.pending[c] == i;
    assert EntryOk(w, c);
  }

  lemma SilencedAt(w: World, a: nat, i: nat)
    requires Inv(w) && w.alive && a < |w.attempts| && Live(w.attempts[a]) && w.attempts[a].since.Some?
    requires i < |w.cells| && w.cells[i].owner == a
    ensures var e := End(w.cells, w.attempts[a].cell);
      && (i != e || e !in w.pending.Values ==> Silence(w).cells[i].value == w.cells[i].value)
      && (i == e && e in w.pending.Values ==> Silence(w).cells[e].value == Some(Cancelled))
  {
    assert CellOk(w, i);
    hide Inv, End, Linked;
    if i in w.pending.Values {
      OnlyTheEnd(w, a, i);
    }
  }

  lemma SilencedOwners(w: World)
    ensures |Silence(w).cells| == |w.cells|
    ensures forall i :: 0 <= i < |w.cells| ==> Silence(w).cells[i].owner == w.cells[i].owner
  {
  }

  /** A live request whose chain is open is told of the end. */
  lemma SilenceTells(w: World, w': World, t: Attempt)
    requires w.alive && w' == Silence(w) && AllLinked(w.cells) && t.cell < |w.cells| && t.since.Some?
    requires LiveOk(w, t) && Live(t)
    requires var e := End(w.cells, t.cell);
      && e < |w.cells| && w.cells[e].value.None? && w'.cells[e].value == Some(Cancelled)
      && forall i :: 0 <= i < |w.cells| && i != e && w.cells[i].owner == w.cells[t.cell].owner ==>
           w'.cells[i].value == w.cells[i].value
    ensures LiveOk(w', t)
  {
    hide Matching, Expected, Silenced, NoUpdate, AllLinked;
    EndTold(w, t);
    ExpectedAtEnd(w, t);
    SilencedOwners(w);
    ChainGrows(w.cells, w'.cells, t.cell, Cancelled);
    assert t.seen + Follow(w.cells, t.cell) + [Canc] == t.seen + (Follow(w.cells, t.cell) + [Canc]);
  }

  lemma SilenceSkips(w: World, w': World, t: Attempt)
    requires w.alive && w' == Silence(w) && AllLinked(w.cells) && t.cell < |w.cells| && t.since.Some?
    requires LiveOk(w, t) && Live(t) && SameFor(w.cells, w'.cells, w.cells[t.cell].owner)
    requires w.cells[End(w.cells, t.cell)].value.Some?
    ensures LiveOk(w', t)
  {
    hide Matching, Expected, Silenced, NoUpdate, AllLinked;
    EndTold(w, t);
    EndOfChain(w.cells, t.cell);
    ExpectedAtEnd(w, t);
    ChainStays(w.cells, w'.cells, t.cell);
  }

  lemma SilenceLive(w: World, a: nat)
    requires Inv(w) && w.alive && w.updates == [] && a < |w.attempts| && Live(w.attempts[a])
    ensures AttemptOk(Silence(w), a)
  {
    assert AttemptOk(w, a) && NumberOk(w, a);
    ChainOf(w, a);
    var t, w' := w.attempts[a], Silence(w);
    var e := End(w.cells, t.cell);
    hide Inv, Matching, Expected, Follow, End, AllLinked, Silenced;
    forall i: nat | i < |w.cells| && w.cells[i].owner == a
      ensures i != e || e !in w.pending.Values ==> w'.cells[i].value == w.cells[i].value
    {
      SilencedAt(w, a, i);
    }
    SilencedAt(w, a, e);
    if w.cells[e].value.None? {
      assert e in w.pending.Values;
      SilenceTells(w, w', t);
    } else {
      assert e in w.pending.Values ==> Lookup(w.pending, CSeqNo(w, t)) == Some(e) by {
        if e in w.pending.Values { OnlyTheEnd(w, a, e); }
      }
      SilencedOwners(w);
      SilenceSkips(w, w', t);
    }
  }

  lemma SilenceDone(w: World, t: Attempt)
    requires w.alive && DoneOk(w, t)
    ensures DoneOk(Silence(w), t)
  {
    hide Matching;
    if t.status.Finished? {
      ExpectedAtEnd(w, t);
    }
  }

  lemma SilenceLoosens(w: World)
    requires Inv(w) && w.alive
    ensures Loosens(w, Silence(w))
  {
    hide AttemptsOk, QueueOk, After, Clean;
    var w' := Silence(w);
    forall a: nat | a < |w.attempts| ensures LoosensAt(w, w', a) {
      var t := w.attempts[a];
      assert NumberOk(w, a);
      if t.cell in w.pending.Values {
        var c :| c in w.pending && w.pending[c] == t.cell;
        assert EntryOk(w, c);
      }
    }
  }

  lemma SilenceKeeps(w: World)
    requires Inv(w) && w.alive && w.updates == []
    ensures Inv(Silence(w))
  {
    var w' := Silence(w);
    SilenceLoosens(w);
    ApartStays(w, w');
    hide Holds, Loosens, Apart;
    forall id: nat | id < |w'.cells| ensures CellOk(w', id) {
      assert CellOk(w, id);
    }
    forall b: nat | b < |w'.attempts| ensures NumberOk(w', b) {
      assert NumberOk(w, b);
    }
    forall a: nat | a < |w'.attempts| ensures AttemptOk(w', a) {
      hide LiveOk, DoneOk, Silence;
      assert AttemptOk(w, a) && NumberOk(w, a);
      if Live(w.attempts[a]) {
        SilenceLive(w, a);
      } else {
        NotLive(w, a);
      }
    }
  }

  lemma NotLive(w: World, a: nat)
    requires w.alive && a < |w.attempts| && AttemptOk(w, a) && !Live(w.attempts[a])
    ensures AttemptOk(Silence(w), a)
  {
    hide LiveOk, DoneOk;
    SilenceDone(w, w.attempts[a]);
  }

  // ---------------------------------------------------------------- every run

  lemma StepKeeps(w: World, e: Event)
    requires Inv(w) && (e == DoBegin ==> NextIsFree(w))
    ensures Inv(Move(w, e))
  {
    hide Inv, NextIsFree;
    match e
    case DoBegin => BeginKeeps(w);
    case DoCommit(accepted) => CommitKeeps(w, accepted);
    case DoApply => ApplyKeeps(w);
    case DoRespond(m) => RespondKeeps(w, m);
    case DoPoll(a, expired) => PollKeeps(w, a, expired);
    case DoDrop(a) => DropKeeps(w, a);
    case DoShut(a) => ShutKeeps(w, a);
    case DoClose =>
      if w.alive {
        DrainKeeps(w);
        SilenceKeeps(Drain(w));
      }
  }

  lemma {:induction false} RunKeeps(w: World, events: seq<Event>)
    requires Inv(w) && Paced(w, events)
    ensures Inv(Run(w, events))
    decreases |events|
  {
    hide Inv, NextIsFree, Move;
    if events != [] {
      StepKeeps(w, events[0]);
      RunKeeps(Move(w, events[0]), events[1..]);
    }
  }

  function RunOf(start: cseq, events: seq<Event>): World {
    Run(Initial(start), events)
  }

  predicate Reached(start: cseq, events: seq<Event>) {
    Paced(Initial(start), events)
  }

  lemma ReachedKeeps(start: cseq, events: seq<Event>)
    requires Reached(start, events)
    ensures Inv(RunOf(start, events))
  {
    hide Inv;
    InitialKeeps(start);
    RunKeeps(Initial(start), events);
  }

  lemma {:induction false} DrainInRange(w: World)
    requires InRange(w)
    ensures InRange(Drain(w))
    decreases |w.updates|
  {
    hide InRange, Apply;
    if w.alive && w.updates != [] {
      ApplyInRange(w);
      ApplyUpdates(w);
      DrainInRange(Apply(w));
    }
  }

  lemma ApplyUpdates(w: World)
    requires w.alive && w.updates != []
    ensures Apply(w).alive && Apply(w).updates == w.updates[1..]
  {
  }

  lemma PollInRange(w: World, a: nat, expired: bool)
    requires InRange(w)
    ensures InRange(Poll(w, a, expired))
  {
  }

  lemma DropInRange(w: World, a: nat)
    requires InRange(w)
    ensures InRange(Drop(w, a)) && InRange(Shut(w, a))
  {
  }

  lemma MoveInRange(w: World, e: Event)
    requires InRange(w)
    ensures InRange(Move(w, e))
  {
    match e
    case DoBegin =>
    case DoCommit(accepted) =>
    case DoApply => ApplyInRange(w);
    case DoRespond(m) => RespondInRange(w, m);
    case DoPoll(a, expired) => PollInRange(w, a, expired);
    case DoDrop(a) => DropInRange(w, a);
    case DoShut(a) => DropInRange(w, a);
    case DoClose =>
      if w.alive {
        DrainInRange(w);
        DrainEmpties(w);
        SilenceInRange(Drain(w));
      }
  }

  /** What the response receiver needs holds in every run, also when numbers are used again too soon. */
  lemma {:induction false} RunInRange(w: World, events: seq<Event>)
    requires InRange(w)
    ensures InRange(Run(w, events))
    decreases |events|
  {
    hide InRange, Move;
    if events != [] {
      MoveInRange(w, events[0]);
      RunInRange(Move(w, events[0]), events[1..]);
    }
  }

  /** The map once the queued updates are applied. */
  function Settled(w: World): map<cseq, nat>
    decreases |w.updates|
  {
    if w.updates == [] then w.pending
    else Settled(w.(pending := ApplyTo(w.pending, w.updates[0]), updates := w.updates[1..]))
  }

  lemma {:induction false} SettledIsAfter(w: World, c: cseq)
    ensures Lookup(Settled(w), c) == After(Lookup(w.pending, c), w.updates, c)
    decreases |w.updates|
  {
    if w.updates != [] {
      SettledIsAfter(w.(pending := ApplyTo(w.pending, w.updates[0]), updates := w.updates[1..]), c);
    }
  }

  predicate IsLiveNumber(w: World, c: cseq) {
    exists a: nat :: a < |w.attempts| && LiveUnder(w, a, c)
  }

  predicate LiveUnder(w: World, a: nat, c: cseq)
    requires a < |w.attempts|
  {
    Live(w.attempts[a]) && CSeqNo(w, w.attempts[a]) == c
  }

  /** No orphans: the updates on their way leave only numbers whose request is still waited for. */
  lemma NoOrphans(start: cseq, events: seq<Event>, c: cseq)
    requires Reached(start, events)
    ensures var w := RunOf(start, events); c in Settled(w) ==> IsLiveNumber(w, c)
  {
    ReachedKeeps(start, events);
    var w := RunOf(start, events);
    SettledIsAfter(w, c);
    assert EntryOk(w, c);
    if c in Settled(w) {
      assert LiveUnder(w, w.cells[Cur(w, c).value].owner, c);
    }
  }

  /** When every future is gone and the updates have run out, nothing is pending. */
  lemma StreamEndsEmpty(start: cseq, events: seq<Event>)
    requires Reached(start, events)
    requires var w := RunOf(start, events);
      w.updates == [] && forall t :: t in w.attempts ==> t.status == Gone
    ensures RunOf(start, events).pending == map[]
  {
    var w := RunOf(start, events);
    forall c: cseq ensures c !in w.pending {
      NoOrphans(start, events, c);
    }
  }

  /** An addition never replaces an entry. */
  lemma AddNeverOverwrites(start: cseq, events: seq<Event>)
    requires Reached(start, events)
    ensures var w := RunOf(start, events);
      w.updates != [] && w.updates[0].Add? ==> w.updates[0].c !in w.pending
  {
    ReachedKeeps(start, events);
    var w := RunOf(start, events);
    if w.updates != [] && w.updates[0].Add? {
      assert EntryOk(w, w.updates[0].c);
    }
  }

  /** A registered request is told, in order, exactly the responses with its number that arrived since:
      the continues up to the first other response and that one, or a cancellation in its place. */
  lemma ToldInOrder(start: cseq, events: seq<Event>, a: nat)
    requires Reached(start, events) && a < |RunOf(start, events).attempts|
    ensures var w := RunOf(start, events); var t := w.attempts[a];
      && (t.status == Waiting && t.since.Some? ==>
            && t.since.value <= |w.arrived|
            && t.seen + Follow(w.cells, t.cell) == Expected(w, t))
      && (t.status == Waiting && t.since.None? ==>
            t.seen == [] && Follow(w.cells, t.cell) == [] && Add(CSeqNo(w, t), t.cell) in w.updates)
      && (t.status.Finished? ==>
            && t.since.Some? && t.since.value <= |w.arrived|
            && t.seen == Expected(w, t) && Ended(t.seen) && t.status.outcome == t.seen[|t.seen| - 1])
  {
    ReachedKeeps(start, events);
    var w := RunOf(start, events);
    assert AttemptOk(w, a);
    if w.attempts[a].status == Waiting && w.attempts[a].since.None? {
      var i := LastIsAdd(w, a);
    }
  }

  predicate IsOwn(d: Delivery, ms: seq<Message>, c: cseq) {
    d != Canc && (d.Fin? ==> CSeqOf(d.response) == Some(c) && d.response in ms)
  }

  lemma {:induction false} MatchingIsOwn(ms: seq<Message>, c: cseq)
    ensures forall i :: 0 <= i < |Matching(ms, c)| ==> IsOwn(Matching(ms, c)[i], ms, c)
    decreases |ms|
  {
    if ms != [] {
      var before := Matching(ms[..|ms| - 1], c);
      MatchingIsOwn(ms[..|ms| - 1], c);
      assert forall m :: m in ms[..|ms| - 1] ==> m in ms;
      forall i | 0 <= i < |before| ensures IsOwn(before[i], ms, c) {
        assert IsOwn(before[i], ms[..|ms| - 1], c);
      }
      hide CSeqOf;
    }
  }

  /** A response a future returns bears the number of its request and did arrive. */
  lemma ResponseIsOwn(start: cseq, events: seq<Event>, a: nat, m: Message)
    requires Reached(start, events) && a < |RunOf(start, events).attempts|
    requires RunOf(start, events).attempts[a].status == Finished(Fin(m))
    ensures var w := RunOf(start, events);
      CSeqOf(m) == Some(CSeqNo(w, w.attempts[a])) && m in w.arrived
  {
    ToldInOrder(start, events, a);
    var w := RunOf(start, events);
    var t := w.attempts[a];
    var s := Matching(w.arrived[t.since.value..], CSeqNo(w, t));
    MatchingIsOwn(w.arrived[t.since.value..], CSeqNo(w, t));
    hide Matching, RunOf, CSeqOf;
    assert s[|s| - 1] == Fin(m);
    assert m in w.arrived[t.since.value..];
  }

  /** The chain of unread continues of a waiting future ends at a cell of its own, and while nothing came
      into that cell its sending end is in the map or on its way there. So polling never finds the cell at
      hand abandoned. */
  lemma NeverAbandoned(start: cseq, events: seq<Event>, a: nat)
    requires Reached(start, events) && a < |RunOf(start, events).attempts|
    ensures var w := RunOf(start, events); var t := w.attempts[a]; var e := End(w.cells, t.cell);
      t.status == Waiting ==>
        && t.cell < |w.cells| && !w.cells[t.cell].closed
        && e < |w.cells| && w.cells[e].owner == a
        && (w.cells[e].value.None? ==>
              Lookup(w.pending, CSeqNo(w, t)) == Some(e) || Add(CSeqNo(w, t), e) in w.updates)
        && (w.cells[t.cell].value.None? ==> e == t.cell)
  {
    ReachedKeeps(start, events);
    var w := RunOf(start, events);
    var t := w.attempts[a];
    assert AttemptOk(w, a) && NumberOk(w, a) && CellOk(w, t.cell);
    ChainOf(w, a);
    if t.status == Waiting && t.since.None? {
      var i := LastIsAdd(w, a);
    }
  }

  // ---------------------------------------------------------------- why the pace matters

  /** `n` requests, each handed over and registered, none of them ever answered or dropped. */
  function Rounds(n: nat): seq<Event> {
    if n == 0 then [] else Rounds(n - 1) + [DoBegin, DoCommit(true), DoApply]
  }

  lemma {:induction false} RunAppends(w: World, a: seq<Event>, b: seq<Event>)
    ensures Run(w, a + b) == Run(Run(w, a), b)
    decreases |a|
  {
    hide Move;
    if a == [] {
      assert a + b == b;
    } else {
      assert (a + b)[1..] == a[1..] + b;
      RunAppends(Move(w, a[0]), a[1..], b);
    }
  }

  lemma OneRound(w: World)
    requires w.alive && !IsSending(w) && w.updates == []
    ensures var w' := Run(w, [DoBegin, DoCommit(true), DoApply]);
      && w'.alive && !IsSending(w') && w'.updates == [] && w'.sent == w.sent + 1 && w'.start == w.start
      && w'.pending == w.pending[Ahead(w.start, w.sent) := |w.cells|]
  {
    var begun := Begin(w);
    var committed := Commit(begun, true);
    assert [DoBegin, DoCommit(true), DoApply][1..] == [DoCommit(true), DoApply];
    assert [DoCommit(true), DoApply][1..] == [DoApply] && [DoApply][1..] == [];
    assert Run(w, [DoBegin, DoCommit(true), DoApply]) == Apply(committed);
  }

  lemma {:induction false} RoundsRegister(start: cseq, n: nat)
    ensures var w := RunOf(start, Rounds(n));
      && w.alive && !IsSending(w) && w.updates == [] && w.sent == n && w.start == start
      && (n > 0 ==> start in w.pending)
  {
    if n > 0 {
      RoundsRegister(start, n - 1);
      RunAppends(Initial(start), Rounds(n - 1), [DoBegin, DoCommit(true), DoApply]);
      OneRound(RunOf(start, Rounds(n - 1)));
      AheadIsIncrements(start, 0);
    }
  }

  /** With a whole cycle of requests outstanding, the next one takes over the entry of the first. */
  lemma NumbersRunOut(start: cseq)
    ensures var w := RunOf(start, Rounds(CYCLE) + [DoBegin]);
      w.updates != [] && w.updates[0].Add? && w.updates[0].c in w.pending
  {
    RoundsRegister(start, CYCLE);
    RunAppends(Initial(start), Rounds(CYCLE), [DoBegin]);
    var w := RunOf(start, Rounds(CYCLE));
    assert [DoBegin][1..] == [];
    assert Run(w, [DoBegin]) == Run(Begin(w), []) == Begin(w);
    assert Ahead(start, CYCLE) == start;
  }
}
