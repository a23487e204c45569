/** The reorder buffer of incoming requests: one step, all runs of steps, and what every run keeps. */
module Reordering {
  import opened Bytes
  import opened Decoding
  import opened CSeqs
  import opened TypedHeaders

  datatype Refusal = BadRequest | TooFar

  /** The buffer, the number expected next, what the handler's channel took, and every request
      accepted so far. */
  datatype Line = Line(
    buffered: map<cseq, Message>,
    next: Option<cseq>,
    sent: seq<(cseq, Message)>,
    accepted: seq<Message>)

  const EMPTY_LINE := Line(map[], None, [], [])

  /** The size as the 32-bit word it is compared as. */
  function Window(size: nat): nat {
    size % U32
  }

  datatype Receipt = Receipt(line: Line, refusal: Option<Refusal>)

  function Receive(size: nat, l: Line, request: Message): Receipt {
    match CSeqOf(request)
    case None => Receipt(l, Some(BadRequest))
    case Some(c) =>
      var n := if l.next.Some? then l.next.value else c;
      var expecting := l.(next := Some(n));
      if Sub(c, n) > Window(size) then Receipt(expecting, Some(TooFar))
      else if c in l.buffered then Receipt(expecting, Some(BadRequest))
      else
        Receipt(expecting.(buffered := l.buffered[c := request], accepted := l.accepted + [request]), None)
  }

  /** How many numbers ahead a request may be; across the wrap the coded difference lets one more pass. */
  predicate IsInReach(size: nat, n: cseq, c: cseq) {
    Distance(n, c) <= size % 0x1_0000_0000 + if n <= c then 0 else 1
  }

  /** What becomes of a request: without a number it is bad, too far ahead of the expected number it is
      refused as that, a number that waits already is bad too, and any other request waits. The first number
      ever sets the expected one, refused or not. */
  lemma ReceiveExact(size: nat, l: Line, request: Message)
    ensures var r := Receive(size, l, request);
      match CSeqOf(request)
      case None => r == Receipt(l, Some(BadRequest))
      case Some(c) =>
        var n := if l.next.Some? then l.next.value else c;
        && r.line.next == Some(n) && r.line.sent == l.sent
        && (r.refusal == Some(TooFar) <==> !IsInReach(size, n, c))
        && (r.refusal == Some(BadRequest) <==> IsInReach(size, n, c) && c in l.buffered)
        && (r.refusal == None <==> IsInReach(size, n, c) && c !in l.buffered)
        && (r.refusal == None ==>
              r.line.buffered == l.buffered[c := request] && r.line.accepted == l.accepted + [request])
        && (r.refusal.Some? ==> r.line.buffered == l.buffered && r.line.accepted == l.accepted)
  {
    if c: cseq :| CSeqOf(request) == Some(c) {
      WindowIsDistance(if l.next.Some? then l.next.value else c, c, Window(size));
    }
    hide Distance, Sub, CSeqOf;
  }

  predicate IsFull(size: nat, l: Line) {
    |l.buffered| >= size
  }

  predicate HasReady(l: Line) {
    l.next.Some? && l.next.value in l.buffered
  }

  /** The expected request goes to the channel. */
  function ForwardOne(l: Line): Line
    requires HasReady(l)
  {
    var n := l.next.value;
    l.(buffered := l.buffered - {n}, next := Some(Increment(n)), sent := l.sent + [(n, l.buffered[n])])
  }

  datatype Event = Arrive(request: Message) | Forward

  /** Nothing is read from the stream while the buffer is full. */
  function Step(size: nat, l: Line, e: Event): Line {
    match e
    case Arrive(request) => if IsFull(size, l) then l else Receive(size, l, request).line
    case Forward => if HasReady(l) then ForwardOne(l) else l
  }

  function RunFrom(size: nat, l: Line, events: seq<Event>): Line
    decreases |events|
  {
    if events == [] then l else RunFrom(size, Step(size, l, events[0]), events[1..])
  }

  // ---------------------------------------------------------------- what every run keeps

  function Messages(sent: seq<(cseq, Message)>): seq<Message> {
    seq(|sent|, i requires 0 <= i < |sent| => sent[i].1)
  }

  ghost function Pick(buffered: map<cseq, Message>): (c: cseq)
    requires buffered != map[]
    ensures c in buffered
  {
    assert buffered.Keys != {};
    var c :| c in buffered.Keys;
    c
  }

  /** The requests in the buffer, whatever their numbers. */
  ghost function Held(buffered: map<cseq, Message>): multiset<Message>
    decreases |buffered|
  {
    if buffered == map[] then multiset{}
    else
      var c := Pick(buffered);
      RemovalShrinks(buffered, c);
      multiset{buffered[c]} + Held(buffered - {c})
  }

  lemma RemovalShrinks(buffered: map<cseq, Message>, c: cseq)
    requires c in buffered
    ensures |buffered - {c}| == |buffered| - 1
  {
    assert (buffered - {c}).Keys == buffered.Keys - {c};
  }

  lemma RemovalsCommute(buffered: map<cseq, Message>, c: cseq, d: cseq)
    ensures buffered - {c} - {d} == buffered - {d} - {c}
  {
  }

  lemma {:induction false} HeldTakes(buffered: map<cseq, Message>, c: cseq)
    requires c in buffered
    ensures Held(buffered) == multiset{buffered[c]} + Held(buffered - {c})
    decreases |buffered|
  {
    var d := Pick(buffered);
    assert Held(buffered) == multiset{buffered[d]} + Held(buffered - {d});
    hide Held;
    if c != d {
      RemovalShrinks(buffered, c);
      RemovalShrinks(buffered, d);
      HeldTakes(buffered - {d}, c);
      HeldTakes(buffered - {c}, d);
      RemovalsCommute(buffered, c, d);
    }
  }

  lemma HeldPuts(buffered: map<cseq, Message>, c: cseq, request: Message)
    requires c !in buffered
    ensures Held(buffered[c := request]) == multiset{request} + Held(buffered)
    ensures |buffered[c := request]| == |buffered| + 1
  {
    var larger := buffered[c := request];
    HeldTakes(larger, c);
    RemovalShrinks(larger, c);
    assert larger - {c} == buffered;
  }

  /** Each buffered request lies under its own number, inside the window of the expected one. */
  predicate Buffered(size: nat, l: Line) {
    forall c :: c in l.buffered ==>
      l.next.Some? && CSeqOf(l.buffered[c]) == Some(c) && Sub(c, l.next.value) <= Window(size)
  }

  function First(l: Line): Option<cseq> {
    if l.accepted == [] then None else CSeqOf(l.accepted[0])
  }

  /** The channel took the numbers from the first one on, one after the other. */
  predicate InOrder(l: Line) {
    if l.next.None? then l == EMPTY_LINE
    else
      && First(l).Some?
      && l.next.value == Ahead(First(l).value, |l.sent|)
      && forall i :: 0 <= i < |l.sent| ==> IsNth(First(l).value, i, l.sent[i])
  }

  predicate IsNth(first: cseq, i: nat, item: (cseq, Message)) {
    item.0 == Ahead(first, i) && CSeqOf(item.1) == Some(item.0)
  }

  ghost predicate Conserves(l: Line) {
    multiset(l.accepted) == multiset(Messages(l.sent)) + Held(l.buffered)
  }

  ghost predicate Inv(size: nat, l: Line) {
    && |l.buffered| <= size
    && Buffered(size, l)
    && InOrder(l)
    && Conserves(l)
  }

  lemma AcceptedCounts(accepted: seq<Message>, request: Message, sent: multiset<Message>, held: multiset<Message>)
    requires multiset(accepted) == sent + held
    ensures multiset(accepted + [request]) == sent + (multiset{request} + held)
  {
    assert multiset(accepted + [request]) == multiset(accepted) + multiset{request};
  }

  lemma ReceiveAdds(size: nat, l: Line, request: Message)
    ensures var r := Receive(size, l, request);
      && r.line.sent == l.sent
      && (r.refusal.Some? ==> r.line.buffered == l.buffered && r.line.accepted == l.accepted)
      && (r.refusal.None? ==>
            && CSeqOf(request).Some? && CSeqOf(request).value !in l.buffered
            && r.line.buffered == l.buffered[CSeqOf(request).value := request]
            && r.line.accepted == l.accepted + [request])
  {
    hide CSeqOf, Sub;
  }

  lemma ReceiveConserves(size: nat, l: Line, request: Message)
    requires Conserves(l)
    ensures Conserves(Receive(size, l, request).line)
    ensures |Receive(size, l, request).line.buffered| <= |l.buffered| + 1
  {
    hide CSeqOf, Sub, Held, Messages, Receive;
    ReceiveAdds(size, l, request);
    if Receive(size, l, request).refusal.None? {
      HeldPuts(l.buffered, CSeqOf(request).value, request);
      AcceptedCounts(l.accepted, request, multiset(Messages(l.sent)), Held(l.buffered));
    }
  }

  lemma ReceiveKeepsOrder(size: nat, l: Line, request: Message)
    requires InOrder(l)
    ensures InOrder(Receive(size, l, request).line)
  {
    hide CSeqOf, IsNth;
  }

  lemma ReceiveKeepsBuffered(size: nat, l: Line, request: Message)
    requires Buffered(size, l)
    ensures Buffered(size, Receive(size, l, request).line)
  {
    hide CSeqOf;
  }

  lemma ReceiveKeeps(size: nat, l: Line, request: Message)
    requires Inv(size, l) && !IsFull(size, l)
    ensures Inv(size, Receive(size, l, request).line)
  {
    hide Receive, Conserves, InOrder, Buffered;
    ReceiveConserves(size, l, request);
    ReceiveKeepsOrder(size, l, request);
    ReceiveKeepsBuffered(size, l, request);
  }

  /** The coded difference never grows while the expected number has not passed the key. */
  lemma WindowSlides(c: cseq, n: cseq)
    requires c != n
    ensures Sub(c, Increment(n)) <= Sub(c, n)
  {
  }

  lemma ForwardConserves(l: Line)
    requires HasReady(l) && Conserves(l)
    ensures Conserves(ForwardOne(l))
  {
    var n := l.next.value;
    HeldTakes(l.buffered, n);
    hide Held;
    assert Messages(ForwardOne(l).sent) == Messages(l.sent) + [l.buffered[n]];
  }

  lemma ForwardKeepsOrder(l: Line)
    requires HasReady(l) && InOrder(l) && CSeqOf(l.buffered[l.next.value]) == l.next
    ensures InOrder(ForwardOne(l))
  {
    hide CSeqOf;
    AheadIsIncrements(First(l).value, |l.sent|);
    assert IsNth(First(l).value, |l.sent|, (l.next.value, l.buffered[l.next.value]));
  }

  lemma ForwardKeeps(size: nat, l: Line)
    requires Inv(size, l) && HasReady(l)
    ensures Inv(size, ForwardOne(l))
  {
    hide Conserves, InOrder, CSeqOf, Sub, Increment;
    var n, l' := l.next.value, ForwardOne(l);
    ForwardConserves(l);
    ForwardKeepsOrder(l);
    RemovalShrinks(l.buffered, n);
    forall c | c in l'.buffered
      ensures Sub(c, l'.next.value) <= Window(size)
    {
      WindowSlides(c, n);
    }
  }

  lemma EmptyKeeps(size: nat)
    ensures Inv(size, EMPTY_LINE)
  {
    assert Messages([]) == [];
    assert multiset(EMPTY_LINE.accepted) == multiset{};
  }

  lemma {:induction false} RunKeeps(size: nat, l: Line, events: seq<Event>)
    requires Inv(size, l)
    ensures Inv(size, RunFrom(size, l, events))
    decreases |events|
  {
    hide Inv, ForwardOne, Receive;
    if events != [] {
      match events[0] {
        case Arrive(request) => if !IsFull(size, l) { ReceiveKeeps(size, l, request); }
        case Forward => if HasReady(l) { ForwardKeeps(size, l); }
      }
      RunKeeps(size, Step(size, l, events[0]), events[1..]);
    }
  }

  function RunOf(size: nat, events: seq<Event>): Line {
    RunFrom(size, EMPTY_LINE, events)
  }

  /** Whatever arrives in whatever order, the channel gets consecutive numbers starting with the
      first one received; a number comes again only a whole cycle later. */
  lemma DeliveredInOrder(size: nat, events: seq<Event>)
    ensures var l := RunOf(size, events);
      && (forall i :: 0 <= i < |l.sent| ==> First(l).Some? && IsNth(First(l).value, i, l.sent[i]))
      && (l.next.Some? ==> First(l).Some? && l.next.value == Ahead(First(l).value, |l.sent|))
      && (forall i, j :: 0 <= i <= j < |l.sent| ==> (l.sent[i].0 == l.sent[j].0 <==> (j - i) % CYCLE == 0))
  {
    EmptyKeeps(size);
    RunKeeps(size, EMPTY_LINE, events);
    var l := RunOf(size, events);
    forall i, j | 0 <= i <= j < |l.sent|
      ensures l.sent[i].0 == l.sent[j].0 <==> (j - i) % CYCLE == 0
    {
      var first := First(l).value;
      assert IsNth(first, i, l.sent[i]) && IsNth(first, j, l.sent[j]);
      SameAfterCycles(first, i, j);
    }
  }

  lemma SameAfterCycles(first: cseq, i: nat, j: nat)
    requires i <= j
    ensures Ahead(first, i) == Ahead(first, j) <==> (j - i) % CYCLE == 0
  {
  }

  predicate InWindow(size: nat, l: Line, c: cseq) {
    && l.next.Some?
    && Distance(l.next.value, c) <= (if l.next.value <= c then size else size + 1)
  }

  /** Every accepted request is forwarded once or waits once, and the buffer stays in its bounds. */
  lemma RequestsConserved(size: nat, events: seq<Event>)
    ensures var l := RunOf(size, events);
      && multiset(l.accepted) == multiset(Messages(l.sent)) + Held(l.buffered)
      && |l.buffered| <= size
      && (forall c :: c in l.buffered ==> InWindow(size, l, c))
  {
    hide Held, InOrder, RunFrom, CSeqOf;
    EmptyKeeps(size);
    RunKeeps(size, EMPTY_LINE, events);
    var l := RunOf(size, events);
    hide Messages, Sub, Distance;
    assert Window(size) <= size;
    forall c | c in l.buffered
      ensures InWindow(size, l, c)
    {
      WindowIsDistance(l.next.value, c, size);
    }
  }

  /** The first request received sets the first number. */
  lemma FirstSets(size: nat, request: Message)
    requires size > 0 && CSeqOf(request).Some?
    ensures var l := RunOf(size, [Arrive(request)]);
      l.next == CSeqOf(request) && First(l) == CSeqOf(request) && HasReady(l)
  {
    var l := Step(size, EMPTY_LINE, Arrive(request));
    assert [Arrive(request)][1..] == [];
    assert RunOf(size, [Arrive(request)]) == RunFrom(size, l, []) == l;
  }

  // ---------------------------------------------------------------- replays

  /** A number forwarded before is refused as too far just while its distance, which starts at a full
      cycle and drops by one with each forward, is outside the window. */
  lemma ReplayRefused(size: nat, events: seq<Event>, i: nat, request: Message)
    requires var l := RunOf(size, events); i < |l.sent| && CSeqOf(request) == Some(l.sent[i].0)
    ensures var l := RunOf(size, events);
      && l.next.Some?
      && (Receive(size, l, request).refusal == Some(TooFar) <==>
            Distance(l.next.value, l.sent[i].0) >
              (if l.next.value <= l.sent[i].0 then Window(size) else Window(size) + 1))
      && (|l.sent| - i < MAX_CSEQ - Window(size) ==> Receive(size, l, request).refusal == Some(TooFar))
  {
    EmptyKeeps(size);
    RunKeeps(size, EMPTY_LINE, events);
    var l := RunOf(size, events);
    hide RunFrom, Inv, Held;
    var n, c := l.next.value, l.sent[i].0;
    assert IsNth(First(l).value, i, l.sent[i]);
    WindowIsDistance(n, c, Window(size));
    ForwardedBehind(First(l).value, i, |l.sent|);
  }

  lemma ForwardedBehind(first: cseq, i: nat, j: nat)
    requires i < j
    ensures j - i < CYCLE ==> Distance(Ahead(first, j), Ahead(first, i)) == CYCLE - (j - i)
  {
  }

  // ---------------------------------------------------------------- the full buffer

  /** Full, and the request expected next is not in it. */
  predicate Stalled(size: nat, l: Line) {
    IsFull(size, l) && !HasReady(l)
  }

  /** From then on nothing happens, whatever is on the stream. */
  lemma {:induction false} StalledForGood(size: nat, l: Line, events: seq<Event>)
    requires Stalled(size, l)
    ensures RunFrom(size, l, events) == l
    decreases |events|
  {
    if events != [] {
      StalledForGood(size, l, events[1..]);
    }
  }

  /** A message with the given sequence number and nothing else. */
  function Numbered(c: cseq): (m: Message)
    ensures CSeqOf(m) == Some(c)
  {
    var m := Request([], [], [], []);
    CSeqReadsBack(m, c);
    WithCSeq(m, c)
  }

  /** No event changes the line just when it is stalled. */
  lemma StuckIffStalled(size: nat, l: Line)
    requires Inv(size, l)
    ensures (forall e :: Step(size, l, e) == l) <==> Stalled(size, l)
  {
    if HasReady(l) {
      assert l.next.value in l.buffered && l.next.value !in ForwardOne(l).buffered;
      assert Step(size, l, Forward) != l;
    } else if !IsFull(size, l) {
      var c := if l.next.Some? then l.next.value else 0;
      var l' := Step(size, l, Arrive(Numbered(c)));
      assert c !in l.buffered && c in l'.buffered;
    }
  }

  ghost function Span(lo: nat, n: nat): (s: set<nat>)
    decreases n
    ensures |s| == n
    ensures forall i: nat :: i in s <==> lo <= i < lo + n
  {
    if n == 0 then {} else {lo} + Span(lo + 1, n - 1)
  }

  lemma SubsetOfSameSize(a: set<nat>, b: set<nat>)
    requires a <= b && |a| >= |b|
    ensures a == b
  {
    assert |b - a| == |b| - |a|;
  }

  lemma FullWindow(keys: set<cseq>, n: cseq, size: nat)
    requires n + size < MAX_CSEQ && |keys| >= size && n !in keys
    requires forall c :: c in keys ==> Sub(c, n) <= size
    ensures forall c: cseq :: c in keys <==> n < c <= n + size
  {
    var nats := set c: nat | c in keys;
    assert nats == keys;
    var span := Span(n + 1, size);
    forall c: nat | c in nats ensures c in span {
      assert Sub(c, n) <= size;
    }
    SubsetOfSameSize(nats, span);
    forall c: cseq ensures c in keys <==> n < c <= n + size {
      assert c in nats <==> c in span;
    }
  }

  lemma StalledLineHolds(size: nat, l: Line)
    requires Inv(size, l) && Stalled(size, l) && l.next.Some? && l.next.value + size < MAX_CSEQ
    ensures forall c: cseq :: c in l.buffered <==> l.next.value < c <= l.next.value + size
  {
    hide Conserves, InOrder, CSeqOf, Sub;
    FullWindow(l.buffered.Keys, l.next.value, size);
  }

  /** Away from the wrap, a stalled buffer holds exactly the `size` numbers after the missing one. */
  lemma StalledHolds(size: nat, events: seq<Event>)
    requires var l := RunOf(size, events);
      Stalled(size, l) && l.next.Some? && l.next.value + size < MAX_CSEQ
    ensures var l := RunOf(size, events);
      forall c: cseq :: c in l.buffered <==> l.next.value < c <= l.next.value + size
  {
    hide Inv, Stalled, RunFrom;
    EmptyKeeps(size);
    RunKeeps(size, EMPTY_LINE, events);
    StalledLineHolds(size, RunOf(size, events));
  }

  /** If the window excluded its own end, a full buffer away from the wrap would have its head. */
  lemma StrictWindowNeverStalls(size: nat, keys: set<cseq>, n: cseq)
    requires |keys| >= size > 0 && n + size <= MAX_CSEQ
    requires forall c :: c in keys ==> Sub(c, n) < size
    ensures n in keys
  {
    var nats := set c: nat | c in keys;
    assert nats == keys;
    var span := Span(n, size);
    forall c: nat | c in nats ensures c in span {
      assert Sub(c, n) < size;
    }
    SubsetOfSameSize(nats, span);
    assert n in span;
  }

  // ---------------------------------------------------------------- the stall is reachable

  /** The numbers `c + 2`, `c + 3`, … up to `c + 1 + n` arrive. */
  function Late(c: nat, n: nat): seq<Event>
    requires c + 1 + n <= MAX_CSEQ
  {
    if n == 0 then [] else Late(c, n - 1) + [Arrive(Numbered(c + 1 + n))]
  }

  lemma {:induction false} RunAppends(size: nat, l: Line, a: seq<Event>, b: seq<Event>)
    ensures RunFrom(size, l, a + b) == RunFrom(size, RunFrom(size, l, a), b)
    decreases |a|
  {
    if a == [] {
      assert a + b == b;
    } else {
      assert (a + b)[1..] == a[1..] + b;
      RunAppends(size, Step(size, l, a[0]), a[1..], b);
    }
  }

  lemma RunSnoc(size: nat, l: Line, a: seq<Event>, e: Event)
    ensures RunFrom(size, l, a + [e]) == Step(size, RunFrom(size, l, a), e)
  {
    RunAppends(size, l, a, [e]);
    var l' := RunFrom(size, l, a);
    assert [e][1..] == [];
    assert RunFrom(size, l', [e]) == RunFrom(size, Step(size, l', e), []);
  }

  /** The numbers from `lo` to `hi` and no others wait, and the number before them is expected. */
  predicate Waits(l: Line, lo: nat, hi: nat) {
    && l.next.Some? && l.next.value + 1 == lo
    && |l.buffered| + lo == hi + 1
    && forall k :: k in l.buffered ==> lo <= k <= hi
  }

  lemma WaitsCount(l: Line, lo: nat, hi: nat)
    requires Waits(l, lo, hi)
    ensures |l.buffered| + lo == hi + 1
  {
  }

  lemma LateArrives(size: nat, l: Line, lo: nat, hi: nat)
    requires Waits(l, lo, hi) && hi < MAX_CSEQ && |l.buffered| < size < U32
    ensures Waits(Step(size, l, Arrive(Numbered(hi + 1))), lo, hi + 1)
  {
    hide CSeqOf, Numbered;
    var l' := Step(size, l, Arrive(Numbered(hi + 1)));
    assert l'.buffered == l.buffered[hi + 1 := Numbered(hi + 1)];
    assert l'.buffered.Keys == l.buffered.Keys + {hi + 1};
  }

  lemma LateSnoc(size: nat, l: Line, c: nat, n: nat)
    requires c + 1 + n <= MAX_CSEQ
    ensures n == 0 ==> RunFrom(size, l, Late(c, n)) == l
    ensures n > 0 ==> Late(c, n) == Late(c, n - 1) + [Arrive(Numbered(c + 1 + n))]
  {
  }

  lemma {:induction false} LateFills(size: nat, l: Line, c: nat, n: nat)
    requires c + 1 + n <= MAX_CSEQ && n <= size < U32
    requires Waits(l, c + 2, c + 1)
    ensures Waits(RunFrom(size, l, Late(c, n)), c + 2, c + 1 + n)
    decreases n
  {
    hide *;
    LateSnoc(size, l, c, n);
    if n > 0 {
      LateFills(size, l, c, n - 1);
      RunSnoc(size, l, Late(c, n - 1), Arrive(Numbered(c + 1 + n)));
      WaitsCount(RunFrom(size, l, Late(c, n - 1)), c + 2, c + n);
      LateArrives(size, RunFrom(size, l, Late(c, n - 1)), c + 2, c + n);
    }
  }

  lemma OneServed(size: nat, c: nat)
    requires size > 0 && c < MAX_CSEQ
    ensures Waits(RunOf(size, [Arrive(Numbered(c)), Forward]), c + 2, c + 1)
  {
    hide CSeqOf, Numbered;
    var arrived := Step(size, EMPTY_LINE, Arrive(Numbered(c)));
    assert arrived.buffered == map[c := Numbered(c)] && arrived.next == Some(c);
    RunSnoc(size, EMPTY_LINE, [], Arrive(Numbered(c)));
    RunSnoc(size, EMPTY_LINE, [Arrive(Numbered(c))], Forward);
    assert [] + [Arrive(Numbered(c))] == [Arrive(Numbered(c))];
    assert [Arrive(Numbered(c))] + [Forward] == [Arrive(Numbered(c)), Forward];
  }

  /** One request served, and then `size` requests without the one that is expected. */
  lemma StallReachable(size: nat, c: nat) returns (events: seq<Event>)
    requires size > 0 && c + 1 + size <= MAX_CSEQ
    ensures Stalled(size, RunOf(size, events))
    ensures RunOf(size, events).next == Some(c + 1)
  {
    var start := [Arrive(Numbered(c)), Forward];
    hide RunFrom;
    OneServed(size, c);
    LateFills(size, RunOf(size, start), c, size);
    RunAppends(size, EMPTY_LINE, start, Late(c, size));
    events := start + Late(c, size);
  }

  // ---------------------------------------------------------------- draining

  /** How many numbers from `n` on are buffered without a gap. */
  function Contiguous(buffered: map<cseq, Message>, n: cseq): (k: nat)
    ensures k <= |buffered|
    decreases |buffered|
  {
    if n !in buffered then 0
    else
      assert (buffered - {n}).Keys == buffered.Keys - {n};
      1 + Contiguous(buffered - {n}, Increment(n))
  }

  function Ready(l: Line): nat {
    if l.next.None? then 0 else Contiguous(l.buffered, l.next.value)
  }

  /** `k` forwards, or as many as are ready. */
  function Forwarded(l: Line, k: nat): Line
    decreases k
  {
    if k == 0 || !HasReady(l) then l else Forwarded(ForwardOne(l), k - 1)
  }

  lemma {:induction false} ForwardedNext(l: Line, k: nat)
    requires k < Ready(l)
    ensures HasReady(Forwarded(l, k)) && Forwarded(l, k + 1) == ForwardOne(Forwarded(l, k))
    ensures Ready(Forwarded(l, k)) == Ready(l) - k
    decreases k
  {
    if k > 0 {
      ForwardedNext(ForwardOne(l), k - 1);
    }
  }

  lemma {:induction false} ForwardedAll(l: Line, k: nat)
    requires Ready(l) <= k
    ensures Forwarded(l, k) == Forwarded(l, Ready(l)) && !HasReady(Forwarded(l, k))
    decreases k
  {
    if k > 0 && HasReady(l) {
      ForwardedAll(ForwardOne(l), k - 1);
    }
  }

  /** What `k` forwards send: the buffered requests with the numbers from the expected one on. */
  lemma {:induction false} ForwardedSends(l: Line, k: nat)
    requires k <= Ready(l)
    ensures var l' := Forwarded(l, k);
      && |l'.sent| == |l.sent| + k && l'.sent[..|l.sent|] == l.sent
      && (forall i :: 0 <= i < k ==>
            var c := Ahead(l.next.value, i); c in l.buffered && l'.sent[|l.sent| + i] == (c, l.buffered[c]))
    decreases k
  {
    if k > 0 {
      var l1 := ForwardOne(l);
      var l' := Forwarded(l1, k - 1);
      ForwardedSends(l1, k - 1);
      assert l'.sent[..|l.sent|] == l'.sent[..|l1.sent|][..|l.sent|];
      assert l'.sent[|l.sent|] == l'.sent[..|l1.sent|][|l.sent|];
      forall i | 0 <= i < k
        ensures var c := Ahead(l.next.value, i); c in l.buffered && l'.sent[|l.sent| + i] == (c, l.buffered[c])
      {
        AheadIsIncrements(l.next.value, if i > 0 then i - 1 else 0);
        if i > 0 {
          var c := Ahead(l1.next.value, i - 1);
          assert l'.sent[|l1.sent| + (i - 1)] == (c, l1.buffered[c]);
        }
      }
    }
  }

  predicate OnlyForwards(events: seq<Event>) {
    forall i :: 0 <= i < |events| ==> events[i] == Forward
  }

  lemma {:induction false} ForwardsRun(size: nat, l: Line, events: seq<Event>)
    requires OnlyForwards(events)
    ensures RunFrom(size, l, events) == Forwarded(l, |events|)
    decreases |events|
  {
    if events != [] {
      ForwardsRun(size, Step(size, l, events[0]), events[1..]);
      if !HasReady(l) {
        assert Forwarded(l, |events| - 1) == l;
      }
    }
  }

  /** Once nothing more is received, exactly the gapless run of buffered numbers that starts with the
      expected one still goes out, and then nothing is ready. */
  lemma DrainForwardsTheRun(size: nat, l: Line, events: seq<Event>)
    requires OnlyForwards(events) && |events| >= Ready(l)
    ensures var l' := RunFrom(size, l, events);
      && !HasReady(l')
      && |l'.sent| == |l.sent| + Ready(l) && l'.sent[..|l.sent|] == l.sent
      && (forall i :: 0 <= i < Ready(l) ==>
            var c := Ahead(l.next.value, i); c in l.buffered && l'.sent[|l.sent| + i] == (c, l.buffered[c]))
      && (l.next.Some? ==> Ready(l) < CYCLE ==> Ahead(l.next.value, Ready(l)) !in l.buffered)
  {
    ForwardsRun(size, l, events);
    ForwardedAll(l, |events|);
    ForwardedSends(l, Ready(l));
    if l.next.Some? && Ready(l) < CYCLE {
      ContiguousStops(l.buffered, l.next.value);
    }
  }

  lemma {:induction false} ContiguousStops(buffered: map<cseq, Message>, n: cseq)
    requires Contiguous(buffered, n) < CYCLE
    ensures Ahead(n, Contiguous(buffered, n)) !in buffered
    decreases |buffered|
  {
    if n in buffered {
      var k := Contiguous(buffered, n);
      assert (buffered - {n}).Keys == buffered.Keys - {n};
      ContiguousStops(buffered - {n}, Increment(n));
      AheadIsIncrements(n, k - 1);
      assert Ahead(n, k) != n;
    }
  }
}
