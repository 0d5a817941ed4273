/** The live log of one CI job: a bounded tail and a lossy fan-out to subscriber
    channels. Each call holds the job's lock, so a run is a sequence of calls, with
    receives by the subscribers anywhere between them. */
module JobLog {

  const TAIL := 500
  const BUFFER := 256

  datatype Event = Event(line: string, state: string, closed: bool)

  function LineEvent(line: string): Event {
    Event(line, "", false)
  }

  function FinalEvent(state: string): Event {
    Event("", state, true)
  }

  /** A channel: everything ever sent on it, how much of that was received, and
      whether it is still open. What is sent and not received is buffered. */
  datatype Chan = Chan(sent: seq<Event>, received: nat, open: bool) {
    predicate Full() {
      |sent| - received >= BUFFER
    }

    /** A send that gives up when the buffer is full. */
    function Offer(ev: Event): Chan {
      if Full() then this else this.(sent := sent + [ev])
    }

    function Close(): Chan {
      this.(open := false)
    }
  }

  datatype Log = Log(lines: seq<string>, subs: set<nat>, state: string, closed: bool, chans: seq<Chan>)

  function KeepTail(lines: seq<string>): seq<string> {
    if |lines| > TAIL then lines[|lines| - TAIL..] else lines
  }

  function Backfill(lines: seq<string>): Chan {
    if lines == [] then Chan([], 0, true)
    else Backfill(lines[..|lines| - 1]).Offer(LineEvent(lines[|lines| - 1]))
  }

  function FanOut(chans: seq<Chan>, subs: set<nat>, ev: Event): seq<Chan> {
    seq(|chans|, i requires 0 <= i < |chans| => if i in subs then chans[i].Offer(ev) else chans[i])
  }

  function FanOutAndClose(chans: seq<Chan>, subs: set<nat>, ev: Event): seq<Chan> {
    seq(|chans|, i requires 0 <= i < |chans| => if i in subs then chans[i].Offer(ev).Close() else chans[i])
  }

  function AfterLog(l: Log, line: string): Log {
    l.(lines := KeepTail(l.lines + [line]), chans := FanOut(l.chans, l.subs, LineEvent(line)))
  }

  function AfterFinish(l: Log, state: string): Log {
    l.(state := state, closed := true, subs := {},
       chans := FanOutAndClose(l.chans, l.subs, FinalEvent(state)))
  }

  /** Subscribing to a finished job sends the final event with a blocking send; with
      the fresh buffer full of backfilled lines nobody can ever receive. */
  predicate SubscribeBlocks(l: Log) {
    l.state != "" && Backfill(l.lines).Full()
  }

  function AfterSubscribe(l: Log): Log {
    var ch := Backfill(l.lines);
    if l.state != "" then
      l.(chans := l.chans + [ch.(sent := ch.sent + [FinalEvent(l.state)]).Close()])
    else
      l.(chans := l.chans + [ch], subs := l.subs + {|l.chans|})
  }

  function AfterCancel(l: Log, i: nat): Log {
    if i in l.subs && i < |l.chans| then
      l.(subs := l.subs - {i}, chans := l.chans[i := l.chans[i].Close()])
    else l
  }

  function AfterReceive(l: Log, i: nat): Log {
    if i < |l.chans| && l.chans[i].received < |l.chans[i].sent| then
      l.(chans := l.chans[i := l.chans[i].(received := l.chans[i].received + 1)])
    else l
  }

  // ----- the object -----

  class JobLog {
    var lines: seq<string>
    var subs: set<nat>
    var state: string
    var closed: bool
    var chans: seq<Chan>

    ghost function Abs(): Log
      reads this
    {
      Log(lines, subs, state, closed, chans)
    }

    ghost predicate Valid()
      reads this
    {
      Sound(Abs())
    }

    constructor ()
      ensures Abs() == Fresh() && Valid()
    {
      lines, subs, state, closed, chans := [], {}, "", false, [];
    }

    /** Sending on a closed channel panics, so the channel has to be open. */
    method TrySend(i: nat, ev: Event)
      requires i < |chans| && chans[i].open
      modifies this`chans
      ensures chans == old(chans)[i := old(chans)[i].Offer(ev)]
    {
      if !chans[i].Full() {
        chans := chans[i := chans[i].(sent := chans[i].sent + [ev])];
      }
    }

    /** Closing twice panics, so the channel has to be open. */
    method CloseChan(i: nat)
      requires i < |chans| && chans[i].open
      modifies this`chans
      ensures chans == old(chans)[i := old(chans)[i].Close()]
    {
      chans := chans[i := chans[i].Close()];
    }

    method LogLine(line: string)
      requires Valid()
      modifies this
      ensures Valid() && Abs() == AfterLog(old(Abs()), line)
      ensures var all := old(lines) + [line]; lines == if |all| > 500 then all[|all| - 500..] else all
    {
      StepKeepsSound(Abs(), LogOp(line));
      lines := lines + [line];
      if |lines| > TAIL {
        lines := lines[|lines| - TAIL..];
      }
      var todo := subs;
      while todo != {}
        invariant todo <= subs && |chans| == |old(chans)|
        invariant forall i :: 0 <= i < |chans| ==>
          chans[i] == if i in subs - todo then old(chans)[i].Offer(LineEvent(line)) else old(chans)[i]
        invariant unchanged(`subs, `state, `closed) && lines == KeepTail(old(lines) + [line])
      {
        var ch :| ch in todo;
        TrySend(ch, LineEvent(line));
        todo := todo - {ch};
      }
      assert chans == FanOut(old(chans), subs, LineEvent(line));
    }

    method Finish(final: string)
      requires Valid()
      modifies this
      ensures Valid() && Abs() == AfterFinish(old(Abs()), final)
    {
      StepKeepsSound(Abs(), FinishOp(final));
      state := final;
      closed := true;
      while subs != {}
        invariant subs <= old(subs) && |chans| == |old(chans)|
        invariant forall i :: 0 <= i < |chans| ==>
          chans[i] == if i in old(subs) - subs then old(chans)[i].Offer(FinalEvent(final)).Close() else old(chans)[i]
        invariant unchanged(`lines) && state == final && closed
        decreases subs
      {
        var ch :| ch in subs;
        TrySend(ch, FinalEvent(final));
        CloseChan(ch);
        subs := subs - {ch};
      }
      assert chans == FanOutAndClose(old(chans), old(subs), FinalEvent(final));
    }

    /** `blocked` is the call that never returns and keeps the lock held. */
    method Subscribe() returns (ch: nat, blocked: bool)
      requires Valid()
      modifies this
      ensures blocked == SubscribeBlocks(old(Abs()))
      ensures blocked ==> Abs() == old(Abs())
      ensures !blocked ==> Valid() && Abs() == AfterSubscribe(old(Abs())) && ch == |old(chans)|
    {
      StepKeepsSound(Abs(), SubscribeOp);
      var backfilled := Chan([], 0, true);
      for k := 0 to |lines|
        invariant backfilled == Backfill(lines[..k])
      {
        assert lines[..k + 1][..k] == lines[..k];
        backfilled := backfilled.Offer(LineEvent(lines[k]));
      }
      assert lines[..|lines|] == lines;
      ch := |chans|;
      blocked := false;
      if state != "" {
        if backfilled.Full() {
          return ch, true;
        }
        chans := chans + [backfilled.(sent := backfilled.sent + [FinalEvent(state)]).Close()];
      } else {
        chans := chans + [backfilled];
        subs := subs + {ch};
      }
    }

    method Cancel(ch: nat)
      requires Valid()
      modifies this
      ensures Valid() && Abs() == AfterCancel(old(Abs()), ch)
    {
      StepKeepsSound(Abs(), CancelOp(ch));
      if ch in subs {
        subs := subs - {ch};
        CloseChan(ch);
      }
    }
  }

  // ----- runs -----

  datatype Op = LogOp(line: string) | FinishOp(state: string) | SubscribeOp | CancelOp(ch: nat) | ReceiveOp(ch: nat)

  /** After a subscription that blocked, only receives still happen. */
  datatype Run = Run(log: Log, stuck: bool)

  function Fresh(): Log {
    Log([], {}, "", false, [])
  }

  function Apply(l: Log, op: Op): Log {
    match op
    case LogOp(line) => AfterLog(l, line)
    case FinishOp(state) => AfterFinish(l, state)
    case SubscribeOp => if SubscribeBlocks(l) then l else AfterSubscribe(l)
    case CancelOp(ch) => AfterCancel(l, ch)
    case ReceiveOp(ch) => AfterReceive(l, ch)
  }

  function Step(r: Run, op: Op): Run {
    if r.stuck && !op.ReceiveOp? then r
    else Run(Apply(r.log, op), r.stuck || (op.SubscribeOp? && SubscribeBlocks(r.log)))
  }

  function Exec(ops: seq<Op>): Run {
    if ops == [] then Run(Fresh(), false) else Step(Exec(ops[..|ops| - 1]), ops[|ops| - 1])
  }

  /** A channel's events: any final one comes last, and only once it is closed. */
  ghost predicate SoundChan(c: Chan) {
    && c.received <= |c.sent| && |c.sent| - c.received <= BUFFER
    && (forall k :: 0 <= k < |c.sent| && c.sent[k].closed ==> k == |c.sent| - 1 && !c.open)
  }

  /** The registered subscribers are exactly the open channels. */
  ghost predicate Sound(l: Log) {
    && (forall i :: i in l.subs <==> 0 <= i < |l.chans| && l.chans[i].open)
    && (forall i :: 0 <= i < |l.chans| ==> SoundChan(l.chans[i]))
    && |l.lines| <= TAIL
  }

  lemma {:induction false} BackfillIsSound(lines: seq<string>)
    ensures SoundChan(Backfill(lines)) && Backfill(lines).open && Backfill(lines).received == 0
    ensures |Backfill(lines).sent| == if |lines| < BUFFER then |lines| else BUFFER
    ensures forall k :: 0 <= k < |Backfill(lines).sent| ==> Backfill(lines).sent[k] == LineEvent(lines[k])
  {
    if lines != [] {
      BackfillIsSound(lines[..|lines| - 1]);
    }
  }

  lemma StepKeepsSound(l: Log, op: Op)
    requires Sound(l)
    ensures Sound(Apply(l, op))
    ensures op.SubscribeOp? ==> Sound(AfterSubscribe(l)) || SubscribeBlocks(l)
  {
    hide Backfill;
    match op
    case LogOp(line) => OfferKeepsSound(l, LineEvent(line));
    case FinishOp(state) => OfferKeepsSound(l, FinalEvent(state));
    case SubscribeOp => SubscribeKeepsSound(l);
    case CancelOp(ch) =>
    case ReceiveOp(ch) =>
  }

  lemma SubscribeKeepsSound(l: Log)
    requires Sound(l)
    ensures Sound(AfterSubscribe(l)) || SubscribeBlocks(l)
  {
    BackfillIsSound(l.lines);
  }

  lemma OfferKeepsSound(l: Log, ev: Event)
    requires Sound(l)
    ensures forall i :: i in l.subs ==> i < |l.chans| && SoundChan(l.chans[i].Offer(ev).Close())
    ensures !ev.closed ==> forall i :: i in l.subs ==> SoundChan(l.chans[i].Offer(ev))
  {
  }

  /** Over every run: a channel is registered exactly while it is open, final events
      come last, and the buffer bound holds. */
  lemma {:induction false} RunsAreSound(ops: seq<Op>)
    ensures Sound(Exec(ops).log)
  {
    if ops != [] {
      RunsAreSound(ops[..|ops| - 1]);
      StepKeepsSound(Exec(ops[..|ops| - 1]).log, ops[|ops| - 1]);
    }
  }

  /** A closed channel is never sent on and never opened or closed again. */
  lemma ClosedStaysClosed(r: Run, op: Op, i: nat)
    requires Sound(r.log) && i < |r.log.chans| && !r.log.chans[i].open
    ensures i < |Step(r, op).log.chans|
    ensures var c := Step(r, op).log.chans[i]; !c.open && c.sent == r.log.chans[i].sent
    ensures i !in Step(r, op).log.subs
  {
  }

  lemma FinishLeavesNobodySubscribed(l: Log, state: string)
    requires Sound(l)
    ensures AfterFinish(l, state).subs == {}
    ensures forall i :: 0 <= i < |AfterFinish(l, state).chans| ==> !AfterFinish(l, state).chans[i].open
  {
  }

  /** A subscription never returns exactly when the job has a final state and the
      tail fills the channel's buffer. */
  lemma SubscribeBlocksExactly(l: Log)
    ensures SubscribeBlocks(l) <==> l.state != "" && |l.lines| >= 256
  {
    BackfillIsSound(l.lines);
  }

  // ----- what each call does -----

  /** A line goes to the end of the tail, of which 500 lines are kept, and to every open
      subscriber with room for it. */
  lemma LogDoes(l: Log, line: string)
    requires Sound(l)
    ensures var after, all := AfterLog(l, line), l.lines + [line];
      && after.lines == (if |all| > 500 then all[|all| - 500..] else all)
      && after.subs == l.subs && after.state == l.state && after.closed == l.closed && |after.chans| == |l.chans|
      && forall i :: 0 <= i < |l.chans| ==>
           var c := l.chans[i];
           after.chans[i] == if c.open && |c.sent| - c.received < 256 then c.(sent := c.sent + [Event(line, "", false)])
                             else c
  {
  }

  /** The final event goes to every open subscriber with room for it, and all are closed. */
  lemma FinishDoes(l: Log, state: string)
    requires Sound(l)
    ensures var after := AfterFinish(l, state);
      && after.lines == l.lines && after.subs == {} && after.state == state && after.closed && |after.chans| == |l.chans|
      && forall i :: 0 <= i < |l.chans| ==>
           var c := l.chans[i];
           after.chans[i] == if c.open && |c.sent| - c.received < 256
             then c.(sent := c.sent + [Event("", state, true)], open := false) else c.(open := false)
  {
  }

  /** A new channel holds the first 256 lines of the tail; it is registered and open, or,
      when the job has a final state, has the final event last and is closed. */
  lemma SubscribeDoes(l: Log)
    requires !SubscribeBlocks(l)
    ensures var after, n := AfterSubscribe(l), |l.chans|;
      && after.lines == l.lines && after.state == l.state && after.closed == l.closed
      && |after.chans| == n + 1 && after.chans[..n] == l.chans
      && var c, k := after.chans[n], if |l.lines| < 256 then |l.lines| else 256;
         && c.received == 0 && |c.sent| >= k
         && (forall m :: 0 <= m < k ==> c.sent[m] == Event(l.lines[m], "", false))
         && if l.state == "" then c.open && |c.sent| == k && after.subs == l.subs + {n}
            else !c.open && c.sent == c.sent[..k] + [Event("", l.state, true)] && after.subs == l.subs
  {
    hide Backfill;
    BackfillIsSound(l.lines);
  }

  /** Cancelling takes a registered channel off and closes it, and does nothing to any
      other. */
  lemma CancelDoes(l: Log, i: nat)
    requires Sound(l)
    ensures var after := AfterCancel(l, i);
      && after.lines == l.lines && after.state == l.state && after.closed == l.closed && |after.chans| == |l.chans|
      && after.subs == l.subs - {i}
      && forall m :: 0 <= m < |l.chans| ==>
           after.chans[m] == if m == i then l.chans[m].(open := false) else l.chans[m]
  {
  }

  /** A receive takes the oldest event that is buffered, if there is one. */
  lemma ReceiveDoes(l: Log, i: nat)
    ensures var after := AfterReceive(l, i);
      && after.(chans := l.chans) == l && |after.chans| == |l.chans|
      && forall m :: 0 <= m < |l.chans| ==>
           var c := l.chans[m];
           after.chans[m] == if m == i && c.received < |c.sent| then c.(received := c.received + 1) else c
  {
  }

  // ----- the tail -----

  /** The lines logged in a run, in order. */
  function Logged(ops: seq<Op>): seq<string> {
    if ops == [] then []
    else
      var init := Logged(ops[..|ops| - 1]);
      match ops[|ops| - 1]
      case LogOp(line) => init + [line]
      case _ => init
  }

  lemma KeepTailTwice(all: seq<string>, line: string)
    ensures KeepTail(KeepTail(all) + [line]) == KeepTail(all + [line])
  {
  }

  /** What one step does to the tail. */
  lemma TailStep(r: Run, op: Op)
    ensures Step(r, op).log.lines
      == if op.LogOp? && !r.stuck then KeepTail(r.log.lines + [op.line]) else r.log.lines
    ensures r.stuck ==> Step(r, op).stuck
  {
  }

  /** The tail is always the last 500 lines logged, or all of them. */
  lemma TailIsLatest(ops: seq<Op>)
    requires !Exec(ops).stuck
    ensures var all, tail := Logged(ops), Exec(ops).log.lines;
      |tail| == (if |all| > 500 then 500 else |all|) && tail == all[|all| - |tail|..]
  {
    hide Exec, Logged;
    TailOfRun(ops);
  }

  lemma {:induction false} TailOfRun(ops: seq<Op>)
    requires !Exec(ops).stuck
    ensures Exec(ops).log.lines == KeepTail(Logged(ops))
  {
    hide Step, KeepTail;
    if ops != [] {
      var init, op := ops[..|ops| - 1], ops[|ops| - 1];
      TailStep(Exec(init), op);
      TailOfRun(init);
      if op.LogOp? {
        KeepTailTwice(Logged(init), op.line);
      }
    } else {
      assert KeepTail([]) == [] by {
        EmptyTail();
      }
    }
  }

  lemma EmptyTail()
    ensures KeepTail([]) == []
  {
  }

  // ----- delivery -----

  ghost predicate Subsequence(a: seq<string>, b: seq<string>) {
    a == [] ||
    (b != [] &&
      (Subsequence(a, b[..|b| - 1]) ||
       (a[|a| - 1] == b[|b| - 1] && Subsequence(a[..|a| - 1], b[..|b| - 1]))))
  }

  lemma SubsequenceSkip(a: seq<string>, b: seq<string>, x: string)
    requires Subsequence(a, b)
    ensures Subsequence(a, b + [x])
  {
    assert (b + [x])[..|b|] == b;
  }

  lemma SubsequenceTake(a: seq<string>, b: seq<string>, x: string)
    requires Subsequence(a, b)
    ensures Subsequence(a + [x], b + [x])
  {
    assert (b + [x])[..|b|] == b && (a + [x])[..|a|] == a;
  }

  function LinesOf(events: seq<Event>): seq<string> {
    if events == [] then []
    else
      var last := events[|events| - 1];
      LinesOf(events[..|events| - 1]) + if last.closed then [] else [last.line]
  }

  /** What the run has to offer channel `i`: the tail at its subscription, then every
      line logged while it was subscribed. */
  function Offered(ops: seq<Op>, i: nat): seq<string> {
    if ops == [] then []
    else
      var init, op := ops[..|ops| - 1], ops[|ops| - 1];
      var before := Exec(init);
      if i >= |before.log.chans| then before.log.lines
      else if op.LogOp? && Registered(before, i) then Offered(init, i) + [op.line]
      else Offered(init, i)
  }

  predicate Registered(r: Run, i: nat) {
    !r.stuck && i in r.log.subs
  }

  /** No line sent to channel `i` was ever given up: neither in the backfill nor since. */
  ghost predicate Lossless(ops: seq<Op>, i: nat) {
    ops != [] &&
    var init, op := ops[..|ops| - 1], ops[|ops| - 1];
    var before := Exec(init);
    if i >= |before.log.chans| then |before.log.lines| <= BUFFER
    else Lossless(init, i) && (op.LogOp? && Registered(before, i) ==> !before.log.chans[i].Full())
  }

  lemma {:induction false} SubsequenceLength(a: seq<string>, b: seq<string>)
    requires Subsequence(a, b)
    ensures |a| <= |b| && (|a| == |b| ==> a == b)
  {
    if a != [] {
      var m, n := |a| - 1, |b| - 1;
      if Subsequence(a, b[..n]) {
        SubsequenceLength(a, b[..n]);
      } else {
        SubsequenceLength(a[..m], b[..n]);
        assert a == a[..m] + [a[m]] && b == b[..n] + [b[n]];
      }
    }
  }

  lemma LinesOfAppend(events: seq<Event>, ev: Event)
    ensures LinesOf(events + [ev]) == LinesOf(events) + if ev.closed then [] else [ev.line]
  {
    assert (events + [ev])[..|events|] == events;
  }

  lemma {:induction false} BackfilledLines(lines: seq<string>)
    ensures Subsequence(LinesOf(Backfill(lines).sent), lines)
    ensures |LinesOf(Backfill(lines).sent)| == if |lines| < BUFFER then |lines| else BUFFER
  {
    hide Subsequence, LinesOf;
    if lines == [] {
      NothingSent();
    } else {
      var init, last := lines[..|lines| - 1], lines[|lines| - 1];
      var before := Backfill(init);
      BackfilledLines(init);
      BackfillIsSound(init);
      assert init + [last] == lines;
      if before.Full() {
        SubsequenceSkip(LinesOf(before.sent), init, last);
      } else {
        LinesOfAppend(before.sent, LineEvent(last));
        SubsequenceTake(LinesOf(before.sent), init, last);
      }
    }
  }

  lemma NothingSent()
    ensures Subsequence(LinesOf([]), []) && LinesOf([]) == []
  {
  }

  /** What one step does to an existing channel's events. */
  lemma ChanStep(r: Run, op: Op, i: nat)
    requires i < |r.log.chans|
    ensures i < |Step(r, op).log.chans|
    ensures var c, after := r.log.chans[i], Step(r, op).log.chans[i];
      after.sent == if Registered(r, i) && op.LogOp? then c.Offer(LineEvent(op.line)).sent
                    else if Registered(r, i) && op.FinishOp? then c.Offer(FinalEvent(op.state)).sent
                    else c.sent
  {
  }

  /** What a subscription puts on its new channel. */
  lemma NewChan(r: Run, op: Op, i: nat)
    requires i >= |r.log.chans| && i < |Step(r, op).log.chans|
    ensures var c := Step(r, op).log.chans[i];
      c.sent == Backfill(r.log.lines).sent + if r.log.state == "" then [] else [FinalEvent(r.log.state)]
  {
  }

  /** Delivery: the lines sent to a subscriber are a subsequence of what the run had to
      offer it, and all of it exactly if nothing was given up. */
  lemma Delivery(ops: seq<Op>, i: nat)
    requires i < |Exec(ops).log.chans|
    ensures Subsequence(LinesOf(Exec(ops).log.chans[i].sent), Offered(ops, i))
    ensures LinesOf(Exec(ops).log.chans[i].sent) == Offered(ops, i) <==> Lossless(ops, i)
  {
    hide Exec, Subsequence, LinesOf, Offered, Lossless;
    DeliveryCounts(ops, i);
    SubsequenceLength(LinesOf(Exec(ops).log.chans[i].sent), Offered(ops, i));
  }

  /** Every line that is given up is missing from the count for good. */
  lemma {:induction false} DeliveryCounts(ops: seq<Op>, i: nat)
    requires i < |Exec(ops).log.chans|
    ensures Subsequence(LinesOf(Exec(ops).log.chans[i].sent), Offered(ops, i))
    ensures |LinesOf(Exec(ops).log.chans[i].sent)| == |Offered(ops, i)| <==> Lossless(ops, i)
  {
    hide Step, Subsequence, LinesOf, Backfill;
    var init, op := ops[..|ops| - 1], ops[|ops| - 1];
    var before := Exec(init);
    if i >= |before.log.chans| {
      NewChan(before, op, i);
      BackfilledLines(before.log.lines);
      LinesOfAppend(Backfill(before.log.lines).sent, FinalEvent(before.log.state));
      var backfilled := Backfill(before.log.lines).sent;
      assert backfilled + [] == backfilled;
      assert LinesOf(backfilled) + [] == LinesOf(backfilled);
      assert LinesOf(Exec(ops).log.chans[i].sent) == LinesOf(backfilled);
    } else {
      DeliveryCounts(init, i);
      ChanStep(before, op, i);
      var c := before.log.chans[i];
      SubsequenceLength(LinesOf(c.sent), Offered(init, i));
      if op.LogOp? && Registered(before, i) {
        SubsequenceSkip(LinesOf(c.sent), Offered(init, i), op.line);
        SubsequenceTake(LinesOf(c.sent), Offered(init, i), op.line);
        LinesOfAppend(c.sent, LineEvent(op.line));
      } else if op.FinishOp? {
        LinesOfAppend(c.sent, FinalEvent(op.state));
        assert LinesOf(c.sent) + [] == LinesOf(c.sent);
      }
    }
  }

  /** The final event reaches a subscriber unless its buffer is full at that moment, and
      nothing follows it. */
  lemma FinalEventIsLast(ops: seq<Op>, i: nat, state: string)
    requires Registered(Exec(ops), i)
    ensures i < |Exec(ops).log.chans|
    ensures var c, after := Exec(ops).log.chans[i], Exec(ops + [FinishOp(state)]).log.chans[i];
      after.sent == c.sent + if |c.sent| - c.received >= 256 then [] else [Event("", state, true)]
    ensures forall later :: var run := Exec(ops + [FinishOp(state)] + later).log;
      i < |run.chans| && run.chans[i].sent == Exec(ops + [FinishOp(state)]).log.chans[i].sent
  {
    RunsAreSound(ops);
    var finished := ops + [FinishOp(state)];
    assert finished[..|ops|] == ops;
    ChanStep(Exec(ops), FinishOp(state), i);
    FinishLeavesNobodySubscribed(Exec(ops).log, state);
    forall later
      ensures var run := Exec(finished + later).log;
        i < |run.chans| && run.chans[i].sent == Exec(finished).log.chans[i].sent
    {
      ClosedForGood(finished, later, i);
    }
  }

  /** Once closed, a channel's events never change, whatever is called afterwards. */
  lemma {:induction false} ClosedForGood(ops: seq<Op>, later: seq<Op>, i: nat)
    requires i < |Exec(ops).log.chans| && !Exec(ops).log.chans[i].open
    ensures var run := Exec(ops + later).log;
      i < |run.chans| && !run.chans[i].open && run.chans[i].sent == Exec(ops).log.chans[i].sent
  {
    hide Step;
    if later == [] {
      assert ops + later == ops;
    } else {
      var init := later[..|later| - 1];
      ClosedForGood(ops, init, i);
      RunsAreSound(ops + init);
      assert (ops + later)[..|ops + later| - 1] == ops + init;
      ClosedStaysClosed(Exec(ops + init), later[|later| - 1], i);
    }
  }
}
