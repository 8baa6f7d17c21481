/** The actor goroutine and its producers in every interleaving: wakeups, single and
    batch mode, reconfiguration at any point, supervision, and draining after a stop. */
module ActorLoop {
  import opened Basics
  import opened Mailbox
  import opened ActorCore

  datatype BatchConfig = BatchConfig(enabled: bool, maxSize: int, hasReceiver: bool)

  /** Where the consumer is. */
  datatype Pc<M> =
    | Waiting                               // in the select
    | Draining                              // took a token, about to read the batch config
    | Chosen(cfg: BatchConfig)              // read the config, about to dequeue
    | Holding(msgs: seq<M>, batched: bool)  // dequeued, about to call handlers
    | Exited

  /** One handler call. */
  datatype Call<M, V> = Call(msgs: seq<M>, given: V, result: Result<V>)

  datatype Sys<M, V> = Sys(
    sup: Supervisor,
    box: Box<M>,
    accepted: seq<M>,   // everything Enqueue ever accepted, in order
    pc: Pc<M>,
    batch: BatchConfig,
    core: Core<V>,
    cancelled: bool,
    log: seq<Call<M, V>>)

  datatype Step<M, V> =
    | Produce(msg: M)
    | Reconfigure(cfg: BatchConfig)
    | StopRequested
    | TakeToken
    | ContextDone
    | ReadConfig
    | Dequeues
    | BeginBatch
    | CallHandler(result: Result<V>)

  function Next<M, V>(s: Sys<M, V>, step: Step<M, V>): Sys<M, V>
  {
    match step
    case Produce(m) =>
      var (b, r) := EnqueueSpec(s.box, m);
      if r == SubmitAccepted then s.(box := b, accepted := s.accepted + [m]) else s
    case Reconfigure(cfg) => s.(batch := cfg)
    case StopRequested => s.(box := s.box.(closed := true), cancelled := true, core := s.core.(status := Stopped))
    case TakeToken =>
      if s.pc == Waiting && s.box.token then s.(pc := Draining, box := s.box.(token := false)) else s
    case ContextDone =>
      if s.pc == Waiting && s.cancelled then s.(pc := Exited, core := s.core.(status := Stopped)) else s
    case ReadConfig => if s.pc == Draining then s.(pc := Chosen(s.batch)) else s
    case Dequeues =>
      if !s.pc.Chosen? then s
      else if s.pc.cfg.enabled && s.pc.cfg.maxSize > 1 then
        var (b, ms) := DequeueBatchSpec(s.box, s.pc.cfg.maxSize);
        s.(box := b, pc := if ms == [] then Waiting else Holding(ms, true))
      else
        var (b, m) := DequeueSpec(s.box);
        s.(box := b, pc := if m.None? then Waiting else Holding([m.value], false))
    case BeginBatch =>
      if s.pc.Holding? && s.pc.batched && !(s.batch.enabled && s.batch.hasReceiver)
      then s.(pc := s.pc.(batched := false)) else s
    case CallHandler(r) =>
      if !s.pc.Holding? || s.pc.msgs == [] then s
      else
        var n := if s.pc.batched then |s.pc.msgs| else 1;
        var rest := s.pc.msgs[n..];
        var ends := Terminates(s.sup, s.core, r);
        s.(pc := if rest == [] then Draining else s.pc.(msgs := rest),
           core := Apply(s.sup, s.core, r),
           cancelled := s.cancelled || ends,
           box := if ends then s.box.(closed := true) else s.box,
           log := s.log + [Call(s.pc.msgs[..n], s.core.payload, r)])
  }

  // --- what the history says ---

  /** The messages handed to handlers in the first n calls, in order. */
  function Handled<M, V>(log: seq<Call<M, V>>, n: nat): seq<M>
    requires n <= |log|
  {
    if n == 0 then [] else Handled(log, n - 1) + log[n - 1].msgs
  }

  function Restarts<M, V>(sup: Supervisor, log: seq<Call<M, V>>, n: nat): nat
    requires n <= |log|
  {
    if n == 0 then 0
    else
      var before := Restarts(sup, log, n - 1);
      if log[n - 1].result.Failed? && before < sup.Limit() then before + 1 else before
  }

  /** The actor state as a fold of the first n calls: the last success since the last reset,
      or the initial state if there is none; a failure past the restart limit resets nothing. */
  function StateAfter<M, V>(sup: Supervisor, initial: V, log: seq<Call<M, V>>, n: nat): V
    requires n <= |log|
  {
    if n == 0 then initial
    else
      match log[n - 1].result
      case Ok(next) => next
      case Failed(_) => if Restarts(sup, log, n - 1) < sup.Limit() then initial else StateAfter(sup, initial, log, n - 1)
  }

  lemma {:induction false} FoldsSame<M, V>(sup: Supervisor, initial: V, log: seq<Call<M, V>>, c: Call<M, V>, n: nat)
    requires n <= |log|
    ensures Handled(log + [c], n) == Handled(log, n) && Restarts(sup, log + [c], n) == Restarts(sup, log, n)
    ensures StateAfter(sup, initial, log + [c], n) == StateAfter(sup, initial, log, n)
  {
    if n > 0 {
      FoldsSame(sup, initial, log, c, n - 1);
      assert (log + [c])[n - 1] == log[n - 1];
    }
  }

  function InFlight<M, V>(s: Sys<M, V>): seq<M>
  {
    if s.pc.Holding? then s.pc.msgs else []
  }

  ghost predicate Init<M, V>(s: Sys<M, V>)
  {
    && s.box.queue == [] && !s.box.token && s.accepted == [] && s.pc == Waiting && s.log == []
    && s.core.payload == s.core.initial && s.core.restarts == 0 && s.core.revision == 0
  }

  // --- invariants ---

  /** Every accepted message is handled, in the consumer's hands, or queued, in order. */
  ghost predicate Conserved<M, V>(s: Sys<M, V>)
  {
    Handled(s.log, |s.log|) + InFlight(s) + s.box.queue == s.accepted
  }

  /** A non-empty mailbox has a token waiting or a consumer that has yet to see it empty. */
  ghost predicate NoLostWakeup<M, V>(s: Sys<M, V>)
  {
    s.box.queue != [] ==> s.box.token || s.pc.Draining? || s.pc.Chosen? || s.pc.Holding?
  }

  ghost predicate Folded<M, V>(s: Sys<M, V>)
  {
    && s.core.payload == StateAfter(s.sup, s.core.initial, s.log, |s.log|)
    && s.core.restarts == Restarts(s.sup, s.log, |s.log|) <= s.sup.Limit()
    && Given(s.sup, s.core.initial, s.log)
  }

  ghost predicate Inv<M, V>(s: Sys<M, V>)
  {
    Conserved(s) && NoLostWakeup(s) && Folded(s) && (s.pc.Holding? ==> s.pc.msgs != [])
  }

  /** Every call is given the fold of the calls before it. */
  ghost predicate Given<M, V>(sup: Supervisor, initial: V, log: seq<Call<M, V>>)
  {
    forall i :: 0 <= i < |log| ==> log[i].given == StateAfter(sup, initial, log, i)
  }

  lemma GivenSnoc<M, V>(sup: Supervisor, initial: V, log: seq<Call<M, V>>, c: Call<M, V>)
    requires Given(sup, initial, log) && c.given == StateAfter(sup, initial, log, |log|)
    ensures Given(sup, initial, log + [c])
  {
    forall i | 0 <= i < |log| + 1 ensures (log + [c])[i].given == StateAfter(sup, initial, log + [c], i) {
      FoldsSame(sup, initial, log, c, i);
    }
  }

  /** A call hands over the first n messages that the consumer holds. */
  lemma CallMoves<M, V>(s: Sys<M, V>, r: Result<V>) returns (n: nat, c: Call<M, V>)
    requires s.pc.Holding? && s.pc.msgs != []
    ensures n <= |s.pc.msgs| && c == Call(s.pc.msgs[..n], s.core.payload, r)
    ensures var s' := Next(s, CallHandler(r));
            && s'.log == s.log + [c] && s'.core == Apply(s.sup, s.core, r) && s'.sup == s.sup
            && InFlight(s') == s.pc.msgs[n..] && s'.box.queue == s.box.queue && s'.accepted == s.accepted
  {
    n := if s.pc.batched then |s.pc.msgs| else 1;
    c := Call(s.pc.msgs[..n], s.core.payload, r);
  }

  lemma CallKeepsFold<M, V>(s: Sys<M, V>, r: Result<V>)
    requires Folded(s) && s.pc.Holding? && s.pc.msgs != []
    ensures Folded(Next(s, CallHandler(r)))
  {
    var n, c := CallMoves(s, r);
    GivenSnoc(s.sup, s.core.initial, s.log, c);
    FoldsSame(s.sup, s.core.initial, s.log, c, |s.log|);
  }

  lemma CallKeepsOrder<M, V>(s: Sys<M, V>, r: Result<V>)
    requires Conserved(s) && s.pc.Holding? && s.pc.msgs != []
    ensures Conserved(Next(s, CallHandler(r)))
  {
    var n, c := CallMoves(s, r);
    FoldsSame(s.sup, s.core.initial, s.log, c, |s.log|);
    Shift(Handled(s.log, |s.log|), s.pc.msgs, n, s.box.queue);
  }

  lemma Shift<M>(a: seq<M>, b: seq<M>, n: nat, c: seq<M>)
    requires n <= |b|
    ensures a + b[..n] + b[n..] + c == a + b + c
  {
    TakeDrop(b, n);
    assert a + b[..n] + b[n..] == a + b;
  }

  /** Dequeuing splits the queue into what is held and what remains. */
  lemma DequeuesSplit<M, V>(s: Sys<M, V>)
    requires s.pc.Chosen?
    ensures var s' := Next(s, Dequeues);
            && s.box.queue == InFlight(s') + s'.box.queue
            && s' == s.(box := s'.box, pc := s'.pc)
            && ((s'.pc == Waiting && s'.box.queue == []) || (s'.pc.Holding? && s'.pc.msgs != []))
  {
    if s.pc.cfg.enabled && s.pc.cfg.maxSize > 1 { BatchSplit(s.box, s.pc.cfg.maxSize); } else { SingleSplit(s.box); }
  }

  lemma BatchSplit<M>(b: Box<M>, limit: int)
    ensures var r := DequeueBatchSpec(b, limit);
            b.queue == r.1 + r.0.queue && (r.1 == [] ==> b.queue == [] && r.0.queue == [])
  {
    TakeDrop(b.queue, BatchSize(limit, |b.queue|));
  }

  lemma SingleSplit<M>(b: Box<M>)
    ensures var r := DequeueSpec(b);
            b.queue == (if r.1.Some? then [r.1.value] else []) + r.0.queue && (r.1.None? ==> r.0.queue == [])
  {
    if b.queue != [] { TakeDrop(b.queue, 1); }
  }

  /** Nothing was handled: the fold is as before. */
  lemma UnfoldedKeeps<M, V>(s: Sys<M, V>, s': Sys<M, V>)
    requires Folded(s) && s'.log == s.log && s'.sup == s.sup && s'.core.(status := s.core.status) == s.core
    ensures Folded(s')
  {}

  lemma DequeuesKeep<M, V>(s: Sys<M, V>)
    requires Inv(s)
    ensures Inv(Next(s, Dequeues))
  {
    if s.pc.Chosen? {
      var s' := Next(s, Dequeues);
      DequeuesSplit(s);
      UnfoldedKeeps(s, s');
      Reassociate(Handled(s.log, |s.log|), InFlight(s'), s'.box.queue);
    }
  }

  lemma Reassociate<M>(a: seq<M>, b: seq<M>, c: seq<M>)
    ensures a + [] + (b + c) == a + b + c
  {}

  lemma ProduceKeeps<M, V>(s: Sys<M, V>, m: M)
    requires Inv(s)
    ensures Inv(Next(s, Produce(m)))
  {
    UnfoldedKeeps(s, Next(s, Produce(m)));
    var done := Handled(s.log, |s.log|) + InFlight(s);
    assert done + (s.box.queue + [m]) == done + s.box.queue + [m];
  }

  lemma CallKeeps<M, V>(s: Sys<M, V>, r: Result<V>)
    requires Inv(s)
    ensures Inv(Next(s, CallHandler(r)))
  {
    if s.pc.Holding? {
      CallKeepsFold(s, r);
      CallKeepsOrder(s, r);
    }
  }

  lemma StepKeeps<M, V>(s: Sys<M, V>, step: Step<M, V>)
    requires Inv(s)
    ensures Inv(Next(s, step)) && Next(s, step).sup == s.sup && Next(s, step).core.initial == s.core.initial
  {
    match step
    case Produce(m) => ProduceKeeps(s, m);
    case Dequeues => DequeuesKeep(s);
    case CallHandler(r) => CallKeeps(s, r);
    case _ => UnfoldedKeeps(s, Next(s, step));
  }

  function Run<M, V>(s: Sys<M, V>, steps: seq<Step<M, V>>): Sys<M, V>
    decreases |steps|
  {
    if steps == [] then s else Run(Next(s, steps[0]), steps[1..])
  }

  lemma {:induction false} RunKeeps<M, V>(s: Sys<M, V>, steps: seq<Step<M, V>>)
    requires Inv(s)
    ensures Inv(Run(s, steps)) && Run(s, steps).sup == s.sup && Run(s, steps).core.initial == s.core.initial
    decreases |steps|
  {
    if steps != [] {
      StepKeeps(s, steps[0]);
      RunKeeps(Next(s, steps[0]), steps[1..]);
    }
  }

  // --- the supervisor's limit ---

  function Failures<M, V>(log: seq<Call<M, V>>, n: nat): nat
    requires n <= |log|
  {
    if n == 0 then 0 else Failures(log, n - 1) + if log[n - 1].result.Failed? then 1 else 0
  }

  /** How many failures lead to a restart: as configured, or one if the number is negative. */
  function Allowance(sup: Supervisor): nat { if sup.maxRestarts >= 0 then sup.maxRestarts else 1 }

  lemma {:induction false} RestartsAreFailures<M, V>(sup: Supervisor, log: seq<Call<M, V>>, n: nat)
    requires n <= |log|
    ensures Restarts(sup, log, n) == Min(Failures(log, n), Allowance(sup))
  {
    if n > 0 { RestartsAreFailures(sup, log, n - 1); }
  }

  /** For any handler results and any reconfiguration: the messages handed to handlers
      are a prefix of the accepted sequence, every call is given the fold of the
      successes since the last reset, and restarts are the failures up to the number that the
      supervisor allows. */
  lemma RunIsFold<M, V>(s: Sys<M, V>, steps: seq<Step<M, V>>)
    requires Init(s)
    ensures var s' := Run(s, steps);
            && Handled(s'.log, |s'.log|) <= s'.accepted
            && s'.core.payload == StateAfter(s.sup, s.core.initial, s'.log, |s'.log|)
            && (forall i :: 0 <= i < |s'.log| ==> s'.log[i].given == StateAfter(s.sup, s.core.initial, s'.log, i))
            && s'.core.restarts == Restarts(s.sup, s'.log, |s'.log|) == Min(Failures(s'.log, |s'.log|), Allowance(s.sup))
  {
    RunKeeps(s, steps);
    var s' := Run(s, steps);
    RestartsAreFailures(s.sup, s'.log, |s'.log|);
    var done := Handled(s'.log, |s'.log|);
    assert s'.accepted[..|done|] == done;
  }

  // --- single results ---

  /** In every run, one more result. The first failures, as many as allowed, put the actor back
      into its initial state, and it runs on unless its start hook fails; every later failure
      leaves the state as it is and ends the actor for good. A success is the new state. */
  lemma NextResultExact<M, V>(s: Sys<M, V>, steps: seq<Step<M, V>>, r: Result<V>)
    requires Init(s) && Run(s, steps).pc.Holding?
    ensures var s1 := Run(s, steps);
            var s2, k := Next(s1, CallHandler(r)), Failures(s1.log, |s1.log|);
            && s1.core.restarts == Min(k, Allowance(s.sup)) && s2.core.initial == s.core.initial
            && (r.Ok? ==> s2.core == s1.core.(payload := r.next, revision := s1.core.revision + 1))
            && (r.Failed? && k < Allowance(s.sup) ==>
                s2.core == Core(s.core.initial, s.core.initial, 0, k + 1, if r.hookOk then Running else Stopped))
            && (r.Failed? && k >= Allowance(s.sup) ==> s2.core == s1.core.(status := Stopped))
            && (var ends := r.Failed? && (k >= Allowance(s.sup) || !r.hookOk);
                && (ends ==> s2.cancelled && s2.box.closed)
                && (!ends ==> s2.cancelled == s1.cancelled && s2.box == s1.box))
  {
    RunKeeps(s, steps);
    var log := Run(s, steps).log;
    RestartsAreFailures(s.sup, log, |log|);
  }

  /** After its end an actor accepts nothing more. */
  lemma {:induction false} ClosedAcceptsNothing<M, V>(s: Sys<M, V>, steps: seq<Step<M, V>>)
    requires s.box.closed
    ensures Run(s, steps).accepted == s.accepted && Run(s, steps).box.closed
    decreases |steps|
  {
    if steps != [] { ClosedAcceptsNothing(Next(s, steps[0]), steps[1..]); }
  }

  lemma {:induction false} ExitedHandlesNothing<M, V>(s: Sys<M, V>, steps: seq<Step<M, V>>)
    requires s.pc == Exited && s.core.status == Stopped
    ensures var s' := Run(s, steps); s'.pc == Exited && s'.log == s.log && s'.core == s.core
    decreases |steps|
  {
    if steps != [] { ExitedHandlesNothing(Next(s, steps[0]), steps[1..]); }
  }

  /** A stop request ends a waiting actor for good: it accepts and handles nothing more. */
  lemma StopEnds<M, V>(s: Sys<M, V>, steps: seq<Step<M, V>>)
    requires s.pc == Waiting
    ensures var s' := Run(Next(Next(s, StopRequested), ContextDone), steps);
            s'.pc == Exited && s'.core == s.core.(status := Stopped) && s'.accepted == s.accepted && s'.log == s.log
  {
    var s1 := Next(Next(s, StopRequested), ContextDone);
    ClosedAcceptsNothing(s1, steps);
    ExitedHandlesNothing(s1, steps);
  }

  // --- the loop gets on ---

  /** A consumer that waits beside a filled mailbox is woken. */
  lemma WakesUp<M, V>(s: Sys<M, V>)
    requires Inv(s) && s.pc == Waiting && s.box.queue != []
    ensures Next(s, TakeToken) == s.(pc := Draining, box := s.box.(token := false))
  {}

  /** How many messages the consumer dequeues at once. */
  function Portion(cfg: BatchConfig, depth: nat): nat
  {
    if !cfg.enabled || cfg.maxSize <= 1 then Min(1, depth) else if cfg.maxSize < depth then cfg.maxSize else depth
  }

  /** A draining consumer of a filled mailbox takes the oldest messages: one, or as many as its
      batch size; of an empty one it goes back to waiting. */
  lemma TakesNext<M, V>(s: Sys<M, V>)
    requires s.pc == Draining
    ensures var s', k := Next(Next(s, ReadConfig), Dequeues), Portion(s.batch, |s.box.queue|);
            && s'.box.queue == s.box.queue[k..] && s' == s.(pc := s'.pc, box := s'.box)
            && s'.pc == if k == 0 then Waiting else Holding(s.box.queue[..k], s.batch.enabled && s.batch.maxSize > 1)
  {
    var cfg := s.batch;
    if !(cfg.enabled && cfg.maxSize > 1) && s.box.queue != [] { assert [s.box.queue[0]] == s.box.queue[..1]; }
  }

  /** It then hands a batch to the receiver at once if there is one, and otherwise its messages
      one by one, with the current state. */
  lemma HandsOver<M, V>(s: Sys<M, V>, r: Result<V>)
    requires s.pc.Holding? && s.pc.msgs != []
    ensures var s1 := Next(s, BeginBatch);
            var s2 := Next(s1, CallHandler(r));
            var whole := s.pc.batched && s.batch.enabled && s.batch.hasReceiver;
            var k := if whole then |s.pc.msgs| else 1;
            && s2.log == s.log + [Call(s.pc.msgs[..k], s.core.payload, r)] && s2.box.queue == s.box.queue
            && s2.pc == if k == |s.pc.msgs| then Draining else Holding(s.pc.msgs[k..], false)
  {}

  // --- with a handler that is a function ---

  /** The calls after the last reset among the first n begin here. */
  function LastReset<M, V>(sup: Supervisor, log: seq<Call<M, V>>, n: nat): (i: nat)
    requires n <= |log|
    ensures i <= n
  {
    if n == 0 || (log[n - 1].result.Failed? && Restarts(sup, log, n - 1) < sup.Limit()) then n
    else LastReset(sup, log, n - 1)
  }

  /** The handler folded over the messages of calls i up to n; what fails changes nothing. */
  function FoldFrom<M, V>(h: (V, seq<M>) -> Result<V>, initial: V, log: seq<Call<M, V>>, i: nat, n: nat): V
    requires i <= n <= |log|
  {
    if n == i then initial
    else
      var before := FoldFrom(h, initial, log, i, n - 1);
      match h(before, log[n - 1].msgs)
      case Ok(next) => next
      case Failed(_) => before
  }

  ghost predicate Handles<M, V>(h: (V, seq<M>) -> Result<V>, log: seq<Call<M, V>>)
  {
    forall i :: 0 <= i < |log| ==> log[i].result == h(log[i].given, log[i].msgs)
  }

  lemma {:induction false} StateIsFold<M, V>(sup: Supervisor, initial: V, log: seq<Call<M, V>>, h: (V, seq<M>) -> Result<V>, n: nat)
    requires Given(sup, initial, log) && Handles(h, log) && n <= |log|
    ensures StateAfter(sup, initial, log, n) == FoldFrom(h, initial, log, LastReset(sup, log, n), n)
  {
    if n > 0 {
      StateIsFold(sup, initial, log, h, n - 1);
      assert log[n - 1].given == StateAfter(sup, initial, log, n - 1);
      assert log[n - 1].result == h(log[n - 1].given, log[n - 1].msgs);
    }
  }

  /** In every run whose calls answer as the handler h does, the actor's state, and the state
      given to each call, is the fold of h over the messages handed over since the last reset. */
  lemma HandlerRunIsFold<M, V>(s: Sys<M, V>, steps: seq<Step<M, V>>, h: (V, seq<M>) -> Result<V>)
    requires Init(s) && Handles(h, Run(s, steps).log)
    ensures var log, initial := Run(s, steps).log, s.core.initial;
            && Run(s, steps).core.payload == FoldFrom(h, initial, log, LastReset(s.sup, log, |log|), |log|)
            && forall i :: 0 <= i < |log| ==> log[i].given == FoldFrom(h, initial, log, LastReset(s.sup, log, i), i)
  {
    RunKeeps(s, steps);
    var log := Run(s, steps).log;
    StateIsFold(s.sup, s.core.initial, log, h, |log|);
    forall i | 0 <= i < |log| ensures log[i].given == FoldFrom(h, s.core.initial, log, LastReset(s.sup, log, i), i) {
      StateIsFold(s.sup, s.core.initial, log, h, i);
    }
  }

  /** No lost wakeup, in every interleaving; so a consumer that waits without a token has
      handled everything that was ever accepted, even after a stop decision. */
  lemma NothingLeftBehind<M, V>(s: Sys<M, V>, steps: seq<Step<M, V>>)
    requires Init(s)
    ensures NoLostWakeup(Run(s, steps))
    ensures var s' := Run(s, steps);
            s'.pc.Waiting? && !s'.box.token ==> Handled(s'.log, |s'.log|) == s'.accepted
  {
    RunKeeps(s, steps);
  }

  /** The consumer's next step, if nobody disturbs it. */
  function Onward<M, V>(s: Sys<M, V>): Step<M, V>
  {
    match s.pc
    case Waiting => TakeToken
    case Draining => ReadConfig
    case Chosen(_) => Dequeues
    case _ => CallHandler(Ok(s.core.payload))
  }

  function Ahead<M, V>(s: Sys<M, V>): nat { |InFlight(s)| + |s.box.queue| }

  function Rank<M>(pc: Pc<M>): nat
  {
    match pc
    case Draining => 2
    case Chosen(_) => 1
    case Waiting => 3
    case _ => 0
  }

  ghost predicate Nearer<M, V>(s: Sys<M, V>, s': Sys<M, V>)
  {
    && !s'.pc.Exited? && s'.accepted == s.accepted
    && (Ahead(s') < Ahead(s) || (Ahead(s') == Ahead(s) && Rank(s'.pc) < Rank(s.pc)))
  }

  lemma DequeuesNearer<M, V>(s: Sys<M, V>)
    requires s.pc.Chosen? && s.box.queue != []
    ensures Nearer(s, Next(s, Dequeues))
  {
    DequeuesSplit(s);
  }

  lemma CallNearer<M, V>(s: Sys<M, V>, r: Result<V>)
    requires s.pc.Holding? && s.pc.msgs != []
    ensures Nearer(s, Next(s, CallHandler(r)))
  {}

  lemma OnwardDecreases<M, V>(s: Sys<M, V>)
    requires Inv(s) && !s.pc.Exited? && Ahead(s) > 0
    ensures Nearer(s, Next(s, Onward(s)))
  {
    match s.pc
    case Waiting => WakesUp(s);
    case Draining =>
    case Chosen(_) => DequeuesNearer(s);
    case Holding(_, _) => CallNearer(s, Ok(s.core.payload));
  }

  /** From every state that a run can reach, unless the actor has exited, the consumer can get
      to the end of its work: everything accepted has been handled. */
  lemma {:induction false} CanFinish<M, V>(s: Sys<M, V>) returns (steps: seq<Step<M, V>>)
    requires Inv(s) && !s.pc.Exited?
    ensures var s' := Run(s, steps); s'.accepted == s.accepted && Handled(s'.log, |s'.log|) == s.accepted
    decreases Ahead(s), Rank(s.pc)
  {
    if Ahead(s) == 0 {
      steps := [];
    } else {
      OnwardDecreases(s);
      StepKeeps(s, Onward(s));
      var rest := CanFinish(Next(s, Onward(s)));
      steps := [Onward(s)] + rest;
      assert steps[1..] == rest;
    }
  }
}
