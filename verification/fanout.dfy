/**
 * The chain handler's fan-out and join: N goroutines that call the worker, a shared slice of
 * results and one unbuffered channel, as a step machine for any N and any interleaving.
 */
module Fanout {
  import opened Wrappers

  const OK_STATUS := 200
  const BAD_GATEWAY := 502

  datatype Slot = Slot(status: int, err: string)

  /** What the HTTP client gives a goroutine. */
  datatype Reply = Failed(err: string) | Responded(code: int)

  function Recorded(r: Reply): Slot {
    match r
    case Failed(err) => Slot(0, err)
    case Responded(code) => Slot(code, "")
  }

  /** Where a goroutine is; a sender is blocked on the channel until the handler receives. */
  datatype Worker = Unborn | Calling | Answered(r: Reply) | Sending | Gone

  /** Where the handler is: in its spawning, receiving or checking loop, or done. */
  datatype Handler = Spawning(next: nat) | Joining(got: nat) | Scanning(at: nat) | Replied(status: int)

  /** `replies` and `writers` are history: what each call came to, and who wrote each slot, in order. */
  datatype State = State(handler: Handler, workers: seq<Worker>, results: seq<Slot>,
                         replies: seq<Option<Reply>>, writers: seq<seq<nat>>)

  datatype Action =
    | Spawn
    | Answer(i: nat, r: Reply)
    | Write(i: nat)
    | StartJoin
    | Receive(i: nat)
    | StartScan
    | Scan

  ghost predicate Init(s: State, calls: nat) {
    && s.handler == Spawning(0)
    && |s.workers| == |s.results| == |s.replies| == |s.writers| == calls
    && forall i :: 0 <= i < calls ==>
         s.workers[i] == Unborn && s.results[i] == Slot(0, "") && s.replies[i] == None && s.writers[i] == []
  }

  predicate Shaped(s: State) {
    |s.workers| == |s.results| == |s.replies| == |s.writers|
  }

  predicate Enabled(s: State, a: Action) {
    && Shaped(s)
    && match a
       case Spawn => s.handler.Spawning? && s.handler.next < |s.workers|
       case Answer(i, _) => i < |s.workers| && s.workers[i].Calling?
       case Write(i) => i < |s.workers| && s.workers[i].Answered?
       case StartJoin => s.handler.Spawning? && s.handler.next >= |s.workers|
       case Receive(i) =>
         s.handler.Joining? && s.handler.got < |s.workers| && i < |s.workers| && s.workers[i].Sending?
       case StartScan => s.handler.Joining? && s.handler.got >= |s.workers|
       case Scan => s.handler.Scanning?
  }

  function Apply(s: State, a: Action): State
    requires Enabled(s, a)
  {
    match a
    case Spawn =>
      s.(handler := Spawning(s.handler.next + 1), workers := s.workers[s.handler.next := Calling])
    case Answer(i, r) => s.(workers := s.workers[i := Answered(r)], replies := s.replies[i := Some(r)])
    case Write(i) =>
      s.(workers := s.workers[i := Sending], results := s.results[i := Recorded(s.workers[i].r)],
         writers := s.writers[i := s.writers[i] + [i]])
    case StartJoin => s.(handler := Joining(0))
    case Receive(i) => s.(handler := Joining(s.handler.got + 1), workers := s.workers[i := Gone])
    case StartScan => s.(handler := Scanning(0))
    case Scan => s.(handler := AfterScan(s.results, s.handler.at))
  }

  function AfterScan(results: seq<Slot>, at: nat): Handler {
    if at >= |results| then Replied(OK_STATUS)
    else if results[at].status != OK_STATUS then Replied(BAD_GATEWAY)
    else Scanning(at + 1)
  }

  // ----- the invariant -----

  function GoneCount(workers: seq<Worker>): nat {
    if workers == [] then 0 else (if workers[0].Gone? then 1 else 0) + GoneCount(workers[1..])
  }

  predicate AllOk(results: seq<Slot>, n: nat)
    requires n <= |results|
  {
    forall i :: 0 <= i < n ==> results[i].status == OK_STATUS
  }

  predicate AllGone(workers: seq<Worker>) {
    forall i :: 0 <= i < |workers| ==> workers[i].Gone?
  }

  /** A slot is blank until its own goroutine has written it, once, with what its call came to. */
  predicate WorkerInv(s: State, i: nat)
    requires Shaped(s) && i < |s.workers|
  {
    match s.workers[i]
    case Unborn => Untouched(s, i) && s.replies[i] == None
    case Calling => Untouched(s, i) && s.replies[i] == None
    case Answered(r) => Untouched(s, i) && s.replies[i] == Some(r)
    case Sending => WroteOnce(s, i)
    case Gone => WroteOnce(s, i)
  }

  predicate Untouched(s: State, i: nat)
    requires Shaped(s) && i < |s.workers|
  {
    s.writers[i] == [] && s.results[i] == Slot(0, "")
  }

  predicate WroteOnce(s: State, i: nat)
    requires Shaped(s) && i < |s.workers|
  {
    s.writers[i] == [i] && s.replies[i].Some? && s.results[i] == Recorded(s.replies[i].value)
  }

  predicate HandlerInv(s: State)
    requires Shaped(s)
  {
    var n := |s.workers|;
    match s.handler
    case Spawning(next) =>
      next <= n && forall i :: 0 <= i < n ==> !s.workers[i].Gone? && (s.workers[i].Unborn? <==> i >= next)
    case Joining(got) =>
      got == GoneCount(s.workers) && forall i :: 0 <= i < n ==> !s.workers[i].Unborn?
    case Scanning(at) => at <= n && AllGone(s.workers) && AllOk(s.results, at)
    case Replied(status) =>
      AllGone(s.workers) && status == if AllOk(s.results, n) then OK_STATUS else BAD_GATEWAY
  }

  predicate Inv(s: State) {
    && Shaped(s)
    && HandlerInv(s)
    && forall i :: 0 <= i < |s.workers| ==> WorkerInv(s, i)
  }

  lemma {:induction false} GoneCountSpec(workers: seq<Worker>)
    ensures GoneCount(workers) <= |workers|
    ensures GoneCount(workers) == |workers| <==> AllGone(workers)
    ensures (forall i :: 0 <= i < |workers| ==> !workers[i].Gone?) ==> GoneCount(workers) == 0
  {
    if workers != [] {
      GoneCountSpec(workers[1..]);
      assert AllGone(workers) ==> AllGone(workers[1..]);
      assert workers == [workers[0]] + workers[1..];
    }
  }

  lemma {:induction false} GoneCountUpdate(workers: seq<Worker>, i: nat, w: Worker)
    requires i < |workers| && !workers[i].Gone?
    ensures GoneCount(workers[i := w]) == GoneCount(workers) + if w.Gone? then 1 else 0
  {
    if i > 0 {
      GoneCountUpdate(workers[1..], i - 1, w);
      assert workers[i := w][1..] == workers[1..][i - 1 := w];
    } else {
      assert workers[0 := w][1..] == workers[1..];
    }
  }

  lemma StepKeepsWorkerInv(s: State, a: Action, i: nat)
    requires Inv(s) && Enabled(s, a) && i < |s.workers|
    ensures WorkerInv(Apply(s, a), i)
  {
    assert WorkerInv(s, i);
  }

  lemma StepKeepsHandlerInv(s: State, a: Action)
    requires Inv(s) && Enabled(s, a)
    ensures HandlerInv(Apply(s, a))
  {
    match a
    case Spawn =>
    case Answer(i, r) => GoneCountUpdate(s.workers, i, Answered(r));
    case Write(i) => GoneCountUpdate(s.workers, i, Sending);
    case StartJoin => GoneCountSpec(s.workers);
    case Receive(i) => GoneCountUpdate(s.workers, i, Gone);
    case StartScan => GoneCountSpec(s.workers);
    case Scan =>
  }

  /** Every step keeps the invariant. */
  lemma StepKeepsInv(s: State, a: Action)
    requires Inv(s) && Enabled(s, a)
    ensures Inv(Apply(s, a)) && |Apply(s, a).workers| == |s.workers|
  {
    var t := Apply(s, a);
    StepKeepsHandlerInv(s, a);
    forall i | 0 <= i < |t.workers|
      ensures WorkerInv(t, i)
    {
      StepKeepsWorkerInv(s, a, i);
    }
  }

  // ----- runs -----

  predicate IsRun(s: State, acts: seq<Action>)
    decreases |acts|
  {
    acts == [] || (Enabled(s, acts[0]) && IsRun(Apply(s, acts[0]), acts[1..]))
  }

  function EndOf(s: State, acts: seq<Action>): State
    requires IsRun(s, acts)
    decreases |acts|
  {
    if acts == [] then s else EndOf(Apply(s, acts[0]), acts[1..])
  }

  lemma {:induction false} RunKeepsInv(s: State, acts: seq<Action>)
    requires Inv(s) && IsRun(s, acts)
    ensures Inv(EndOf(s, acts)) && |EndOf(s, acts).workers| == |s.workers|
    decreases |acts|
  {
    if acts != [] {
      StepKeepsInv(s, acts[0]);
      RunKeepsInv(Apply(s, acts[0]), acts[1..]);
    }
  }

  /** The handler has received from every goroutine. */
  predicate JoinOver(s: State) {
    match s.handler
    case Spawning(_) => false
    case Joining(got) => got >= |s.workers|
    case Scanning(_) => true
    case Replied(_) => true
  }

  /**
   * The join is complete. Whenever the receive loop has ended, in any interleaving, every
   * goroutine is past the channel (none is blocked on it), and each slot was written exactly
   * once, by its own goroutine, and holds what that goroutine's call came to.
   */
  lemma JoinIsComplete(s: State, acts: seq<Action>, calls: nat)
    requires Init(s, calls) && IsRun(s, acts) && JoinOver(EndOf(s, acts))
    ensures var e := EndOf(s, acts);
      && |e.workers| == |e.results| == |e.replies| == |e.writers| == calls
      && forall i :: 0 <= i < calls ==>
           && e.workers[i] == Gone && e.writers[i] == [i]
           && e.replies[i].Some? && e.results[i] == Recorded(e.replies[i].value)
    ensures var e := EndOf(s, acts);
      forall i :: 0 <= i < calls ==>
        match e.replies[i].value
        case Failed(err) => e.results[i].status == 0 && e.results[i].err == err
        case Responded(code) => e.results[i].status == code && e.results[i].err == ""
  {
    RunKeepsInv(s, acts);
    var e := EndOf(s, acts);
    GoneCountSpec(e.workers);
    assert AllGone(e.workers);
    forall i | 0 <= i < calls
      ensures e.workers[i] == Gone && WroteOnce(e, i)
    {
      assert WorkerInv(e, i);
    }
  }

  /** After the join no goroutine can touch the slice the handler reads: only the handler can step. */
  lemma NoWriteAfterJoin(s: State, acts: seq<Action>, calls: nat, a: Action)
    requires Init(s, calls) && IsRun(s, acts) && JoinOver(EndOf(s, acts)) && Enabled(EndOf(s, acts), a)
    ensures a.StartScan? || a.Scan?
    ensures Apply(EndOf(s, acts), a).results == EndOf(s, acts).results
  {
    JoinIsComplete(s, acts, calls);
  }

  /** The answer is 200 if every call was answered with 200, and 502 otherwise: the order plays no part. */
  lemma StatusIsTheVerdict(s: State, acts: seq<Action>, calls: nat)
    requires Init(s, calls) && IsRun(s, acts) && EndOf(s, acts).handler.Replied?
    ensures var e := EndOf(s, acts);
      && (e.handler.status == 200 <==> forall i :: 0 <= i < |e.replies| ==> e.replies[i] == Some(Responded(200)))
      && (e.handler.status != 200 ==> e.handler.status == 502)
  {
    RunKeepsInv(s, acts);
    JoinIsComplete(s, acts, calls);
    var e := EndOf(s, acts);
    forall i | 0 <= i < |e.replies|
      ensures e.results[i].status == OK_STATUS <==> e.replies[i] == Some(Responded(OK_STATUS))
    {
      assert e.results[i] == Recorded(e.replies[i].value);
    }
  }

  /** Two finished runs whose calls came to the same thing answer the same, whatever the interleavings were. */
  lemma InterleavingDoesNotMatter(s: State, one: seq<Action>, two: seq<Action>, calls: nat)
    requires Init(s, calls) && IsRun(s, one) && IsRun(s, two)
    requires EndOf(s, one).handler.Replied? && EndOf(s, two).handler.Replied?
    requires EndOf(s, one).replies == EndOf(s, two).replies
    ensures EndOf(s, one) == EndOf(s, two)
  {
    JoinIsComplete(s, one, calls);
    JoinIsComplete(s, two, calls);
    StatusIsTheVerdict(s, one, calls);
    StatusIsTheVerdict(s, two, calls);
    var d, e := EndOf(s, one), EndOf(s, two);
    assert d.workers == e.workers && d.results == e.results && d.writers == e.writers;
  }

  // ----- progress -----

  function WorkerLeft(w: Worker): nat {
    match w
    case Unborn => 2
    case Calling => 2
    case Answered(_) => 1
    case Sending => 0
    case Gone => 0
  }

  function WorkersLeft(workers: seq<Worker>): nat {
    if workers == [] then 0 else WorkerLeft(workers[0]) + WorkersLeft(workers[1..])
  }

  function HandlerLeft(h: Handler, n: nat): int {
    match h
    case Spawning(next) => n - next + 2 * n + 3
    case Joining(got) => n - got + n + 2
    case Scanning(at) => n - at + 1
    case Replied(_) => 0
  }

  /** How many steps are left at most. */
  function Left(s: State): int {
    WorkersLeft(s.workers) + HandlerLeft(s.handler, |s.workers|)
  }

  lemma {:induction false} WorkersLeftUpdate(workers: seq<Worker>, i: nat, w: Worker)
    requires i < |workers|
    ensures WorkersLeft(workers[i := w]) == WorkersLeft(workers) - WorkerLeft(workers[i]) + WorkerLeft(w)
  {
    if i > 0 {
      WorkersLeftUpdate(workers[1..], i - 1, w);
      assert workers[i := w][1..] == workers[1..][i - 1 := w];
    } else {
      assert workers[0 := w][1..] == workers[1..];
    }
  }

  lemma {:induction false} UnbornLeft(workers: seq<Worker>)
    requires forall i :: 0 <= i < |workers| ==> workers[i].Unborn?
    ensures WorkersLeft(workers) == 2 * |workers|
  {
    if workers != [] {
      UnbornLeft(workers[1..]);
    }
  }

  lemma StepSpends(s: State, a: Action)
    requires Inv(s) && Enabled(s, a)
    ensures 0 <= Left(Apply(s, a)) < Left(s)
  {
    StepKeepsInv(s, a);
    GoneCountSpec(Apply(s, a).workers);
    match a
    case Spawn => WorkersLeftUpdate(s.workers, s.handler.next, Calling);
    case Answer(i, r) => WorkersLeftUpdate(s.workers, i, Answered(r));
    case Write(i) => WorkersLeftUpdate(s.workers, i, Sending);
    case StartJoin =>
    case Receive(i) => WorkersLeftUpdate(s.workers, i, Gone);
    case StartScan =>
    case Scan =>
  }

  /** Until the handler has answered, some step can be taken. */
  lemma NeverStuck(s: State) returns (a: Action)
    requires Inv(s) && !s.handler.Replied?
    ensures Enabled(s, a)
  {
    match s.handler
    case Spawning(next) => a := if next < |s.workers| then Spawn else StartJoin;
    case Joining(got) =>
      GoneCountSpec(s.workers);
      if got >= |s.workers| {
        a := StartScan;
      } else {
        var i :| 0 <= i < |s.workers| && !s.workers[i].Gone?;
        a := if s.workers[i].Calling? then Answer(i, Failed(""))
             else if s.workers[i].Answered? then Write(i)
             else Receive(i);
      }
    case Scanning(_) => a := Scan;
  }

  lemma {:induction false} RunSpends(s: State, acts: seq<Action>)
    requires Inv(s) && IsRun(s, acts) && Left(s) >= 0
    ensures |acts| + Left(EndOf(s, acts)) <= Left(s) && Left(EndOf(s, acts)) >= 0
    decreases |acts|
  {
    if acts != [] {
      StepSpends(s, acts[0]);
      StepKeepsInv(s, acts[0]);
      RunSpends(Apply(s, acts[0]), acts[1..]);
    }
  }

  /**
   * Every chain request is answered: no run takes more than 5N + 3 steps, and a run that has not
   * answered yet can always be continued, so one that cannot be continued has answered.
   */
  lemma EveryChainIsAnswered(s: State, acts: seq<Action>, calls: nat)
    requires Init(s, calls) && IsRun(s, acts)
    ensures |acts| <= 5 * calls + 3
    ensures EndOf(s, acts).handler.Replied? || exists a :: Enabled(EndOf(s, acts), a)
  {
    UnbornLeft(s.workers);
    RunSpends(s, acts);
    RunKeepsInv(s, acts);
    if !EndOf(s, acts).handler.Replied? {
      var a := NeverStuck(EndOf(s, acts));
    }
  }

  /** Once answered, nothing moves: the request leaves no goroutine behind. */
  lemma AnsweredMeansOver(s: State, acts: seq<Action>, calls: nat)
    requires Init(s, calls) && IsRun(s, acts)
    ensures EndOf(s, acts).handler.Replied? <==> forall a :: !Enabled(EndOf(s, acts), a)
  {
    if EndOf(s, acts).handler.Replied? {
      JoinIsComplete(s, acts, calls);
    } else {
      EveryChainIsAnswered(s, acts, calls);
    }
  }

  // ----- the handler's own data -----

  /** One request being handled: the shared slice is a real array, written in place. */
  class Chain {
    const results: array<Slot>
    var handler: Handler
    var workers: seq<Worker>
    ghost var replies: seq<Option<Reply>>
    ghost var writers: seq<seq<nat>>

    ghost function View(): State
      reads this, results
    {
      State(handler, workers, results[..], replies, writers)
    }

    constructor (calls: nat)
      ensures Init(View(), calls) && fresh(results)
    {
      results := new Slot[calls](_ => Slot(0, ""));
      handler := Spawning(0);
      workers := seq(calls, _ => Unborn);
      replies := seq(calls, _ => None);
      writers := seq(calls, _ => []);
    }

    /** One turn of the spawning loop. */
    method SpawnNext()
      requires Enabled(View(), Spawn)
      modifies this`handler, this`workers
      ensures View() == Apply(old(View()), Spawn)
    {
      workers, handler := workers[handler.next := Calling], Spawning(handler.next + 1);
    }

    method BeginJoin()
      requires Enabled(View(), StartJoin)
      modifies this`handler
      ensures View() == Apply(old(View()), StartJoin)
    {
      handler := Joining(0);
    }

    /** A goroutine's call comes back. */
    method CallReturns(i: nat, r: Reply)
      requires Enabled(View(), Answer(i, r))
      modifies this`workers, this`replies
      ensures View() == Apply(old(View()), Answer(i, r))
    {
      workers := workers[i := Answered(r)];
      replies := replies[i := Some(r)];
    }

    /** A goroutine writes its slot and goes on to the channel. */
    method WriteSlot(i: nat)
      requires Enabled(View(), Write(i))
      modifies this`workers, this`writers, results
      ensures View() == Apply(old(View()), Write(i))
    {
      results[i] := Recorded(workers[i].r);
      workers := workers[i := Sending];
      writers := writers[i := writers[i] + [i]];
    }

    /** The handler receives from a blocked goroutine, which ends. */
    method ReceiveFrom(i: nat)
      requires Enabled(View(), Receive(i))
      modifies this`workers, this`handler
      ensures View() == Apply(old(View()), Receive(i))
    {
      workers := workers[i := Gone];
      handler := Joining(handler.got + 1);
    }

    /** The checking loop, which stops at the first call that did not come to 200. */
    method Check() returns (status: int)
      requires Inv(View()) && Enabled(View(), StartScan)
      modifies this`handler
      ensures Inv(View()) && handler == Replied(status)
      ensures status == 200 <==> forall i :: 0 <= i < results.Length ==> replies[i] == Some(Responded(200))
      ensures status == 200 || status == 502
    {
      StepKeepsInv(View(), StartScan);
      ghost var s := Apply(View(), StartScan);
      forall i | 0 <= i < results.Length
        ensures results[i].status == OK_STATUS <==> replies[i] == Some(Responded(OK_STATUS))
      {
        assert s.workers[i].Gone? && WorkerInv(s, i);
      }
      status := OK_STATUS;
      var i := 0;
      while i < results.Length
        invariant 0 <= i <= results.Length
        invariant forall j :: 0 <= j < i ==> results[j].status == OK_STATUS
      {
        if results[i].status != OK_STATUS {
          status := BAD_GATEWAY;
          break;
        }
        i := i + 1;
      }
      handler := Replied(status);
      assert forall j :: 0 <= j < |workers| ==> WorkerInv(s, j) && s.workers[j] == workers[j];
    }
  }

  // ----- how many calls -----

  const MAX_CHAIN_CALLS := 8

  /** A query parameter as an integer within bounds; `parsed` is None when it is absent or not an integer. */
  function ClampQuery(parsed: Option<int>, isCalls: bool, min: int, max: int): int {
    if parsed.None? || parsed.value < min then
      if isCalls then min else 0
    else if parsed.value > max then max
    else parsed.value
  }

  /**
   * The bounds hold for whatever a client sends exactly if they are in order and, for any
   * parameter but "calls", zero lies between them: zero is what a bad value becomes there.
   */
  lemma ClampHoldsBoundsIff(isCalls: bool, min: int, max: int)
    ensures (forall p :: min <= ClampQuery(p, isCalls, min, max) <= max) <==>
            min <= max && (isCalls || min <= 0 <= max)
  {
    assert ClampQuery(None, isCalls, min, max) == if isCalls then min else 0;
  }

  /** What a parameter becomes: what is too large the maximum, what is missing or too small the minimum or 0. */
  lemma ClampExact(p: Option<int>, isCalls: bool, min: int, max: int)
    ensures p.Some? && min <= p.value && p.value > max ==> ClampQuery(p, isCalls, min, max) == max
    ensures p.Some? && min <= p.value <= max ==> ClampQuery(p, isCalls, min, max) == p.value
    ensures p.None? || p.value < min ==> ClampQuery(p, isCalls, min, max) == if isCalls then min else 0
  {
  }

  /** The number of calls of a chain: 1 if missing, unreadable or less, 8 if more than 8. */
  lemma CallsExact(p: Option<int>)
    ensures var n := ClampQuery(p, true, 1, MAX_CHAIN_CALLS);
      n == if p.None? || p.value < 1 then 1 else if p.value > 8 then 8 else p.value
  {
  }

  /** A good value is kept, and clamping again changes nothing. */
  lemma ClampIsIdempotent(p: Option<int>, isCalls: bool, min: int, max: int)
    requires min <= max && (isCalls || min <= 0 <= max)
    ensures (p.Some? && min <= p.value <= max) <==> p == Some(ClampQuery(p, isCalls, min, max))
    ensures var c := ClampQuery(p, isCalls, min, max); ClampQuery(Some(c), isCalls, min, max) == c
  {
  }

  /** A chain request runs between one and eight calls, so a 200 always vouches for at least one worker answer. */
  lemma OkVouchesForACall(param: Option<int>, s: State, acts: seq<Action>, calls: nat)
    requires calls == ClampQuery(param, true, 1, MAX_CHAIN_CALLS) && Init(s, calls)
    requires IsRun(s, acts) && EndOf(s, acts).handler == Replied(200)
    ensures 1 <= |EndOf(s, acts).replies| <= 8
    ensures EndOf(s, acts).replies[0] == Some(Responded(200))
    ensures |acts| <= 43
  {
    ClampHoldsBoundsIff(true, 1, MAX_CHAIN_CALLS);
    StatusIsTheVerdict(s, acts, calls);
    JoinIsComplete(s, acts, calls);
    EveryChainIsAnswered(s, acts, calls);
  }
}
