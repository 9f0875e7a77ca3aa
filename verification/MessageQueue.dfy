// The bounded queue between the main loop and the workers, and its condition variable.

module MessageQueue {
  import opened Bytes

  const MAX_QUEUE_LENGTH := 1000

  function Pushed<T>(q: seq<T>, maxSize: nat, e: T): (seq<T>, bool) {
    if |q| < maxSize then (q + [e], true) else (q, false)
  }

  /** The queue as its methods use it, each inside the mutex. */
  class MessageQueue<T> {
    const maxSize: nat
    var msgQueue: seq<T>

    constructor (maxSize: nat)
      ensures this.maxSize == maxSize && msgQueue == []
    {
      this.maxSize := maxSize;
      msgQueue := [];
    }

    method Push(e: T) returns (success: bool)
      modifies this
      ensures (msgQueue, success) == Pushed(old(msgQueue), maxSize, e)
    {
      success := |msgQueue| < maxSize;
      if success {
        msgQueue := msgQueue + [e];
      }
    }

    /** Also says whether a waiting thread is signalled. */
    method PushSignal(e: T) returns (success: bool, signal: bool)
      modifies this
      ensures (msgQueue, success) == Pushed(old(msgQueue), maxSize, e)
      ensures signal <==> success && old(msgQueue) == []
    {
      success := |msgQueue| < maxSize;
      signal := false;
      if success {
        msgQueue := msgQueue + [e];
        if |msgQueue| == 1 {
          signal := true;
        }
      }
    }

    /** Undefined for an empty queue. */
    method Pull() returns (e: T)
      requires msgQueue != []
      modifies this
      ensures old(msgQueue) == [e] + msgQueue
    {
      e := msgQueue[0];
      msgQueue := msgQueue[1..];
    }

    /** Waits as long as the queue is empty; `wakes` are the contents that the thread finds each time it has been woken
        and has the mutex again. It still waits, and there is no item, if all of them are empty. */
    method PullWait(wakes: seq<seq<T>>) returns (e: Option<T>, waits: nat)
      modifies this
      ensures waits <= |wakes| && forall k :: 0 <= k < waits ==> ([old(msgQueue)] + wakes)[k] == []
      ensures e.Some? ==> ([old(msgQueue)] + wakes)[waits] == [e.value] + msgQueue
      ensures e.None? ==> waits == |wakes| && ([old(msgQueue)] + wakes)[waits] == msgQueue == []
    {
      waits := 0;
      while msgQueue == [] && waits < |wakes|
        invariant waits <= |wakes| && msgQueue == ([old(msgQueue)] + wakes)[waits]
        invariant forall k :: 0 <= k < waits ==> ([old(msgQueue)] + wakes)[k] == []
      {
        msgQueue := wakes[waits];
        waits := waits + 1;
      }
      if msgQueue == [] {
        return None, waits;
      }
      e := Some(msgQueue[0]);
      msgQueue := msgQueue[1..];
    }
  }

  // ----- The waiting workers -----

  /** A thread that pulls is outside, waits for the condition, has been woken and must take the mutex again,
      or is about to look at the queue. */
  datatype Puller = Outside | Asking | Waiting | Woken

  /** `accepted` and `pulled` are all items so far, and `got` the items that each thread got. */
  datatype Pool<T> = Pool(
    queue: seq<T>, pullers: seq<Puller>, accepted: seq<T>, pulled: seq<T>, got: seq<seq<T>>)

  /** One turn of the mutex, or one thread being woken. `woken` is the thread that a signal wakes, if any waits. */
  datatype Turn<T> =
    | Push(e: T, woken: nat)
    | Enter(t: nat)        // pullWait is called
    | Look(t: nat)         // takes the mutex: pulls, or starts to wait and releases the mutex
    | Spurious(t: nat)     // wakes without a signal

  /** Only a waiting thread is woken, and a signal wakes one if there is one. */
  ghost predicate Valid<T>(p: Pool<T>, turn: Turn<T>) {
    match turn
    case Push(e, woken) =>
      (exists t :: 0 <= t < |p.pullers| && p.pullers[t].Waiting?) ==> woken < |p.pullers| && p.pullers[woken].Waiting?
    case Enter(t) => t < |p.pullers| && p.pullers[t].Outside?
    case Look(t) => t < |p.pullers| && (p.pullers[t].Asking? || p.pullers[t].Woken?)
    case Spurious(t) => t < |p.pullers| && p.pullers[t].Waiting?
  }

  function Next<T>(p: Pool<T>, maxSize: nat, turn: Turn<T>): Pool<T> {
    match turn
    case Push(e, woken) =>
      var (q, success) := Pushed(p.queue, maxSize, e);
      if !success then p
      else
        var signalled := |q| == 1 && woken < |p.pullers| && p.pullers[woken].Waiting?;
        var pullers := if signalled then p.pullers[woken := Woken] else p.pullers;
        p.(queue := q, pullers := pullers, accepted := p.accepted + [e])
    case Enter(t) => if t < |p.pullers| then p.(pullers := p.pullers[t := Asking]) else p
    case Look(t) =>
      if t >= |p.pullers| then p
      else if p.queue == [] then p.(pullers := p.pullers[t := Waiting])
      else
        p.(queue := p.queue[1..], pullers := p.pullers[t := Outside], pulled := p.pulled + [p.queue[0]],
           got := if t < |p.got| then p.got[t := p.got[t] + [p.queue[0]]] else p.got)
    case Spurious(t) => if t < |p.pullers| then p.(pullers := p.pullers[t := Woken]) else p
  }

  /** Work waits only while some worker is on its way to look at the queue, or busy outside and about to come back. */
  ghost predicate SomeoneAwake<T>(p: Pool<T>) {
    exists t :: 0 <= t < |p.pullers| && !p.pullers[t].Waiting?
  }

  /** All items of all threads. */
  ghost function Together<T>(got: seq<seq<T>>): multiset<T> {
    if got == [] then multiset{} else multiset(got[0]) + Together(got[1..])
  }

  lemma {:induction false} TogetherMore<T>(got: seq<seq<T>>, t: nat, e: T)
    requires t < |got|
    ensures Together(got[t := got[t] + [e]]) == Together(got) + multiset{e}
  {
    if t == 0 {
      assert got[t := got[t] + [e]][1..] == got[1..];
    } else {
      assert got[t := got[t] + [e]][1..] == got[1..][t - 1 := got[1..][t - 1] + [e]];
      TogetherMore(got[1..], t - 1, e);
    }
  }

  lemma {:induction false} NothingTogether<T>(got: seq<seq<T>>)
    requires forall t :: 0 <= t < |got| ==> got[t] == []
    ensures Together(got) == multiset{}
  {
    if got != [] {
      NothingTogether(got[1..]);
    }
  }

  ghost predicate Inv<T>(p: Pool<T>, maxSize: nat) {
    && p.accepted == p.pulled + p.queue && |p.queue| <= maxSize && |p.pullers| > 0 && |p.got| == |p.pullers|
    && multiset(p.pulled) == Together(p.got)
    && (p.queue != [] ==> SomeoneAwake(p))
  }

  lemma {:induction false} AwakeAt<T>(p: Pool<T>, t: nat)
    requires t < |p.pullers| && !p.pullers[t].Waiting?
    ensures SomeoneAwake(p)
  {
  }

  lemma {:induction false} NextInv<T>(p: Pool<T>, maxSize: nat, turn: Turn<T>)
    requires Inv(p, maxSize) && Valid(p, turn)
    ensures Inv(Next(p, maxSize, turn), maxSize)
  {
    var p' := Next(p, maxSize, turn);
    match turn
    case Push(e, woken) =>
      if p'.queue != [] && p' != p {
        if p.queue == [] {
          if exists t :: 0 <= t < |p.pullers| && p.pullers[t].Waiting? {
            AwakeAt(p', woken);
          } else {
            assert !p.pullers[0].Waiting?;
            AwakeAt(p', 0);
          }
        } else {
          var t :| 0 <= t < |p.pullers| && !p.pullers[t].Waiting?;
          AwakeAt(p', t);
        }
      }
    case Enter(t) => AwakeAt(p', t);
    case Look(t) =>
      if p.queue != [] {
        assert p.queue == [p.queue[0]] + p.queue[1..];
        TogetherMore(p.got, t, p.queue[0]);
        AwakeAt(p', t);
      }
    case Spurious(t) => AwakeAt(p', t);
  }

  function Initial<T>(workers: nat): Pool<T> {
    Pool([], seq(workers, _ => Outside), [], [], seq(workers, _ => []))
  }

  ghost predicate ValidRun<T>(p: Pool<T>, maxSize: nat, turns: seq<Turn<T>>)
    decreases |turns|
  {
    turns == [] || (Valid(p, turns[0]) && ValidRun(Next(p, maxSize, turns[0]), maxSize, turns[1..]))
  }

  function Run<T>(p: Pool<T>, maxSize: nat, turns: seq<Turn<T>>): Pool<T>
    decreases |turns|
  {
    if turns == [] then p else Run(Next(p, maxSize, turns[0]), maxSize, turns[1..])
  }

  lemma {:induction false} RunInv<T>(p: Pool<T>, maxSize: nat, turns: seq<Turn<T>>)
    requires Inv(p, maxSize) && ValidRun(p, maxSize, turns)
    ensures Inv(Run(p, maxSize, turns), maxSize)
    decreases |turns|
  {
    if turns != [] {
      NextInv(p, maxSize, turns[0]);
      RunInv(Next(p, maxSize, turns[0]), maxSize, turns[1..]);
    }
  }

  /** With at least one worker, in every run with any spurious wakeups: no work is left while all workers wait,
      although only the first item of an empty queue is signalled; items leave in the order in which they were
      accepted, none is lost, and the bound holds. */
  lemma {:induction false} NoStrandedWork<T>(workers: nat, turns: seq<Turn<T>>)
    requires workers > 0 && ValidRun(Initial(workers), MAX_QUEUE_LENGTH, turns)
    ensures var p := Run(Initial(workers), MAX_QUEUE_LENGTH, turns);
            && (p.queue != [] ==> SomeoneAwake(p))
            && p.accepted == p.pulled + p.queue && |p.queue| <= MAX_QUEUE_LENGTH
  {
    NothingTogether(Initial<T>(workers).got);
    RunInv(Initial(workers), MAX_QUEUE_LENGTH, turns);
  }

  // ----- Who gets what -----

  /** A thread that looks at a queue that is not empty leaves with its first item; one that finds it empty waits. */
  lemma {:induction false} LookTakes<T>(p: Pool<T>, maxSize: nat, t: nat, e: T, rest: seq<T>)
    requires Valid(p, Look(t)) && |p.got| == |p.pullers|
    ensures var p' := Next(p, maxSize, Look(t));
            && p'.accepted == p.accepted
            && (p.queue == [e] + rest ==>
                  && p'.queue == rest && p'.pulled == p.pulled + [e] && p'.got == p.got[t := p.got[t] + [e]]
                  && p'.pullers == p.pullers[t := Outside])
            && (p.queue == [] ==>
                  && p'.queue == [] && p'.pulled == p.pulled && p'.got == p.got
                  && p'.pullers == p.pullers[t := Waiting])
  {
    if p.queue == [e] + rest {
      assert p.queue[1..] == rest;
    }
  }

  /** Nothing else takes an item. */
  lemma {:induction false} OthersTakeNothing<T>(p: Pool<T>, maxSize: nat, turn: Turn<T>)
    requires !turn.Look?
    ensures var p' := Next(p, maxSize, turn); p'.pulled == p.pulled && p'.got == p.got && p.queue <= p'.queue
  {
  }

  /** The first item, if thread `t`, or any thread where none is named, now looks at a queue that is not empty. */
  function First<T>(p: Pool<T>, turn: Turn<T>, t: Option<nat>): seq<T> {
    if turn.Look? && (t == None || t == Some(turn.t)) && p.queue != [] then [p.queue[0]] else []
  }

  /** Those items of a whole run. */
  function Firsts<T>(p: Pool<T>, maxSize: nat, turns: seq<Turn<T>>, t: Option<nat>): seq<T>
    decreases |turns|
  {
    if turns == [] then []
    else First(p, turns[0], t) + Firsts(Next(p, maxSize, turns[0]), maxSize, turns[1..], t)
  }

  lemma {:induction false} TakesFirst<T>(p: Pool<T>, maxSize: nat, turn: Turn<T>, t: nat)
    requires Valid(p, turn) && |p.got| == |p.pullers| && t < |p.got|
    ensures var p' := Next(p, maxSize, turn);
            && |p'.got| == |p'.pullers| == |p.got|
            && p'.got[t] == p.got[t] + First(p, turn, Some(t)) && p'.pulled == p.pulled + First(p, turn, None)
  {
  }

  /** In every run: what a thread got are the items that stood first whenever it looked, one for each such look, and
      what was pulled are those of all threads, in order. */
  lemma {:induction false} GotExactly<T>(p: Pool<T>, maxSize: nat, turns: seq<Turn<T>>, t: nat)
    requires |p.got| == |p.pullers| && ValidRun(p, maxSize, turns) && t < |p.got|
    ensures var r := Run(p, maxSize, turns);
            && |r.got| == |p.got| && r.got[t] == p.got[t] + Firsts(p, maxSize, turns, Some(t))
            && r.pulled == p.pulled + Firsts(p, maxSize, turns, None)
    decreases |turns|
  {
    hide Next, First, Valid;
    if turns != [] {
      TakesFirst(p, maxSize, turns[0], t);
      var p' := Next(p, maxSize, turns[0]);
      GotExactly(p', maxSize, turns[1..], t);
      assert p.got[t] + (First(p, turns[0], Some(t)) + Firsts(p', maxSize, turns[1..], Some(t))) ==
             p'.got[t] + Firsts(p', maxSize, turns[1..], Some(t));
      assert p.pulled + (First(p, turns[0], None) + Firsts(p', maxSize, turns[1..], None)) ==
             p'.pulled + Firsts(p', maxSize, turns[1..], None);
    }
  }

  /** In every run from the start: every item that was accepted was got by one thread once, or is still in the queue. */
  lemma {:induction false} EachItemOnce<T>(workers: nat, turns: seq<Turn<T>>)
    requires workers > 0 && ValidRun(Initial(workers), MAX_QUEUE_LENGTH, turns)
    ensures var p := Run(Initial(workers), MAX_QUEUE_LENGTH, turns);
            multiset(p.accepted) == Together(p.got) + multiset(p.queue)
  {
    NothingTogether(Initial<T>(workers).got);
    RunInv(Initial(workers), MAX_QUEUE_LENGTH, turns);
  }

  ghost predicate NoPush<T>(turns: seq<Turn<T>>) {
    forall k :: 0 <= k < |turns| ==> !turns[k].Push?
  }

  function Looks<T>(turns: seq<Turn<T>>): nat {
    if turns == [] then 0 else (if turns[0].Look? then 1 else 0) + Looks(turns[1..])
  }

  lemma {:induction false} DrainBy<T>(p: Pool<T>, maxSize: nat, t: nat) returns (turns: seq<Turn<T>>)
    requires t < |p.pullers| && !p.pullers[t].Waiting?
    ensures ValidRun(p, maxSize, turns) && NoPush(turns) && Looks(turns) == |p.queue| && |turns| <= 2 * |p.queue|
    ensures Run(p, maxSize, turns).queue == []
    decreases |p.queue|, p.pullers[t].Outside?
  {
    turns := [];
    if p.queue != [] {
      if p.pullers[t].Outside? {
        var p1 := Next(p, maxSize, Enter(t));
        var p2 := Next(p1, maxSize, Look(t));
        var rest := DrainBy(p2, maxSize, t);
        turns := [Enter(t), Look(t)] + rest;
        assert turns[1..] == [Look(t)] + rest && turns[1..][1..] == rest;
        assert ValidRun(p1, maxSize, turns[1..]);
      } else {
        var p1 := Next(p, maxSize, Look(t));
        var rest := DrainBy(p1, maxSize, t);
        turns := [Look(t)] + rest;
        assert turns[1..] == rest;
      }
    }
  }

  /** From every state of every run the workers can empty the queue without a push, with as many looks as there are
      items and at most one call of pullWait before each. */
  lemma {:induction false} QueueCanBeEmptied<T>(workers: nat, turns: seq<Turn<T>>) returns (more: seq<Turn<T>>)
    requires workers > 0 && ValidRun(Initial(workers), MAX_QUEUE_LENGTH, turns)
    ensures var p := Run(Initial(workers), MAX_QUEUE_LENGTH, turns);
            && ValidRun(p, MAX_QUEUE_LENGTH, more) && NoPush(more)
            && Looks(more) == |p.queue| && |more| <= 2 * |p.queue|
            && Run(p, MAX_QUEUE_LENGTH, more).queue == []
  {
    NothingTogether(Initial<T>(workers).got);
    RunInv(Initial(workers), MAX_QUEUE_LENGTH, turns);
    var p := Run(Initial(workers), MAX_QUEUE_LENGTH, turns);
    more := [];
    if p.queue != [] {
      var t :| 0 <= t < |p.pullers| && !p.pullers[t].Waiting?;
      more := DrainBy(p, MAX_QUEUE_LENGTH, t);
    }
  }

  /** The threads that have called pullWait and are about to look. */
  function Ready(pullers: seq<Puller>): nat {
    if pullers == [] then 0
    else (if pullers[0].Asking? || pullers[0].Woken? then 1 else 0) + Ready(pullers[1..])
  }

  lemma {:induction false} OneLessReady(pullers: seq<Puller>, t: nat)
    requires t < |pullers| && (pullers[t].Asking? || pullers[t].Woken?)
    ensures Ready(pullers[t := Outside]) == Ready(pullers) - 1
  {
    var after := pullers[t := Outside];
    if t == 0 {
      assert after[1..] == pullers[1..];
    } else {
      OneLessReady(pullers[1..], t - 1);
      assert after[1..] == pullers[1..][t - 1 := Outside];
    }
  }

  lemma {:induction false} SomeReady(pullers: seq<Puller>) returns (t: nat)
    requires Ready(pullers) > 0
    ensures t < |pullers| && (pullers[t].Asking? || pullers[t].Woken?)
  {
    if pullers[0].Asking? || pullers[0].Woken? {
      t := 0;
    } else {
      t := SomeReady(pullers[1..]);
      t := t + 1;
    }
  }

  /** A turn takes one item at most, and where every turn takes one, every turn is of another thread that was ready. */
  lemma {:induction false} OneItemATurn<T>(p: Pool<T>, maxSize: nat, more: seq<Turn<T>>)
    requires ValidRun(p, maxSize, more) && NoPush(more)
    ensures |p.queue| <= |Run(p, maxSize, more).queue| + |more|
    ensures |p.queue| == |Run(p, maxSize, more).queue| + |more| ==> |more| <= Ready(p.pullers)
    decreases |more|
  {
    if more != [] {
      var turn := more[0];
      OneItemATurn(Next(p, maxSize, turn), maxSize, more[1..]);
      if turn.Look? && p.queue != [] {
        OneLessReady(p.pullers, turn.t);
      }
    }
  }

  lemma {:induction false} DrainAtOnce<T>(p: Pool<T>, maxSize: nat) returns (more: seq<Turn<T>>)
    requires |p.queue| <= Ready(p.pullers)
    ensures ValidRun(p, maxSize, more) && NoPush(more) && |more| == |p.queue| && Run(p, maxSize, more).queue == []
    decreases |p.queue|
  {
    more := [];
    if p.queue != [] {
      var t := SomeReady(p.pullers);
      OneLessReady(p.pullers, t);
      var rest := DrainAtOnce(Next(p, maxSize, Look(t)), maxSize);
      more := [Look(t)] + rest;
      assert more[1..] == rest;
    }
  }

  /** As many turns as there are items can empty the queue exactly when as many threads are already about to look: a
      thread that is elsewhere must call pullWait first. */
  lemma {:induction false} OneTurnEachExactly<T(!new)>(p: Pool<T>, maxSize: nat)
    ensures (exists more: seq<Turn<T>> ::
               ValidRun(p, maxSize, more) && NoPush(more) && |more| == |p.queue| &&
               Run(p, maxSize, more).queue == []) <==>
            |p.queue| <= Ready(p.pullers)
  {
    if more: seq<Turn<T>> :|
      ValidRun(p, maxSize, more) && NoPush(more) && |more| == |p.queue| && Run(p, maxSize, more).queue == [] {
      OneItemATurn(p, maxSize, more);
    }
    if |p.queue| <= Ready(p.pullers) {
      var more := DrainAtOnce(p, maxSize);
    }
  }

  /** A run that leaves one item and nobody about to look: no single turn empties the queue. */
  lemma {:induction false} NobodyReady<T>(a: T)
    ensures ValidRun(Initial<T>(1), MAX_QUEUE_LENGTH, [Push(a, 0)])
    ensures var p := Run(Initial<T>(1), MAX_QUEUE_LENGTH, [Push(a, 0)]);
            p.queue == [a] && Ready(p.pullers) == 0
  {
    var p := Initial<T>(1);
    var p' := Next(p, MAX_QUEUE_LENGTH, Push(a, 0));
    assert [Push(a, 0)][1..] == [] && p'.queue == [a] && p'.pullers == [Outside];
  }

  // ----- What the bound refuses -----

  /** Everything that was pushed, accepted or not. */
  function Offered<T>(turns: seq<Turn<T>>): seq<T> {
    if turns == [] then [] else (if turns[0].Push? then [turns[0].e] else []) + Offered(turns[1..])
  }

  /** Every push meets a queue with room. */
  ghost predicate NeverFull<T>(p: Pool<T>, maxSize: nat, turns: seq<Turn<T>>)
    decreases |turns|
  {
    turns == [] || ((turns[0].Push? ==> |p.queue| < maxSize) &&
        NeverFull(Next(p, maxSize, turns[0]), maxSize, turns[1..]))
  }

  lemma {:induction false} AcceptedAtMost<T>(p: Pool<T>, maxSize: nat, turns: seq<Turn<T>>)
    ensures p.accepted <= Run(p, maxSize, turns).accepted
    ensures |Run(p, maxSize, turns).accepted| <= |p.accepted| + |Offered(turns)|
    decreases |turns|
  {
    if turns != [] {
      AcceptedAtMost(Next(p, maxSize, turns[0]), maxSize, turns[1..]);
    }
  }

  /** In every run, all items are accepted, in their order, exactly when no push meets a full queue. */
  lemma {:induction false} NothingRefusedExactly<T>(p: Pool<T>, maxSize: nat, turns: seq<Turn<T>>)
    ensures Run(p, maxSize, turns).accepted == p.accepted + Offered(turns) <==> NeverFull(p, maxSize, turns)
    decreases |turns|
  {
    if turns != [] {
      var p' := Next(p, maxSize, turns[0]);
      var rest := Offered(turns[1..]);
      NothingRefusedExactly(p', maxSize, turns[1..]);
      AcceptedAtMost(p', maxSize, turns[1..]);
      if turns[0].Push? && |p.queue| < maxSize {
        assert p.accepted + ([turns[0].e] + rest) == p'.accepted + rest;
      }
    }
  }

  /** As many items as the queue has room for are never refused, whatever the workers do. */
  lemma {:induction false} RoomIsEnough<T>(p: Pool<T>, maxSize: nat, turns: seq<Turn<T>>)
    requires |p.queue| + |Offered(turns)| <= maxSize
    ensures NeverFull(p, maxSize, turns)
    decreases |turns|
  {
    if turns != [] {
      RoomIsEnough(Next(p, maxSize, turns[0]), maxSize, turns[1..]);
    }
  }

  /** One signal for a burst: the worker that is woken comes back, but others may go on waiting beside a queue that is
      not empty. */
  lemma {:induction false} SomeMayWait<T>(a: T, b: T)
    ensures var p := Pool([], [Waiting, Waiting], [], [], [[], []]);
            var turns := [Push(a, 0), Push(b, 1)];
            ValidRun(p, MAX_QUEUE_LENGTH, turns) && Run(p, MAX_QUEUE_LENGTH, turns).queue == [a, b]
            && Run(p, MAX_QUEUE_LENGTH, turns).pullers == [Woken, Waiting]
  {
    var p: Pool<T> := Pool([], [Waiting, Waiting], [], [], [[], []]);
    var p1 := Next(p, MAX_QUEUE_LENGTH, Push(a, 0));
    assert p.pullers[0].Waiting? && p1 == Pool([a], [Woken, Waiting], [a], [], [[], []]);
    var p2 := Next(p1, MAX_QUEUE_LENGTH, Push(b, 1));
    assert p2 == Pool([a, b], [Woken, Waiting], [a, b], [], [[], []]);
    var turns := [Push(a, 0), Push(b, 1)];
    assert turns[1..] == [Push(b, 1)] && turns[1..][1..] == [];
    assert Run(p2, MAX_QUEUE_LENGTH, []) == p2 && ValidRun(p2, MAX_QUEUE_LENGTH, []);
    assert Run(p1, MAX_QUEUE_LENGTH, turns[1..]) == p2 && ValidRun(p1, MAX_QUEUE_LENGTH, turns[1..]);
  }
}
