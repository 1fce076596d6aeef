/**
 How deep a worker response queue must be for a pipeline never to block on it.

 The engine issues RPCS_PER_BATCH calls per batch to every rank. A rank answers calls in order, after the
 stage before it, and only into a free chunk of its response queue. An answer is read once the output rank
 (the last) has answered the same call, and a batch is retired when every rank's answers to it are read.
 */
module QueueSizing {
  const RPCS_PER_BATCH: nat := 2

  class MessageQueue {
    const maxChunks: nat

    constructor (maxChunks: nat)
      ensures this.maxChunks == maxChunks
    {
      this.maxChunks := maxChunks;
    }
  }

  class WorkerProc {
    var responseQueue: MessageQueue

    constructor (upstream: MessageQueue)
      ensures responseQueue == upstream
    {
      responseQueue := upstream;
    }

    /** What the patch does after upstream has set the field to `upstream`. */
    method InitMessageQueues(upstream: MessageQueue, nnodesWithinDp: nat, maxConcurrentBatches: nat)
      modifies this
      ensures nnodesWithinDp > 1 ==> responseQueue == upstream
      ensures responseQueue.maxChunks >= upstream.maxChunks
      ensures nnodesWithinDp <= 1 ==> SafeDepth(maxConcurrentBatches, responseQueue.maxChunks)
      ensures responseQueue != upstream ==> fresh(responseQueue) && !SafeDepth(maxConcurrentBatches, upstream.maxChunks)
      ensures responseQueue != upstream ==>
              forall c: nat | c < responseQueue.maxChunks :: !SafeDepth(maxConcurrentBatches, c)
    {
      responseQueue := upstream;
      SafeDepthIff(maxConcurrentBatches, upstream.maxChunks);
      if nnodesWithinDp > 1 {
        return;
      }
      var maxChunks := maxConcurrentBatches * RPCS_PER_BATCH;
      SafeDepthIff(maxConcurrentBatches, maxChunks);
      forall c: nat | c < maxChunks ensures !SafeDepth(maxConcurrentBatches, c) {
        SafeDepthIff(maxConcurrentBatches, c);
      }
      if maxChunks > responseQueue.maxChunks {
        responseQueue := new MessageQueue(maxChunks);
      }
    }
  }

  /******* The pipeline *******/

  datatype Setup = Setup(maxBatches: nat, capacity: nat)

  datatype State = State(issued: nat, retired: nat, answered: seq<nat>, read: seq<nat>)

  datatype Event = Issue | Answer(rank: nat) | Read(rank: nat) | Retire

  predicate WellFormed(s: State) { |s.answered| == |s.read| > 0 }

  /** Calls that have reached a rank. */
  function Offered(s: State, rank: nat): nat
    requires WellFormed(s) && rank < |s.read|
  {
    if rank == 0 then s.issued else s.answered[rank - 1]
  }

  predicate Full(setup: Setup, s: State, rank: nat)
    requires WellFormed(s) && rank < |s.read|
  {
    s.answered[rank] >= s.read[rank] + setup.capacity
  }

  /** The rank has an answer to give and waits in acquire_write. */
  predicate Blocked(setup: Setup, s: State, rank: nat)
    requires WellFormed(s)
  {
    rank < |s.read| && s.answered[rank] < Offered(s, rank) && Full(setup, s, rank)
  }

  predicate Enabled(setup: Setup, s: State, e: Event)
    requires WellFormed(s)
  {
    match e
    case Issue => s.issued % RPCS_PER_BATCH == 0 ==> s.issued / RPCS_PER_BATCH < s.retired + setup.maxBatches
    case Answer(rank) => rank < |s.read| && s.answered[rank] < Offered(s, rank) && !Full(setup, s, rank)
    case Read(rank) => rank < |s.read| && s.read[rank] < s.answered[rank] && s.read[rank] < s.answered[|s.read| - 1]
    case Retire => forall rank | 0 <= rank < |s.read| :: s.read[rank] >= (s.retired + 1) * RPCS_PER_BATCH
  }

  function Next(setup: Setup, s: State, e: Event): (s': State)
    requires WellFormed(s) && Enabled(setup, s, e)
    ensures WellFormed(s') && |s'.read| == |s.read|
  {
    match e
    case Issue => s.(issued := s.issued + 1)
    case Answer(rank) => s.(answered := s.answered[rank := s.answered[rank] + 1])
    case Read(rank) => s.(read := s.read[rank := s.read[rank] + 1])
    case Retire => s.(retired := s.retired + 1)
  }

  function Start(ranks: nat): State
    requires ranks > 0
  {
    State(0, 0, seq(ranks, _ => 0), seq(ranks, _ => 0))
  }

  ghost predicate Possible(setup: Setup, s: State, events: seq<Event>)
    requires WellFormed(s)
    decreases |events|
  {
    events != [] ==> Enabled(setup, s, events[0]) && Possible(setup, Next(setup, s, events[0]), events[1..])
  }

  function After(setup: Setup, s: State, events: seq<Event>): (s': State)
    requires WellFormed(s) && Possible(setup, s, events)
    ensures WellFormed(s') && |s'.read| == |s.read|
    decreases |events|
  {
    if events == [] then s else After(setup, Next(setup, s, events[0]), events[1..])
  }

  /** A depth is safe when no run of a pipeline of any length reaches a blocked stage. */
  ghost predicate SafeDepth(maxBatches: nat, capacity: nat)
  {
    forall ranks: nat, events, rank: nat |
      0 < ranks && Possible(Setup(maxBatches, capacity), Start(ranks), events) ::
      !Blocked(Setup(maxBatches, capacity), After(Setup(maxBatches, capacity), Start(ranks), events), rank)
  }

  /******* Enough *******/

  ghost predicate Inv(setup: Setup, s: State)
  {
    && WellFormed(s)
    && s.issued <= (s.retired + setup.maxBatches) * RPCS_PER_BATCH
    && forall i | 0 <= i < |s.read| :: RankInv(s, i)
  }

  predicate RankInv(s: State, i: nat)
    requires WellFormed(s) && i < |s.read|
  {
    s.retired * RPCS_PER_BATCH <= s.read[i] <= s.answered[i] <= Offered(s, i) <= s.issued
  }

  lemma StepKeepsInv(setup: Setup, s: State, e: Event)
    requires Inv(setup, s) && Enabled(setup, s, e)
    ensures Inv(setup, Next(setup, s, e))
  {
    var s' := Next(setup, s, e);
    forall i | 0 <= i < |s'.read| ensures RankInv(s', i) {
      assert RankInv(s, i);
      if i > 0 { assert RankInv(s, i - 1); }
    }
  }

  /** The unread answers of every stage stay within the calls of the batches in flight, whatever the capacity. */
  lemma {:induction false} UnreadAnswersBounded(setup: Setup, s: State, events: seq<Event>)
    requires Inv(setup, s) && Possible(setup, s, events)
    ensures var s' := After(setup, s, events);
            && Inv(setup, s')
            && forall i | 0 <= i < |s'.read| :: s'.answered[i] - s'.read[i] <= setup.maxBatches * RPCS_PER_BATCH
    decreases |events|
  {
    if events != [] {
      StepKeepsInv(setup, s, events[0]);
      UnreadAnswersBounded(setup, Next(setup, s, events[0]), events[1..]);
    } else {
      forall i | 0 <= i < |s.read| ensures s.answered[i] - s.read[i] <= setup.maxBatches * RPCS_PER_BATCH {
        assert RankInv(s, i);
      }
    }
  }

  /******* And no less *******/

  lemma {:induction false} RunAppend(setup: Setup, s: State, events: seq<Event>, e: Event)
    requires WellFormed(s) && Possible(setup, s, events) && Enabled(setup, After(setup, s, events), e)
    ensures Possible(setup, s, events + [e])
    ensures After(setup, s, events + [e]) == Next(setup, After(setup, s, events), e)
    decreases |events|
  {
    if events == [] {
      assert events + [e] == [e] && [e][1..] == [];
    } else {
      RunAppend(setup, Next(setup, s, events[0]), events[1..], e);
      assert (events + [e])[0] == events[0] && (events + [e])[1..] == events[1..] + [e];
    }
  }

  /** The run that issues every call it may, then has the first stage of `ranks` answer `count` of them, all unread. */
  lemma {:induction false} FirstStageAhead(setup: Setup, ranks: nat, count: nat) returns (events: seq<Event>)
    requires 0 < ranks && count <= setup.capacity && count <= setup.maxBatches * RPCS_PER_BATCH
    ensures Possible(setup, Start(ranks), events)
    ensures var s := After(setup, Start(ranks), events);
            s.issued == setup.maxBatches * RPCS_PER_BATCH && s.retired == 0 && s.answered[0] == count && s.read[0] == 0
  {
    var s0 := Start(ranks);
    if count > 0 {
      events := FirstStageAhead(setup, ranks, count - 1);
      RunAppend(setup, s0, events, Answer(0));
      events := events + [Answer(0)];
    } else {
      events := [];
      var issued := 0;
      while issued < setup.maxBatches * RPCS_PER_BATCH
        invariant issued <= setup.maxBatches * RPCS_PER_BATCH
        invariant Possible(setup, s0, events) && After(setup, s0, events) == s0.(issued := issued)
      {
        RunAppend(setup, s0, events, Issue);
        events, issued := events + [Issue], issued + 1;
      }
    }
  }

  /** The depth the patch asks for is exactly the least safe one. */
  lemma SafeDepthIff(maxBatches: nat, capacity: nat)
    ensures SafeDepth(maxBatches, capacity) <==> capacity >= maxBatches * 2
  {
    var setup := Setup(maxBatches, capacity);
    if capacity >= maxBatches * RPCS_PER_BATCH {
      forall ranks: nat, events, rank: nat | 0 < ranks && Possible(setup, Start(ranks), events)
        ensures !Blocked(setup, After(setup, Start(ranks), events), rank)
      {
        UnreadAnswersBounded(setup, Start(ranks), events);
        var s := After(setup, Start(ranks), events);
        assert rank < |s.read| ==> RankInv(s, rank);
      }
    } else {
      var events := FirstStageAhead(setup, 2, capacity);
      assert Blocked(setup, After(setup, Start(2), events), 0);
    }
  }
}
