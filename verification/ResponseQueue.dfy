/** The queue of control responses waiting to be sent, and what becomes of each of them. */
module ResponseQueue {
  import opened ResourceTypes

  datatype Response = Response(subject: Mrid, status: ResponseStatus, replyTo: Href, time: int)

  /** The answer to one attempt: a timeout, a refused connection or a 429 may be tried again. */
  datatype Outcome = Accepted | Rejected | Retriable

  /** How a response left the queue. */
  datatype Fate = Delivered(response: Response) | Discarded(response: Response) | Overflowed(response: Response)

  const MAX_RESPONSE_QUEUE_SIZE: nat := 30

  /** The queue, front first, and the responses that left it, in order. */
  datatype State = State(queue: seq<Response>, gone: seq<Fate>)

  const EMPTY := State([], [])

  function Popped(s: State, fate: Fate): State
    requires s.queue != []
  {
    State(s.queue[1..], s.gone + [fate])
  }

  function Trimmed(s: State): State
    decreases |s.queue|
  {
    if |s.queue| >= MAX_RESPONSE_QUEUE_SIZE then Trimmed(Popped(s, Overflowed(s.queue[0]))) else s
  }

  function Pushed(s: State, response: Response): State {
    Trimmed(s.(queue := s.queue + [response]))
  }

  /** One pass over the queue with the answers it gets; a missing answer is a timeout. Returns whether to retry. */
  function Sent(s: State, answers: seq<Outcome>): (State, bool)
    decreases |s.queue|
  {
    if s.queue == [] then (s, false)
    else if answers == [] || answers[0].Retriable? then (s, true)
    else Sent(Popped(s, FateOf(s.queue[0], answers[0])), answers[1..])
  }

  function FateOf(response: Response, answer: Outcome): Fate {
    if answer.Accepted? then Delivered(response) else Discarded(response)
  }

  class Queue {
    var queue: seq<Response>
    ghost var gone: seq<Fate>

    constructor ()
      ensures Contents() == EMPTY
    {
      queue, gone := [], [];
    }

    ghost function Contents(): State
      reads this
    {
      State(queue, gone)
    }

    method PopFront() returns (response: Response)
      requires queue != []
      modifies this
      ensures response == old(queue[0]) && queue == old(queue[1..]) && gone == old(gone)
    {
      response, queue := queue[0], queue[1..];
    }

    method PushBack(response: Response)
      modifies this
      ensures Contents() == Pushed(old(Contents()), response)
    {
      queue := queue + [response];
      while |queue| >= MAX_RESPONSE_QUEUE_SIZE
        invariant Trimmed(Contents()) == Pushed(old(Contents()), response)
      {
        var dropped := PopFront();
        gone := gone + [Overflowed(dropped)];
      }
    }

    method SendAll(answers: seq<Outcome>) returns (retry: bool)
      modifies this
      ensures (Contents(), retry) == Sent(old(Contents()), answers)
    {
      var k := 0;
      while queue != []
        invariant 0 <= k <= |answers|
        invariant Sent(Contents(), answers[k..]) == Sent(old(Contents()), answers)
        decreases |queue|
      {
        ghost var before := Contents();
        var response := PopFront();
        var answer := if k < |answers| then answers[k] else Retriable;
        if answer.Retriable? {
          queue := [response] + queue;
          assert Contents() == before;
          return true;
        }
        gone := gone + [FateOf(response, answer)];
        k := k + 1;
      }
      return false;
    }
  }

  // Conservation.

  function ResponsesOf(fates: seq<Fate>): (responses: seq<Response>)
    ensures |responses| == |fates|
    ensures forall i :: 0 <= i < |fates| ==> responses[i] == fates[i].response
  {
    seq(|fates|, i requires 0 <= i < |fates| => fates[i].response)
  }

  /** Everything that was ever queued, in order. */
  function History(s: State): seq<Response> {
    ResponsesOf(s.gone) + s.queue
  }

  lemma PoppedKeepsHistory(s: State, fate: Fate)
    requires s.queue != [] && fate.response == s.queue[0]
    ensures History(Popped(s, fate)) == History(s)
  {
    assert ResponsesOf(s.gone + [fate]) == ResponsesOf(s.gone) + [fate.response];
    assert s.queue == [s.queue[0]] + s.queue[1..];
  }

  lemma {:induction false} TrimmedKeepsHistory(s: State)
    ensures History(Trimmed(s)) == History(s)
    ensures |Trimmed(s).queue| < MAX_RESPONSE_QUEUE_SIZE
    decreases |s.queue|
  {
    if |s.queue| >= MAX_RESPONSE_QUEUE_SIZE {
      PoppedKeepsHistory(s, Overflowed(s.queue[0]));
      TrimmedKeepsHistory(Popped(s, Overflowed(s.queue[0])));
    }
  }

  /** Queueing drops the oldest response, and only when 29 others were already waiting. */
  lemma PushedDropsOldest(s: State, response: Response)
    requires |s.queue| < 30
    ensures Pushed(s, response) ==
            if |s.queue| < 29 then s.(queue := s.queue + [response])
            else State(s.queue[1..] + [response], s.gone + [Overflowed(s.queue[0])])
  {
    var full := s.(queue := s.queue + [response]);
    if |full.queue| >= MAX_RESPONSE_QUEUE_SIZE {
      assert full.queue[1..] == s.queue[1..] + [response];
      assert Trimmed(Popped(full, Overflowed(full.queue[0]))) == Popped(full, Overflowed(full.queue[0]));
    }
  }

  lemma {:induction false} SentKeepsHistory(s: State, answers: seq<Outcome>)
    ensures History(Sent(s, answers).0) == History(s)
    ensures |Sent(s, answers).0.queue| <= |s.queue|
    decreases |s.queue|
  {
    if s.queue != [] && answers != [] && !answers[0].Retriable? {
      PoppedKeepsHistory(s, FateOf(s.queue[0], answers[0]));
      SentKeepsHistory(Popped(s, FateOf(s.queue[0], answers[0])), answers[1..]);
    }
  }

  /** How many of the first `n` attempts are settled before one that has to be retried. */
  function Settled(answers: seq<Outcome>, n: nat): (j: nat)
    ensures j <= n && j <= |answers|
    ensures forall i :: 0 <= i < j ==> !answers[i].Retriable?
    ensures j < n && j < |answers| ==> answers[j].Retriable?
  {
    if n == 0 || answers == [] || answers[0].Retriable? then 0 else 1 + Settled(answers[1..], n - 1)
  }

  function FatesOf(responses: seq<Response>, answers: seq<Outcome>): (fates: seq<Fate>)
    requires |responses| == |answers|
    ensures |fates| == |responses|
    ensures forall i :: 0 <= i < |fates| ==>
                          fates[i] == if answers[i] == Accepted then Delivered(responses[i])
                          else Discarded(responses[i])
  {
    seq(|responses|, i requires 0 <= i < |responses| => FateOf(responses[i], answers[i]))
  }

  /**
   A pass settles the responses before the first retriable failure, each by its own answer, leaves that
   response at the head with all later ones behind it, and asks for a retry exactly when there is one.
   */
  lemma {:induction false} SentStopsAtFailure(s: State, answers: seq<Outcome>)
    ensures var (after, retry) := Sent(s, answers);
            var j := Settled(answers, |s.queue|);
            && after == State(s.queue[j..], s.gone + FatesOf(s.queue[..j], answers[..j]))
            && (retry <==> j < |s.queue|)
    decreases |s.queue|
  {
    if s.queue != [] && answers != [] && !answers[0].Retriable? {
      var fate := FateOf(s.queue[0], answers[0]);
      var j := Settled(answers[1..], |s.queue| - 1);
      SentStopsAtFailure(Popped(s, fate), answers[1..]);
      FirstFate(s.queue, answers, j);
      assert s.gone + [fate] + FatesOf(s.queue[1..][..j], answers[1..][..j])
          == s.gone + FatesOf(s.queue[..j + 1], answers[..j + 1]);
      assert s.queue[1..][j..] == s.queue[j + 1..];
    } else {
      assert FatesOf(s.queue[..0], answers[..0]) == [];
    }
  }

  lemma FirstFate(responses: seq<Response>, answers: seq<Outcome>, j: nat)
    requires j < |responses| && j < |answers|
    ensures FatesOf(responses[..j + 1], answers[..j + 1])
         == [FateOf(responses[0], answers[0])] + FatesOf(responses[1..][..j], answers[1..][..j])
  {
  }

  datatype Operation = Enqueue(response: Response) | Attempt(answers: seq<Outcome>)

  function AfterAll(ops: seq<Operation>): State {
    if ops == [] then EMPTY else
    var before := AfterAll(ops[..|ops| - 1]);
    match ops[|ops| - 1]
    case Enqueue(response) => Pushed(before, response)
    case Attempt(answers) => Sent(before, answers).0
  }

  function Enqueues(ops: seq<Operation>): seq<Response> {
    if ops == [] then [] else
    var n := |ops| - 1;
    Enqueues(ops[..n]) + if ops[n].Enqueue? then [ops[n].response] else []
  }

  /**
   Over any run every response ever queued is accounted for, in order: first those that left, by
   delivery, rejection or overflow, then those still queued, of which there are fewer than 30.
   */
  lemma {:induction false} Conservation(ops: seq<Operation>)
    ensures ResponsesOf(AfterAll(ops).gone) + AfterAll(ops).queue == Enqueues(ops)
    ensures |AfterAll(ops).queue| < 30
  {
    if ops != [] {
      var n := |ops| - 1;
      var before := AfterAll(ops[..n]);
      Conservation(ops[..n]);
      match ops[n]
      case Enqueue(response) =>
        TrimmedKeepsHistory(before.(queue := before.queue + [response]));
        assert History(before.(queue := before.queue + [response])) == History(before) + [response];
      case Attempt(answers) => SentKeepsHistory(before, answers);
    }
  }
}
