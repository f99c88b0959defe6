/**
 The work pool (pkg/work/work.go): submitters block on an unbuffered channel, one
 dispatcher receives from it and starts a goroutine a worker, without a limit.
 */
module Pool {
  import opened Wrappers

  /**
   held is the worker the dispatcher has received and not yet started; stopping is the
   closed stop channel, dispatching whether the dispatcher's loop still runs.
   */
  datatype State<T(==)> = State(
    submitted: multiset<T>, offered: multiset<T>, held: Option<T>,
    running: multiset<T>, done: multiset<T>, stopping: bool, dispatching: bool)

  const NEW: State<string> := State(multiset{}, multiset{}, None, multiset{}, multiset{}, false, true)

  datatype Step<T> = Offer(worker: T) | Receive(worker: T) | Spawn | Finish(worker: T) | Shutdown | Exit

  predicate Enabled<T(==)>(s: State<T>, step: Step<T>) {
    match step
    case Offer(_) => true
    case Receive(w) => s.dispatching && s.held == None && w in s.offered
    case Spawn => s.held.Some?
    case Finish(w) => w in s.running
    // Closing the channel a second time would panic; main does it once.
    case Shutdown => !s.stopping
    // With the stop channel closed, the select may still prefer a waiting worker.
    case Exit => s.dispatching && s.held == None && s.stopping
  }

  function Apply<T(==)>(s: State<T>, step: Step<T>): State<T>
    requires Enabled(s, step)
  {
    match step
    case Offer(w) => s.(submitted := s.submitted + multiset{w}, offered := s.offered + multiset{w})
    case Receive(w) => s.(offered := s.offered - multiset{w}, held := Some(w))
    case Spawn => s.(held := None, running := s.running + multiset{s.held.value})
    case Finish(w) => s.(running := s.running - multiset{w}, done := s.done + multiset{w})
    case Shutdown => s.(stopping := true)
    case Exit => s.(dispatching := false)
  }

  function Held<T(==)>(s: State<T>): multiset<T> {
    match s.held
    case None => multiset{}
    case Some(w) => multiset{w}
  }

  /** Nothing submitted is lost or doubled. */
  predicate Conserved<T(==)>(s: State<T>) {
    s.submitted == s.offered + Held(s) + s.running + s.done
  }

  lemma StepConserves<T>(s: State<T>, step: Step<T>)
    requires Conserved(s) && Enabled(s, step)
    ensures Conserved(Apply(s, step))
  {
  }
}
