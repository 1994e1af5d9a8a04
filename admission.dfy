/** The admission branch of `ThreadedServer.listen`: each accepted
    connection is either refused with the overload response or handed to a
    new worker thread. Threads are counted sequentially: the live count is
    the accepting thread plus the workers, and accepts are serialised. */
module Admission {
  import opened Http

  /** What `listen` does with one accepted connection. */
  datatype Decision = Admitted | Rejected(reply: string)

  /** The admission test: a connection is refused, and answered with the
      overload response, exactly when more threads are alive than the
      configured `THREADS_COUNT`. */
  function Decide(liveThreads: int, threadsCount: int): (d: Decision)
    ensures d.Rejected? <==> liveThreads > threadsCount
    ensures d.Rejected? ==> d.reply == Get503Response()
  {
    if liveThreads > threadsCount then Rejected(Get503Response()) else Admitted
  }

  /** The most workers the accepting thread lets run at once. */
  function Capacity(threadsCount: int): nat
  {
    if threadsCount > 0 then threadsCount else 0
  }

  /** Decision number `j` of a burst of connections that arrive while no
      worker finishes, when `room` more workers fit. */
  function BurstDecision(room: nat, j: nat): Decision
  {
    if j < room then Admitted else Rejected(Get503Response())
  }

  /** The accepting thread and the workers it has started. */
  class Listener {
    const threadsCount: int
    var workers: nat

    /** The accepting thread never lets the workers outnumber the
        configured count. */
    ghost predicate Valid()
      reads this
    {
      workers <= Capacity(threadsCount)
    }

    constructor (threadsCount: int)
      ensures this.threadsCount == threadsCount && workers == 0 && Valid()
    {
      this.threadsCount := threadsCount;
      workers := 0;
    }

    /** One accepted connection: refused with the overload response and no
        worker started, or exactly one more worker. */
    method Accept() returns (d: Decision)
      requires Valid()
      modifies this
      ensures Valid()
      ensures d == Decide(1 + old(workers), threadsCount)
      ensures workers == if d.Admitted? then old(workers) + 1 else old(workers)
    {
      if 1 + workers > threadsCount {
        d := Rejected(Get503Response());
      } else {
        d := Admitted;
        workers := workers + 1;
      }
    }

    /** A worker's `serve_client` returns and its thread ends. */
    method Finish()
      requires Valid() && workers > 0
      modifies this
      ensures Valid() && workers == old(workers) - 1
    {
      workers := workers - 1;
    }

    /** The accept loop over `arrivals` connections during which no worker
        finishes: the first ones fill the free places, every later one is
        refused, and the workers never exceed the configured count. */
    method Listen(arrivals: nat) returns (decisions: seq<Decision>)
      requires Valid()
      modifies this
      ensures Valid()
      ensures var room := Capacity(threadsCount) - old(workers);
        |decisions| == arrivals &&
        (forall j :: 0 <= j < arrivals ==> decisions[j] == BurstDecision(room, j)) &&
        workers == old(workers) + (if arrivals < room then arrivals else room)
    {
      ghost var room := Capacity(threadsCount) - workers;
      decisions := [];
      var i := 0;
      while i < arrivals
        invariant 0 <= i <= arrivals
        invariant Valid()
        invariant |decisions| == i
        invariant forall j :: 0 <= j < i ==> decisions[j] == BurstDecision(room, j)
        invariant workers == old(workers) + (if i < room then i else room)
      {
        var d := Accept();
        decisions := decisions + [d];
        i := i + 1;
      }
    }
  }
}
