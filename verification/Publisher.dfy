/** `_InProcessPublisher` of backend/celery_app.py, for one service: fan-out from publishing threads through an
    event loop to subscribers that first get a replay of the recent past. Payloads are numbered in the order
    in which they enter the replay buffer. */
module Publisher {

  const QUEUE: nat := 4

  /** Appending to a deque of bounded length. */
  function Append(replay: seq<nat>, payload: nat, size: nat): seq<nat> {
    var all := replay + [payload];
    if |all| <= size then all else all[|all| - size..]
  }

  /** `_enqueue`: a full queue loses its oldest element. */
  function Enqueue(queue: seq<nat>, payload: nat): seq<nat> {
    (if |queue| >= QUEUE then queue[1..] else queue) + [payload]
  }

  /** The newest payloads stay, as many as the buffer holds, the last one included. */
  lemma AppendIs(replay: seq<nat>, payload: nat, size: nat)
    ensures var now := Append(replay, payload, size);
            && |now| == (if |replay| < size then |replay| + 1 else size)
            && replay + [payload] == (replay + [payload])[..|replay| + 1 - |now|] + now
  {
  }

  /** Four payloads wait at most; a fifth pushes the oldest out. */
  lemma EnqueueIs(queue: seq<nat>, payload: nat)
    requires |queue| <= 4
    ensures |queue| < 4 ==> Enqueue(queue, payload) == queue + [payload]
    ensures |queue| == 4 ==> Enqueue(queue, payload) == [queue[1], queue[2], queue[3], payload]
  {
  }

  class Publisher {
    const size: nat
    var replay: seq<nat>
    var subscribers: set<nat>

    constructor (size: nat)
      ensures this.size == size && replay == [] && subscribers == {}
    {
      this.size := size;
      replay, subscribers := [], {};
    }

    /** The locked part of `publish`: remembers the payload and says whom to send it to. */
    method Publish(payload: nat) returns (queues: set<nat>)
      modifies this`replay
      ensures replay == Append(old(replay), payload, size) && queues == subscribers
    {
      replay := replay + [payload];
      if |replay| > size {
        replay := replay[|replay| - size..];
      }
      queues := subscribers;
    }

    /** The locked part of `subscribe`. */
    method Subscribe(q: nat) returns (past: seq<nat>)
      modifies this`subscribers
      ensures past == replay && subscribers == old(subscribers) + {q}
    {
      past := replay;
      subscribers := subscribers + {q};
    }

    method Unsubscribe(q: nat)
      modifies this`subscribers
      ensures subscribers == old(subscribers) - {q}
    {
      subscribers := subscribers - {q};
    }
  }

  /** `asyncio.Queue(maxsize=4)` as the event loop fills it. */
  class Queue {
    var items: seq<nat>

    constructor ()
      ensures items == []
    {
      items := [];
    }

    method Put(payload: nat)
      requires |items| <= 4
      modifies this
      ensures items == Enqueue(old(items), payload) && |items| <= 4
    {
      if |items| == QUEUE {
        items := items[1..];
      }
      if |items| < QUEUE {
        items := items + [payload];
      }
    }
  }
}
