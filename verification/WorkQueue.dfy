/** The rate-limited work queue, by its contract: a FIFO of keys, the set of keys
    that need processing, the set being processed, the delayed adds, and the
    failure counts of the rate limiter. */
module WorkQueue {
  type Key = string

  datatype Queue = Queue(queue: seq<Key>, dirty: set<Key>, processing: set<Key>,
                         waiting: multiset<Key>, failures: map<Key, nat>, shuttingDown: bool)

  const EMPTY := Queue([], {}, {}, multiset{}, map[], false)

  /** Every queued key is dirty and not being processed, every dirty key is queued
      or being processed, and no key is queued twice. */
  ghost predicate Valid(q: Queue) {
    && (forall i, j :: 0 <= i < j < |q.queue| ==> q.queue[i] != q.queue[j])
    && (forall k <- q.queue :: k in q.dirty && k !in q.processing)
    && (forall k <- q.dirty :: k in q.queue || k in q.processing)
  }

  function Add(q: Queue, k: Key): Queue {
    if q.shuttingDown || k in q.dirty then q
    else if k in q.processing then q.(dirty := q.dirty + {k})
    else q.(dirty := q.dirty + {k}, queue := q.queue + [k])
  }

  function Take(q: Queue): Queue
    requires q.queue != []
  {
    var k := q.queue[0];
    q.(queue := q.queue[1..], processing := q.processing + {k}, dirty := q.dirty - {k})
  }

  function Done(q: Queue, k: Key): Queue {
    q.(processing := q.processing - {k}, queue := if k in q.dirty then q.queue + [k] else q.queue)
  }

  function Count(q: Queue, k: Key): nat {
    if k in q.failures then q.failures[k] else 0
  }

  /** The rate limiter counts even when the add itself is ignored. A delayed add
      may be merged with one for the same key that is waiting already. */
  function AddRateLimited(q: Queue, k: Key, merged: bool): Queue {
    q.(failures := q.failures[k := Count(q, k) + 1],
       waiting := if q.shuttingDown || (merged && k in q.waiting) then q.waiting else q.waiting + multiset{k})
  }

  function Forget(q: Queue, k: Key): Queue {
    q.(failures := q.failures - {k})
  }

  /** A delayed add comes due. */
  function Fire(q: Queue, k: Key): Queue
    requires k in q.waiting
  {
    Add(q.(waiting := q.waiting - multiset{k}), k)
  }

  function ShutDown(q: Queue): Queue { q.(shuttingDown := true) }

  lemma AddKeepsValid(q: Queue, k: Key)
    requires Valid(q)
    ensures Valid(Add(q, k))
  {}

  lemma TakeKeepsValid(q: Queue)
    requires Valid(q) && q.queue != []
    ensures Valid(Take(q))
  {}

  lemma DoneKeepsValid(q: Queue, k: Key)
    requires Valid(q) && k in q.processing
    ensures Valid(Done(q, k))
  {}

  /** First in, first out: a new key goes behind the others, and the key that is taken is
      the one that has waited longest. */
  lemma FirstInFirstOut(q: Queue, k: Key)
    requires Valid(q) && !q.shuttingDown && k !in q.dirty && k !in q.processing
    ensures Add(q, k).queue == q.queue + [k]
    ensures var t := Take(Add(q, k));
            if q.queue == [] then t.queue == [] && t.processing == q.processing + {k}
            else t.queue == q.queue[1..] + [k] && t.processing == q.processing + {q.queue[0]}
  {}

  /** A key that is added while it is processed is not queued twice, but once more when
      its processing is done. */
  lemma AddedMeanwhile(q: Queue, k: Key)
    requires Valid(q) && !q.shuttingDown && k in q.processing
    ensures Add(q, k).queue == q.queue
    ensures Done(Add(q, k), k).queue == q.queue + [k] && k !in Done(Add(q, k), k).processing
    ensures k !in q.dirty ==> Done(q, k).queue == q.queue
  {}

  /** After the shutdown nothing is added any more, at once or later. */
  lemma NothingIsAddedAfterShutDown(q: Queue, k: Key, merged: bool)
    ensures var s := ShutDown(q);
            && s.queue == q.queue && Add(s, k) == s
            && AddRateLimited(s, k, merged).queue == q.queue && AddRateLimited(s, k, merged).waiting == q.waiting
            && (k in q.waiting ==> Fire(s, k).queue == q.queue)
  {}
}
