/** The message queue of src/mqueue.c: a doubly linked list between two sentinels, a mutex
    and a semaphore, shared by many producers and one consumer, which also frees the
    messages that are still queued. Every step between two operations on the mutex, the
    semaphore or the list is an action of its own, and actions may interleave in any order. */
module MessageQueue {

  /** qelem_t. */
  class Elem {
    var forw: Elem?
    var back: Elem?
    const data: int

    constructor (data: int)
      ensures this.data == data && forw == null && back == null
    {
      this.data := data;
      forw := null;
      back := null;
    }
  }

  /** The data between the sentinels. */
  ghost function DataOf(c: seq<Elem>): (d: seq<int>)
    ensures |c| >= 2 ==> |d| == |c| - 2
  {
    if |c| < 2 then [] else seq(|c| - 2, i requires 0 <= i < |c| - 2 => c[i + 1].data)
  }

  type Thread = nat

  /** Where a producer is inside mqueue_send. */
  datatype Producer =
    | Locking(data: int)    // waits for the mutex
    | Holding(data: int)    // has the mutex
    | Inserted(data: int)   // between insque and sem_post
    | Posted                // after sem_post

  /** Where the consumer is inside mqueue_wait or mqueue_free. */
  datatype Consumer =
    | Working
    | Claimed               // past sem_wait, waits for the mutex
    | WaitHolding           // has the mutex
    | Removed(data: int)    // after remque
    | Freeing(count: nat)   // has the mutex, in the loop of mqueue_free
    | Freed(count: nat)     // after sem_init

  datatype Owner = Nobody | ByProducer(t: Thread) | ByConsumer

  datatype Action =
    | SendStart(t: Thread, data: int)
    | SendLock(t: Thread)
    | SendInsert(t: Thread)
    | SendPost(t: Thread)
    | SendUnlock(t: Thread)
    | WaitSem
    | WaitLock
    | WaitRemove
    | WaitUnlock
    | FreeLock
    | FreeOne
    | FreeReset
    | FreeUnlock

  class MQueue {
    const head: Elem
    const tail: Elem
    var avail: nat                        // the semaphore q_avail
    var owner: Owner                      // the mutex q_mutex
    var producers: map<Thread, Producer>  // the threads inside mqueue_send
    var consumer: Consumer
    ghost var chain: seq<Elem>            // the elements, between the two sentinels
    ghost var repr: set<Elem>             // the elements so far
    ghost var sent: seq<int>              // what has been inserted, in order
    ghost var taken: seq<int>             // what has been delivered or discarded, in order

    ghost predicate Linked()
      reads this`chain, this`repr, repr
    {
      && |chain| >= 2 && chain[0] == head && chain[|chain| - 1] == tail
      && (forall i | 0 <= i < |chain| :: chain[i] in repr)
      && (forall i, j | 0 <= i < j < |chain| :: chain[i] != chain[j])
      && (forall i | 0 <= i < |chain| - 1 :: chain[i].forw == chain[i + 1])
      && (forall i | 0 < i < |chain| :: chain[i].back == chain[i - 1])
      && head.back == null && tail.forw == null
    }

    /** The number of queued messages. */
    ghost function Length(): int
      reads this`chain
    {
      |chain| - 2
    }

    /** The queued data. */
    ghost function Data(): (d: seq<int>)
      reads this`chain
    {
      DataOf(chain)
    }

    /** A producer is past the mutex exactly if it holds it. */
    ghost predicate ProducersOwn()
      reads this`producers, this`owner
    {
      forall t | t in producers :: (owner == ByProducer(t) <==> !producers[t].Locking?)
    }

    ghost predicate Ownership()
      reads this`producers, this`owner, this`consumer
    {
      && ProducersOwn()
      && (owner.ByProducer? ==> owner.t in producers)
      && (owner.ByConsumer? <==> !consumer.Working? && !consumer.Claimed?)
    }

    /** Messages that sem_wait has granted but remque has not taken yet. */
    ghost function Claims(): nat
      reads this
    {
      if consumer.Claimed? || consumer.WaitHolding? then 1 else 0
    }

    /** Messages that are inserted but not posted yet. */
    ghost function Unposted(): nat
      reads this
    {
      if owner.ByProducer? && owner.t in producers && producers[owner.t].Inserted? then 1 else 0
    }

    /** The length of the queue is the semaphore plus the claims plus what is being posted;
        only in the middle of mqueue_free the semaphore lags behind. */
    ghost predicate Counted()
      reads this
    {
      if consumer.Freeing? then Length() <= avail else Length() == avail + Claims() + Unposted()
    }

    /** Nothing is lost, duplicated or reordered. */
    ghost predicate Recorded()
      reads this`chain, this`sent, this`taken
    {
      sent == taken + Data()
    }

    ghost predicate Inv()
      reads this, repr
    {
      Linked() && Ownership() && Counted() && Recorded()
    }

    /** mqueue_init. */
    constructor ()
      ensures Inv() && sent == taken == [] && consumer == Working && producers == map[] && owner == Nobody
      ensures fresh(repr)
    {
      head := new Elem(0);
      tail := new Elem(0);
      avail, owner, producers, consumer := 0, Nobody, map[], Working;
      chain, repr, sent, taken := [head, tail], {head, tail}, [], [];
      new;
      head.forw := tail;
      tail.back := head;
    }

    // -------------------------------------------------------------------------
    // The list
    // -------------------------------------------------------------------------

    /** insque after the last element. */
    method InsertLast(data: int)
      requires Linked()
      modifies this`chain, this`repr, repr
      ensures Linked() && fresh(repr - old(repr))
      ensures Data() == old(Data()) + [data]
    {
      var e := new Elem(data);
      ghost var c, k := chain, |chain| - 2;
      assert tail.back == c[k] && c[k].forw == c[k + 1];
      var pred := tail.back;
      e.forw := pred.forw;
      e.back := pred;
      pred.forw.back := e;
      pred.forw := e;
      chain := c[..k + 1] + [e, tail];
      repr := repr + {e};
      forall i | 0 <= i < |chain| - 1
        ensures chain[i].forw == chain[i + 1]
      {
        if i < k {
          assert c[i] != c[k] && c[i].forw == c[i + 1];
        }
      }
      forall i | 0 < i < |chain|
        ensures chain[i].back == chain[i - 1]
      {
        if i <= k {
          assert c[i] != c[k + 1] && c[i].back == c[i - 1];
        }
      }
    }

    /** remque of the first element. */
    method RemoveFirst() returns (e: Elem)
      requires Linked() && Length() > 0
      modifies this`chain, repr
      ensures Linked() && e != head && e != tail
      ensures [e.data] + Data() == old(Data())
    {
      ghost var c := chain;
      assert c[0].forw == c[1] && c[1].back == c[0] && c[1].forw == c[2];
      e := head.forw;
      e.forw.back := e.back;
      e.back.forw := e.forw;
      chain := [head] + c[2..];
      forall i | 0 <= i < |chain| - 1
        ensures chain[i].forw == chain[i + 1]
      {
        if i > 0 {
          assert c[i + 1] != c[0] && c[i + 1].forw == c[i + 2];
        }
      }
      forall i | 0 < i < |chain|
        ensures chain[i].back == chain[i - 1]
      {
        if i > 1 {
          assert c[i + 1] != c[2] && c[i + 1].back == c[i];
        }
      }
    }

    /** The list is empty exactly if the head sentinel points to the tail sentinel. */
    lemma EmptyList()
      requires Linked()
      ensures head.forw == tail <==> Length() == 0
    {
      assert chain[0].forw == chain[1];
    }

    // -------------------------------------------------------------------------
    // mqueue_send
    // -------------------------------------------------------------------------

    method StartSend(t: Thread, data: int)
      requires Inv() && t !in producers
      modifies this`producers
      ensures Inv() && producers == old(producers)[t := Locking(data)]
    {
      producers := producers[t := Locking(data)];
    }

    method LockSend(t: Thread)
      requires Inv() && t in producers && producers[t].Locking? && owner == Nobody
      modifies this`producers, this`owner
      ensures Inv() && producers == old(producers)[t := Holding(old(producers[t].data))]
    {
      owner := ByProducer(t);
      producers := producers[t := Holding(producers[t].data)];
    }

    method InsertSend(t: Thread)
      requires Inv() && t in producers && producers[t].Holding?
      modifies this`producers, this`chain, this`repr, this`sent, repr
      ensures Inv() && fresh(repr - old(repr))
      ensures producers == old(producers)[t := Inserted(old(producers[t].data))]
      ensures sent == old(sent) + [old(producers[t].data)]
    {
      hide Linked, DataOf;
      InsertLast(producers[t].data);
      sent := sent + [producers[t].data];
      producers := producers[t := Inserted(producers[t].data)];
    }

    method PostSend(t: Thread)
      requires Inv() && t in producers && producers[t].Inserted?
      modifies this`producers, this`avail
      ensures Inv() && producers == old(producers)[t := Posted] && avail == old(avail) + 1
    {
      avail := avail + 1;
      producers := producers[t := Posted];
    }

    method UnlockSend(t: Thread)
      requires Inv() && t in producers && producers[t].Posted?
      modifies this`producers, this`owner
      ensures Inv() && producers == old(producers) - {t} && owner == Nobody
    {
      owner := Nobody;
      producers := producers - {t};
    }

    // -------------------------------------------------------------------------
    // mqueue_wait
    // -------------------------------------------------------------------------

    method SemWait()
      requires Inv() && consumer.Working? && avail > 0
      modifies this`consumer, this`avail
      ensures Inv() && consumer == Claimed && avail == old(avail) - 1
    {
      avail := avail - 1;
      consumer := Claimed;
    }

    method LockWait()
      requires Inv() && consumer.Claimed? && owner == Nobody
      modifies this`consumer, this`owner
      ensures Inv() && consumer == WaitHolding
    {
      owner := ByConsumer;
      consumer := WaitHolding;
    }

    /** The element unlinked is never the tail sentinel, and its data is the oldest that has
        not been taken yet. */
    method RemoveWait()
      requires Inv() && consumer.WaitHolding?
      modifies this`consumer, this`chain, this`taken, repr
      ensures Inv() && old(head.forw) != tail && |old(taken)| < |old(sent)|
      ensures consumer == Removed(old(sent)[|old(taken)|]) && taken == old(taken) + [consumer.data]
    {
      EmptyList();
      hide Linked, DataOf;
      var e := RemoveFirst();
      taken := taken + [e.data];
      consumer := Removed(e.data);
    }

    method UnlockWait() returns (data: int)
      requires Inv() && consumer.Removed?
      modifies this`consumer, this`owner
      ensures Inv() && consumer == Working && owner == Nobody && data == old(consumer.data)
    {
      owner := Nobody;
      data := consumer.data;
      consumer := Working;
    }

    // -------------------------------------------------------------------------
    // mqueue_free, called by the consumer
    // -------------------------------------------------------------------------

    method LockFree()
      requires Inv() && consumer.Working? && owner == Nobody
      modifies this`consumer, this`owner
      ensures Inv() && consumer == Freeing(0)
    {
      owner := ByConsumer;
      consumer := Freeing(0);
    }

    /** One pass of the loop of mqueue_free. */
    method DropOne()
      requires Inv() && consumer.Freeing? && head.forw != tail
      modifies this`consumer, this`chain, this`taken, repr
      ensures Inv() && consumer == Freeing(old(consumer.count) + 1)
      ensures |old(taken)| < |old(sent)| && taken == old(taken) + [old(sent)[|old(taken)|]]
    {
      EmptyList();
      hide Linked, DataOf;
      var e := RemoveFirst();
      taken := taken + [e.data];
      consumer := Freeing(consumer.count + 1);
    }

    method ResetFree()
      requires Inv() && consumer.Freeing? && head.forw == tail
      modifies this`consumer, this`avail
      ensures Inv() && Length() == 0 && avail == 0 && taken == sent && consumer == Freed(old(consumer.count))
    {
      EmptyList();
      hide Linked;
      avail := 0;
      consumer := Freed(consumer.count);
    }

    method UnlockFree() returns (count: nat)
      requires Inv() && consumer.Freed?
      modifies this`consumer, this`owner
      ensures Inv() && consumer == Working && owner == Nobody && count == old(consumer.count)
    {
      owner := Nobody;
      count := consumer.count;
      consumer := Working;
    }

    // -------------------------------------------------------------------------
    // Interleavings
    // -------------------------------------------------------------------------

    /** One action; an action that is not possible now is passed over, as a blocked thread
        would be. */
    method Perform(a: Action)
      requires Inv()
      modifies this, repr
      ensures Inv() && old(sent) <= sent && old(taken) <= taken && fresh(repr - old(repr))
    {
      hide Linked, DataOf, Ownership, Counted;
      match a {
        case SendStart(t, data) => if t !in producers { StartSend(t, data); }
        case SendLock(t) => if t in producers && producers[t].Locking? && owner == Nobody { LockSend(t); }
        case SendInsert(t) => if t in producers && producers[t].Holding? { InsertSend(t); }
        case SendPost(t) => if t in producers && producers[t].Inserted? { PostSend(t); }
        case SendUnlock(t) => if t in producers && producers[t].Posted? { UnlockSend(t); }
        case WaitSem => if consumer.Working? && avail > 0 { SemWait(); }
        case WaitLock => if consumer.Claimed? && owner == Nobody { LockWait(); }
        case WaitRemove => if consumer.WaitHolding? { RemoveWait(); }
        case WaitUnlock => if consumer.Removed? { var data := UnlockWait(); }
        case FreeLock => if consumer.Working? && owner == Nobody { LockFree(); }
        case FreeOne => if consumer.Freeing? && head.forw != tail { DropOne(); }
        case FreeReset => if consumer.Freeing? && head.forw == tail { ResetFree(); }
        case FreeUnlock => if consumer.Freed? { var count := UnlockFree(); }
      }
    }

    /** Every interleaving of any number of producers with the consumer keeps the invariant:
        what was taken, followed by what is queued, is what was sent, in order. */
    method Run(schedule: seq<Action>)
      requires Inv()
      modifies this, repr
      ensures Inv() && sent == taken + Data() && old(sent) <= sent && old(taken) <= taken
    {
      hide Linked, DataOf, Ownership, Counted;
      for i := 0 to |schedule|
        invariant Inv() && old(sent) <= sent && old(taken) <= taken && fresh(repr - old(repr))
      {
        Perform(schedule[i]);
      }
    }
  }

  /** If another thread than the consumer freed the queue, the consumer could be between
      sem_wait and the mutex: it would then go on to unlink the tail sentinel. */
  method ForeignFree(data: int) returns (q: MQueue)
    ensures q.Linked() && q.consumer == Claimed && q.owner == Nobody && q.avail == 0 && q.head.forw == q.tail
    ensures !q.Counted()
  {
    hide MQueue.ProducersOwn, DataOf;
    q := new MQueue();
    q.StartSend(1, data);
    q.LockSend(1);
    q.InsertSend(1);
    q.PostSend(1);
    q.UnlockSend(1);
    q.SemWait();
    while q.head.forw != q.tail
      invariant q.Linked() && q.consumer == Claimed && q.owner == Nobody && fresh(q) && fresh(q.repr)
      decreases q.Length()
    {
      q.EmptyList();
      var e := q.RemoveFirst();
    }
    q.avail := 0;
    q.EmptyList();
  }
}
