/**
  The block device's submission queue: an owner, a ticket counter and a FIFO of
  waiting tickets, as values and as the object the driver updates in place.
 */
module DiskQueue {
  import opened Basics

  /** A waker belongs to a task; a task may hand out a new one with every poll. */
  datatype Waker = Waker(task: nat, version: nat)

  datatype Waiter = Waiter(ticket: nat, tid: nat, waker: Waker)

  datatype Queue = Queue(owner: Option<nat>, nextTicket: nat, waiters: seq<Waiter>)

  /** What a poll answers: whether the caller owns the device, its ticket, and the queue. */
  datatype Polled = Polled(acquired: bool, ticket: Option<nat>, queue: Queue)

  /** The front ticket may enter a free queue; a newcomer only an empty one. */
  predicate CanAcquire(q: Queue, ticket: Option<nat>) {
    q.owner == None
    && match ticket
       case Some(k) => q.waiters != [] && q.waiters[0].ticket == k
       case None => q.waiters == []
  }

  function FrontWaker(q: Queue): Option<Waker> {
    if q.owner == None && q.waiters != [] then Some(q.waiters[0].waker) else None
  }

  function Acquired(q: Queue, tid: nat, ticket: Option<nat>): Queue
    requires CanAcquire(q, ticket)
  {
    q.(owner := Some(tid), waiters := if ticket.Some? then q.waiters[1..] else q.waiters)
  }

  /** The position of a ticket, or the length of the queue. */
  function IndexOf(ws: seq<Waiter>, ticket: nat): (i: nat)
    ensures i <= |ws| && (forall j :: 0 <= j < i ==> ws[j].ticket != ticket)
    ensures i < |ws| ==> ws[i].ticket == ticket
  {
    if ws == [] || ws[0].ticket == ticket then 0 else 1 + IndexOf(ws[1..], ticket)
  }

  function WithoutTicket(ws: seq<Waiter>, ticket: nat): seq<Waiter> {
    var i := IndexOf(ws, ticket);
    if i < |ws| then ws[..i] + ws[i + 1..] else ws
  }

  function WithoutTid(ws: seq<Waiter>, tid: nat): seq<Waiter> {
    if ws == [] then []
    else if ws[0].tid == tid then WithoutTid(ws[1..], tid)
    else [ws[0]] + WithoutTid(ws[1..], tid)
  }

  function WithWaker(ws: seq<Waiter>, ticket: nat, waker: Waker): seq<Waiter> {
    var i := IndexOf(ws, ticket);
    if i < |ws| then ws[i := ws[i].(waker := waker)] else ws
  }

  function Poll(q: Queue, tid: nat, ticket: Option<nat>, waker: Waker): Polled {
    if CanAcquire(q, ticket) then Polled(true, None, Acquired(q, tid, ticket))
    else if ticket.Some? then Polled(false, ticket, q.(waiters := WithWaker(q.waiters, ticket.value, waker)))
    else Polled(false, Some(q.nextTicket),
                q.(nextTicket := q.nextTicket + 1, waiters := q.waiters + [Waiter(q.nextTicket, tid, waker)]))
  }

  lemma {:induction false} IndexIs(ws: seq<Waiter>, ticket: nat, i: nat)
    requires i <= |ws| && (forall j :: 0 <= j < i ==> ws[j].ticket != ticket)
    requires i < |ws| ==> ws[i].ticket == ticket
    ensures IndexOf(ws, ticket) == i
  {
    var found := IndexOf(ws, ticket);
    if found < i {
      assert false;
    } else if i < found {
      assert false;
    }
  }

  lemma {:induction false} WithoutTidSnoc(ws: seq<Waiter>, w: Waiter, tid: nat)
    ensures WithoutTid(ws + [w], tid) == WithoutTid(ws, tid) + (if w.tid == tid then [] else [w])
  {
    if ws == [] {
      assert (ws + [w])[1..] == [];
    } else {
      assert (ws + [w])[1..] == ws[1..] + [w];
      WithoutTidSnoc(ws[1..], w, tid);
    }
  }

  class DeviceSubmission {
    var owner: Option<nat>
    var nextTicket: nat
    var waiters: seq<Waiter>

    function Value(): Queue
      reads this
    {
      Queue(owner, nextTicket, waiters)
    }

    constructor ()
      ensures Value() == Queue(None, 1, [])
    {
      owner, nextTicket, waiters := None, 1, [];
    }

    method TryAcquire(tid: nat, ticket: Option<nat>) returns (acquired: bool)
      modifies this
      ensures acquired <==> CanAcquire(old(Value()), ticket)
      ensures Value() == if acquired then Acquired(old(Value()), tid, ticket) else old(Value())
    {
      if !CanAcquire(Value(), ticket) {
        return false;
      }
      if ticket.Some? {
        waiters := waiters[1..];
      }
      owner := Some(tid);
      return true;
    }

    /** One poll of the future of task `waker.task`. */
    method PollFuture(tid: nat, ticket: Option<nat>, waker: Waker) returns (acquired: bool, now: Option<nat>)
      modifies this
      ensures Polled(acquired, now, Value()) == Poll(old(Value()), tid, ticket, waker)
    {
      if CanAcquire(Value(), ticket) {
        if ticket.Some? {
          waiters := waiters[1..];
        }
        owner := Some(tid);
        return true, None;
      }
      match ticket
      case Some(k) =>
        var i := Position(k);
        if i < |waiters| && waiters[i].waker != waker {
          waiters := waiters[i := waiters[i].(waker := waker)];
        }
        return false, ticket;
      case None =>
        now := Some(nextTicket);
        waiters := waiters + [Waiter(nextTicket, tid, waker)];
        nextTicket := nextTicket + 1;
        return false, now;
    }

    method Position(ticket: nat) returns (i: nat)
      ensures i == IndexOf(waiters, ticket)
    {
      i := 0;
      while i < |waiters| && waiters[i].ticket != ticket
        invariant i <= |waiters| && forall j :: 0 <= j < i ==> waiters[j].ticket != ticket
      {
        i := i + 1;
      }
      IndexIs(waiters, ticket, i);
    }

    /** Give the device up; the waker returned is the one to wake. */
    method Release(tid: nat) returns (next: Option<Waker>)
      requires owner == Some(tid)
      modifies this
      ensures Value() == old(Value()).(owner := None) && next == FrontWaker(Value())
    {
      owner := None;
      next := FrontWaker(Value());
    }

    method CancelTicket(ticket: nat) returns (next: Option<Waker>)
      modifies this
      ensures Value() == old(Value()).(waiters := WithoutTicket(old(waiters), ticket))
      ensures next == if IndexOf(old(waiters), ticket) < |old(waiters)| then FrontWaker(Value()) else None
    {
      var i := Position(ticket);
      if i == |waiters| {
        return None;
      }
      waiters := waiters[..i] + waiters[i + 1..];
      next := FrontWaker(Value());
    }

    method CancelTid(tid: nat) returns (next: Option<Waker>)
      modifies this
      ensures Value() == old(Value()).(waiters := WithoutTid(old(waiters), tid)) && next == FrontWaker(Value())
    {
      var kept: seq<Waiter>, i := [], 0;
      while i < |waiters|
        invariant i <= |waiters| && kept == WithoutTid(waiters[..i], tid)
        invariant waiters == old(waiters) && owner == old(owner) && nextTicket == old(nextTicket)
      {
        WithoutTidSnoc(waiters[..i], waiters[i], tid);
        assert waiters[..i] + [waiters[i]] == waiters[..i + 1];
        if waiters[i].tid != tid {
          kept := kept + [waiters[i]];
        }
        i := i + 1;
      }
      assert waiters[..i] == waiters;
      waiters := kept;
      next := FrontWaker(Value());
    }
  }
}
