/** The class of `eventQ.cpp` that hands out the events of a trace file. */
module EventQueue {
  import opened Common
  import opened EventMerge
  import opened MergeScan

  class EventList {
    const all: seq<Event>                  // the file
    var at: nat
    var queuedEvents: Queues
    var waitingEvents: map<nat, Pending>
    var eventQueueCurrent: nat
    var ticketNum: nat
    var barrierNum: nat
    var minQueuedTicket: nat
    var resetMinTicket: bool
    var currentQueuedCount: int
    ghost var returned: seq<Event>
    ghost var readied: set<nat>

    ghost function Now(): State
      reads this
    {
      State.State(at, queuedEvents, waitingEvents, returned, readied, ticketNum, barrierNum, currentQueuedCount)
    }

    ghost function Full(): Merge
      reads this
    {
      Merge.Merge(Now(), eventQueueCurrent, minQueuedTicket, resetMinTicket)
    }

    ghost predicate Valid()
      reads this
    {
      Good(all, Full())
    }

    constructor (all: seq<Event>)
      requires WellFormed(all)
      ensures Valid() && Fresh(Full()) && Full() == Start() && this.all == all
    {
      this.all := all;
      at, queuedEvents, waitingEvents, eventQueueCurrent := 0, map[], map[], 0;
      ticketNum, barrierNum, minQueuedTicket, resetMinTicket, currentQueuedCount := 0, 0, 0, false, 0;
      returned, readied := [], {};
      new;
      forall c: nat ensures InOrder(all, Now(), c) { assert all[0..] == all; }
    }

    /** `queuedEvents.begin()` */
    method Rewind()
      modifies this`eventQueueCurrent
      ensures Full() == Begin(old(Full()))
    {
      if queuedEvents != map[] {
        ghost var k := Least(queuedEvents.Keys);
        var c :| c in queuedEvents && forall l :: l in queuedEvents ==> c <= l;
        eventQueueCurrent := c;
      }
    }

    /** `++eventQueueCurrent`; false at the end. */
    method Advance() returns (more: bool)
      modifies this`eventQueueCurrent
      ensures more <==> Later(queuedEvents, old(eventQueueCurrent)) != {}
      ensures eventQueueCurrent
           == if more then Least(Later(queuedEvents, old(eventQueueCurrent))) else old(eventQueueCurrent)
    {
      var later := Later(queuedEvents, eventQueueCurrent);
      more := later != {};
      if more {
        ghost var k := Least(later);
        var c :| c in later && forall l :: l in later ==> c <= l;
        eventQueueCurrent := c;
      }
    }

    method DropCurrent()
      requires eventQueueCurrent in queuedEvents
      modifies this`queuedEvents, this`eventQueueCurrent
      ensures Full() == Drop(old(Full()))
    {
      var t := eventQueueCurrent;
      var more := Advance();
      queuedEvents := queuedEvents - {t};
      if !more { Rewind(); }
    }

    /** The front of the current queue is returned. */
    method PopCurrent() returns (e: Event)
      requires eventQueueCurrent in queuedEvents && queuedEvents[eventQueueCurrent] != []
      modifies this
      ensures e == old(queuedEvents[eventQueueCurrent][0]) && Full() == Pop(old(Full()))
    {
      var c := eventQueueCurrent;
      e := queuedEvents[c][0];
      if e.kind.Sync? { ticketNum := ticketNum + 1; }
      if e.kind.BarrierEvent? { barrierNum := barrierNum + 1; }
      queuedEvents := queuedEvents[c := queuedEvents[c][1..]];
      currentQueuedCount := currentQueuedCount - 1;
      returned := returned + [e];
      if e.kind.Sync? || e.kind.BarrierEvent? { Rewind(); }
    }

    /** A queue that cannot provide the next event is passed over. */
    method PassOver(e: Event, currMin: nat) returns (stop: bool, currMin': nat)
      requires eventQueueCurrent in queuedEvents && queuedEvents[eventQueueCurrent] != []
      requires e == queuedEvents[eventQueueCurrent][0]
      modifies this`eventQueueCurrent, this`resetMinTicket, this`minQueuedTicket
      ensures Full() == Pass(old(Full()), currMin)
      ensures currMin' == CurrMin(e, currMin) && (stop <==> Later(queuedEvents, old(eventQueueCurrent)) == {})
    {
      var more := Advance();
      currMin' := if e.kind.Sync? && e.kind.ticket < currMin then e.kind.ticket else currMin;
      stop := !more;
      if stop {
        if resetMinTicket {
          resetMinTicket := false;
          if e.kind.Sync? { minQueuedTicket := currMin'; }
        } else {
          resetMinTicket := true;
          if e.kind.Sync? { minQueuedTicket := 0; }
        }
        Rewind();
      }
    }

    /** The first loop: an event that one of the queues can provide. */
    method FromQueues() returns (r: Option<Event>)
      requires Placed(Full())
      modifies this
      ensures MergeScan.Step(r, Full()) == Scan(old(Full()), NoTicket)
    {
      var currMinTicket := 0xFFFF_FFFF_FFFF_FFFF;
      r := None;
      while queuedEvents != map[]
        invariant Placed(Full()) && r == None && Scan(Full(), currMinTicket) == Scan(old(Full()), NoTicket)
        decreases |queuedEvents|, |Later(queuedEvents, eventQueueCurrent)|
      {
        if ticketNum < minQueuedTicket && !resetMinTicket { return; }
        if queuedEvents[eventQueueCurrent] == [] {
          DropCurrent();
          continue;
        }
        var event := queuedEvents[eventQueueCurrent][0];
        if Due(event, ticketNum, barrierNum) {
          var e := PopCurrent();
          return Some(e);
        }
        ghost var before := eventQueueCurrent;
        var stop;
        stop, currMinTicket := PassOver(event, currMinTicket);
        if stop { return; }
        LaterFewer(queuedEvents, before);
      }
    }

    /** The event read is put into the queue of its context. */
    method PushQueued()
      requires at < |all|
      modifies this`queuedEvents, this`at, this`currentQueuedCount
      ensures Full() == old(Full()).(s := ReadQueued(all, old(Now())))
    {
      var e := all[at];
      queuedEvents := queuedEvents[e.ctx := QueueOf(queuedEvents, e.ctx) + [e]];
      currentQueuedCount := currentQueuedCount + 1;
      at := at + 1;
    }

    method PushHeld()
      requires at < |all|
      modifies this`waitingEvents, this`at
      ensures Full() == old(Full()).(s := ReadHeld(all, old(Now())))
    {
      var e := all[at];
      waitingEvents := waitingEvents[e.ctx := Held(HeldOf(waitingEvents, e.ctx) + [e])];
      at := at + 1;
    }

    /** The event read is returned at once. */
    method TakeRead(clear: bool) returns (e: Event)
      requires at < |all|
      modifies this
      ensures e == all[old(at)] && Full() == old(Full()).(s := ReadReturned(all, old(Now()), clear))
    {
      e := all[at];
      if clear { waitingEvents := waitingEvents - {e.ctx}; }
      if e.kind.Sync? { ticketNum := ticketNum + 1; }
      if e.kind.BarrierEvent? { barrierNum := barrierNum + 1; }
      at := at + 1;
      returned := returned + [e];
    }

    /** The second loop: events of contexts that have a queue, or are held back, join the others. */
    method SkipKept()
      modifies this`queuedEvents, this`waitingEvents, this`at, this`currentQueuedCount
      ensures Full() == Skip(all, old(Full()))
    {
      while at < |all|
        invariant Skip(all, Full()) == Skip(all, old(Full()))
        decreases |all| - at
      {
        var e := all[at];
        if e.ctx in queuedEvents {
          PushQueued();
        } else if e.ctx in waitingEvents && waitingEvents[e.ctx].Held? {
          PushHeld();
        } else {
          return;
        }
      }
    }

    /** The event read is returned, or gets a place to wait in.  One that waits for its number makes the next
        search begin at the first queue with the hint off; nothing else changes the hint. */
    method Place() returns (r: Option<Event>)
      requires at < |all|
      modifies this
      ensures MergeScan.Step(r, Full()) == MergeScan.Place(all, old(Full()))
      ensures var kind := all[old(at)].kind;
              var early := (kind.Sync? && kind.ticket > ticketNum) || (kind.BarrierEvent? && kind.num > barrierNum);
              && minQueuedTicket == (if early && kind.Sync? then 0 else old(minQueuedTicket))
              && resetMinTicket == (early || old(resetMinTicket)) && (early ==> r == None && AtFirst(Full()))
    {
      var event := all[at];
      r := None;
      if event.kind == Create(true) {
        if event.ctx in waitingEvents {
          var e := TakeRead(true);
          r := Some(e);
        } else {
          PushHeld();
        }
      } else if (event.kind.Sync? && event.kind.ticket > ticketNum)
             || (event.kind.BarrierEvent? && event.kind.num > barrierNum) {
        PushQueued();
        resetMinTicket := true;
        if event.kind.Sync? { minQueuedTicket := 0; }
        Rewind();
      } else {
        var e := TakeRead(false);
        r := Some(e);
      }
    }

    /** The next event.  None only with the file read; if the call began with a full scan, or with every
        queue blocked, only with every queue blocked. */
    method GetNextContechEvent() returns (r: Option<Event>)
      requires Valid()
      modifies this
      ensures Valid() && MergeScan.Step(r, Full()) == Get(all, old(Full()))
      ensures readied == old(readied) && returned == old(returned) + (if r.Some? then [r.value] else [])
      ensures r == None ==> at == |all|
      ensures r == None && (Fresh(old(Full())) || Settled(old(Full()))) ==> Settled(Full())
    {
      GetGood(all, Full());
      ghost var m := Full();
      r := NextEvent();
      if r == None && (Fresh(m) || Settled(m)) { NoneSettled(all, m); }
    }

    method NextEvent() returns (r: Option<Event>)
      requires Placed(Full())
      modifies this
      ensures MergeScan.Step(r, Full()) == Get(all, old(Full()))
      decreases |all| - at
    {
      ScanReads(Full(), NoTicket);
      r := FromQueues();
      if r.Some? { return; }
      SkipKept();
      if at >= |all| { return None; }
      r := Place();
      if r == None { r := NextEvent(); }
    }

    /** The creator of the context has been seen; it must not be told twice before the context starts. */
    method ReadyEvents(context: nat)
      requires Valid() && (context in waitingEvents ==> waitingEvents[context].Held?)
      modifies this
      ensures Valid() && Full() == Ready(old(Full()), context)
      ensures readied == old(readied) + {context} && returned == old(returned) && at == old(at)
    {
      ReadyGood(all, Full(), context);
      MoveHeld(context);
    }

    method MoveHeld(context: nat)
      modifies this
      ensures Full() == Ready(old(Full()), context)
    {
      readied := readied + {context};
      if context in waitingEvents && waitingEvents[context].Held? {
        var events := waitingEvents[context].events;
        currentQueuedCount := currentQueuedCount + |events|;
        queuedEvents := queuedEvents[context := events];
        waitingEvents := waitingEvents - {context};
        Rewind();
      } else {
        waitingEvents := waitingEvents[context := Marker];
      }
    }
  }
}
