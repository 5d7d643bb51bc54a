/** async_coro_queue.hpp: the queue where coroutines wait for values.

    Posting a handler to the io_service is an entry in the history.  A waiter's flag is
    the one it shares with its timer, which may set it at any time; the timer's own
    posting is not part of this model.
  */
module CoroQueue {
  import opened CoroHistory

  class Waiter {
    /** The number of this async_pop. */
    const ticket: nat
    var timedOut: bool

    constructor (ticket: nat)
      ensures this.ticket == ticket && !timedOut
    {
      this.ticket := ticket;
      timedOut := false;
    }

    /** The timer fires. */
    method TimeOut()
      modifies this
      ensures timedOut
    {
      timedOut := true;
    }
  }

  /** The waiters are the requests from the first unsettled one on, in order. */
  predicate InOrder(handlers: seq<Waiter>, settled: nat) {
    forall j :: 0 <= j < |handlers| ==> handlers[j].ticket == settled + j
  }

  /** The first waiter whose flag is not set, or none. */
  function FirstLive(handlers: seq<Waiter>): (k: nat)
    reads handlers
    ensures k <= |handlers|
    ensures forall i :: 0 <= i < k ==> handlers[i].timedOut
    ensures k < |handlers| ==> !handlers[k].timedOut
  {
    if handlers == [] || !handlers[0].timedOut then 0 else 1 + FirstLive(handlers[1..])
  }

  function Skips<T>(h: History<T>, n: nat): History<T>
    decreases n
  {
    if n == 0 then h else Skips(h.Skip(), n - 1)
  }

  function Answers<T>(h: History<T>, waits: seq<nat>, ready: bool): History<T>
    decreases |waits|
  {
    if waits == [] then h else Answers(h.Answer(waits[0], ready), waits[1..], ready)
  }

  /** Every waiter is told, except those whose flag is set. */
  function Cancels<T>(h: History<T>, handlers: seq<Waiter>): History<T>
    reads handlers
    decreases |handlers|
  {
    if handlers == [] then h
    else Cancels(if handlers[0].timedOut then h.Skip() else h.CancelPop(), handlers[1..])
  }

  class Queue<T(!new,==)> {
    var list: seq<T>
    var handlers: seq<Waiter>
    /** Waiting async_waits, by number. */
    var waitHandlers: seq<nat>
    var tickets: nat
    var waits: nat
    ghost var history: History<T>

    ghost predicate Valid()
      reads this
    {
      && (list == [] || handlers == [])
      && (waitHandlers != [] ==> list == [])
      && tickets == |history.settled| + |handlers| && waits == history.waits
      && InOrder(handlers, |history.settled|)
      && Sound(history, list, waitHandlers)
    }

    constructor ()
      ensures Valid() && list == [] && handlers == [] && waitHandlers == []
      ensures history == History([], [], [], [], 0)
    {
      list, handlers, waitHandlers, tickets, waits := [], [], [], 0, 0;
      history := History([], [], [], [], 0);
      NothingYet<T>(History([], [], [], [], 0));
    }

    /** async_pop without a timeout. */
    method AsyncPop() returns (waiter: Waiter)
      requires Valid()
      modifies this
      ensures Valid() && fresh(waiter) && waiter.ticket == old(tickets) && waitHandlers == old(waitHandlers)
      ensures if old(list) == [] then
          handlers == old(handlers) + [waiter] && list == [] && history == old(history)
        else
          handlers == [] && list == old(list[1..]) && history == old(history.Give(list[0]))
    {
      hide Sound;
      waiter := new Waiter(tickets);
      tickets := tickets + 1;
      if list == [] {
        handlers := handlers + [waiter];
      } else {
        GiveFirst(history, list, waitHandlers);
        history := history.Give(list[0]);
        list := list[1..];
      }
    }

    method AsyncWait() returns (wait: nat)
      requires Valid()
      modifies this
      ensures Valid() && wait == old(waits) && list == old(list) && handlers == old(handlers)
      ensures if list == [] then
          waitHandlers == old(waitHandlers) + [wait] && history == old(history.Wait())
        else
          waitHandlers == [] && history == old(history.Wait()).Answer(wait, true)
    {
      hide Sound;
      wait := waits;
      waits := waits + 1;
      WaitOne(history, list, waitHandlers);
      history := history.Wait();
      if list == [] {
        waitHandlers := waitHandlers + [wait];
      } else {
        assert [] + [wait] == [wait] && [wait][1..] == [];
        AnswerOne(history, list, [wait], true);
        history := history.Answer(wait, true);
      }
    }

    /** Tells every waiting async_wait that there is a value, or that it is cancelled. */
    method AnswerWaits(ready: bool)
      requires Valid()
      modifies `history, `waitHandlers
      ensures Valid() && waitHandlers == []
      ensures history == Answers(old(history), old(waitHandlers), ready)
      ensures history.settled == old(history.settled) && history.fates == old(history.fates)
      ensures history.pushed == old(history.pushed)
    {
      hide Sound, InOrder, Answers;
      var i := 0;
      assert waitHandlers[0..] == waitHandlers;
      while i < |waitHandlers|
        invariant 0 <= i <= |waitHandlers| && waitHandlers == old(waitHandlers) && waits == history.waits
        invariant history.settled == old(history.settled) && history.fates == old(history.fates)
        invariant history.pushed == old(history.pushed)
        invariant Sound(history, list, waitHandlers[i..])
        invariant Answers(history, waitHandlers[i..], ready) == Answers(old(history), old(waitHandlers), ready)
      {
        AnswerOne(history, list, waitHandlers[i..], ready);
        AnswersStep(history, waitHandlers, i, ready);
        history := history.Answer(waitHandlers[i], ready);
        i := i + 1;
      }
      NoAnswers(history, waitHandlers[i..], ready);
      waitHandlers := [];
    }

    /** The oldest waiter gets the value. */
    method ServeFront(value: T)
      requires Valid() && handlers != [] && waitHandlers == []
      modifies `history, `handlers
      ensures Valid() && handlers == old(handlers[1..]) && history == old(history.Push(value)).Give(value)
    {
      hide Sound;
      PushAndGive(history, [], value);
      history := history.Push(value).Give(value);
      handlers := handlers[1..];
    }

    /** The oldest waiter has timed out. */
    method SkipFront()
      requires Valid() && handlers != []
      modifies `history, `handlers
      ensures Valid() && handlers == old(handlers[1..]) && history == old(history.Skip())
    {
      hide Sound;
      SkipOne(history, list, waitHandlers);
      history := history.Skip();
      handlers := handlers[1..];
    }

    /** A waiter whose flag is set is passed over, and the value offered to the next. */
    method Push(value: T)
      requires Valid()
      modifies this
      ensures Valid() && waitHandlers == [] && tickets == old(tickets) && waits == old(waits)
      ensures var k := old(FirstLive(handlers));
        var h := Skips(Answers(old(history), old(waitHandlers), true), k);
        if k < old(|handlers|) then
          handlers == old(handlers[k + 1..]) && list == [] && history == h.Push(value).Give(value)
        else
          handlers == [] && list == old(list) + [value] && history == h.Push(value)
      decreases |handlers|, 1
    {
      hide Sound, Answers, Skips, FirstLive, InOrder;
      if waitHandlers != [] {
        AnswerWaits(true);
      } else {
        NoAnswers(history, waitHandlers, true);
      }
      Offer(value);
    }

    /** What push does once the async_waits are told. */
    method Offer(value: T)
      requires Valid() && waitHandlers == []
      modifies this
      ensures Valid() && waitHandlers == [] && tickets == old(tickets) && waits == old(waits)
      ensures var k := old(FirstLive(handlers));
        var h := Skips(old(history), k);
        if k < old(|handlers|) then
          handlers == old(handlers[k + 1..]) && list == [] && history == h.Push(value).Give(value)
        else
          handlers == [] && list == old(list) + [value] && history == h.Push(value)
      decreases |handlers|, 0
    {
      hide Sound, Answers, Skips, FirstLive, InOrder;
      FirstLiveStep(handlers);
      ghost var k := FirstLive(handlers);
      SkipsStep(history, k);
      if handlers != [] {
        var front := handlers[0];
        if !front.timedOut {
          ServeFront(value);
        } else {
          SkipFront();
          NoAnswers(history, [], true);
          assert k < old(|handlers|) ==> old(handlers)[1..][k..] == old(handlers)[k + 1..];
          Push(value);
        }
      } else {
        PushOne(history, list, waitHandlers, value);
        history := history.Push(value);
        list := list + [value];
      }
    }

    /** Waiting async_waits are cancelled only if some async_pop waits too. */
    method Cancele()
      requires Valid()
      modifies this
      ensures Valid() && handlers == [] && list == old(list) && tickets == old(tickets) && waits == old(waits)
      ensures if old(handlers) == [] then
          waitHandlers == old(waitHandlers) && history == old(history)
        else
          waitHandlers == [] &&
          history == Cancels(Answers(old(history), old(waitHandlers), false), old(handlers))
    {
      hide Sound, Answers, Cancels;
      if handlers != [] {
        AnswerWaits(false);
      }
      while handlers != []
        invariant Valid() && list == old(list) && tickets == old(tickets) && waits == old(waits)
        invariant old(handlers) != [] ==> waitHandlers == []
        invariant old(handlers) == [] ==> waitHandlers == old(waitHandlers) && handlers == [] && history == old(history)
        invariant old(handlers) != [] ==>
          Cancels(history, handlers) == Cancels(Answers(old(history), old(waitHandlers), false), old(handlers))
        decreases |handlers|
      {
        CancelsStep(history, handlers);
        if !handlers[0].timedOut {
          CancelOne(history, list, waitHandlers);
          history := history.CancelPop();
        } else {
          SkipOne(history, list, waitHandlers);
          history := history.Skip();
        }
        handlers := handlers[1..];
      }
      NoCancels(history, handlers);
    }

    method Clear()
      requires Valid()
      modifies this
      ensures Valid() && list == [] && handlers == []
      ensures waitHandlers == if old(handlers) == [] then old(waitHandlers) else []
      ensures old(handlers) == [] ==> history == old(history).Drop(old(list))
      ensures old(handlers) != [] ==>
        history == Cancels(Answers(old(history), old(waitHandlers), false), old(handlers)).Drop(old(list))
    {
      hide Sound, Cancels, Answers;
      Cancele();
      DropAll(history, list, waitHandlers);
      history := history.Drop(list);
      list := [];
    }
  }

  lemma AnswersStep<T>(h: History<T>, waits: seq<nat>, i: nat, ready: bool)
    requires i < |waits|
    ensures Answers(h, waits[i..], ready) == Answers(h.Answer(waits[i], ready), waits[i + 1..], ready)
    ensures waits[i..][0] == waits[i] && waits[i..][1..] == waits[i + 1..]
  {
  }

  lemma NoAnswers<T>(h: History<T>, waits: seq<nat>, ready: bool)
    requires waits == []
    ensures Answers(h, waits, ready) == h
  {
  }

  lemma FirstLiveStep(handlers: seq<Waiter>)
    ensures FirstLive(handlers) ==
      if handlers == [] || !handlers[0].timedOut then 0 else 1 + FirstLive(handlers[1..])
  {
  }

  lemma SkipsStep<T>(h: History<T>, n: nat)
    ensures Skips(h, n) == if n == 0 then h else Skips(h.Skip(), n - 1)
  {
  }

  lemma CancelsStep<T>(h: History<T>, handlers: seq<Waiter>)
    requires handlers != []
    ensures Cancels(h, handlers) ==
      Cancels(if handlers[0].timedOut then h.Skip() else h.CancelPop(), handlers[1..])
  {
  }

  lemma NoCancels<T>(h: History<T>, handlers: seq<Waiter>)
    ensures handlers == [] ==> Cancels(h, handlers) == h
  {
  }
}
