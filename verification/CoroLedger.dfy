/** The operations of the queue as whole entries: which handlers are posted, in which order
    and with what, and what becomes of each request.
  */
module CoroLedger {
  import opened CoroHistory
  import opened CoroQueue

  lemma {:induction false} SkipsInFull<T>(h: History<T>, n: nat)
    ensures Skips(h, n) == h.(settled := h.settled + seq(n, i => Skipped))
    decreases n
  {
    SkipsStep(h, n);
    if n == 0 {
      assert h.settled + [] == h.settled;
    } else {
      SkipsInFull(h.Skip(), n - 1);
      assert h.settled + [Skipped] + seq(n - 1, i => Skipped) == h.settled + seq(n, i => Skipped);
    }
  }

  /** What one async_wait is told. */
  function Told<T>(wait: nat, ready: bool): Post<T> {
    if ready then Ready(wait) else WaitCanceled(wait)
  }

  /** Every async_wait is told, in the order they came. */
  lemma {:induction false} AnswersInFull<T>(h: History<T>, waits: seq<nat>, ready: bool)
    ensures Answers(h, waits, ready) ==
      h.(posted := h.posted + seq(|waits|, i requires 0 <= i < |waits| => Told(waits[i], ready)))
    decreases |waits|
  {
    if waits == [] {
      NoAnswers(h, waits, ready);
      assert h.posted + [] == h.posted;
    } else {
      var others := waits[1..];
      AnswersInFull(h.Answer(waits[0], ready), others, ready);
      assert h.posted + [Told(waits[0], ready)]
          + seq(|others|, i requires 0 <= i < |others| => Told(others[i], ready))
        == h.posted + seq(|waits|, i requires 0 <= i < |waits| => Told(waits[i], ready));
    }
  }

  /** A push that finds a live waiter: the async_waits hear of it, then this waiter gets the value;
      those before it had timed out, and nothing is posted for them. */
  lemma {:induction false} PushServes<T>(h: History<T>, waits: seq<nat>, handlers: seq<Waiter>, value: T)
    requires InOrder(handlers, |h.settled|) && FirstLive(handlers) < |handlers|
    ensures var k := FirstLive(handlers);
      Skips(Answers(h, waits, true), k).Push(value).Give(value) ==
        History(
          h.posted + seq(|waits|, i requires 0 <= i < |waits| => Ready(waits[i])) + [Value(handlers[k].ticket, value)],
          h.settled + seq(k, i => Skipped) + [Served(value)],
          h.pushed + [value], h.fates + [Given(value, handlers[k].ticket)], h.waits)
  {
    hide Skips, Answers, FirstLive;
    AnswersInFull(h, waits, true);
    SkipsInFull(Answers(h, waits, true), FirstLive(handlers));
    assert seq(|waits|, i requires 0 <= i < |waits| => Told<T>(waits[i], true))
        == seq(|waits|, i requires 0 <= i < |waits| => Ready(waits[i]));
  }

  /** A push that finds none keeps the value; it is posted to nobody. */
  lemma {:induction false} PushKeeps<T>(h: History<T>, waits: seq<nat>, k: nat, value: T)
    ensures Skips(Answers(h, waits, true), k).Push(value) ==
      History(
        h.posted + seq(|waits|, i requires 0 <= i < |waits| => Ready(waits[i])),
        h.settled + seq(k, i => Skipped), h.pushed + [value], h.fates, h.waits)
  {
    hide Skips, Answers;
    AnswersInFull(h, waits, true);
    SkipsInFull(Answers(h, waits, true), k);
    assert seq(|waits|, i requires 0 <= i < |waits| => Told<T>(waits[i], true))
        == seq(|waits|, i requires 0 <= i < |waits| => Ready(waits[i]));
  }

  /** The waiters that hear of a cancellation. */
  function LivePosts<T>(handlers: seq<Waiter>): seq<Post<T>>
    reads handlers
  {
    if handlers == [] then []
    else (if handlers[0].timedOut then [] else [PopCanceled(handlers[0].ticket)]) + LivePosts(handlers[1..])
  }

  /** What becomes of the requests that wait. */
  function Settlings<T>(handlers: seq<Waiter>): (r: seq<Outcome<T>>)
    reads handlers
    ensures |r| == |handlers|
    ensures forall i :: 0 <= i < |r| ==> r[i] == if handlers[i].timedOut then Skipped else Canceled
  {
    if handlers == [] then []
    else [if handlers[0].timedOut then Skipped else Canceled] + Settlings(handlers[1..])
  }

  /** A cancellation settles every waiter; the live ones hear of it, in order. */
  lemma {:induction false} CancelsInFull<T>(h: History<T>, handlers: seq<Waiter>)
    requires InOrder(handlers, |h.settled|)
    ensures Cancels(h, handlers) ==
      h.(posted := h.posted + LivePosts(handlers), settled := h.settled + Settlings(handlers))
    decreases |handlers|
  {
    hide Cancels, History.Skip, History.CancelPop;
    if handlers == [] {
      NoCancels(h, handlers);
      assert h.posted + [] == h.posted && h.settled + [] == h.settled;
    } else {
      CancelsStep(h, handlers);
      OneSettled(h, handlers[0]);
      CancelsInFull(if handlers[0].timedOut then h.Skip() else h.CancelPop(), handlers[1..]);
      Regroup(h.posted, if handlers[0].timedOut then [] else [PopCanceled(handlers[0].ticket)], LivePosts(handlers[1..]));
      Regroup(h.settled, [if handlers[0].timedOut then Skipped else Canceled], Settlings(handlers[1..]));
    }
  }

  lemma OneSettled<T>(h: History<T>, w: Waiter)
    requires w.ticket == |h.settled|
    ensures (if w.timedOut then h.Skip() else h.CancelPop()) ==
      h.(posted := h.posted + (if w.timedOut then [] else [PopCanceled(w.ticket)]),
         settled := h.settled + [if w.timedOut then Skipped else Canceled])
  {
    assert h.posted + [] == h.posted;
  }

  lemma Regroup<X>(a: seq<X>, b: seq<X>, c: seq<X>)
    ensures a + b + c == a + (b + c)
  {
  }
}
