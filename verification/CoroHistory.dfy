/** What has happened to the requests and values of an async_coro_queue.

    Requests are numbered in the order they are made.  The three ledgers of a history,
    what was posted to the io_service, what became of each request and what became of
    each value, have to tell the same story; every operation of the queue is one of the
    entries below.
  */
module CoroHistory {
  datatype Post<T> =
    | Value(ticket: nat, value: T) | PopCanceled(ticket: nat)
    | Ready(wait: nat) | WaitCanceled(wait: nat)

  /** What became of an async_pop. */
  datatype Outcome<T> = Served(value: T) | Canceled | Skipped

  /** What became of a value: it went to a request, or clear dropped it. */
  datatype Fate<T> = Given(value: T, ticket: nat) | Dropped(value: T)

  datatype History<T> = History(
    /** Everything posted, in order. */
    posted: seq<Post<T>>,
    /** settled[i] is what became of request i. */
    settled: seq<Outcome<T>>,
    /** Everything pushed, in order, and what became of it. */
    pushed: seq<T>, fates: seq<Fate<T>>,
    /** How many async_waits there were. */
    waits: nat)
  {
    /** The oldest unsettled request gets a value. */
    function Give(value: T): History<T> {
      this.(posted := posted + [Value(|settled|, value)], settled := settled + [Served(value)],
        fates := fates + [Given(value, |settled|)])
    }

    function Push(value: T): History<T> {
      this.(pushed := pushed + [value])
    }

    /** The oldest unsettled request had timed out. */
    function Skip(): History<T> {
      this.(settled := settled + [Skipped])
    }

    function CancelPop(): History<T> {
      this.(posted := posted + [PopCanceled(|settled|)], settled := settled + [Canceled])
    }

    function Wait(): History<T> {
      this.(waits := waits + 1)
    }

    function Answer(wait: nat, ready: bool): History<T> {
      this.(posted := posted + [if ready then Ready(wait) else WaitCanceled(wait)])
    }

    function Drop(values: seq<T>): History<T> {
      this.(fates := fates + seq(|values|, i requires 0 <= i < |values| => Dropped(values[i])))
    }
  }

  function Values<T>(fates: seq<Fate<T>>): (vs: seq<T>)
    ensures |vs| == |fates|
  {
    seq(|fates|, i requires 0 <= i < |fates| => fates[i].value)
  }

  // Deliveries as (request, value) in the order they were made, by each of the ledgers.

  function PostedValues<T>(posted: seq<Post<T>>): seq<(nat, T)> {
    if posted == [] then []
    else
      var p := posted[|posted| - 1];
      PostedValues(posted[..|posted| - 1]) + (if p.Value? then [(p.ticket, p.value)] else [])
  }

  function ServedValues<T>(settled: seq<Outcome<T>>): seq<(nat, T)> {
    if settled == [] then []
    else
      var k: nat := |settled| - 1;
      ServedValues(settled[..k]) + (if settled[k].Served? then [(k, settled[k].value)] else [])
  }

  function GivenValues<T>(fates: seq<Fate<T>>): seq<(nat, T)> {
    if fates == [] then []
    else
      var f := fates[|fates| - 1];
      GivenValues(fates[..|fates| - 1]) + (if f.Given? then [(f.ticket, f.value)] else [])
  }

  function CancelPosts<T>(posted: seq<Post<T>>): seq<nat> {
    if posted == [] then []
    else
      var p := posted[|posted| - 1];
      CancelPosts(posted[..|posted| - 1]) + (if p.PopCanceled? then [p.ticket] else [])
  }

  function CanceledRequests<T>(settled: seq<Outcome<T>>): seq<nat> {
    if settled == [] then []
    else
      var k: nat := |settled| - 1;
      CanceledRequests(settled[..k]) + (if settled[k].Canceled? then [k] else [])
  }

  function AnsweredWaits<T>(posted: seq<Post<T>>): seq<nat> {
    if posted == [] then []
    else
      var p := posted[|posted| - 1];
      AnsweredWaits(posted[..|posted| - 1]) + (if p.Ready? || p.WaitCanceled? then [p.wait] else [])
  }

  function UpTo(n: nat): (s: seq<nat>)
    ensures |s| == n && forall i :: 0 <= i < n ==> s[i] == i
  {
    seq(n, i => i)
  }

  /** The ledgers agree, given the values still in the list and the waits still pending. */
  predicate Sound<T(==)>(h: History<T>, list: seq<T>, waiting: seq<nat>) {
    && h.pushed == Values(h.fates) + list
    && PostedValues(h.posted) == ServedValues(h.settled) == GivenValues(h.fates)
    && CancelPosts(h.posted) == CanceledRequests(h.settled)
    && AnsweredWaits(h.posted) + waiting == UpTo(h.waits)
  }

  lemma Posted<T>(posted: seq<Post<T>>, p: Post<T>)
    ensures PostedValues(posted + [p]) == PostedValues(posted) + (if p.Value? then [(p.ticket, p.value)] else [])
    ensures CancelPosts(posted + [p]) == CancelPosts(posted) + (if p.PopCanceled? then [p.ticket] else [])
    ensures AnsweredWaits(posted + [p]) == AnsweredWaits(posted) + (if p.Ready? || p.WaitCanceled? then [p.wait] else [])
  {
    assert (posted + [p])[..|posted|] == posted;
  }

  lemma Settled<T>(settled: seq<Outcome<T>>, o: Outcome<T>)
    ensures ServedValues(settled + [o]) == ServedValues(settled) + (if o.Served? then [(|settled|, o.value)] else [])
    ensures CanceledRequests(settled + [o]) == CanceledRequests(settled) + (if o.Canceled? then [|settled|] else [])
  {
    assert (settled + [o])[..|settled|] == settled;
  }

  lemma Gone<T>(fates: seq<Fate<T>>, f: Fate<T>)
    ensures GivenValues(fates + [f]) == GivenValues(fates) + (if f.Given? then [(f.ticket, f.value)] else [])
    ensures Values(fates + [f]) == Values(fates) + [f.value]
  {
    assert (fates + [f])[..|fates|] == fates;
  }

  lemma {:induction false} NothingYet<T>(h: History<T>)
    requires h == History([], [], [], [], 0)
    ensures Sound(h, [], [])
  {
  }

  lemma {:induction false} GiveFirst<T>(h: History<T>, list: seq<T>, waiting: seq<nat>)
    requires Sound(h, list, waiting) && list != []
    ensures Sound(h.Give(list[0]), list[1..], waiting)
  {
    Posted(h.posted, Value(|h.settled|, list[0]));
    Settled(h.settled, Served(list[0]));
    Gone(h.fates, Given(list[0], |h.settled|));
    hide PostedValues, ServedValues, GivenValues, CancelPosts, CanceledRequests, AnsweredWaits, Values, UpTo;
    assert Values(h.fates) + list == Values(h.fates) + [list[0]] + list[1..];
  }

  lemma {:induction false} PushOne<T>(h: History<T>, list: seq<T>, waiting: seq<nat>, value: T)
    requires Sound(h, list, waiting)
    ensures Sound(h.Push(value), list + [value], waiting)
  {
    hide PostedValues, ServedValues, GivenValues, CancelPosts, CanceledRequests, AnsweredWaits, Values, UpTo;
    assert Values(h.fates) + list + [value] == Values(h.fates) + (list + [value]);
  }

  /** A value that goes straight to a waiter. */
  lemma {:induction false} PushAndGive<T>(h: History<T>, waiting: seq<nat>, value: T)
    requires Sound(h, [], waiting)
    ensures Sound(h.Push(value).Give(value), [], waiting)
  {
    hide Sound;
    PushOne(h, [], waiting, value);
    GiveFirst(h.Push(value), [] + [value], waiting);
    assert ([] + [value])[1..] == [];
  }

  lemma {:induction false} SkipOne<T>(h: History<T>, list: seq<T>, waiting: seq<nat>)
    requires Sound(h, list, waiting)
    ensures Sound(h.Skip(), list, waiting)
  {
    hide PostedValues, ServedValues, GivenValues, CancelPosts, CanceledRequests, AnsweredWaits, Values, UpTo;
    Settled(h.settled, Skipped);
  }

  lemma {:induction false} CancelOne<T>(h: History<T>, list: seq<T>, waiting: seq<nat>)
    requires Sound(h, list, waiting)
    ensures Sound(h.CancelPop(), list, waiting)
  {
    hide PostedValues, ServedValues, GivenValues, CancelPosts, CanceledRequests, AnsweredWaits, Values, UpTo;
    Settled(h.settled, Canceled);
    Posted(h.posted, PopCanceled(|h.settled|));
  }

  lemma {:induction false} WaitOne<T>(h: History<T>, list: seq<T>, waiting: seq<nat>)
    requires Sound(h, list, waiting)
    ensures Sound(h.Wait(), list, waiting + [h.waits])
  {
    hide PostedValues, ServedValues, GivenValues, CancelPosts, CanceledRequests, AnsweredWaits, Values;
    assert UpTo(h.waits + 1) == UpTo(h.waits) + [h.waits];
    assert AnsweredWaits(h.posted) + waiting + [h.waits] == AnsweredWaits(h.posted) + (waiting + [h.waits]);
  }

  lemma {:induction false} AnswerOne<T>(h: History<T>, list: seq<T>, waiting: seq<nat>, ready: bool)
    requires Sound(h, list, waiting) && waiting != []
    ensures Sound(h.Answer(waiting[0], ready), list, waiting[1..])
  {
    hide PostedValues, ServedValues, GivenValues, CancelPosts, CanceledRequests, AnsweredWaits, Values, UpTo;
    Posted(h.posted, if ready then Ready(waiting[0]) else WaitCanceled(waiting[0]));
    assert AnsweredWaits(h.posted) + waiting == AnsweredWaits(h.posted) + [waiting[0]] + waiting[1..];
  }

  lemma {:induction false} DropAll<T>(h: History<T>, list: seq<T>, waiting: seq<nat>)
    requires Sound(h, list, waiting)
    ensures Sound(h.Drop(list), [], waiting)
  {
    hide PostedValues, ServedValues, GivenValues, CancelPosts, CanceledRequests, AnsweredWaits, UpTo;
    NoneGiven(h.fates, list);
    assert Values(h.Drop(list).fates) == Values(h.fates) + list;
    assert Values(h.fates) + list + [] == Values(h.fates) + list;
  }

  lemma {:induction false} NoneGiven<T>(fates: seq<Fate<T>>, list: seq<T>)
    ensures GivenValues(fates + seq(|list|, i requires 0 <= i < |list| => Dropped(list[i]))) == GivenValues(fates)
  {
    var more := seq(|list|, i requires 0 <= i < |list| => Dropped(list[i]));
    if list == [] {
      assert fates + more == fates;
    } else {
      var front := list[..|list| - 1];
      var most := seq(|front|, i requires 0 <= i < |front| => Dropped(front[i]));
      NoneGiven(fates, front);
      assert fates + more == fates + most + [Dropped(list[|list| - 1])];
      Gone(fates + most, Dropped(list[|list| - 1]));
    }
  }

  /** Deliveries are made in the order of the requests. */
  lemma {:induction false} ServedInOrder<T>(settled: seq<Outcome<T>>)
    ensures forall i :: 0 <= i < |ServedValues(settled)| ==> ServedValues(settled)[i].0 < |settled|
    ensures forall i, j :: 0 <= i < j < |ServedValues(settled)| ==> ServedValues(settled)[i].0 < ServedValues(settled)[j].0
  {
    if settled != [] {
      ServedInOrder(settled[..|settled| - 1]);
    }
  }

  /** What a sound history means to the users of the queue: deliveries come in the order
      of the requests, carry the pushed values in the order they were pushed, and miss
      only values that clear dropped or that are still in the list. */
  lemma {:induction false} DeliveriesInOrder<T>(h: History<T>, list: seq<T>, waiting: seq<nat>)
    requires Sound(h, list, waiting)
    ensures var d := PostedValues(h.posted);
      && (forall i, j :: 0 <= i < j < |d| ==> d[i].0 < d[j].0)
      && ((forall f :: f in h.fates ==> f.Given?) ==> h.pushed == Seconds(d) + list)
  {
    hide PostedValues, CancelPosts, CanceledRequests, AnsweredWaits, UpTo;
    ServedInOrder(h.settled);
    if forall f :: f in h.fates ==> f.Given? {
      AllGiven(h.fates);
    }
  }

  function Seconds<T>(d: seq<(nat, T)>): seq<T> {
    seq(|d|, i requires 0 <= i < |d| => d[i].1)
  }

  lemma {:induction false} AllGiven<T>(fates: seq<Fate<T>>)
    requires forall f :: f in fates ==> f.Given?
    ensures Seconds(GivenValues(fates)) == Values(fates)
  {
    if fates != [] {
      var front := fates[..|fates| - 1];
      forall f | f in front ensures f.Given? {
        assert f in fates;
      }
      AllGiven(front);
      assert fates[|fates| - 1] in fates;
      assert Values(fates) == Values(front) + [fates[|fates| - 1].value];
    }
  }
}
