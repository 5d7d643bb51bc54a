/** interthread_stream.hpp, its asynchronous half: a byte pipe between two coroutines.

    Each operation runs under the mutex, so it is one step.  What is posted to the
    io_service, or handed to a stored handler, is an event in the log.  As the header
    asks, there is at most one read and one write outstanding.  Nothing stops a write
    once the sending side is closed; such bytes are tracked apart.  Both closed flags
    start false.
  */
module Pipe {
  import opened Bytes

  datatype Event = Read(data: seq<Byte>) | Eof | Wrote(bytes: nat) | BrokenPipe

  /** Everything the log says was handed to readers. */
  ghost function Delivered(log: seq<Event>): seq<Byte> {
    if log == [] then []
    else
      var e := log[|log| - 1];
      Delivered(log[..|log| - 1]) + (if e.Read? then e.data else [])
  }

  ghost function ReadAnswers(log: seq<Event>): nat {
    if log == [] then 0
    else
      var e := log[|log| - 1];
      ReadAnswers(log[..|log| - 1]) + (if e.Read? || e.Eof? then 1 else 0)
  }

  ghost function WriteAnswers(log: seq<Event>): nat {
    if log == [] then 0
    else
      var e := log[|log| - 1];
      WriteAnswers(log[..|log| - 1]) + (if e.Wrote? || e.BrokenPipe? then 1 else 0)
  }

  /** What happened before the first end of file, where a reader stops. */
  ghost function UpToEof(log: seq<Event>): seq<Event> {
    if log == [] then []
    else
      var front := log[..|log| - 1];
      if Eof in front then UpToEof(front) else if log[|log| - 1] == Eof then front else log
  }

  /** The pipe as the two coroutines see it.  Of the written bytes, `late` are those written
      after the sending side was closed, and `unseen` those written after an end of file. */
  datatype State = State(
    buffer: seq<Byte>, reading: bool, writing: bool, writeClosed: bool,
    log: seq<Event>, written: seq<Byte>, late: seq<Byte>, unseen: seq<Byte>,
    readRequests: nat, writeRequests: nat)
  {
    function Happens(e: Event): State {
      this.(log := log + [e])
    }

    function Arrives(data: seq<Byte>): State {
      this.(buffer := buffer + data, written := written + data,
        late := late + (if writeClosed then data else []),
        unseen := unseen + (if Eof in log then data else []))
    }
  }

  /** Nothing is lost, doubled or reordered; every request is answered once or its
      coroutine is asleep; what comes before an end of file is all that was written by then. */
  ghost predicate Kept(s: State) {
    && s.written == Delivered(s.log) + s.buffer
    && s.readRequests == ReadAnswers(s.log) + (if s.reading then 1 else 0)
    && s.writeRequests == WriteAnswers(s.log) + (if s.writing then 1 else 0)
    && Ended(s)
  }

  ghost predicate Ended(s: State) {
    && (Eof in s.log ==> s.writeClosed && s.written == Delivered(UpToEof(s.log)) + s.unseen)
    && (Eof !in s.log || s.late == [] ==> s.unseen == [])
  }

  /** Who may sleep. */
  predicate Asleep(s: State) {
    && (s.reading ==> s.buffer == [] && !s.writeClosed)
    && (s.writing ==> |s.buffer| >= 512)
  }

  ghost predicate Sound(s: State) {
    Kept(s) && Asleep(s)
  }

  lemma Logged(log: seq<Event>, e: Event)
    ensures Delivered(log + [e]) == Delivered(log) + (if e.Read? then e.data else [])
    ensures ReadAnswers(log + [e]) == ReadAnswers(log) + (if e.Read? || e.Eof? then 1 else 0)
    ensures WriteAnswers(log + [e]) == WriteAnswers(log) + (if e.Wrote? || e.BrokenPipe? then 1 else 0)
    ensures Eof in log + [e] <==> (Eof in log || e == Eof)
    ensures UpToEof(log + [e]) == if Eof in log then UpToEof(log) else if e == Eof then log else log + [e]
  {
    assert (log + [e])[..|log|] == log;
  }

  /** Reader and writer are never both asleep. */
  lemma {:induction false} NotBothAsleep(s: State)
    requires Sound(s)
    ensures !(s.reading && s.writing)
  {
    hide Delivered, ReadAnswers, WriteAnswers, UpToEof;
  }

  /** Whoever stops at the end of file has seen everything that was ever written exactly
      when nothing was written after it; so it is if nothing is written once the sending
      side is closed. */
  lemma {:induction false} EofMeansAll(s: State)
    requires Sound(s) && Eof in s.log
    ensures Delivered(UpToEof(s.log)) == s.written <==> s.unseen == []
    ensures s.late == [] ==> Delivered(UpToEof(s.log)) == s.written
  {
    hide ReadAnswers, WriteAnswers, Delivered, UpToEof;
    var seen := Delivered(UpToEof(s.log));
    assert seen + [] == seen;
    assert |seen + s.unseen| == |seen| + |s.unseen|;
  }

  /** A write made after an end of file is one its reader never sees. */
  lemma {:induction false} LateIsMissed(s: State, data: seq<Byte>)
    requires Sound(s) && Eof in s.log && data != []
    ensures Kept(s.Arrives(data)) && Delivered(UpToEof(s.Arrives(data).log)) != s.Arrives(data).written
  {
    hide ReadAnswers, WriteAnswers, Delivered, UpToEof;
    DataArrives(s, data);
    var seen := Delivered(UpToEof(s.log));
    assert |seen + (s.unseen + data)| == |seen| + |s.unseen| + |data|;
  }

  // ---- Steps that keep the books ----

  lemma {:induction false} DataArrives(s: State, data: seq<Byte>)
    requires Kept(s)
    ensures Kept(s.Arrives(data))
  {
    hide Delivered, ReadAnswers, WriteAnswers, UpToEof;
    assert s.written + data == Delivered(s.log) + (s.buffer + data);
    var seen := Delivered(UpToEof(s.log));
    assert seen + s.unseen + data == seen + (s.unseen + data);
  }

  lemma {:induction false} WriterSleeps(s: State)
    requires Kept(s) && !s.writing
    ensures Kept(s.(writeRequests := s.writeRequests + 1, writing := true))
  {
    hide Delivered, ReadAnswers, WriteAnswers, UpToEof;
  }

  lemma {:induction false} WriteDone(s: State, n: nat)
    requires Kept(s)
    ensures Kept(s.(writeRequests := s.writeRequests + 1).Happens(Wrote(n)))
  {
    hide Delivered, ReadAnswers, WriteAnswers, UpToEof;
    Logged(s.log, Wrote(n));
  }

  lemma {:induction false} WriterAnswered(s: State, n: nat)
    requires Kept(s) && s.writing
    ensures Kept(s.(writing := false).Happens(Wrote(n)))
  {
    hide Delivered, ReadAnswers, WriteAnswers, UpToEof;
    Logged(s.log, Wrote(n));
  }

  lemma {:induction false} WriteRefused(s: State)
    requires Kept(s)
    ensures Kept(s.(writeRequests := s.writeRequests + 1).Happens(BrokenPipe))
  {
    hide Delivered, ReadAnswers, WriteAnswers, UpToEof;
    Logged(s.log, BrokenPipe);
  }

  lemma {:induction false} ReaderSleeps(s: State)
    requires Kept(s) && !s.reading
    ensures Kept(s.(readRequests := s.readRequests + 1, reading := true))
  {
    hide Delivered, ReadAnswers, WriteAnswers, UpToEof;
  }

  /** The reader gets n bytes from the front of the buffer. */
  lemma {:induction false} ReaderAnswered(s: State, n: nat)
    requires Kept(s) && s.reading && n <= |s.buffer|
    ensures Kept(s.(reading := false, buffer := s.buffer[n..]).Happens(Read(s.buffer[..n])))
  {
    hide Delivered, ReadAnswers, WriteAnswers, UpToEof;
    Logged(s.log, Read(s.buffer[..n]));
    assert Delivered(s.log) + s.buffer == Delivered(s.log) + s.buffer[..n] + s.buffer[n..];
  }

  lemma {:induction false} ReadDone(s: State, n: nat)
    requires Kept(s) && n <= |s.buffer|
    ensures Kept(s.(readRequests := s.readRequests + 1, buffer := s.buffer[n..]).Happens(Read(s.buffer[..n])))
  {
    hide Delivered, ReadAnswers, WriteAnswers, UpToEof;
    Logged(s.log, Read(s.buffer[..n]));
    assert Delivered(s.log) + s.buffer == Delivered(s.log) + s.buffer[..n] + s.buffer[n..];
  }

  lemma {:induction false} ReadEnds(s: State)
    requires Kept(s) && s.writeClosed && s.buffer == []
    ensures Kept(s.(readRequests := s.readRequests + 1).Happens(Eof))
  {
    hide Delivered, ReadAnswers, WriteAnswers, UpToEof;
    Logged(s.log, Eof);
  }

  lemma {:induction false} EndOfFile(s: State)
    requires Kept(s) && s.reading && s.writeClosed && s.buffer == []
    ensures Kept(s.(reading := false).Happens(Eof))
  {
    hide Delivered, ReadAnswers, WriteAnswers, UpToEof;
    Logged(s.log, Eof);
  }

  function Smaller(a: nat, b: nat): nat {
    if a < b then a else b
  }

  class Stream {
    var buffer: seq<Byte>
    var readHandler: bool
    var readBufferSize: nat
    var writeHandler: bool
    var bytesWritten: nat
    var readClosed: bool
    var writeClosed: bool
    ghost var log: seq<Event>
    ghost var written: seq<Byte>
    ghost var late: seq<Byte>
    ghost var unseen: seq<Byte>
    ghost var readRequests: nat
    ghost var writeRequests: nat

    ghost function Abstract(): State
      reads this
    {
      State(buffer, readHandler, writeHandler, writeClosed, log, written, late, unseen, readRequests, writeRequests)
    }

    ghost predicate Valid()
      reads this
    {
      Sound(Abstract())
    }

    constructor ()
      ensures Valid() && !readClosed && Abstract() == State([], false, false, false, [], [], [], [], 0, 0)
    {
      buffer, readHandler, readBufferSize, writeHandler, bytesWritten := [], false, 0, false, 0;
      readClosed, writeClosed := false, false;
      log, written, late, unseen, readRequests, writeRequests := [], [], [], [], 0, 0;
    }

    /** The sleeping reader gets what fits into its buffer. */
    method WakeReader()
      requires Kept(Abstract()) && readHandler
      modifies `buffer, `readHandler, `log
      ensures var n := old(Smaller(readBufferSize, |buffer|));
        Abstract() == old(Abstract().(reading := false, buffer := buffer[n..]).Happens(Read(buffer[..n])))
      ensures Kept(Abstract())
    {
      hide Kept;
      var n := Smaller(readBufferSize, |buffer|);
      ReaderAnswered(Abstract(), n);
      log := log + [Read(buffer[..n])];
      buffer := buffer[n..];
      readHandler := false;
    }

    method Store(data: seq<Byte>)
      requires Kept(Abstract())
      modifies `buffer, `written, `late, `unseen
      ensures Abstract() == old(Abstract()).Arrives(data) && Kept(Abstract())
    {
      hide Kept;
      DataArrives(Abstract(), data);
      late := late + (if writeClosed then data else []);
      unseen := unseen + (if Eof in log then data else []);
      buffer := buffer + data;
      written := written + data;
    }

    /** The writer sleeps on 512 bytes or more. */
    method SleepOrPost(n: nat)
      requires Kept(Abstract()) && !writeHandler
      modifies `writeHandler, `bytesWritten, `log, `writeRequests
      ensures Kept(Abstract())
      ensures |buffer| >= 512 ==>
        bytesWritten == n && Abstract() == old(Abstract().(writeRequests := writeRequests + 1, writing := true))
      ensures |buffer| < 512 ==>
        Abstract() == old(Abstract().(writeRequests := writeRequests + 1).Happens(Wrote(n)))
    {
      hide Kept;
      ghost var s := Abstract();
      writeRequests := writeRequests + 1;
      if |buffer| >= 512 {
        WriterSleeps(s);
        writeHandler, bytesWritten := true, n;
      } else {
        WriteDone(s, n);
        log := log + [Wrote(n)];
      }
    }

    method AsyncWriteSome(data: seq<Byte>)
      requires Valid() && !writeHandler
      modifies this
      ensures Valid() && readClosed == old(readClosed) && writeClosed == old(writeClosed)
      ensures readClosed ==>
        Abstract() == old(Abstract().(writeRequests := writeRequests + 1).Happens(BrokenPipe))
      ensures !readClosed ==>
        var all := old(buffer) + data;
        var n := old(if readHandler then Smaller(readBufferSize, |buffer| + |data|) else 0);
        && written == old(written) + data && buffer == all[n..]
        && late == old(late) + (if writeClosed then data else [])
        && unseen == old(unseen) + (if Eof in old(log) then data else [])
        && !readHandler && writeHandler == (|buffer| >= 512)
        && log == old(log) + (if old(readHandler) then [Read(all[..n])] else [])
             + (if |buffer| >= 512 then [] else [Wrote(|data|)])
    {
      hide Kept;
      if readClosed {
        WriteRefused(Abstract());
        writeRequests := writeRequests + 1;
        log := log + [BrokenPipe];
        return;
      }
      Store(data);
      if readHandler {
        WakeReader();
      }
      SleepOrPost(|data|);
    }

    method CondWakeWriter()
      requires Kept(Abstract())
      modifies `writeHandler, `log
      ensures Kept(Abstract())
      ensures Abstract() == if old(writeHandler) && |buffer| <= 512
        then old(Abstract().(writing := false).Happens(Wrote(bytesWritten))) else old(Abstract())
    {
      hide Kept;
      if writeHandler {
        if |buffer| <= 512 {
          WriterAnswered(Abstract(), bytesWritten);
          log := log + [Wrote(bytesWritten)];
          writeHandler := false;
        }
      }
    }

    method AsyncReadSome(size: nat)
      requires Valid() && !readHandler
      modifies this
      ensures Valid() && readClosed == old(readClosed) && writeClosed == old(writeClosed)
      ensures written == old(written) && late == old(late) && unseen == old(unseen)
      ensures old(buffer) == [] && writeClosed ==>
        Abstract() == old(Abstract().(readRequests := readRequests + 1).Happens(Eof))
      ensures old(buffer) == [] && !writeClosed ==>
        Abstract() == old(Abstract().(readRequests := readRequests + 1, reading := true)) && readBufferSize == size
      ensures old(buffer) != [] ==>
        var n := Smaller(size, old(|buffer|));
        && !readHandler && buffer == old(buffer)[n..]
        && writeHandler == (old(writeHandler) && |buffer| > 512)
        && log == old(log) + [Read(old(buffer)[..n])]
             + (if old(writeHandler) && |buffer| <= 512 then [Wrote(bytesWritten)] else [])
    {
      hide Kept;
      ghost var s := Abstract();
      readRequests := readRequests + 1;
      if |buffer| == 0 {
        if writeClosed {
          ReadEnds(s);
          log := log + [Eof];
          return;
        }
        ReaderSleeps(s);
        readBufferSize := size;
        readHandler := true;
        return;
      }
      var n := Smaller(size, |buffer|);
      ReadDone(s, n);
      log := log + [Read(buffer[..n])];
      buffer := buffer[n..];
      CondWakeWriter();
    }

    method Shutdown(send: bool, receive: bool)
      requires Valid()
      modifies this
      ensures Valid()
      ensures writeClosed == (old(writeClosed) || send) && readClosed == (old(readClosed) || receive)
      ensures buffer == old(buffer) && written == old(written) && late == old(late) && unseen == old(unseen)
      ensures readHandler == (old(readHandler) && !writeClosed)
      ensures writeHandler == (old(writeHandler) && |buffer| > 512)
      ensures log == old(log) + (if old(readHandler) && writeClosed then [Eof] else [])
        + (if old(writeHandler) && |buffer| <= 512 then [Wrote(bytesWritten)] else [])
    {
      hide Kept;
      Closing(Abstract(), writeClosed || send);
      if send {
        writeClosed := true;
      }
      if receive {
        readClosed := true;
      }
      if writeClosed {
        if readHandler {
          EndOfFile(Abstract());
          log := log + [Eof];
          readHandler := false;
        }
      }
      CondWakeWriter();
    }
  }

  lemma {:induction false} Closing(s: State, closed: bool)
    requires Kept(s) && (s.writeClosed ==> closed)
    ensures Kept(s.(writeClosed := closed))
  {
    hide Delivered, ReadAnswers, WriteAnswers, UpToEof;
  }
}
