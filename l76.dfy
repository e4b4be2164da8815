/** The L76 driver's lifecycle: the flags `running` and `talking`, the receiver-thread
    handle `th`, the commands written to the serial port, and one pass of the receiver
    loop. The NMEA parser of the base class is foreign: a line handed to it is recorded
    as an event. */
module L76Driver {
  import opened Wrappers
  import opened NmeaChecksum
  import opened NmeaFrame
  import opened Pmtk

  const SERIAL: int := 0
  const I2C: int := 1

  /** The exceptions the driver raises. */
  datatype Error = Unsupported | Runtime

  /** One recorded action of the driver: a command written, an enable or parse call of the
      base receiver, or a reset pulse. */
  datatype Event =
    | Write(command: string)              // a command written to the serial port
    | Enable(on: bool)                    // the base receiver's enable(on)
    | ResetPulse                          // the reset pin driven active, then released
    | Parse(buffer: seq<bv8>, chs: int)   // the base receiver's parse(buffer, chs)

  /** The outcome of one `nmea.readline` call: the buffer it filled and the count it
      returned, or an exception. */
  datatype ReadResult = Read(buffer: seq<bv8>, chs: int) | Raised

  /** The lifecycle the three fields encode. */
  datatype Lifecycle =
    | Stopped     // no receiver thread
    | Stopping    // stop was called; the receiver loop has not yet exited
    | Active      // running and forwarding lines
    | Paused      // running, lines dropped

  /** The events of one pass of the receiver loop body (l76.py:246-257): a line reaches
      the parser only when the driver is talking and the read returned at least one
      character; a failed read contributes nothing and the loop goes on. */
  function IterationEvents(talking: bool, r: ReadResult): (es: seq<Event>)
    ensures es != [] <==> talking && r.Read? && r.chs >= 1
    ensures es != [] ==> es == [Parse(r.buffer, r.chs)]
  {
    match r
    case Raised => []
    case Read(buffer, chs) => if talking && chs >= 1 then [Parse(buffer, chs)] else []
  }

  /** The events of consecutive passes over the reads rs, all while talking is fixed. */
  function LoopEvents(talking: bool, rs: seq<ReadResult>): seq<Event> {
    if |rs| == 0 then []
    else LoopEvents(talking, rs[..|rs| - 1]) + IterationEvents(talking, rs[|rs| - 1])
  }

  /** While the driver is paused every line read is dropped. */
  lemma {:induction false} LoopSilentWhenNotTalking(rs: seq<ReadResult>)
    ensures LoopEvents(false, rs) == []
  {
    if |rs| > 0 {
      LoopSilentWhenNotTalking(rs[..|rs| - 1]);
    }
  }

  /** Everything the loop hands to the parser is a line it read with a count of at least
      one, and while talking every such line is handed over. */
  lemma {:induction false} LoopForwardsExactlyTheLines(talking: bool, rs: seq<ReadResult>)
    ensures forall e :: e in LoopEvents(talking, rs) ==>
      e.Parse? && e.chs >= 1 && Read(e.buffer, e.chs) in rs
    ensures talking ==> forall r :: r in rs && r.Read? && r.chs >= 1 ==>
      Parse(r.buffer, r.chs) in LoopEvents(talking, rs)
  {
    if |rs| > 0 {
      var init := rs[..|rs| - 1];
      LoopForwardsExactlyTheLines(talking, init);
      assert rs == init + [rs[|rs| - 1]];
      forall e | e in LoopEvents(talking, rs)
        ensures e.Parse? && e.chs >= 1 && Read(e.buffer, e.chs) in rs
      {
        if e in LoopEvents(talking, init) {
          assert Read(e.buffer, e.chs) in init;
        }
      }
    }
  }

  lemma {:induction false} LoopEventsSnoc(talking: bool, rs: seq<ReadResult>, r: ReadResult)
    ensures LoopEvents(talking, rs + [r]) == LoopEvents(talking, rs) + IterationEvents(talking, r)
  {
    assert (rs + [r])[..|rs|] == rs;
  }

  /** The events of the first k + 1 of the reads rs extend those of the first k by one pass. */
  lemma {:induction false} LoopEventsPrefix(talking: bool, rs: seq<ReadResult>, k: nat)
    requires k < |rs|
    ensures LoopEvents(talking, rs[..k + 1]) == LoopEvents(talking, rs[..k]) + IterationEvents(talking, rs[k])
  {
    assert rs[..k + 1] == rs[..k] + [rs[k]];
    LoopEventsSnoc(talking, rs[..k], rs[k]);
  }

  /** The events of `start` after its guard (l76.py:98-117): the wake command unless a
      reset pin restarts the chip, the receiver enabled, then the reset pulse if any. */
  function StartEvents(hasResetPin: bool): (es: seq<Event>)
    ensures |es| == 2 && Enable(true) in es
    ensures Write(WAKE) in es <==> !hasResetPin
    ensures ResetPulse in es <==> hasResetPin
    ensures hasResetPin ==> es[0] == Enable(true)
    ensures !hasResetPin ==> es[1] == Enable(true)
  {
    (if hasResetPin then [] else [Write(WAKE)]) + [Enable(true)] + (if hasResetPin then [ResetPulse] else [])
  }

  class L76 {
    /** Whether a reset pin was given (`rstpin is not None`). */
    const hasResetPin: bool
    var running: bool
    var talking: bool
    /** Whether a receiver thread handle is held (`th is not None`). */
    var th: bool
    /** Every command written, every enable and parse call and every reset pulse, in order. */
    ghost var trace: seq<Event>

    /** Talking only while running, and running only with a receiver thread. */
    ghost predicate Valid()
      reads this
    {
      (talking ==> running) && (running ==> th)
    }

    function State(): Lifecycle
      reads this
      requires Valid()
    {
      if !th then Stopped
      else if !running then Stopping
      else if talking then Active
      else Paused
    }

    /** The body of `__init__` once the mode is accepted (l76.py:61-84): all flags clear,
        the chip taken out of reset if a pin is given, then put in standby. */
    constructor (hasResetPin: bool)
      ensures Valid() && State() == Stopped
      ensures this.hasResetPin == hasResetPin
      ensures !running && !talking && !th
      ensures trace == (if hasResetPin then [ResetPulse] else []) + [Write(STANDBY)]
    {
      this.hasResetPin := hasResetPin;
      running := false;
      talking := false;
      th := false;
      trace := (if hasResetPin then [ResetPulse] else []) + [Write(STANDBY)];
    }

    /** `start` (l76.py:95-118): refused while a receiver thread handle is held, which
        includes a stopped driver whose loop has not yet exited. */
    method Start() returns (ok: bool)
      requires Valid()
      modifies this
      ensures Valid()
      ensures ok <==> !old(th)
      ensures !ok ==> unchanged(this)
      ensures ok ==> running && talking && th && State() == Active
      ensures ok ==> trace == old(trace) + StartEvents(hasResetPin)
    {
      if th {
        return false;
      }
      if !hasResetPin {
        trace := trace + [Write(WAKE)];
      }
      trace := trace + [Enable(true)];
      running := true;
      talking := true;
      th := true;
      if hasResetPin {
        trace := trace + [ResetPulse];
      }
      return true;
    }

    /** `stop` (l76.py:130-141): refused when not running; otherwise standby, both flags
        cleared, the receiver disabled. The thread handle stays until the loop exits. */
    method Stop() returns (ok: bool)
      requires Valid()
      modifies this
      ensures Valid()
      ensures ok <==> old(running)
      ensures !ok ==> unchanged(this)
      ensures ok ==> !running && !talking && th == old(th) && State() == Stopping
      ensures ok ==> trace == old(trace) + [Write(STANDBY), Enable(false)]
    {
      if !running {
        return false;
      }
      trace := trace + [Write(STANDBY)];
      running := false;
      talking := false;
      trace := trace + [Enable(false)];
      return true;
    }

    /** `pause` (l76.py:151-159): raises RuntimeError when not running; otherwise
        standby, talking cleared, the receiver disabled. */
    method Pause() returns (r: Outcome<Error>)
      requires Valid()
      modifies this
      ensures Valid()
      ensures r == (if old(running) then Pass else Fail(Runtime))
      ensures r.Fail? ==> unchanged(this)
      ensures running == old(running) && th == old(th)
      ensures r.Pass? ==> !talking && State() == Paused
      ensures r.Pass? ==> trace == old(trace) + [Write(STANDBY), Enable(false)]
    {
      if !running {
        return Fail(Runtime);
      }
      trace := trace + [Write(STANDBY)];
      talking := false;
      trace := trace + [Enable(false)];
      return Pass;
    }

    /** `resume` (l76.py:169-177): raises RuntimeError when not running; otherwise wake,
        the receiver enabled, talking set. */
    method Resume() returns (r: Outcome<Error>)
      requires Valid()
      modifies this
      ensures Valid()
      ensures r == (if old(running) then Pass else Fail(Runtime))
      ensures r.Fail? ==> unchanged(this)
      ensures running == old(running) && th == old(th)
      ensures r.Pass? ==> talking && State() == Active
      ensures r.Pass? ==> trace == old(trace) + [Write(WAKE), Enable(true)]
    {
      if !running {
        return Fail(Runtime);
      }
      trace := trace + [Write(WAKE), Enable(true)];
      talking := true;
      return Pass;
    }

    /** `set_rate` (l76.py:186-194): raises RuntimeError when not running; otherwise
        writes the PMTK220 command for rate, whatever its value. For a rate of zero or
        more that command is the correctly framed sentence of its payload. */
    method SetRate(rate: int := 1000) returns (r: Outcome<Error>)
      requires Valid()
      modifies this`trace
      ensures r == (if running then Pass else Fail(Runtime))
      ensures r.Fail? ==> trace == old(trace)
      ensures r.Pass? ==> trace == old(trace) + [Write(RateCommand(rate))]
      ensures r.Pass? && rate >= 0 ==> trace == old(trace) + [Write(Sentence(RatePayload(rate)))]
    {
      if !running {
        return Fail(Runtime);
      }
      var msg := RateMessage(rate);
      trace := trace + [Write(msg)];
      if rate >= 0 {
        RateCommandIsFramed(rate);
      }
      return Pass;
    }

    /** One pass of the receiver loop body (l76.py:246-257), given what `readline`
        produced. A pass taken after `stop` drops its line, since talking is clear. */
    method Iterate(r: ReadResult)
      requires Valid()
      modifies this`trace
      ensures trace == old(trace) + IterationEvents(talking, r)
    {
      match r
      case Raised =>
      case Read(buffer, chs) =>
        if talking && chs >= 1 {
          trace := trace + [Parse(buffer, chs)];
        }
    }

    /** The loop test `while self.running` (l76.py:244) and, when it fails, the loop's
        exit (l76.py:259-261), which drops the thread handle and so re-enables start. */
    method LoopGuard() returns (again: bool)
      requires Valid()
      modifies this`th
      ensures Valid()
      ensures again == running
      ensures th == (old(th) && running)
      ensures !again ==> State() == Stopped
    {
      if running {
        return true;
      }
      th := false;
      return false;
    }

    /** The receiver loop `_run` (l76.py:244-261) run on the thread, over the lines the
        port delivers, with no other caller in between: all of them are processed while
        running, and without running the loop exits at once. */
    method Run(lines: seq<ReadResult>) returns (processed: nat)
      requires Valid() && th
      modifies this`trace, this`th
      ensures Valid()
      ensures processed == if running then |lines| else 0
      ensures th == running
      ensures trace == old(trace) + LoopEvents(talking, lines[..processed])
    {
      processed := 0;
      var again := LoopGuard();
      while again && processed < |lines|
        invariant Valid() && again == running && th == running
        invariant running == old(running) && talking == old(talking)
        invariant processed <= |lines| && (processed > 0 ==> running)
        invariant trace == old(trace) + LoopEvents(talking, lines[..processed])
        decreases |lines| - processed
      {
        LoopEventsPrefix(talking, lines, processed);
        Iterate(lines[processed]);
        processed := processed + 1;
        again := LoopGuard();
      }
    }
  }

  /** `L76(ifc, mode, ...)` (l76.py:58-84): any mode other than SERIAL raises
      UnsupportedError before anything is done. */
  method NewL76(mode: int := SERIAL, hasResetPin: bool := false) returns (r: Result<L76, Error>)
    ensures mode != SERIAL <==> r == Err(Unsupported)
    ensures r.Ok? ==> fresh(r.value) && r.value.Valid() && r.value.State() == Stopped
    ensures r.Ok? ==> r.value.hasResetPin == hasResetPin
    ensures r.Ok? ==> r.value.trace == (if hasResetPin then [ResetPulse] else []) + [Write(STANDBY)]
  {
    if mode != SERIAL {
      return Err(Unsupported);
    }
    var d := new L76(hasResetPin);
    return Ok(d);
  }

  /** A restart without a reset pin, with no reads in between: start succeeds, stop
      succeeds, start is refused until the loop has exited, then succeeds again. */
  method RestartAfterLoopExit() returns (first: bool, stopped: bool, early: bool, again: bool)
    ensures first && stopped && !early && again
  {
    var d := new L76(false);
    first := d.Start();
    stopped := d.Stop();
    early := d.Start();
    var n := d.Run([]);
    again := d.Start();
  }
}
