/**
 * The buffered event reader of evdev-dump.c: the `input` struct, open_input and
 * read_input. The file descriptor is replaced by the script of results that its
 * read() calls return, in order.
 */
module EventReader {

  import opened Wrappers
  import opened Evdev

  /** Capacity of the event buffer: the most records one read() can fill. */
  const MAX_EVENTS: nat := 64

  type PositiveSize = n: nat | n > 0 witness 1

  /** sizeof(struct input_event): fixed by the platform, only known to be positive here. */
  const EVSIZE: PositiveSize

  /**
   * One result of read(fd, buf, sizeof(buf)): either -1, or a byte count together
   * with the buffer slots those bytes land in, in order. When the count is not a
   * multiple of EVSIZE the last slot is only partly overwritten, and its new
   * contents are whatever the bytes make of it.
   */
  datatype ReadResult =
    | Failed
    | Data(count: nat, written: seq<Event>)

  /** What the kernel can return for a buffer of MAX_EVENTS records. */
  predicate WellFormed(r: ReadResult)
  {
    r.Data? ==>
      r.count <= MAX_EVENTS * EVSIZE &&
      (|r.written| - 1) * EVSIZE < r.count <= |r.written| * EVSIZE
  }

  predicate AllWellFormed(rs: seq<ReadResult>)
  {
    forall k :: 0 <= k < |rs| ==> WellFormed(rs[k])
  }

  /** The next read's result: a fd whose script is used up reads as end of stream. */
  function Next(rs: seq<ReadResult>): ReadResult
  {
    if rs == [] then Data(0, []) else rs[0]
  }

  function Rest(rs: seq<ReadResult>): seq<ReadResult>
  {
    if rs == [] then [] else rs[1..]
  }

  /** read()'s return value. */
  function ByteCount(r: ReadResult): int
  {
    match r
    case Failed => -1
    case Data(count, _) => count
  }

  /** What read_input returns when its refill read gets r (evdev-dump.c:100-115). */
  function RefillCode(r: ReadResult): int
  {
    match r
    case Failed => -1
    case Data(count, _) =>
      if count == 0 then 0
      else if count % EVSIZE != 0 then -1
      else 1
  }

  lemma MulStrict(a: int, b: int, e: PositiveSize)
    requires a * e < b * e
    ensures a < b
  {
  }

  /** A read never writes more slots than the buffer has. */
  lemma WrittenFits(r: ReadResult)
    requires WellFormed(r) && r.Data?
    ensures |r.written| <= MAX_EVENTS
  {
    MulStrict(|r.written| - 1, MAX_EVENTS, EVSIZE);
  }

  /**
   * A refill that read_input accepts fills exactly count / EVSIZE slots, at least
   * one and at most MAX_EVENTS of them.
   */
  lemma AcceptedReadFills(r: ReadResult)
    requires WellFormed(r) && RefillCode(r) == 1
    ensures 1 <= r.count / EVSIZE <= MAX_EVENTS
    ensures |r.written| == r.count / EVSIZE
  {
    var q := r.count / EVSIZE;
    assert r.count == q * EVSIZE;
    MulStrict(|r.written| - 1, q, EVSIZE);
    MulStrict(q - 1, |r.written|, EVSIZE);
    MulStrict(q - 1, MAX_EVENTS, EVSIZE);
    WrittenFits(r);
  }

  /** The buffer after read() has stored r's bytes in it. */
  function Overwrite(b: seq<Event>, r: ReadResult): seq<Event>
    requires r.Data? ==> |r.written| <= |b|
  {
    match r
    case Failed => b
    case Data(_, w) => w + b[|w|..]
  }

  // ---------------------------------------------------------------------------
  // The run, one read() at a time

  /** The events main prints, and read_input's final return value. */
  datatype RunOutcome = RunOutcome(events: seq<Event>, rc: int)

  /**
   * Reference for the loop: every accepted read contributes its events in
   * order; the first read that is not accepted ends the run with its code.
   */
  function Run(script: seq<ReadResult>): RunOutcome
    decreases |script|
  {
    var r := Next(script);
    if RefillCode(r) == 1 then
      var rest := Run(Rest(script));
      RunOutcome(r.written + rest.events, rest.rc)
    else
      RunOutcome([], RefillCode(r))
  }

  /** One step of Run: the next read either extends the run or ends it. */
  lemma RunStep(script: seq<ReadResult>)
    ensures RefillCode(Next(script)) == 1 ==>
      script != [] && Run(script) == RunOutcome(script[0].written + Run(script[1..]).events, Run(script[1..]).rc)
    ensures RefillCode(Next(script)) != 1 ==> Run(script) == RunOutcome([], RefillCode(Next(script)))
  {
  }

  /** The slots each read of the script writes, concatenated in order. */
  function Chunks(script: seq<ReadResult>): seq<Event>
  {
    if script == [] then [] else (if script[0].Data? then script[0].written else []) + Chunks(script[1..])
  }

  /**
   * Run in closed form: with k the index of the first read that is not accepted
   * (or the end of the script), it prints the events of the first k reads and
   * ends with the code of read k (0 for end of stream when the script is used up).
   */
  lemma {:induction false} RunClosedForm(script: seq<ReadResult>, k: nat)
    requires k <= |script|
    requires forall j :: 0 <= j < k ==> RefillCode(script[j]) == 1
    requires k == |script| || RefillCode(script[k]) != 1
    ensures Run(script) == RunOutcome(Chunks(script[..k]), if k == |script| then 0 else RefillCode(script[k]))
  {
    if k == 0 {
      assert script[..k] == [];
    } else {
      RunClosedForm(script[1..], k - 1);
      assert script[..k][1..] == script[1..][..k - 1];
    }
  }

  /** A run ends only at end of stream (0) or on a failed or misaligned read (-1). */
  lemma {:induction false} RunCode(script: seq<ReadResult>)
    ensures Run(script).rc == 0 || Run(script).rc == -1
    decreases |script|
  {
    if RefillCode(Next(script)) == 1 {
      RunCode(Rest(script));
    }
  }

  // ---------------------------------------------------------------------------

  /** The filled slots of a buffer after the cursor. */
  function Unread(slots: seq<Event>, cur: nat, num: nat): seq<Event>
    requires num <= |slots|
  {
    if cur < num then slots[cur + 1 .. num] else []
  }

  /** struct input: the descriptor's script, the event buffer, its fill count and the cursor. */
  class Input {
    /** The results the descriptor's remaining read() calls return (the fd field). */
    var device: seq<ReadResult>
    var buf: array<Event>
    var num: nat
    /** Index of the cursor e in buf (e - buf). */
    var cur: nat

    /** Events of the accepted reads so far, in order. */
    ghost var delivered: seq<Event>
    /** Events handed out with return value 1 so far, in order. */
    ghost var returned: seq<Event>

    /** Events read but not yet handed out: those after the cursor. */
    ghost function Pending(): seq<Event>
      reads this, buf
      requires buf.Length == MAX_EVENTS && num <= MAX_EVENTS
    {
      Unread(buf[..], cur, num)
    }

    /**
     * Every event this input hands out over its whole run, in order: those of
     * the reads done so far, then those of the reads still to come.
     */
    ghost function Total(): seq<Event>
      reads this
    {
      delivered + Run(device).events
    }

    /** Nothing is skipped or repeated: what was handed out, then what is pending, is what was read. */
    ghost predicate Valid()
      reads this, buf
    {
      buf.Length == MAX_EVENTS && num <= MAX_EVENTS &&
      AllWellFormed(device) &&
      delivered == returned + Pending()
    }

    /** The state open_input sets up: nothing buffered, cursor at the first slot. */
    constructor (script: seq<ReadResult>)
      requires AllWellFormed(script)
      ensures Valid() && fresh(buf)
      ensures device == script && num == 0 && cur == 0
      ensures delivered == [] && returned == []
    {
      device := script;
      buf := new Event[MAX_EVENTS](_ => Event(0, 0, 0, 0, 0));
      num := 0;
      cur := 0;
      delivered := [];
      returned := [];
    }

    /** read(fd, buf, sizeof(buf)): takes the next scripted result and stores its bytes. */
    method SysRead() returns (rc: int)
      requires buf.Length == MAX_EVENTS && AllWellFormed(device)
      modifies this`device, buf
      ensures AllWellFormed(device)
      ensures rc == ByteCount(Next(old(device)))
      ensures device == Rest(old(device))
      ensures Next(old(device)).Data? ==> |Next(old(device)).written| <= MAX_EVENTS
      ensures buf[..] == Overwrite(old(buf[..]), Next(old(device)))
    {
      var r := Next(device);
      device := Rest(device);
      match r
      case Failed =>
        rc := -1;
      case Data(count, written) =>
        WrittenFits(r);
        forall k | 0 <= k < |written| {
          buf[k] := written[k];
        }
        rc := count;
    }

    /**
     * The refill in read_input (evdev-dump.c:98-109): one read, then the byte
     * count classified. Only an accepted read changes the fill count, and it
     * puts the cursor back on the first slot.
     */
    method Refill() returns (rc: int)
      requires buf.Length == MAX_EVENTS && AllWellFormed(device)
      modifies this`device, this`num, this`cur, buf
      ensures AllWellFormed(device)
      ensures rc == RefillCode(Next(old(device)))
      ensures device == Rest(old(device))
      ensures Next(old(device)).Data? ==> |Next(old(device)).written| <= MAX_EVENTS
      ensures buf[..] == Overwrite(old(buf[..]), Next(old(device)))
      ensures rc == 1 ==> cur == 0 && num == Next(old(device)).count / EVSIZE
      ensures rc != 1 ==> cur == old(cur) && num == old(num)
    {
      var n := SysRead();
      if n < 0 {
        return -1;
      }
      if n == 0 {
        return 0;
      }
      if n % EVSIZE != 0 {
        return -1;
      }
      num := n / EVSIZE;
      cur := 0;
      rc := 1;
    }

    /**
     * read_input: advances the cursor; when it runs past the filled part, refills
     * the buffer with one read and classifies the byte count. Returns 1 and the
     * event at the cursor, or 0 at end of stream, or -1 on a failed or misaligned read.
     */
    method ReadInput() returns (rc: int, ev: Option<Event>)
      requires Valid()
      modifies this, buf
      ensures Valid() && buf == old(buf)
      ensures rc == -1 || rc == 0 || rc == 1
      ensures ev.Some? <==> rc == 1
      ensures rc == 1 ==> cur < num && ev == Some(buf[cur])
      // Cursor still inside the filled part: no read, buffer and count untouched.
      ensures old(cur) + 1 < old(num) ==>
        rc == 1 && cur == old(cur) + 1 && num == old(num) &&
        device == old(device) && buf[..] == old(buf[..])
      // Otherwise exactly one read, classified by RefillCode.
      ensures old(cur) + 1 >= old(num) ==>
        var r := Next(old(device));
        rc == RefillCode(r) &&
        device == Rest(old(device)) &&
        (r.Data? ==> |r.written| <= MAX_EVENTS) &&
        buf[..] == Overwrite(old(buf[..]), r) &&
        (rc == 1 ==> cur == 0 && num == r.count / EVSIZE) &&
        (rc != 1 ==> cur == old(cur) + 1 && num == old(num))
      ensures delivered == old(delivered) +
        (if old(cur) + 1 >= old(num) && rc == 1 then Next(old(device)).written else [])
      ensures returned == old(returned) + (if rc == 1 then [ev.value] else [])
      ensures rc != 1 ==> returned == delivered
      // The run as a whole: a call that hands out an event keeps the total stream and
      // its final code; a call that does not ends it, with everything handed out.
      ensures rc == 1 ==> Total() == old(Total()) && Run(device).rc == old(Run(device).rc)
      ensures rc != 1 ==> returned == old(Total()) && rc == old(Run(device).rc)
    {
      RunStep(device);
      cur := cur + 1;
      if cur >= num {
        ghost var r := Next(device);
        rc := Refill();
        if rc != 1 {
          return rc, None;
        }
        AcceptedReadFills(r);
        assert buf[..num] == r.written;
        delivered := delivered + buf[..num];
      }
      ev := Some(buf[cur]);
      rc := 1;
      assert buf[cur..num] == [buf[cur]] + buf[cur + 1..num];
      assert cur == 0 ==> buf[..num] == buf[cur..num];
      returned := returned + [buf[cur]];
    }
  }

  /** open_input: NULL when the device cannot be opened (or the struct allocated). */
  method OpenInput(available: bool, script: seq<ReadResult>) returns (i: Input?)
    requires AllWellFormed(script)
    ensures available <==> i != null
    ensures i != null ==>
      fresh(i) && fresh(i.buf) && i.Valid() &&
      i.device == script && i.num == 0 && i.cur == 0 &&
      i.delivered == [] && i.returned == []
  {
    if !available {
      return null;
    }
    i := new Input(script);
  }

  /**
   * The first read_input on a freshly opened input always refills: it returns the
   * classification of the first read and, on success, the first event that read delivered.
   */
  method FirstRead(script: seq<ReadResult>) returns (rc: int, ev: Option<Event>)
    requires AllWellFormed(script)
    ensures rc == RefillCode(Next(script))
    ensures rc == 1 ==> |Next(script).written| > 0 && ev == Some(Next(script).written[0])
    ensures rc != 1 ==> ev == None
  {
    var i := new Input(script);
    rc, ev := i.ReadInput();
    if rc == 1 {
      AcceptedReadFills(Next(script));
    }
  }
}
