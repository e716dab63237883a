/**
 * main's read/print loop: pull events with read_input until it returns 0 or -1,
 * print one line per event, exit 0 on end of stream and 1 on a read failure.
 * Run is the reference the loop is proved against: the run seen one read() at a time.
 */
module Dump {

  import opened Wrappers
  import opened Evdev
  import opened Hex
  import opened Time
  import opened EventReader

  /** event2str: the symbolic names of an event's type and code, from the generated table. */
  type Names = (uint16, uint16) -> (string, string)

  // ---------------------------------------------------------------------------
  // Line format "%.16llX %s(0x%.2X): %s(0x%.3X): 0x%.8X\n"

  function Timestamp(e: Event): nat
  {
    AsUnsigned64(TimevalToNs(e.sec, e.usec))
  }

  /**
   * The text of "%s %s(0x%s): %s(0x%s): 0x%s\n" around already rendered fields,
   * grouped from the right: one field and the literal text after it at a time.
   */
  function Layout(ts: string, typeName: string, ty: string, codeName: string, cd: string, va: string): string
  {
    ts + (" " + typeName + "(0x" + (ty + ("): " + codeName + "(0x" + (cd + ("): 0x" + (va + "\n"))))))
  }

  /** The line for the given numbers and names: "%.16llX %s(0x%.2X): %s(0x%.3X): 0x%.8X\n". */
  function Line(timestamp: nat, typeName: string, evType: nat, codeName: string, code: nat, value: nat): string
  {
    Layout(Pad(timestamp, 16), typeName, Pad(evType, 2), codeName, Pad(code, 3), Pad(value, 8))
  }

  function FormatLine(e: Event, names: Names): string
  {
    var (typeName, codeName) := names(e.evType, e.code);
    Line(Timestamp(e), typeName, e.evType as nat, codeName, e.code as nat, AsUnsigned32(e.value))
  }

  function FormatAll(events: seq<Event>, names: Names): seq<string>
  {
    seq(|events|, k requires 0 <= k < |events| => FormatLine(events[k], names))
  }

  lemma FormatAllAppend(events: seq<Event>, e: Event, names: Names)
    ensures FormatAll(events + [e], names) == FormatAll(events, names) + [FormatLine(e, names)]
  {
    assert FormatAll(events + [e], names)[|events|] == FormatLine(e, names);
  }

  /** The numbers a printed line carries. */
  datatype LineFields = LineFields(timestamp: nat, evType: nat, code: nat, value: nat)

  /** Strips the literal prefix lit from s. */
  function Expect(s: string, lit: string): Option<string>
  {
    if |lit| <= |s| && s[..|lit|] == lit then Some(s[|lit|..]) else None
  }

  /** Reads a line back, given the two names that were printed in it. */
  function ParseLine(line: string, typeName: string, codeName: string): Option<LineFields>
  {
    var ts :- TakeHex(line);
    var s1 :- Expect(ts.1, " " + typeName + "(0x");
    var rest :- ParseTypeOnward(s1, codeName);
    Some(LineFields(ts.0, rest.0, rest.1, rest.2))
  }

  /** From the type's digits on: type, code and value. */
  function ParseTypeOnward(s: string, codeName: string): Option<(nat, nat, nat)>
  {
    var ty :- TakeHex(s);
    var s2 :- Expect(ty.1, "): " + codeName + "(0x");
    var rest :- ParseCodeOnward(s2);
    Some((ty.0, rest.0, rest.1))
  }

  /** From the code's digits on: code and value. */
  function ParseCodeOnward(s: string): Option<(nat, nat)>
  {
    var cd :- TakeHex(s);
    var s3 :- Expect(cd.1, "): 0x");
    var va :- TakeHex(s3);
    if va.1 == "\n" then Some((cd.0, va.0)) else None
  }

  lemma ExpectPrefix(lit: string, t: string)
    ensures Expect(lit + t, lit) == Some(t)
  {
    assert (lit + t)[..|lit|] == lit;
    assert (lit + t)[|lit|..] == t;
  }

  /** Line reads back to the numbers it was given, whatever the names are. */
  lemma ParseLineOfLine(timestamp: nat, typeName: string, evType: nat, codeName: string, code: nat, value: nat)
    ensures ParseLine(Line(timestamp, typeName, evType, codeName, code, value), typeName, codeName) ==
      Some(LineFields(timestamp, evType, code, value))
  {
    var t2 := "): 0x" + (Pad(value, 8) + "\n");
    TakeHexOfPad(code, 3, t2);
    ExpectPrefix("): 0x", Pad(value, 8) + "\n");
    TakeHexOfPad(value, 8, "\n");
    var s2 := Pad(code, 3) + t2;
    assert ParseCodeOnward(s2) == Some((code, value));
    var t1 := "): " + codeName + "(0x" + s2;
    TakeHexOfPad(evType, 2, t1);
    ExpectPrefix("): " + codeName + "(0x", s2);
    var s1 := Pad(evType, 2) + t1;
    assert ParseTypeOnward(s1, codeName) == Some((evType, code, value));
    var t0 := " " + typeName + "(0x" + s1;
    TakeHexOfPad(timestamp, 16, t0);
    ExpectPrefix(" " + typeName + "(0x", s1);
  }

  /**
   * Every printed line can be read back: it carries the timestamp as an
   * unsigned 64-bit number, the type, the code, and the value as its unsigned
   * 32-bit pattern, whatever the names are.
   */
  lemma ParseFormatLine(e: Event, names: Names)
    ensures ParseLine(FormatLine(e, names), names(e.evType, e.code).0, names(e.evType, e.code).1) ==
      Some(LineFields(Timestamp(e), e.evType as nat, e.code as nat, AsUnsigned32(e.value)))
  {
    var (tn, cn) := names(e.evType, e.code);
    ParseLineOfLine(Timestamp(e), tn, e.evType as nat, cn, e.code as nat, AsUnsigned32(e.value));
  }

  /** Lines of distinct events differ, unless they agree on every printed number. */
  lemma FormatLineInjective(e1: Event, e2: Event, names: Names)
    requires names(e1.evType, e1.code) == names(e2.evType, e2.code)
    requires FormatLine(e1, names) == FormatLine(e2, names)
    ensures Timestamp(e1) == Timestamp(e2) && e1.evType == e2.evType && e1.code == e2.code && e1.value == e2.value
  {
    ParseFormatLine(e1, names);
    ParseFormatLine(e2, names);
  }

  lemma Pow16Widths()
    ensures Pow16(2) == 0x100 && Pow16(3) == 0x1000 && Pow16(8) == TWO_32 && Pow16(16) == TWO_64
  {
    assert Pow16(4) == 0x1_0000;
    assert Pow16(8) == 0x1_0000 * 0x1_0000;
    assert Pow16(12) == 0x1_0000 * Pow16(8);
    assert Pow16(16) == 0x1_0000 * Pow16(12);
  }

  /** The layout opens with the timestamp field and a space. */
  lemma LayoutHead(line: string, ts: string, typeName: string, ty: string, codeName: string, cd: string, va: string)
    requires line == Layout(ts, typeName, ty, codeName, cd, va)
    requires |ts| == 16
    ensures |line| > 16 && line[..16] == ts && line[16] == ' '
  {
    var rest := " " + typeName + "(0x" + (ty + ("): " + codeName + "(0x" + (cd + ("): 0x" + (va + "\n")))));
    assert line == ts + rest;
  }

  /** The layout closes with "0x", the value field and the newline. */
  lemma LayoutTail(line: string, ts: string, typeName: string, ty: string, codeName: string, cd: string, va: string)
    requires line == Layout(ts, typeName, ty, codeName, cd, va)
    requires |va| == 8
    ensures |line| >= 11
    ensures line[|line| - 11 .. |line| - 9] == "0x" && line[|line| - 9 .. |line| - 1] == va && line[|line| - 1] == '\n'
  {
    var front := ts + (" " + typeName + "(0x" + (ty + ("): " + codeName + "(0x" + (cd + "): "))));
    var tail := "0x" + (va + "\n");
    assert line == front + tail;
    var n := |line|;
    assert line[n - 11 .. n - 9] == tail[..2];
    assert line[n - 9 .. n - 1] == tail[2..10];
  }

  /** The line opens with the timestamp as exactly 16 hex digits, then a space. */
  predicate TimestampColumn(line: string, timestamp: nat)
  {
    |line| > 16 && IsHexString(line[..16]) && Value(line[..16]) == timestamp && line[16] == ' '
  }

  /** The line closes with "0x", the value as exactly 8 hex digits, and a newline. */
  predicate ValueColumn(line: string, value: nat)
  {
    var n := |line|;
    n >= 11 && line[n - 11 .. n - 9] == "0x" &&
    IsHexString(line[n - 9 .. n - 1]) && Value(line[n - 9 .. n - 1]) == value && line[n - 1] == '\n'
  }

  /** The timestamp column of every line: at most 2^64 - 1, it always takes exactly 16 digits. */
  lemma LineTimestampColumn(timestamp: nat, typeName: string, evType: nat, codeName: string, code: nat, value: nat)
    requires timestamp < TWO_64
    ensures TimestampColumn(Line(timestamp, typeName, evType, codeName, code, value), timestamp)
  {
    Pow16Widths();
    var ts := Pad(timestamp, 16);
    PadMeaning(timestamp, 16);
    var line := Line(timestamp, typeName, evType, codeName, code, value);
    LayoutHead(line, ts, typeName, Pad(evType, 2), codeName, Pad(code, 3), Pad(value, 8));
    var head := line[..16];
    assert head == ts;
    assert IsHexString(head) && Value(head) == timestamp;
  }

  /** The value column of every line: at most 2^32 - 1, it always takes exactly 8 digits. */
  lemma LineValueColumn(timestamp: nat, typeName: string, evType: nat, codeName: string, code: nat, value: nat)
    requires value < TWO_32
    ensures ValueColumn(Line(timestamp, typeName, evType, codeName, code, value), value)
  {
    Pow16Widths();
    var va := Pad(value, 8);
    PadMeaning(value, 8);
    var line := Line(timestamp, typeName, evType, codeName, code, value);
    LayoutTail(line, Pad(timestamp, 16), typeName, Pad(evType, 2), codeName, Pad(code, 3), va);
    var field := line[|line| - 9 .. |line| - 1];
    assert field == va;
    assert IsHexString(field) && Value(field) == value;
  }

  /**
   * The printed line of an event opens with its timestamp in 16 digits and
   * closes with the unsigned pattern of its value in 8, whatever the names are.
   */
  lemma FormatLineColumns(e: Event, names: Names)
    ensures TimestampColumn(FormatLine(e, names), Timestamp(e))
    ensures ValueColumn(FormatLine(e, names), AsUnsigned32(e.value))
  {
    var (tn, cn) := names(e.evType, e.code);
    LineTimestampColumn(Timestamp(e), tn, e.evType as nat, cn, e.code as nat, AsUnsigned32(e.value));
    LineValueColumn(Timestamp(e), tn, e.evType as nat, cn, e.code as nat, AsUnsigned32(e.value));
  }

  /**
   * The line is 45 characters plus the two names long when the type fits in 2
   * digits and the code in 3, and longer otherwise: the columns stay aligned
   * for every type and code that fit.
   */
  lemma LineLength(timestamp: nat, typeName: string, evType: nat, codeName: string, code: nat, value: nat)
    requires timestamp < TWO_64 && value < TWO_32
    ensures var n := |Line(timestamp, typeName, evType, codeName, code, value)|;
      n >= 45 + |typeName| + |codeName| &&
      (n == 45 + |typeName| + |codeName| <==> evType < 0x100 && code < 0x1000)
  {
    Pow16Widths();
    PadMeaning(timestamp, 16);
    PadMeaning(evType, 2);
    PadMeaning(code, 3);
    PadMeaning(value, 8);
  }

  /**
   * main after open_input: the lines printed, and the exit status. Status 1
   * comes from error(1, ...) when the device cannot be opened or a read fails.
   */
  method Dump(available: bool, script: seq<ReadResult>, names: Names) returns (lines: seq<string>, status: int)
    requires AllWellFormed(script)
    ensures !available ==> lines == [] && status == 1
    ensures available ==> lines == FormatAll(Run(script).events, names)
    ensures available ==> status == (if Run(script).rc < 0 then 1 else 0)
  {
    var i := OpenInput(available, script);
    if i == null {
      return [], 1;
    }
    ghost var outcome := Run(script);
    ghost var printed: seq<Event> := [];
    lines := [];
    var rc, e := i.ReadInput();
    while rc > 0
      invariant fresh(i) && fresh(i.buf) && i.Valid()
      invariant -1 <= rc <= 1
      invariant lines == FormatAll(printed, names)
      invariant rc == 1 ==> e.Some? && i.returned == printed + [e.value]
      invariant rc == 1 ==> i.Total() == outcome.events && Run(i.device).rc == outcome.rc
      invariant rc != 1 ==> printed == i.returned == outcome.events && rc == outcome.rc
      decreases |i.device|, |i.Pending()|, rc + 1
    {
      FormatAllAppend(printed, e.value, names);
      lines := lines + [FormatLine(e.value, names)];
      printed := printed + [e.value];
      rc, e := i.ReadInput();
    }
    if rc < 0 {
      return lines, 1;
    }
    status := 0;
  }
}
