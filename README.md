# evdev-dump in Dafny

A model of `evdev-dump`, a small Linux tool that opens one evdev input device
and prints every input event it reads as one line of upper-case hexadecimal
fields, until the device reports end of stream (exit status 0) or a read fails
(exit status 1).

The model has five modules:

- `Evdev` (evdev.dfy): the `struct input_event` record (timeval seconds and
  microseconds, 16-bit type and code, signed 32-bit value), and the unsigned
  reinterpretations that the `%X` conversions apply to it.
- `Time` (time.dfy): `timeval_to_ns`, the conversion of a timeval to
  nanoseconds.
- `EventReader` (reader.dfy): the `input` struct as the class `Input`, with
  `open_input` and `read_input`.
  - The class keeps the fixed 64-slot event `array`, the fill count `num` and
    the cursor. The cursor is an index into the array in place of the C
    pointer `e`.
  - The file descriptor is replaced by a script: the results that its
    successive `read()` calls return. Each result is either a failure, or a
    byte count together with the buffer slots those bytes overwrite.
  - `sizeof(struct input_event)` is the constant `EVSIZE`. The model only
    knows that it is positive.
  - The function `Run` is the reference for a whole run: what the events are
    and how the run ends.
  - Ghost fields record which events reads have delivered and which events
    `read_input` has returned. `Valid()` states that nothing is skipped or
    repeated.
- `Hex` (hex.dfy): printf's `%.<precision>X`, together with its inverse
  (`Value`, `TakeHex`).
- `Dump` (dump.dfy): the line format
  `"%.16llX %s(0x%.2X): %s(0x%.3X): 0x%.8X\n"`, a parser that reads a line
  back, and `main`'s read/print loop as the method `Dump`.
  - `Dump` emits the printed lines as a sequence and returns the exit status.
  - The generated `event2str` is the parameter `names`, an arbitrary function
    from (type, code) to the two names.

## Model

| member | source | states |
|---|---|---|
| Evdev.AsUnsigned32 | evdev-dump.c:153-156 | The value printed by `0x%.8X` is the 32-bit pattern of the signed value: below 2^32, congruent to it modulo 2^32, and equal to it when it is not negative. |
| Evdev.AsUnsigned64 | evdev-dump.c:155 | The `(unsigned long long)` cast gives a number below 2^64, congruent to the nanosecond count modulo 2^64, and equal to it when the count is in range. |
| Time.TimevalToNs | evdev-dump.c:33-40 | The nanosecond count is a whole number of microseconds. For a timeval with 0 <= usec < 10^6, dividing by 10^9 gives back the seconds, and (ns mod 10^9) / 1000 gives back the microseconds. |
| Time.TimevalToNsOrder | evdev-dump.c:35-40 | For normalized timevals, one nanosecond count is smaller than another exactly when its timeval is earlier in (sec, usec) order. |
| Time.TimevalToNsInjective | evdev-dump.c:35-40 | Normalized timevals get equal nanosecond counts exactly when they are equal. |
| Hex.Digits | evdev-dump.c:154 | The shortest rendering of a number: upper-case hex digits only, denoting the number, with no leading zero, and empty exactly for 0. |
| Hex.DigitsFit | evdev-dump.c:154 | A number needs at most w digits exactly when it is below 16^w. |
| Hex.PadMeaning | evdev-dump.c:154 | `%.pX` output is upper-case hex digits denoting the number, at least p of them. It is exactly p digits long exactly when the number is below 16^p. |
| Hex.PadOverflow | evdev-dump.c:154 | A number at or above 16^p is printed by `%.pX` with its shortest digits, with no zero added. |
| Hex.TakeHexOfPad | evdev-dump.c:154 | With p > 0, reading the digit run back from the front of a `%.pX` rendering followed by a non-digit gives back the number and the rest of the text. |
| EventReader.WrittenFits | evdev-dump.c:98 | A read into the buffer never touches more than its 64 slots. |
| EventReader.AcceptedReadFills | evdev-dump.c:104-107 | A read that read_input accepts fills exactly rc / EVSIZE slots, and that is between 1 and 64. |
| EventReader.RunClosedForm | evdev-dump.c:94-115 | The events of a run are the events of the reads before the first rejected read, concatenated in order. The run ends with that read's code, or with 0 when the reads run out. |
| EventReader.RunCode | evdev-dump.c:100-105 | A run ends only with 0 (end of stream) or -1 (failed or misaligned read). |
| EventReader.Input.constructor | evdev-dump.c:71-73 | A fresh input has nothing buffered (`num == 0`), its cursor on the first slot, and its whole script still to read. |
| EventReader.Input.SysRead | evdev-dump.c:98 | `read()` consumes the next scripted result and returns its byte count, or -1. The slots its bytes land in are overwritten and the other slots are untouched. |
| EventReader.Input.Refill | evdev-dump.c:98-109 | The refill returns -1 for a failed read, 0 for end of stream, -1 for a count that is not a multiple of EVSIZE, and 1 otherwise. Only on 1 does it set num to rc / EVSIZE and the cursor to 0; in every other case num and the cursor are unchanged. |
| EventReader.Input.ReadInput | evdev-dump.c:89-116 | Returns -1, 0 or 1, and an event exactly when it returns 1, taken from inside the filled part of the buffer. While the advanced cursor is inside the filled part, nothing is read and only the cursor moves. Otherwise it makes exactly one read, whose outcome is as in Refill. Each call keeps the invariant that the events returned, followed by those still buffered, are the events read, in order. A call that returns 1 keeps the run's total stream and final code. A call that does not return 1 has returned the whole stream and yields the run's final code. |
| EventReader.OpenInput | evdev-dump.c:58-76 | Returns NULL exactly when the device cannot be opened. Otherwise it returns a fresh input in the initial state. |
| EventReader.FirstRead | evdev-dump.c:94-110 | On a freshly opened input, the first read_input always refills. It returns the code of the first read, and on success the first event that read delivered. |
| Dump.FormatAllAppend | evdev-dump.c:149-157 | Printing one more event appends exactly its one line. |
| Dump.ParseLineOfLine | evdev-dump.c:153-156 | Any line in the printed format reads back to the four numbers it was built from, whatever the names are. |
| Dump.ParseFormatLine | evdev-dump.c:153-156 | The line printed for an event reads back to its unsigned 64-bit nanosecond timestamp, its type, its code and its value's unsigned 32-bit pattern. |
| Dump.FormatLineInjective | evdev-dump.c:153-156 | Two events with the same names print the same line only when they agree on timestamp, type, code and value. |
| Dump.LineTimestampColumn | evdev-dump.c:154-155 | Every line opens with the timestamp as exactly 16 hex digits, followed by a space. |
| Dump.LineValueColumn | evdev-dump.c:154-156 | Every line closes with `0x`, the value as exactly 8 hex digits, and a newline. |
| Dump.FormatLineColumns | evdev-dump.c:153-156 | The line printed for an event has its timestamp in the first 16 columns and its value's unsigned pattern in the last 8 digits before the newline. |
| Dump.LineLength | evdev-dump.c:154 | A line is at least 45 characters plus the two names long. It is exactly that long when the type fits in 2 digits and the code in 3. |
| Dump.Dump | evdev-dump.c:143-164 | When the device cannot be opened, nothing is printed and the status is 1. Otherwise exactly one line is printed per event of the run, in order. The status is 0 when the run ends at end of stream and 1 when it ends on a failed or misaligned read. |

## Left out

- The real `open`, `read` and `close` system calls, `malloc`/`free`, `errno`
  and `error()` messages are OS I/O. A failed `open` or `malloc` is the
  `available` flag, and `read()` is the script.
- `close_input` (evdev-dump.c:80-85) only releases the descriptor and the
  memory, which the model does not have.
- The argument-count check and usage text (evdev-dump.c:133-139), and
  `setlinebuf`/stdio: these are command-line and output plumbing. The printed
  text is modelled as a sequence of lines.
- The contents of the generated `event2str.c`: event2str.c is not part of this
  model, and any names function is accepted.
- The byte layout of `struct input_event`: `EVSIZE` is an abstract positive
  constant. A partly written record is an arbitrary event, given by the script.
- Time.TimevalToNs: computed over mathematical integers, because the signed
  `long long` overflow of `sec * 10^9` is not guarded in the C code.
  `AsUnsigned64` then reduces the result modulo 2^64.
- `pe == NULL` (evdev-dump.c:112): main always passes `&e`, so read_input
  always hands the event out.
- EventReader.Input.ReadInput: the cursor is an unbounded index. One rejected
  refill leaves it at most at 64, the legal one-past-the-end position. Only a
  further call after a rejection, which main never makes, would move the C
  pointer beyond the array; the model does not capture that.
- A script that is used up reads as end of stream (a read returning 0).
- Times and microsecond counts from the kernel are taken as given: `Normalized`
  is only required by the lemmas that need it.
