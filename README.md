# Chassis `CheckError`: status-code formatting

Chassis is an audio mixing and transport engine. Every failing system call in it
goes through one diagnostic helper, `CheckError(OSStatus error, const char *operation)`
in `Chassis/CheckError.h`. This project models that helper and proves what it does.

- A `noErr` status (0) is returned at once and nothing is printed.
- Any other status is stored into a local 20-character buffer at indices 1..4,
  most significant byte first.
- If all four bytes are printable, the buffer becomes the four-character code in
  single quotes: six characters and a terminator.
- Otherwise `sprintf` overwrites the buffer from index 0 with the signed decimal
  rendering of the status.
- One line `Error: <operation> (<text>)` plus a newline goes to standard error.
- The status is returned unchanged.

Modules:

- `Status` (`status.dfy`): the 32-bit `OSStatus`, its unsigned bits and the
  big-endian byte layout that `CFSwapInt32HostToBig` and the 4-byte store produce.
- `Printf` (`printf.dfy`): the `%d` conversion that `sprintf` writes into a buffer,
  a parser for its output, and the `%s` read of a NUL-terminated string.
- `CheckError` (`check_error.dfy`): `FormatStatus`, the text printed for a status,
  as a pure function. `FormatInto` is the in-place fill of the 20-character array,
  proved equal to `FormatStatus`. `ParseStatus` decodes either printed form.
  `ErrorStream` is a class whose `lines` field stands for standard error; its
  method `CheckError` is the helper itself.
- `Wrappers` (`wrappers.dfy`): the `Option` type.

## Model

| member | source | states |
|---|---|---|
| Status.ToUInt32 | Chassis/CheckError.h:32 | the unsigned word passed to the byte swap has the same bits (equal modulo 2^32) as the signed status, and equals it when the status is not negative |
| Status.FromUInt32 | Chassis/CheckError.h:32 | reading a 32-bit word as a signed status keeps its bits (equal modulo 2^32), and keeps the value below 2^31 |
| Status.StatusBytes | Chassis/CheckError.h:32 | the store puts four bytes at `errorString + 1`; reassembling them most significant first gives back the status's unsigned bits, so the layout is big-endian on every host |
| Status.SignedRoundTrip | Chassis/CheckError.h:32 | converting a status to its unsigned bits and back gives the same status |
| Status.StatusFromBytes | Chassis/CheckError.h:32 | the status is recovered exactly from the four bytes the store writes |
| Status.LeadingByteBoundsStatus | Chassis/CheckError.h:32-34 | if the first stored byte is below 0x80 then the status is not negative and is at least that byte times 2^24 |
| Printf.NatDigits | Chassis/CheckError.h:39 | the digits of a natural number are a non-empty run of decimal digits with no leading zero |
| Printf.DecimalString | Chassis/CheckError.h:39 | the `%d` text is non-empty, starts with `-` exactly when the value is negative, otherwise starts with a digit, and holds no NUL |
| Printf.ParseDigits | Chassis/CheckError.h:39 | the digit parser accepts only a non-empty run of digits |
| Printf.ParseDecimal | Chassis/CheckError.h:39 | the decimal parser yields a negative value only for text that starts with `-` |
| Printf.ParseDigitsRoundTrip | Chassis/CheckError.h:39 | parsing the digits of any natural number gives that number back |
| Printf.ParseDecimalRoundTrip | Chassis/CheckError.h:39 | parsing the `%d` text of any integer gives that integer back |
| Printf.NatDigitsLength | Chassis/CheckError.h:39 | a number below 10^k has at most k digits |
| Printf.DecimalStringLength32 | Chassis/CheckError.h:30-39 | the `%d` text of any 32-bit value is at most 11 characters, so with its terminator it fits the 20-character buffer |
| Printf.CString | Chassis/CheckError.h:41 | `%s` prints the prefix of its argument before the first NUL; that prefix holds no NUL and is followed by one if it is shorter than the argument |
| Printf.CStringOfTerminated | Chassis/CheckError.h:41 | a NUL-free text followed by a terminator and anything else prints as exactly that text |
| Printf.ReadCString | Chassis/CheckError.h:41 | scanning a buffer that holds a terminator returns the characters before the first terminator, which is what `%s` prints for it |
| Printf.CountDigits | Chassis/CheckError.h:39 | the counting loop returns the number of decimal digits of its argument |
| Printf.WriteDigits | Chassis/CheckError.h:39 | writes the digits of a number and a terminator from a given index and changes no other slot |
| Printf.SprintDecimal | Chassis/CheckError.h:39 | `sprintf("%d")` leaves the decimal text and its terminator at the start of the buffer and changes nothing after the terminator |
| CheckError.IsPrint | Chassis/CheckError.h:33-34 | a character `isprint` accepts is never the terminator, never a newline and never a byte of 0x80 or above |
| CheckError.FourCharCode | Chassis/CheckError.h:32 | buffer slots 1..4 hold byte-sized characters that, read back most significant first, give the status's unsigned bits |
| CheckError.AllPrintable | Chassis/CheckError.h:33-34 | the four-way `isprint` test on slots 1..4 holds exactly when every byte of the status lies in 0x20..0x7E |
| CheckError.IsQuoted | Chassis/CheckError.h:35-36 | text of the quoted six-character shape never parses as decimal, so the two output forms cannot be confused |
| CheckError.FormatStatus | Chassis/CheckError.h:30-39 | the printed text is 1 to 11 characters with no NUL and no newline; it has the quoted six-character shape exactly when all four bytes are printable; otherwise it parses back as the status's decimal value |
| CheckError.ParseStatus | Chassis/CheckError.h:32-39 | decoding quoted text never gives a negative status |
| CheckError.FourCharCodeRange | Chassis/CheckError.h:33-36 | a status prints as a four-character code only if it lies in 0x20202020..0x7E7E7E7E, so a negative status always prints in decimal |
| CheckError.FormatStatusRoundTrip | Chassis/CheckError.h:32-39 | decoding the printed text of any status gives back that status, for both the quoted and the decimal form |
| CheckError.FormatStatusInjective | Chassis/CheckError.h:32-39 | two different statuses never print the same text |
| CheckError.ErrorLine | Chassis/CheckError.h:41 | the line is `Error: `, the operation's C string, ` (`, the text and `)` plus a newline; the operation and the text sit at fixed offsets and can be read back, and if neither holds a newline the only newline is the last character |
| CheckError.FormatInto | Chassis/CheckError.h:30-40 | after the fill, the buffer holds `FormatStatus(e)` and its terminator; beyond the terminator only slots 1..4 of the big-endian store can differ from before, so nothing is written past index 6 (quoted) or 11 (decimal) |
| CheckError.ErrorStream.constructor | Chassis/CheckError.h:41 | a new error stream holds no lines |
| CheckError.ErrorStream.CheckError | Chassis/CheckError.h:26-43 | returns the status unchanged; writes nothing for `noErr`; otherwise appends exactly one line `Error: <operation> (<FormatStatus(error)>)` and a newline |

## Left out

- The `fprintf` to standard error is modelled as appending one entry to `ErrorStream.lines`; no real output exists.
- Host byte order and the pointer-cast store are modelled as taking the bytes of the status most significant first, which is what `CFSwapInt32HostToBig` guarantees on every host.
- `isprint` is fixed to the C locale (0x20..0x7E). Other locales are not modelled.
- Passing a byte of 0x80 or above, a negative signed `char`, to `isprint` is undefined behaviour in C. The model treats such bytes as not printable, as the C locale does for those values.
- Buffer characters hold the unsigned value of their byte. On Apple targets `char` is signed, so a byte of 0x80 or above reads there as a negative value. The model's only reader of those bytes is `isprint`, which rejects them either way, and the printed text never contains them.
- Slots of the buffer that the C code never writes are uninitialised there. The model starts from an arbitrary array, and `FormatInto` promises nothing about those slots except that they are unchanged.
- The `operation` argument is the memory of a C string. The model takes it as a character sequence and prints the part before its first NUL.
- `Chassis/Chassis.h` only declares the framework version symbols and includes `CheckError.h`. It has no logic.
- The Swift audio engine is not part of this model: the voice pool, transport state machine, capture and offline render sessions, and duration registry. Its source is not among the files modelled. It rests on audio-graph calls, real-time callbacks and concurrency.
