# Board detection of the Linux GPIO controller

When it is built without an explicit driver, the Linux GPIO controller reads the
lines of `/proc/cpuinfo` and picks one of three low-level drivers:

- the generic Unix driver;
- the Raspberry Pi 3 driver;
- the Raspberry Pi Compute Module 3 driver.

The choice works like this:

- It scans the lines in order for the first one that matches `Hardware\s*:\s*(.*)`.
- If that Hardware value is not exactly `BCM2835`, the generic Unix driver is chosen.
- If it is `BCM2835`, the line right after it is matched against `Revision\s*:\s*(.*)`.
  The Compute Module 3 driver is chosen when the revision code is one of
  `a020a0`, `a220a0` (Compute Module 3) or `a02100` (Compute Module 3+).
  Otherwise the Raspberry Pi 3 driver is chosen.
- If no line matches the Hardware pattern, the generic Unix driver is chosen.
- If the `BCM2835` Hardware line is the last line, reading the line after it
  throws an `IndexOutOfRangeException`.

The project has four modules:

- `Wrappers` (`wrappers.dfy`): `Option` and `Result`.
- `FieldPattern` (`field_pattern.dfy`): the two fixed regular expressions, both of
  the form `<key>\s*:\s*(.*)`, with the semantics of .NET's `Regex.Match`:
  - The match is not anchored; the leftmost starting position wins (`Match`, `MatchFrom`).
  - The key is compared case-sensitively (`KeyAt`).
  - Both `\s*` are greedy (`WhitespaceRun`).
  - `(.*)` stops at a newline (`LineEnd`).
  - Trailing characters, including whitespace, stay in the capture.
  - `MatchAtField` and `MatchAtIsField` prove that matching is the inverse of
    writing a field as `<key><spaces>:<spaces><value>`, in both directions;
    `MatchAtIsField` holds at every position, not only at the start of the line.
- `GpioControllerLinux` (`gpio_controller_linux.dfy`):
  - the constants `RaspberryPiHardware`, `RaspberryPiComputeModule3Revisions` and
    `RaspberryPiComputeModule3PlusRevisions`;
  - `Array.IndexOf` (`IndexOf`);
  - the source's `IsComputeModule3Or3Plus`, `GetBestDriverForRaspberryPiRevision`
    and `GetBestDriverForBoard`.

  `GetBestDriverForBoard` is a method with the source's indexed loop and early
  return. It is proved equal to the specification function `BestDriverForBoard`,
  which is built on `FirstHardwareLine`, the index of the first Hardware line.
  The lemmas prove the selection rules about `BestDriverForBoard`.
- `BoardDetectionCases` (`board_detection_cases.dfy`): concrete cpuinfo contents
  and the driver chosen for each.

The result is a `Result<Driver, Failure>`:

- `Ok(UnixDriver)`, `Ok(RaspberryPi3Driver)` or `Ok(RaspberryPiComputeModule3Driver)`;
- `Err(IndexOutOfRange(n))` for the out-of-range read of line `n`.

Each pattern has exactly one capturing group. So `match.Groups.Count > 1`
(GpioController.Linux.cs lines 43 and 68) holds whenever the match succeeds, and
the model merges that test with "the match succeeded".

Selection is a pure function of the lines, so the same input always gives the
same result.

## Model

| member | source | states |
|---|---|---|
| `FieldPattern.WhitespaceRun` | src/System.Device.Gpio/System/Device/Gpio/GpioController.Linux.cs:36 | a greedy `\s*` stops at the end of the longest whitespace run: every skipped character is whitespace and the next one is not |
| `FieldPattern.LineEnd` | src/System.Device.Gpio/System/Device/Gpio/GpioController.Linux.cs:36 | `(.*)` runs to the first newline or the end of the text, and contains no newline |
| `FieldPattern.MatchAt` | src/System.Device.Gpio/System/Device/Gpio/GpioController.Linux.cs:36 | one matching attempt at position `i`: it succeeds only where the key starts at `i`, and then its capture holds no newline and does not start with whitespace, because both `\s*` are greedy and `(.*)` stops at the end of the line |
| `FieldPattern.MatchFrom` | src/System.Device.Gpio/System/Device/Gpio/GpioController.Linux.cs:40 | the match found is at a position where the pattern matches, and no position before it (from `start`) matches; `None` only when no position matches |
| `FieldPattern.Match` | src/System.Device.Gpio/System/Device/Gpio/GpioController.Linux.cs:40-41 | `Regex.Match` is unanchored: it returns the leftmost position where the pattern matches, with its group-1 value; it fails only when no position matches |
| `FieldPattern.MatchAtParts` | src/System.Device.Gpio/System/Device/Gpio/GpioController.Linux.cs:36 | given the positions of the key, the colon and the value, the capture is exactly the text between the whitespace after the colon and the end of the line |
| `FieldPattern.MatchAtField` | src/System.Device.Gpio/System/Device/Gpio/GpioController.Linux.cs:36 | round trip: a line written as `<key><ws>:<ws><value>` with whitespace-only padding is matched, and the capture is exactly `<value>`, trailing characters included |
| `FieldPattern.MatchAtIsField` | src/System.Device.Gpio/System/Device/Gpio/GpioController.Linux.cs:36 | converse, at every position `i` where the unanchored search can match: the line is the text before `i`, then the key, whitespace, a colon, whitespace, the captured value, and a rest that is empty or starts at a newline |
| `FieldPattern.MatchField` | src/System.Device.Gpio/System/Device/Gpio/GpioController.Linux.cs:64-65 | `Regex.Match` on such a line matches at position 0 and captures the value |
| `FieldPattern.NoKeyNoMatch` | src/System.Device.Gpio/System/Device/Gpio/GpioController.Linux.cs:36 | the key is compared case-sensitively: a text in which the key occurs at no position does not match |
| `FieldPattern.NoColonNoMatch` | src/System.Device.Gpio/System/Device/Gpio/GpioController.Linux.cs:64 | a text without a colon does not match |
| `FieldPattern.NoKeyStartNoMatch` | src/System.Device.Gpio/System/Device/Gpio/GpioController.Linux.cs:36 | a text lacking the key's first character (for example a lower-case `hardware` line) does not match |
| `GpioControllerLinux.IndexOf` | src/System.Device.Gpio/System/Device/Gpio/GpioController.Linux.cs:83-84 | `Array.IndexOf` returns -1 exactly when the value is absent; otherwise it returns the first position holding it |
| `GpioControllerLinux.IsComputeModule3Or3Plus` | src/System.Device.Gpio/System/Device/Gpio/GpioController.Linux.cs:81-84 | true exactly for the codes `a020a0`, `a220a0` and `a02100` (the union of the two revision tables at lines 15-16), compared exactly and case-sensitively |
| `GpioControllerLinux.GetBestDriverForRaspberryPiRevision` | src/System.Device.Gpio/System/Device/Gpio/GpioController.Linux.cs:62-79 | never the Unix driver; the Compute Module 3 driver exactly when the line matches the Revision pattern and its value is one of the three codes; so a line without a Revision field gives the Raspberry Pi 3 driver |
| `GpioControllerLinux.FirstHardwareLine` | src/System.Device.Gpio/System/Device/Gpio/GpioController.Linux.cs:37-44 | the index returned holds a Hardware match and no line before it (from `from`) does; `None` only when no line holds one |
| `GpioControllerLinux.FirstHardwareLineFrom` | src/System.Device.Gpio/System/Device/Gpio/GpioController.Linux.cs:37-41 | the scan stops at the first matching line: when the lines between `from` and `n` do not match and line `n` does, the search from `from` finds `n` |
| `GpioControllerLinux.FirstHardwareLineNone` | src/System.Device.Gpio/System/Device/Gpio/GpioController.Linux.cs:37-58 | the scan finds nothing when no line from `from` on matches |
| `GpioControllerLinux.BestDriverForBoard` | src/System.Device.Gpio/System/Device/Gpio/GpioController.Linux.cs:33-60 | the selection fails only when the first Hardware line is the last line, and then at the index one past the last line (the read of the line after it); any driver other than the Unix driver requires a first Hardware line whose value is exactly `BCM2835` |
| `GpioControllerLinux.GetBestDriverForBoard` | src/System.Device.Gpio/System/Device/Gpio/GpioController.Linux.cs:33-60 | the loop with early return computes exactly `BestDriverForBoard`, including the failing read of line `n + 1`; its invariant is that no line before the current one matched |
| `GpioControllerLinux.NoHardwareLineSelectsUnix` | src/System.Device.Gpio/System/Device/Gpio/GpioController.Linux.cs:36-59 | when no line matches `Hardware\s*:\s*(.*)`, the generic Unix driver is chosen |
| `GpioControllerLinux.OtherHardwareSelectsUnix` | src/System.Device.Gpio/System/Device/Gpio/GpioController.Linux.cs:45-55 | when the first Hardware value is not exactly `BCM2835`, the generic Unix driver is chosen, whatever the other lines hold |
| `GpioControllerLinux.RaspberryPiReadsNextLine` | src/System.Device.Gpio/System/Device/Gpio/GpioController.Linux.cs:45-47 | when the first Hardware value is `BCM2835`, the choice depends on the next line alone; the Compute Module 3 driver is chosen exactly when that line's Revision value is one of the three codes; the result is never the Unix driver |
| `GpioControllerLinux.RaspberryPiHardwareOnLastLineFails` | src/System.Device.Gpio/System/Device/Gpio/GpioController.Linux.cs:47 | a first Hardware line `BCM2835` at index `n` that is the last line gives an out-of-range error at index `n + 1`, not a fallback driver |
| `GpioControllerLinux.DecidedByFirstHardwareLine` | src/System.Device.Gpio/System/Device/Gpio/GpioController.Linux.cs:37-56 | only the first Hardware line and the lines before it are read, plus the next line for a Raspberry Pi; any two inputs that agree up to there get the same result, so later Hardware lines have no effect |
| `GpioControllerLinux.OtherHardwareFieldSelectsUnix` | src/System.Device.Gpio/System/Device/Gpio/GpioController.Linux.cs:36-55 | a first `Hardware: <name>` line whose name is not `BCM2835` gives the Unix driver, whatever follows it |
| `GpioControllerLinux.RaspberryPiFieldsSelectDriver` | src/System.Device.Gpio/System/Device/Gpio/GpioController.Linux.cs:36-75 | `Hardware: BCM2835` followed by `Revision: <code>` gives the Compute Module 3 driver exactly for the three codes and the Raspberry Pi 3 driver for every other code |
| `BoardDetectionCases.ComputeModule3Board` | src/System.Device.Gpio/System/Device/Gpio/GpioController.Linux.cs:36-73 | `foo: bar`, then `Hardware   :   BCM2835`, then `Revision : a020a0` gives the Compute Module 3 driver: the unrelated first line is skipped |
| `BoardDetectionCases.RaspberryPi3Board` | src/System.Device.Gpio/System/Device/Gpio/GpioController.Linux.cs:45-75 | `Hardware: BCM2835` then `Revision: 9000c1` gives the Raspberry Pi 3 driver |
| `BoardDetectionCases.TrailingSpaceIsAnotherHardware` | src/System.Device.Gpio/System/Device/Gpio/GpioController.Linux.cs:45 | a trailing space makes the Hardware value `"BCM2835 "`, which gives the Unix driver |
| `BoardDetectionCases.SecondHardwareLineIgnored` | src/System.Device.Gpio/System/Device/Gpio/GpioController.Linux.cs:37-55 | a `BCM2835` Hardware line after an earlier Hardware line is never looked at |
| `BoardDetectionCases.OtherBoard` | src/System.Device.Gpio/System/Device/Gpio/GpioController.Linux.cs:36-58 | a single line `Hardware: Freescale i.MX6 Quad/DualLite (Device Tree)` gives the Unix driver |

## Left out

- Reading `/proc/cpuinfo` (`File.ReadAllLines`, line 35) is file I/O. The model takes the lines as input. An unreadable file is an exception outside the model.
- Building the driver objects (`UnixDriver.Create()`, `new RaspberryPi3Driver()`, `new RaspberryPiComputeModule3Driver()`) is left out. Those classes are not part of this model, so the result is a `Driver` tag.
- The public constructor (lines 24-27) is left out. It only passes the chosen driver on to another constructor, which is not part of this model.
- The commented-out HummingBoard branch (lines 49-54) and the unused `HummingBoardHardware` constant (line 17) are left out. Neither is live behaviour.
- `FieldPattern.IsWhitespace` approximates `\s`. It lists .NET's documented class `[\f\n\r\t\v\x85\p{Z}]`, with `\p{Z}` taken from current Unicode tables. The exact set depends on the Unicode version of the .NET runtime. .NET strings are UTF-16, while Dafny characters are Unicode scalar values. Neither difference changes which characters are whitespace or a colon.
- The general .NET regular-expression engine is left out. Only the two fixed patterns are modelled, with regular-expression options and timeouts at their defaults.
- `match.Groups.Count > 1` (lines 43 and 68) is merged with match success, because it always holds after a successful match of these patterns.
