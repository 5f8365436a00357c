/** Board detection of the Linux GPIO controller: from the lines of
    `/proc/cpuinfo`, choose the generic Unix driver, the Raspberry Pi 3
    driver or the Raspberry Pi Compute Module 3 driver. */
module GpioControllerLinux {
  import opened Wrappers
  import opened FieldPattern

  /** The Hardware value that identifies a Raspberry Pi. */
  const RaspberryPiHardware: string := "BCM2835"

  /** Revision codes of the Compute Module 3 and of the Compute Module 3+. */
  const RaspberryPiComputeModule3Revisions: seq<string> := ["a020a0", "a220a0"]
  const RaspberryPiComputeModule3PlusRevisions: seq<string> := ["a02100"]

  /** The same codes written out as one set, the reference the contracts
      are stated against. */
  const ComputeModule3Codes: set<string> := {"a020a0", "a220a0", "a02100"}

  /** `Hardware\s*:\s*(.*)` and `Revision\s*:\s*(.*)`. */
  const HardwarePattern: Pattern := Pattern("Hardware")
  const RevisionPattern: Pattern := Pattern("Revision")

  /** The driver chosen; the driver objects themselves are built by the caller. */
  datatype Driver = UnixDriver | RaspberryPi3Driver | RaspberryPiComputeModule3Driver

  /** The exception the selection can raise: reading the line after the last one. */
  datatype Failure = IndexOutOfRange(index: nat)

  /** `Array.IndexOf` with the ordinal string comparison: the first position
      holding `v`, or -1. */
  function IndexOf(a: seq<string>, v: string): (r: int)
    ensures -1 <= r < |a|
    ensures r == -1 <==> v !in a
    ensures 0 <= r ==> a[r] == v && forall k :: 0 <= k < r ==> a[k] != v
  {
    if a == [] then -1
    else if a[0] == v then 0
    else
      var i := IndexOf(a[1..], v);
      if i == -1 then -1 else i + 1
  }

  /** A revision code of a Compute Module 3 or 3+, compared exactly. */
  function IsComputeModule3Or3Plus(revisionValue: string): (b: bool)
    ensures b <==> revisionValue in ComputeModule3Codes
  {
    IndexOf(RaspberryPiComputeModule3Revisions, revisionValue) > -1
    || IndexOf(RaspberryPiComputeModule3PlusRevisions, revisionValue) > -1
  }

  /** The Raspberry Pi variant named by the line read as the revision line:
      the Compute Module 3 driver exactly when the line holds a Revision field
      whose value is a Compute Module 3 or 3+ code, the Raspberry Pi 3 driver
      otherwise (no Revision field, or another code). */
  function GetBestDriverForRaspberryPiRevision(revisionLine: string): (d: Driver)
    ensures d != UnixDriver
    ensures d == RaspberryPiComputeModule3Driver <==>
      && Match(RevisionPattern, revisionLine).Some?
      && Match(RevisionPattern, revisionLine).value.value in ComputeModule3Codes
  {
    match Match(RevisionPattern, revisionLine)
    case Some(revision) =>
      if IsComputeModule3Or3Plus(revision.value) then RaspberryPiComputeModule3Driver else RaspberryPi3Driver
    case None => RaspberryPi3Driver
  }

  /** No line in `from..to` holds a Hardware field. */
  predicate NoHardwareLineBetween(lines: seq<string>, from: nat, to: nat)
    requires to <= |lines|
  {
    forall j :: from <= j < to ==> Match(HardwarePattern, lines[j]).None?
  }

  /** The first line at or after `from` holding a Hardware field. */
  function FirstHardwareLine(lines: seq<string>, from: nat): (r: Option<nat>)
    requires from <= |lines|
    ensures r.Some? ==> from <= r.value < |lines| && Match(HardwarePattern, lines[r.value]).Some?
    ensures NoHardwareLineBetween(lines, from, if r.Some? then r.value else |lines|)
    decreases |lines| - from
  {
    if from == |lines| then None
    else if Match(HardwarePattern, lines[from]).Some? then Some(from)
    else FirstHardwareLine(lines, from + 1)
  }

  /** Searching from `from`, the first Hardware line is the one at `n` when
      no line between them has one. */
  lemma {:induction false} FirstHardwareLineFrom(lines: seq<string>, from: nat, n: nat)
    requires from <= n < |lines| && Match(HardwarePattern, lines[n]).Some?
    requires NoHardwareLineBetween(lines, from, n)
    ensures FirstHardwareLine(lines, from) == Some(n)
    decreases n - from
  {
    if from < n {
      assert Match(HardwarePattern, lines[from]).None?;
      FirstHardwareLineFrom(lines, from + 1, n);
    }
  }

  /** The first Hardware line is the one at `n` when no line before it has one. */
  lemma FirstHardwareLineAt(lines: seq<string>, n: nat)
    requires n < |lines| && Match(HardwarePattern, lines[n]).Some?
    requires NoHardwareLineBetween(lines, 0, n)
    ensures FirstHardwareLine(lines, 0) == Some(n)
  {
    FirstHardwareLineFrom(lines, 0, n);
  }

  /** There is no Hardware line when no line has one. */
  lemma {:induction false} FirstHardwareLineNone(lines: seq<string>, from: nat)
    requires from <= |lines|
    requires NoHardwareLineBetween(lines, from, |lines|)
    ensures FirstHardwareLine(lines, from) == None
    decreases |lines| - from
  {
    if from < |lines| {
      assert Match(HardwarePattern, lines[from]).None?;
      FirstHardwareLineNone(lines, from + 1);
    }
  }

  /** The driver for the board described by `lines`: decided by the first
      Hardware line alone and, for a Raspberry Pi, by the line after it. */
  function BestDriverForBoard(lines: seq<string>): (r: Result<Driver, Failure>)
    ensures r.Err? ==>
      && lines != []
      && FirstHardwareLine(lines, 0) == Some(|lines| - 1)
      && r.error == IndexOutOfRange(|lines|)
    ensures r != Ok(UnixDriver) ==>
      && FirstHardwareLine(lines, 0).Some?
      && Match(HardwarePattern, lines[FirstHardwareLine(lines, 0).value]).value.value == RaspberryPiHardware
  {
    match FirstHardwareLine(lines, 0)
    case None => Ok(UnixDriver)
    case Some(n) =>
      if Match(HardwarePattern, lines[n]).value.value != RaspberryPiHardware then Ok(UnixDriver)
      else if n + 1 < |lines| then Ok(GetBestDriverForRaspberryPiRevision(lines[n + 1]))
      else Err(IndexOutOfRange(n + 1))
  }

  /** The scan over the lines of `/proc/cpuinfo`, returning on the first
      Hardware line. */
  method GetBestDriverForBoard(cpuInfoLines: seq<string>) returns (r: Result<Driver, Failure>)
    ensures r == BestDriverForBoard(cpuInfoLines)
  {
    for lineNumber := 0 to |cpuInfoLines|
      invariant NoHardwareLineBetween(cpuInfoLines, 0, lineNumber)
    {
      var hardware := Match(HardwarePattern, cpuInfoLines[lineNumber]);
      if hardware.Some? {
        FirstHardwareLineAt(cpuInfoLines, lineNumber);
        if hardware.value.value == RaspberryPiHardware {
          if lineNumber + 1 < |cpuInfoLines| {
            r := Ok(GetBestDriverForRaspberryPiRevision(cpuInfoLines[lineNumber + 1]));
          } else {
            r := Err(IndexOutOfRange(lineNumber + 1));
          }
          return;
        }
        r := Ok(UnixDriver);
        return;
      }
    }
    FirstHardwareLineNone(cpuInfoLines, 0);
    r := Ok(UnixDriver);
  }

  /** The first Hardware line of `lines` is at `n`. */
  predicate FirstHardwareLineIs(lines: seq<string>, n: nat)
  {
    && n < |lines|
    && Match(HardwarePattern, lines[n]).Some?
    && NoHardwareLineBetween(lines, 0, n)
  }

  /** Without a Hardware line the generic Unix driver is chosen. */
  lemma NoHardwareLineSelectsUnix(lines: seq<string>)
    requires NoHardwareLineBetween(lines, 0, |lines|)
    ensures BestDriverForBoard(lines) == Ok(UnixDriver)
  {
    FirstHardwareLineNone(lines, 0);
  }

  /** A first Hardware value other than exactly "BCM2835" (case and trailing
      characters included) chooses the generic Unix driver, whatever the other
      lines hold. */
  lemma OtherHardwareSelectsUnix(lines: seq<string>, n: nat)
    requires FirstHardwareLineIs(lines, n)
    requires Match(HardwarePattern, lines[n]).value.value != "BCM2835"
    ensures BestDriverForBoard(lines) == Ok(UnixDriver)
  {
    FirstHardwareLineAt(lines, n);
  }

  /** A Raspberry Pi is told apart by the line right after its Hardware line
      alone: the Compute Module 3 driver exactly when that line holds a
      Compute Module 3 or 3+ revision code, the Raspberry Pi 3 driver
      otherwise. */
  lemma RaspberryPiReadsNextLine(lines: seq<string>, n: nat)
    requires FirstHardwareLineIs(lines, n)
    requires Match(HardwarePattern, lines[n]).value.value == "BCM2835"
    requires n + 1 < |lines|
    ensures BestDriverForBoard(lines) == Ok(GetBestDriverForRaspberryPiRevision(lines[n + 1]))
    ensures BestDriverForBoard(lines) == Ok(RaspberryPiComputeModule3Driver) <==>
      && Match(RevisionPattern, lines[n + 1]).Some?
      && Match(RevisionPattern, lines[n + 1]).value.value in ComputeModule3Codes
    ensures BestDriverForBoard(lines) != Ok(UnixDriver)
  {
    FirstHardwareLineAt(lines, n);
  }

  /** A "BCM2835" Hardware line that is the last line makes the read of the
      revision line fail rather than fall back to a default. */
  lemma RaspberryPiHardwareOnLastLineFails(lines: seq<string>, n: nat)
    requires FirstHardwareLineIs(lines, n)
    requires Match(HardwarePattern, lines[n]).value.value == "BCM2835"
    requires n + 1 == |lines|
    ensures BestDriverForBoard(lines) == Err(IndexOutOfRange(|lines|))
  {
    FirstHardwareLineAt(lines, n);
  }

  /** Only the lines up to the first Hardware line and, for a Raspberry Pi,
      the one after it are looked at: any lines after those, later Hardware
      lines among them, leave the choice unchanged. */
  lemma DecidedByFirstHardwareLine(lines: seq<string>, other: seq<string>, n: nat)
    requires FirstHardwareLineIs(lines, n)
    requires var k := if Match(HardwarePattern, lines[n]).value.value == "BCM2835" then n + 2 else n + 1;
      k <= |lines| && k <= |other| && other[..k] == lines[..k]
    ensures BestDriverForBoard(other) == BestDriverForBoard(lines)
  {
    assert forall j :: 0 <= j <= n ==> other[j] == other[..n + 1][j] == lines[..n + 1][j] == lines[j];
    FirstHardwareLineAt(lines, n);
    FirstHardwareLineAt(other, n);
    if Match(HardwarePattern, lines[n]).value.value == "BCM2835" {
      assert other[n + 1] == other[..n + 2][n + 1] == lines[n + 1];
    }
  }

  /** With lines `pre`, then `Hardware: <hardware>`, then anything: a
      hardware name other than "BCM2835" chooses the generic Unix driver. */
  lemma OtherHardwareFieldSelectsUnix(pre: seq<string>, before: string, after: string, hardware: string, rest: string, post: seq<string>)
    requires NoHardwareLineBetween(pre, 0, |pre|)
    requires WellFormedField(before, after, hardware, rest)
    requires hardware != "BCM2835"
    ensures BestDriverForBoard(pre + [Field("Hardware", before, after, hardware, rest)] + post) == Ok(UnixDriver)
  {
    var lines := pre + [Field("Hardware", before, after, hardware, rest)] + post;
    MatchField(HardwarePattern, before, after, hardware, rest);
    assert forall j :: 0 <= j < |pre| ==> lines[j] == pre[j];
    OtherHardwareSelectsUnix(lines, |pre|);
  }

  /** With lines `pre`, then `Hardware: BCM2835`, then `Revision: <code>`,
      then anything: the Compute Module 3 driver exactly for the codes
      "a020a0", "a220a0" and "a02100", the Raspberry Pi 3 driver for any
      other code. */
  lemma RaspberryPiFieldsSelectDriver(
    pre: seq<string>, before: string, after: string, rest: string,
    revBefore: string, revAfter: string, revision: string, revRest: string, post: seq<string>)
    requires NoHardwareLineBetween(pre, 0, |pre|)
    requires WellFormedField(before, after, "BCM2835", rest)
    requires WellFormedField(revBefore, revAfter, revision, revRest)
    ensures BestDriverForBoard(
        pre + [Field("Hardware", before, after, "BCM2835", rest), Field("Revision", revBefore, revAfter, revision, revRest)] + post)
      == Ok(if revision in ComputeModule3Codes then RaspberryPiComputeModule3Driver else RaspberryPi3Driver)
  {
    var hardwareLine := Field("Hardware", before, after, "BCM2835", rest);
    var revisionLine := Field("Revision", revBefore, revAfter, revision, revRest);
    var lines := pre + [hardwareLine, revisionLine] + post;
    MatchField(HardwarePattern, before, after, "BCM2835", rest);
    MatchField(RevisionPattern, revBefore, revAfter, revision, revRest);
    assert forall j :: 0 <= j < |pre| ==> lines[j] == pre[j];
    assert lines[|pre|] == hardwareLine && lines[|pre| + 1] == revisionLine;
    RaspberryPiReadsNextLine(lines, |pre|);
  }
}
