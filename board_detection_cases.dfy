/** Concrete `/proc/cpuinfo` contents and the driver chosen for them. */
module BoardDetectionCases {
  import opened Wrappers
  import opened FieldPattern
  import opened GpioControllerLinux

  /** A Compute Module 3 whose fields follow an unrelated line, with
      spaces on both sides of the colons. */
  lemma ComputeModule3Board(lines: seq<string>)
    requires lines == ["foo: bar", "Hardware   :   BCM2835", "Revision : a020a0"]
    ensures BestDriverForBoard(lines) == Ok(RaspberryPiComputeModule3Driver)
  {
    NoKeyStartNoMatch(HardwarePattern, lines[0]);
    ComputeModule3Fields(lines[1], lines[2]);
    assert lines == [lines[0]] + [lines[1], lines[2]] + [];
    RaspberryPiFieldsSelectDriver([lines[0]], "   ", "   ", "", " ", " ", "a020a0", "", []);
  }

  /** The two fields of ComputeModule3Board, laid out. */
  lemma ComputeModule3Fields(hardwareLine: string, revisionLine: string)
    requires hardwareLine == "Hardware   :   BCM2835"
    requires revisionLine == "Revision : a020a0"
    ensures hardwareLine == Field("Hardware", "   ", "   ", "BCM2835", "")
    ensures revisionLine == Field("Revision", " ", " ", "a020a0", "")
  {
  }

  /** A Raspberry Pi whose revision code is not a Compute Module code. */
  lemma RaspberryPi3Board(lines: seq<string>)
    requires lines == ["Hardware: BCM2835", "Revision: 9000c1"]
    ensures BestDriverForBoard(lines) == Ok(RaspberryPi3Driver)
  {
    assert lines[0] == Field("Hardware", "", " ", "BCM2835", "");
    assert lines[1] == Field("Revision", "", " ", "9000c1", "");
    assert lines == [] + [lines[0], lines[1]] + [];
    RaspberryPiFieldsSelectDriver([], "", " ", "", "", " ", "9000c1", "", []);
  }

  /** A trailing space is part of the Hardware value, which is then not "BCM2835". */
  lemma TrailingSpaceIsAnotherHardware(lines: seq<string>)
    requires lines == ["Hardware: BCM2835 ", "Revision: a020a0"]
    ensures BestDriverForBoard(lines) == Ok(UnixDriver)
  {
    assert lines[0] == Field("Hardware", "", " ", "BCM2835 ", "");
    assert lines == [] + [lines[0]] + [lines[1]];
    OtherHardwareFieldSelectsUnix([], "", " ", "BCM2835 ", "", [lines[1]]);
  }

  /** A second Hardware line after the first one is not looked at. */
  lemma SecondHardwareLineIgnored(lines: seq<string>)
    requires lines == ["Hardware: sun8i", "Hardware: BCM2835", "Revision: a020a0"]
    ensures BestDriverForBoard(lines) == Ok(UnixDriver)
  {
    assert lines[0] == Field("Hardware", "", " ", "sun8i", "");
    assert lines == [] + [lines[0]] + lines[1..];
    OtherHardwareFieldSelectsUnix([], "", " ", "sun8i", "", lines[1..]);
  }

  /** A board that is not a Raspberry Pi. The line is written as the field
      prefix followed by the board name. */
  lemma OtherBoard(lines: seq<string>)
    requires lines == ["Hardware: " + "Freescale i.MX6 Quad/DualLite (Device Tree)"]
    ensures BestDriverForBoard(lines) == Ok(UnixDriver)
  {
    var hardware := "Freescale i.MX6 Quad/DualLite (Device Tree)";
    assert lines[0] == Field("Hardware", "", " ", hardware, "") by {
      assert "Hardware" + [':'] + " " == "Hardware: ";
    }
    FreescaleValue(hardware);
    assert lines == [] + [lines[0]] + [];
    OtherHardwareFieldSelectsUnix([], "", " ", hardware, "", []);
  }

  /** The board name of OtherBoard is a well-formed field value. */
  lemma FreescaleValue(hardware: string)
    requires hardware == "Freescale i.MX6 Quad/DualLite (Device Tree)"
    ensures WellFormedField("", " ", hardware, "")
  {
    assert '\n' !in hardware;
    assert (hardware + "")[0] == 'F';
  }
}
