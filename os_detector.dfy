/**
 * `OSDetector`: classifies the running platform from the `os.name` property,
 * two Windows environment variables and the output of `uname -m` or
 * `sysctl hw`. Every input the Java code reads from the system is a
 * parameter here.
 */
module OSDetector {
  import opened Results
  import opened Strings
  import opened Platform

  /** The reasons detection fails (`OsDetectionException`, or the null dereference on Windows). */
  datatype DetectionError =
    | UnrecognizedOs(osName: string)   // "Unrecognized OS: " + the lower-cased name
    | UnrecognizedCpu(line: string)    // "Could not detect the CPU architecture from: " + line
    | CpuNotDetected                   // "Could not detect the CPU architecture!"
    | CommandFailed                    // spawning or reading the command threw; wrapped
    | MissingProcessorArchitecture     // PROCESSOR_ARCHITECTURE unset: `arch.endsWith` on null

  /** The two environment variables `getWindowsArchitecture` reads; `None` is an unset variable. */
  datatype WindowsEnvironment = WindowsEnvironment(
    processorArchitecture: Option<string>,
    processorArchiteW6432: Option<string>)

  /**
   * What a spawned command produced: the lines read before the stream ended,
   * and whether it ended by an exception (or the command never ran) rather
   * than at end of stream.
   */
  datatype CommandOutput = CommandOutput(lines: seq<string>, readFailed: bool)

  /** Some UNIX marker ("nix", "nux" or "aix") occurs in the name. */
  predicate HasUnixMarker(name: string) {
    Contains(name, "nix") || Contains(name, "nux") || Contains(name, "aix")
  }

  /** `getOS`: ordered first-match classification of the lower-cased OS name. */
  function GetOS(osName: string): (r: Result<OS, DetectionError>)
    ensures r.Err? ==> r.error == UnrecognizedOs(ToLower(osName))
  {
    var name := ToLower(osName);
    if Contains(name, "win") then Ok(Windows)
    else if HasUnixMarker(name) then Ok(Unix)
    else if EqualsIgnoreCase("Mac OS X", name) then Ok(MacOSX)
    else Err(UnrecognizedOs(name))
  }

  /** `getWindowsArchitecture`: 64-bit when either variable ends in "64". */
  function WindowsArchitecture(env: WindowsEnvironment): (r: Result<Architecture, DetectionError>)
    ensures r.Err? <==> env.processorArchitecture.None?
    ensures r.Err? ==> r.error == MissingProcessorArchitecture
    ensures r.Ok? ==> r.value != Aarch64
  {
    match env.processorArchitecture
    case None => Err(MissingProcessorArchitecture)
    case Some(arch) =>
      if EndsWith(arch, "64")
         || (env.processorArchiteW6432.Some? && EndsWith(env.processorArchiteW6432.value, "64"))
      then Ok(X86_64)
      else Ok(X86)
  }

  /** How `getUnixArchitecture` judges the first non-empty line of `uname -m`. */
  function ClassifyUnixLine(line: string): (r: Result<Architecture, DetectionError>)
    ensures r.Ok? ==> r.value != X86
  {
    if Contains(line, "x86_64") then Ok(X86_64)
    else if Contains(line, "aarch64") then Ok(Aarch64)
    else Err(UnrecognizedCpu(line))
  }

  /** The verdict of `getUnixArchitecture` once the lines before `lines` were all empty. */
  function UnixArchitectureFrom(lines: seq<string>, readFailed: bool): (r: Result<Architecture, DetectionError>)
  {
    if lines == [] then (if readFailed then Err(CommandFailed) else Err(CpuNotDetected))
    else if |lines[0]| > 0 then ClassifyUnixLine(lines[0])
    else UnixArchitectureFrom(lines[1..], readFailed)
  }

  /** The verdict of `getUnixArchitecture` on the whole output of `uname -m`. */
  function UnixArchitectureOf(output: CommandOutput): Result<Architecture, DetectionError> {
    UnixArchitectureFrom(output.lines, output.readFailed)
  }

  /** A line of `sysctl hw` that reports a 64-bit capable CPU. */
  predicate Cpu64BitCapableLine(line: string) {
    |line| > 0 && ReportsCpu64Bit(line)
  }

  /** The test applied to each non-empty line of `sysctl hw`. */
  predicate ReportsCpu64Bit(line: string) {
    Contains(line, "cpu64bit_capable") && EndsWith(Trim(line), "1")
  }

  /** The verdict of `getMacOSXArchitecture` on the output of `sysctl hw`. */
  function MacArchitectureOf(output: CommandOutput): (r: Result<Architecture, DetectionError>)
    ensures r.Ok? ==> r.value != Aarch64
    ensures r == Ok(X86_64) <==> exists i :: 0 <= i < |output.lines| && Cpu64BitCapableLine(output.lines[i])
    ensures !(exists i :: 0 <= i < |output.lines| && Cpu64BitCapableLine(output.lines[i]))
            ==> r == if output.readFailed then Err(CommandFailed) else Ok(X86)
  {
    if exists i :: 0 <= i < |output.lines| && Cpu64BitCapableLine(output.lines[i]) then Ok(X86_64)
    else if output.readFailed then Err(CommandFailed)
    else Ok(X86)
  }

  /** The verdict of `getArchitecture`: the classifier for the OS `getOS` reports. */
  function ArchitectureOf(osName: string, env: WindowsEnvironment, uname: CommandOutput, sysctl: CommandOutput)
    : Result<Architecture, DetectionError>
  {
    match GetOS(osName)
    case Err(e) => Err(e)
    case Ok(Windows) => WindowsArchitecture(env)
    case Ok(Unix) => UnixArchitectureOf(uname)
    case Ok(MacOSX) => MacArchitectureOf(sysctl)
  }

  /** `getUnixArchitecture`: reads lines until the first non-empty one and judges that one. */
  method ScanUnixArchitecture(output: CommandOutput) returns (r: Result<Architecture, DetectionError>)
    ensures r == UnixArchitectureOf(output)
  {
    var lines := output.lines;
    var i := 0;
    while i < |lines|
      invariant 0 <= i <= |lines|
      invariant UnixArchitectureFrom(lines[i..], output.readFailed) == UnixArchitectureOf(output)
    {
      var line := lines[i];
      assert lines[i..][1..] == lines[i + 1..];
      if |line| > 0 {
        if Contains(line, "x86_64") {
          return Ok(X86_64);
        } else if Contains(line, "aarch64") {
          return Ok(Aarch64);
        } else {
          return Err(UnrecognizedCpu(line));
        }
      }
      i := i + 1;
    }
    if output.readFailed {
      r := Err(CommandFailed);
    } else {
      r := Err(CpuNotDetected);
    }
  }

  /** `getMacOSXArchitecture`: 64-bit at the first capable line, 32-bit x86 if none is seen. */
  method ScanMacArchitecture(output: CommandOutput) returns (r: Result<Architecture, DetectionError>)
    ensures r == MacArchitectureOf(output)
  {
    var lines := output.lines;
    var i := 0;
    while i < |lines|
      invariant 0 <= i <= |lines|
      invariant forall j :: 0 <= j < i ==> !Cpu64BitCapableLine(lines[j])
    {
      var line := lines[i];
      if |line| > 0 {
        if ReportsCpu64Bit(line) {
          MacCapableLineDecides(output, i);
          return Ok(X86_64);
        }
      }
      assert !Cpu64BitCapableLine(lines[i]);
      i := i + 1;
    }
    MacNoCapableLine(output);
    if output.readFailed {
      r := Err(CommandFailed);
    } else {
      r := Ok(X86);
    }
  }


  /** `getArchitecture`: dispatches on `getOS`, whose failure propagates unchanged. */
  method GetArchitecture(osName: string, env: WindowsEnvironment, uname: CommandOutput, sysctl: CommandOutput)
    returns (r: Result<Architecture, DetectionError>)
    ensures r == ArchitectureOf(osName, env, uname, sysctl)
  {
    var os := GetOS(osName);
    match os
    case Err(e) => r := Err(e);
    case Ok(Windows) => r := WindowsArchitecture(env);
    case Ok(Unix) => r := ScanUnixArchitecture(uname);
    case Ok(MacOSX) => r := ScanMacArchitecture(sysctl);
  }

  // ----- Properties of the classification -----

  /** The OS classification, case by case, with "win" tested first and "Mac OS X" matched exactly up to case. */
  lemma GetOsCases(osName: string)
    ensures GetOS(osName) == Ok(Windows) <==> Contains(ToLower(osName), "win")
    ensures GetOS(osName) == Ok(Unix)
            <==> !Contains(ToLower(osName), "win") && HasUnixMarker(ToLower(osName))
    ensures GetOS(osName) == Ok(MacOSX)
            <==> !Contains(ToLower(osName), "win") && !HasUnixMarker(ToLower(osName))
                 && ToLower(osName) == "mac os x"
    ensures GetOS(osName).Err?
            <==> !Contains(ToLower(osName), "win") && !HasUnixMarker(ToLower(osName))
                 && ToLower(osName) != "mac os x"
  {
  }

  /** "Darwin" contains "win", so the first-match order classifies it as Windows. */
  lemma DarwinIsWindows()
    ensures GetOS("Darwin") == Ok(Windows)
  {
    assert OccursAt(ToLower("Darwin"), "win", 3);
  }

  /** Typical `os.name` values of Linux and Windows JVMs. */
  lemma GetOsExamples()
    ensures GetOS("Linux") == Ok(Unix)
    ensures GetOS("Windows 10") == Ok(Windows)
  {
    var linux := ToLower("Linux");
    assert linux == "linux";
    forall i | 0 <= i <= 2 ensures !OccursAt(linux, "win", i) {
      assert linux[i] != 'w';
      assert linux[i..i + 3][0] == linux[i];
    }
    assert !Contains(linux, "win");
    assert linux[2..5] == "nux";
    assert OccursAt(linux, "nux", 2);
    assert Contains(linux, "nux");
    assert OccursAt(ToLower("Windows 10"), "win", 0);
  }

  /** The `os.name` of macOS JVMs, which holds none of the Windows or UNIX markers. */
  lemma MacOsXName()
    ensures GetOS("Mac OS X") == Ok(MacOSX)
  {
    var mac := ToLower("Mac OS X");
    assert mac == "mac os x";
    forall part, i | part in ["win", "nix", "nux", "aix"] && 0 <= i <= 5 ensures !OccursAt(mac, part, i) {
      assert mac[i..i + 3][1] == mac[i + 1];
    }
    EqualsIgnoreCaseOnLowered("Mac OS X", "Mac OS X");
  }

  /** Windows is 64-bit exactly when one of the two variables ends in "64". */
  lemma WindowsArchitectureIff(env: WindowsEnvironment)
    requires env.processorArchitecture.Some?
    ensures WindowsArchitecture(env) == Ok(X86_64)
            <==> EndsWith(env.processorArchitecture.value, "64")
                 || (env.processorArchiteW6432.Some? && EndsWith(env.processorArchiteW6432.value, "64"))
    ensures WindowsArchitecture(env) == Ok(X86)
            <==> !EndsWith(env.processorArchitecture.value, "64")
                 && (env.processorArchiteW6432.None? || !EndsWith(env.processorArchiteW6432.value, "64"))
  {
  }

  /** A 32-bit JVM on 64-bit Windows (WOW64) is still detected as x86_64. */
  lemma WindowsWow64Example()
    ensures WindowsArchitecture(WindowsEnvironment(Some("x86"), Some("AMD64"))) == Ok(X86_64)
    ensures WindowsArchitecture(WindowsEnvironment(Some("x86"), None)) == Ok(X86)
  {
  }

  /** Only the first non-empty line of `uname -m` decides; later lines are never read. */
  lemma {:induction false} UnixFirstNonEmptyLineDecides(lines: seq<string>, readFailed: bool, k: nat)
    requires k < |lines| && |lines[k]| > 0
    requires forall j :: 0 <= j < k ==> |lines[j]| == 0
    ensures UnixArchitectureFrom(lines, readFailed) == ClassifyUnixLine(lines[k])
  {
    if k > 0 {
      UnixFirstNonEmptyLineDecides(lines[1..], readFailed, k - 1);
    }
  }

  /** With no non-empty line the Unix classifier fails: wrapped if reading threw, "not detected" otherwise. */
  lemma {:induction false} UnixAllEmptyFails(lines: seq<string>, readFailed: bool)
    requires forall j :: 0 <= j < |lines| ==> |lines[j]| == 0
    ensures UnixArchitectureFrom(lines, readFailed) == if readFailed then Err(CommandFailed) else Err(CpuNotDetected)
  {
    if lines != [] {
      UnixAllEmptyFails(lines[1..], readFailed);
    }
  }

  /** "x86_64" is tested before "aarch64", and a line with neither is an error naming that line. */
  lemma ClassifyUnixLineCases(line: string)
    ensures ClassifyUnixLine(line) == Ok(X86_64) <==> Contains(line, "x86_64")
    ensures ClassifyUnixLine(line) == Ok(Aarch64) <==> !Contains(line, "x86_64") && Contains(line, "aarch64")
    ensures ClassifyUnixLine(line).Err?
            <==> !Contains(line, "x86_64") && !Contains(line, "aarch64")
    ensures ClassifyUnixLine(line).Err? ==> ClassifyUnixLine(line).error == UnrecognizedCpu(line)
  {
  }

  /** The Unix path never yields x86: 32-bit Linux output fails detection. */
  lemma {:induction false} UnixNeverX86(lines: seq<string>, readFailed: bool)
    ensures UnixArchitectureFrom(lines, readFailed) != Ok(X86)
  {
    if lines != [] && |lines[0]| == 0 {
      UnixNeverX86(lines[1..], readFailed);
    }
  }

  /** A capable line anywhere in the output makes the macOS verdict x86_64. */
  lemma MacCapableLineDecides(output: CommandOutput, k: nat)
    requires k < |output.lines| && Cpu64BitCapableLine(output.lines[k])
    ensures MacArchitectureOf(output) == Ok(X86_64)
  {
  }

  /** Without a capable line the macOS verdict is x86, or the wrapped failure when reading threw. */
  lemma MacNoCapableLine(output: CommandOutput)
    requires forall j :: 0 <= j < |output.lines| ==> !Cpu64BitCapableLine(output.lines[j])
    ensures MacArchitectureOf(output) == if output.readFailed then Err(CommandFailed) else Ok(X86)
  {
  }

  /** The typical `sysctl hw` line on a 64-bit Mac. */
  lemma MacExample()
    ensures MacArchitectureOf(CommandOutput(["hw.ncpu: 8", "hw.cpu64bit_capable: 1"], false)) == Ok(X86_64)
  {
    var line := "hw.cpu64bit_capable: 1";
    assert OccursAt(line, "cpu64bit_capable", 3);
    assert Trim(line) == line;
    assert Cpu64BitCapableLine(["hw.ncpu: 8", "hw.cpu64bit_capable: 1"][1]);
  }

  /** `getArchitecture` never reports aarch64 on macOS, and a `getOS` failure is its result. */
  lemma ArchitectureOfDispatch(osName: string, env: WindowsEnvironment, uname: CommandOutput, sysctl: CommandOutput)
    ensures GetOS(osName).Err? ==> ArchitectureOf(osName, env, uname, sysctl) == Err(UnrecognizedOs(ToLower(osName)))
    ensures GetOS(osName) == Ok(MacOSX) ==> ArchitectureOf(osName, env, uname, sysctl) != Ok(Aarch64)
    ensures GetOS(osName) == Ok(Windows) ==> ArchitectureOf(osName, env, uname, sysctl) != Ok(Aarch64)
    ensures GetOS(osName) == Ok(Unix) ==> ArchitectureOf(osName, env, uname, sysctl) != Ok(X86)
  {
    if GetOS(osName) == Ok(Unix) {
      UnixNeverX86(uname.lines, uname.readFailed);
    }
  }
}
