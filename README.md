# embedded-redis: platform detection, executable registry and predefined ports

A Dafny model of three small pieces of bookkeeping from embedded-redis, a Java
library that starts throw-away Redis servers for tests:

- **`OSDetector`** turns the `os.name` property into an OS family. On Windows it
  reads the architecture from two environment variables. On Linux it reads the
  output lines of `uname -m`, and on macOS those of `sysctl hw`. Here the name,
  the variables and the output lines are parameters (`WindowsEnvironment`,
  `CommandOutput`). `getOS`, `getWindowsArchitecture` and the verdicts are
  functions. The two line-scanning loops are methods, each proved equal to its
  verdict function.
- **`RedisExecProvider`** is a mutable map from (OS, architecture) to an
  executable name. It is seeded with five bundled Redis 7.0.15 binaries. Two
  `override` forms update it in place, and `get()` looks up the detected
  platform. It is a class with a `map` field. The per-OS override is a loop over
  `Architecture.values()`, proved equal to the fold `OverrideAll`.
- **`PredefinedPortProvider`** hands out a copied list of ports front to back
  and fails with "Run out of Redis ports!" once the list is used up. It is a
  class with the copied `seq<int>` and a cursor. `Step` and `Calls` describe one
  call and a run of calls, and the lemmas prove order, exhaustion and
  multiplicity about them.

Modules: `Results` (Option/Result), `Strings` (`contains`, `endsWith`,
`toLowerCase`, `equalsIgnoreCase`, `trim`), `Platform` (`OS`, `Architecture`,
`OsArchitecture`), `OSDetector`, `ExecProvider`, `Ports`.

Modelling decisions:
- `Architecture.java` and `OsArchitecture.java` are not modelled. The
  `Architecture` enum is taken to have the three values the detector names,
  `x86`, `x86_64` and `aarch64`, in that declaration order. The registry keys
  `UNIX_arm64` and `MAC_OS_X_arm64` are read as (OS, `aarch64`).
  `OsArchitecture` is taken to be the plain (OS, architecture) pair.
- Java `null` becomes `Option.None`. A null `PROCESSOR_ARCHITECTURE` makes
  `arch.endsWith` throw; this is the explicit error `MissingProcessorArchitecture`.
  A null executable name in either `override` is `Err(NullExecutable)`, and the
  registry does not change.
- Exceptions become `Result.Err`. A spawned command that throws, while starting
  or while its lines are read, is `CommandOutput.readFailed`: the lines read
  before the failure are kept, and the Java wrapping into `OsDetectionException`
  becomes `CommandFailed`.
- `override` returns `this`. Here that is `Ok(this)`.

## Model

| member | source | states |
|---|---|---|
| `Strings.Trim` | src/main/java/redis/embedded/util/OSDetector.java:84 | `trim()` yields the infix of the line that neither starts nor ends with a character up to the space, and every character dropped before or after it is one up to the space |
| `Strings.ToLower` | src/main/java/redis/embedded/util/OSDetector.java:13 | `toLowerCase()` keeps the length, maps each character by the ASCII lower-case mapping, and leaves no upper-case letter |
| `Strings.EqualsIgnoreCaseIffSameLower` | src/main/java/redis/embedded/util/OSDetector.java:19 | `equalsIgnoreCase` holds iff both strings lower-case to the same string; it is symmetric |
| `Strings.ContainsFacts` | src/main/java/redis/embedded/util/OSDetector.java:15-17 | `contains` never finds a part longer than the string, always finds the empty part, and finds every suffix |
| `Strings.EndsWithSplits` | src/main/java/redis/embedded/util/OSDetector.java:44 | `endsWith` holds iff `s == p + suffix` for some string `p` |
| `Strings.EqualsIgnoreCaseOnLowered` | src/main/java/redis/embedded/util/OSDetector.java:13-19 | on a lower-cased name, `"Mac OS X".equalsIgnoreCase(name)` holds iff the name is exactly "mac os x" |
| `OSDetector.GetOS` | src/main/java/redis/embedded/util/OSDetector.java:12-24 | an unrecognised name fails with the lower-cased name in the error |
| `OSDetector.GetOsCases` | src/main/java/redis/embedded/util/OSDetector.java:13-23 | ordered first match, both directions: "win" gives WINDOWS; else "nix"/"nux"/"aix" gives UNIX; else exactly "mac os x" gives MAC_OS_X; else error |
| `OSDetector.DarwinIsWindows` | src/main/java/redis/embedded/util/OSDetector.java:15-16 | "Darwin" contains "win" and is classified as WINDOWS |
| `OSDetector.GetOsExamples` | src/main/java/redis/embedded/util/OSDetector.java:15-18 | "Linux" is UNIX and "Windows 10" is WINDOWS |
| `OSDetector.MacOsXName` | src/main/java/redis/embedded/util/OSDetector.java:19-20 | "Mac OS X" passes the first two tests and is classified as MAC_OS_X |
| `OSDetector.WindowsArchitecture` | src/main/java/redis/embedded/util/OSDetector.java:40-49 | fails iff PROCESSOR_ARCHITECTURE is unset; never yields aarch64 |
| `OSDetector.WindowsArchitectureIff` | src/main/java/redis/embedded/util/OSDetector.java:44-48 | x86_64 iff PROCESSOR_ARCHITECTURE ends with "64" or PROCESSOR_ARCHITEW6432 is set and ends with "64"; x86 otherwise |
| `OSDetector.WindowsWow64Example` | src/main/java/redis/embedded/util/OSDetector.java:41-47 | a 32-bit JVM on 64-bit Windows ("x86", "AMD64") is x86_64; ("x86", unset) is x86 |
| `OSDetector.ClassifyUnixLine` | src/main/java/redis/embedded/util/OSDetector.java:58-64 | a `uname -m` line never classifies as x86 |
| `OSDetector.ClassifyUnixLineCases` | src/main/java/redis/embedded/util/OSDetector.java:58-64 | "x86_64" is tested before "aarch64"; a line with neither fails, naming the line |
| `OSDetector.ScanUnixArchitecture` | src/main/java/redis/embedded/util/OSDetector.java:51-75 | the `uname -m` loop returns exactly the verdict `UnixArchitectureOf` of its output |
| `OSDetector.UnixFirstNonEmptyLineDecides` | src/main/java/redis/embedded/util/OSDetector.java:55-65 | the first non-empty line alone decides the Unix architecture |
| `OSDetector.UnixAllEmptyFails` | src/main/java/redis/embedded/util/OSDetector.java:56-74 | with no non-empty line the result is "could not detect", or the wrapped read failure |
| `OSDetector.UnixNeverX86` | src/main/java/redis/embedded/util/OSDetector.java:51-75 | the Unix path never yields x86 |
| `OSDetector.UnixArchitectureFrom` | src/main/java/redis/embedded/util/OSDetector.java:56-74 | reference verdict of the `uname -m` loop: skip empty lines, judge the first non-empty one, else fail |
| `OSDetector.UnixArchitectureOf` | src/main/java/redis/embedded/util/OSDetector.java:51-75 | the reference verdict applied to a whole command output |
| `OSDetector.ReportsCpu64Bit` | src/main/java/redis/embedded/util/OSDetector.java:84 | the per-line test: contains "cpu64bit_capable" and ends with "1" after trimming |
| `OSDetector.Cpu64BitCapableLine` | src/main/java/redis/embedded/util/OSDetector.java:83-84 | a non-empty line passing that test |
| `OSDetector.MacArchitectureOf` | src/main/java/redis/embedded/util/OSDetector.java:82-94 | x86_64 iff some non-empty line contains "cpu64bit_capable" and ends with "1" after trimming; with no such line, x86 after a normal read and `CommandFailed` after a failed one; never aarch64 |
| `OSDetector.MacCapableLineDecides` | src/main/java/redis/embedded/util/OSDetector.java:84-85 | a capable line at any position gives x86_64 |
| `OSDetector.MacNoCapableLine` | src/main/java/redis/embedded/util/OSDetector.java:88-94 | with no capable line, the result is x86, or `CommandFailed` when reading threw |
| `OSDetector.ScanMacArchitecture` | src/main/java/redis/embedded/util/OSDetector.java:77-95 | the `sysctl hw` loop returns exactly the verdict `MacArchitectureOf` of its output |
| `OSDetector.MacExample` | src/main/java/redis/embedded/util/OSDetector.java:84-85 | the line "hw.cpu64bit_capable: 1" gives x86_64 |
| `OSDetector.ArchitectureOf` | src/main/java/redis/embedded/util/OSDetector.java:27-37 | reference verdict of `getArchitecture`: the `getOS` error, or the verdict of the matching per-OS classifier |
| `OSDetector.GetArchitecture` | src/main/java/redis/embedded/util/OSDetector.java:26-38 | dispatches to the classifier of the OS `getOS` reports (`ArchitectureOf`) |
| `OSDetector.ArchitectureOfDispatch` | src/main/java/redis/embedded/util/OSDetector.java:27-37 | a `getOS` failure is the result; macOS and Windows never give aarch64; UNIX never gives x86 |
| `Platform.AllArchitecturesComplete` | src/main/java/redis/embedded/RedisExecProvider.java:39 | `values()` lists every architecture exactly once |
| `ExecProvider.DefaultExecutables` | src/main/java/redis/embedded/RedisExecProvider.java:28-35 | the five bundled entries `initExecutables` puts |
| `ExecProvider.OverrideAll` | src/main/java/redis/embedded/RedisExecProvider.java:39-41 | reference for the per-OS loop: one per-architecture put for each listed architecture, in order |
| `ExecProvider.Lookup` | src/main/java/redis/embedded/RedisExecProvider.java:54-58 | reference for the lookup in `get()`: the stored name, or "no executable found" for the platform |
| `ExecProvider.RedisExecProvider.constructor` | src/main/java/redis/embedded/RedisExecProvider.java:20-26 | `defaultProvider()` holds exactly the default registry |
| `ExecProvider.RedisExecProvider.InitExecutables` | src/main/java/redis/embedded/RedisExecProvider.java:28-35 | puts the five bundled names over whatever was there |
| `ExecProvider.DefaultExecutablesShape` | src/main/java/redis/embedded/RedisExecProvider.java:28-35 | exactly five keys (UNIX x86/x86_64/aarch64, MAC_OS_X x86_64/aarch64), every name starting "redis-server-7.0.15-" |
| `ExecProvider.DefaultMissesWindowsAndMacX86` | src/main/java/redis/embedded/RedisExecProvider.java:28-35 | no WINDOWS entry and no MAC_OS_X x86 entry: their lookup fails |
| `ExecProvider.RedisExecProvider.OverrideArch` | src/main/java/redis/embedded/RedisExecProvider.java:45-49 | null is refused with no change; otherwise exactly that key is set, and the same provider is returned |
| `ExecProvider.RedisExecProvider.OverrideOs` | src/main/java/redis/embedded/RedisExecProvider.java:37-43 | null is refused before any change; otherwise the loop's registry equals `OverrideAll` over `values()`, and the same provider is returned |
| `ExecProvider.OverrideAllEffect` | src/main/java/redis/embedded/RedisExecProvider.java:39-41 | the per-OS fold sets (os, a) for each listed a and keeps every other key and value |
| `ExecProvider.OverrideOsLookup` | src/main/java/redis/embedded/RedisExecProvider.java:37-43 | after `override(os, exe)` every architecture of os resolves to exe; lookups on other OSes are unchanged |
| `ExecProvider.OverrideArchLookup` | src/main/java/redis/embedded/RedisExecProvider.java:45-49 | after `override(os, arch, exe)` that key resolves to exe; every other lookup is unchanged |
| `ExecProvider.LastOverrideWins` | src/main/java/redis/embedded/RedisExecProvider.java:47 | a later override of the same key replaces the earlier one |
| `ExecProvider.ChainedOverrideExample` | src/test/java/redis/embedded/RedisServerTest.java:107-110 | the tests' chain: Linux x86 and x86_64 replaced, all of macOS replaced, Linux arm64 bundled, Windows absent |
| `ExecProvider.RedisExecProvider.Get` | src/main/java/redis/embedded/RedisExecProvider.java:51-58 | succeeds iff the platform has an entry and yields that entry; otherwise "no executable found" for that platform |
| `ExecProvider.DetectedWindowsHasNoDefault` | src/main/java/redis/embedded/RedisExecProvider.java:52-56 | on a machine detected as Windows with PROCESSOR_ARCHITECTURE set, `getArchitecture` succeeds and the default registry has no executable for the detected platform |
| `Ports.Message` | src/main/java/redis/embedded/ports/PredefinedPortProvider.java:23 | the text of the exhaustion error, "Run out of Redis ports!" |
| `Ports.Step` | src/main/java/redis/embedded/ports/PredefinedPortProvider.java:21-25 | reference for one `next()`: the head and the rest, or `RunOutOfPorts` with the remaining ports unchanged |
| `Ports.Calls` | src/main/java/redis/embedded/ports/PredefinedPortProvider.java:21-25 | the results of n successive `next()` calls, exactly n of them |
| `Ports.PredefinedPortProvider.constructor` | src/main/java/redis/embedded/ports/PredefinedPortProvider.java:15-18 | the provider starts with its own copy of the given ports, none handed out |
| `Ports.PredefinedPortProvider.Next` | src/main/java/redis/embedded/ports/PredefinedPortProvider.java:20-26 | the next port in order, with the cursor moved by one; once exhausted, `RunOutOfPorts` with the cursor unchanged |
| `Ports.StepFailsOnlyWhenExhausted` | src/main/java/redis/embedded/ports/PredefinedPortProvider.java:22-25 | a call fails iff nothing remains; a failing call changes nothing; a successful one takes the head |
| `Ports.CallsInOrder` | src/main/java/redis/embedded/ports/PredefinedPortProvider.java:21-25 | call i returns the i-th remaining port, and fails from position N on |
| `Ports.FailureIsPermanent` | src/main/java/redis/embedded/ports/PredefinedPortProvider.java:22-24 | once a call fails, every later call fails too |
| `Ports.CallsHandOutPrefix` | src/main/java/redis/embedded/ports/PredefinedPortProvider.java:21-25 | n calls hand out exactly the first n ports in order, or all of them |
| `Ports.ExactlyNCallsSucceed` | src/main/java/redis/embedded/ports/PredefinedPortProvider.java:21-26 | with N ports, N calls succeed in order, returning each port as often as it was given (multiset equal); call N+1 and later fail |

## Left out

- File handling in `get()` is I/O: the `fileExists` test, returning a `File`, and extracting the binary from the jar (`JarUtil`). `Get` stops at the name found for the platform.
- `OsArchitecture.detect()` is not part of this model. `Get` takes the detected platform as a parameter.
- Reading `os.name` and the environment variables, and spawning `uname -m` and `sysctl hw`, are system access. Their values are parameters.
- A null `os.name` is not modelled; the JVM always sets this property.
- A failing `close()` of a command's output reader is not modelled. In Java, try-with-resources turns such an `IOException` into `OsDetectionException` even after a line has decided the result. The model returns the line's verdict.
- A null `os` or `arch` argument to either `override` is not modelled. Java does not check them before `put`. Here `OS` and `Architecture` are datatypes and cannot be null.
- Strings.ToLower: converts only the ASCII letters, because Java's locale- and Unicode-aware case mapping is not modelled.
- Strings.EqualsIgnoreCaseIffSameLower: `equalsIgnoreCase` is compared through the ASCII mapping only, for the same reason.
- The exception text of `CommandFailed` (Java wraps the cause) is not modelled; the error carries no message.
- `Ports.PredefinedPortProvider.Next`: the `synchronized` mutual exclusion is not modelled. Calls are sequential.
- A null element in the given port collection (an unboxing failure in `next()`) is not modelled. Ports are `int`.
- The copy in the constructor needs no separate step. A Dafny `seq` is a value, so a caller cannot change the provider's ports after construction.
