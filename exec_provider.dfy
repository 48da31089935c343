/**
 * `RedisExecProvider`: a mutable registry from (OS, architecture) to the name
 * of a Redis server executable, seeded with the bundled binaries and
 * overridable in place. The detected platform is a parameter of `Get`.
 */
module ExecProvider {
  import opened Results
  import opened Platform
  import OSDetector

  /** `redisVersion`: the version of every bundled binary. */
  const RedisVersion: string := "7.0.15"

  /** The common prefix of every bundled executable name. */
  const BundledPrefix: string := "redis-server-" + RedisVersion + "-"

  /** Errors of the registry: a null executable name, or no entry for the platform. */
  datatype ProviderError =
    | NullExecutable                                  // Preconditions.checkNotNull
    | NoExecutableFor(platform: OsArchitecture)       // "No Redis executable found for " + platform

  /** The registry `initExecutables` fills: Linux x86, x86_64, arm64 and macOS x86_64, arm64. */
  function DefaultExecutables(): map<OsArchitecture, string> {
    map[
      OsArchitecture(Unix, X86) := "redis-server-" + RedisVersion + "-linux-386",
      OsArchitecture(Unix, X86_64) := "redis-server-" + RedisVersion + "-linux-amd64",
      OsArchitecture(Unix, Aarch64) := "redis-server-" + RedisVersion + "-linux-arm64",
      OsArchitecture(MacOSX, X86_64) := "redis-server-" + RedisVersion + "-darwin-amd64",
      OsArchitecture(MacOSX, Aarch64) := "redis-server-" + RedisVersion + "-darwin-arm64"
    ]
  }

  /** Registry after mapping `os` with each of `archs`, in order, to `executable`. */
  function OverrideAll(m: map<OsArchitecture, string>, os: OS, archs: seq<Architecture>, executable: string)
    : map<OsArchitecture, string>
    decreases archs
  {
    if archs == [] then m
    else OverrideAll(m[OsArchitecture(os, archs[0]) := executable], os, archs[1..], executable)
  }

  /** The lookup in `get()`: the stored name, or the error for a platform without an entry. */
  function Lookup(m: map<OsArchitecture, string>, platform: OsArchitecture): Result<string, ProviderError> {
    if platform in m then Ok(m[platform]) else Err(NoExecutableFor(platform))
  }

  class RedisExecProvider {
    /** `executables`: the registry, updated in place by the overrides. */
    var executables: map<OsArchitecture, string>

    /** `defaultProvider()`: a fresh registry holding the bundled binaries. */
    constructor ()
      ensures executables == DefaultExecutables()
    {
      executables := map[];
      new;
      InitExecutables();
    }

    /** `initExecutables`: puts the five bundled binaries, replacing any entry they collide with. */
    method InitExecutables()
      modifies this
      ensures executables == old(executables) + DefaultExecutables()
    {
      executables := executables[OsArchitecture(Unix, X86) := "redis-server-" + RedisVersion + "-linux-386"];
      executables := executables[OsArchitecture(Unix, X86_64) := "redis-server-" + RedisVersion + "-linux-amd64"];
      executables := executables[OsArchitecture(Unix, Aarch64) := "redis-server-" + RedisVersion + "-linux-arm64"];
      executables := executables[OsArchitecture(MacOSX, X86_64) := "redis-server-" + RedisVersion + "-darwin-amd64"];
      executables := executables[OsArchitecture(MacOSX, Aarch64) := "redis-server-" + RedisVersion + "-darwin-arm64"];
    }

    /**
     * `override(os, arch, executable)`: maps exactly that platform to `executable`
     * and returns this provider; a null name is refused and nothing changes.
     */
    method OverrideArch(os: OS, arch: Architecture, executable: Option<string>)
      returns (r: Result<RedisExecProvider, ProviderError>)
      modifies this
      ensures executable.None? ==> r == Err(NullExecutable) && executables == old(executables)
      ensures executable.Some? ==> r == Ok(this)
      ensures executable.Some? ==> executables == old(executables)[OsArchitecture(os, arch) := executable.value]
    {
      if executable.None? {
        return Err(NullExecutable);
      }
      executables := executables[OsArchitecture(os, arch) := executable.value];
      r := Ok(this);
    }

    /**
     * `override(os, executable)`: applies the per-architecture override for every
     * architecture in `values()` order and returns this provider; a null name is
     * refused before any change.
     */
    method OverrideOs(os: OS, executable: Option<string>)
      returns (r: Result<RedisExecProvider, ProviderError>)
      modifies this
      ensures executable.None? ==> r == Err(NullExecutable) && executables == old(executables)
      ensures executable.Some? ==> r == Ok(this)
      ensures executable.Some? ==> executables == OverrideAll(old(executables), os, AllArchitectures, executable.value)
    {
      if executable.None? {
        return Err(NullExecutable);
      }
      var i := 0;
      while i < |AllArchitectures|
        invariant 0 <= i <= |AllArchitectures|
        invariant OverrideAll(executables, os, AllArchitectures[i..], executable.value)
                  == OverrideAll(old(executables), os, AllArchitectures, executable.value)
      {
        assert AllArchitectures[i..][1..] == AllArchitectures[i + 1..];
        var _ := OverrideArch(os, AllArchitectures[i], executable);
        i := i + 1;
      }
      r := Ok(this);
    }

    /** The lookup part of `get()` for the detected `platform`. */
    method Get(platform: OsArchitecture) returns (r: Result<string, ProviderError>)
      ensures r.Ok? <==> platform in executables
      ensures r.Ok? ==> r.value == executables[platform]
      ensures r.Err? ==> r.error == NoExecutableFor(platform)
    {
      if platform !in executables {
        return Err(NoExecutableFor(platform));
      }
      r := Ok(executables[platform]);
    }
  }

  // ----- Properties of the registry -----

  /** The default registry has exactly five entries, all bundled 7.0.15 binaries. */
  lemma DefaultExecutablesShape()
    ensures DefaultExecutables().Keys
            == {OsArchitecture(Unix, X86), OsArchitecture(Unix, X86_64), OsArchitecture(Unix, Aarch64),
                OsArchitecture(MacOSX, X86_64), OsArchitecture(MacOSX, Aarch64)}
    ensures |DefaultExecutables()| == 5
    ensures forall p :: p in DefaultExecutables() ==> StartsWithBundledPrefix(DefaultExecutables()[p])
  {
  }

  /** The name begins with "redis-server-7.0.15-". */
  predicate StartsWithBundledPrefix(name: string) {
    |BundledPrefix| <= |name| && name[..|BundledPrefix|] == BundledPrefix
  }

  /** Out of the box, Windows and 32-bit macOS have no executable. */
  lemma DefaultMissesWindowsAndMacX86(a: Architecture)
    ensures Lookup(DefaultExecutables(), OsArchitecture(Windows, a)) == Err(NoExecutableFor(OsArchitecture(Windows, a)))
    ensures Lookup(DefaultExecutables(), OsArchitecture(MacOSX, X86)).Err?
  {
  }

  /** The per-OS override, over any list of architectures: which keys it sets and that it leaves the rest. */
  lemma {:induction false} OverrideAllEffect(
    m: map<OsArchitecture, string>, os: OS, archs: seq<Architecture>, executable: string, p: OsArchitecture)
    ensures p in OverrideAll(m, os, archs, executable) <==> p in m || (p.os == os && p.arch in archs)
    ensures p.os == os && p.arch in archs ==> OverrideAll(m, os, archs, executable)[p] == executable
    ensures !(p.os == os && p.arch in archs) && p in m ==> OverrideAll(m, os, archs, executable)[p] == m[p]
    decreases archs
  {
    if archs != [] {
      OverrideAllEffect(m[OsArchitecture(os, archs[0]) := executable], os, archs[1..], executable, p);
      assert p.arch in archs <==> p.arch == archs[0] || p.arch in archs[1..];
    }
  }

  /** After `override(os, exe)` every architecture of `os` resolves to `exe`; other OSes are untouched. */
  lemma OverrideOsLookup(m: map<OsArchitecture, string>, os: OS, executable: string, p: OsArchitecture)
    ensures p.os == os ==> Lookup(OverrideAll(m, os, AllArchitectures, executable), p) == Ok(executable)
    ensures p.os != os ==> Lookup(OverrideAll(m, os, AllArchitectures, executable), p) == Lookup(m, p)
  {
    OverrideAllEffect(m, os, AllArchitectures, executable, p);
    AllArchitecturesComplete(p.arch);
  }

  /** After `override(os, arch, exe)` that platform resolves to `exe` and every other lookup is unchanged. */
  lemma OverrideArchLookup(m: map<OsArchitecture, string>, key: OsArchitecture, executable: string, p: OsArchitecture)
    ensures Lookup(m[key := executable], key) == Ok(executable)
    ensures p != key ==> Lookup(m[key := executable], p) == Lookup(m, p)
  {
  }

  /** Overrides of one platform are last-writer-wins. */
  lemma LastOverrideWins(m: map<OsArchitecture, string>, key: OsArchitecture, first: string, second: string)
    ensures m[key := first][key := second] == m[key := second]
  {
  }

  /**
   * The chain used by the server tests: Linux x86 and x86_64 replaced, all of
   * macOS replaced, Linux arm64 keeps its bundled binary and Windows stays absent.
   */
  lemma ChainedOverrideExample(x86Exe: string, exe: string, p: OsArchitecture)
    ensures var m := OverrideAll(DefaultExecutables()[OsArchitecture(Unix, X86) := x86Exe]
                                   [OsArchitecture(Unix, X86_64) := exe], MacOSX, AllArchitectures, exe);
            && Lookup(m, OsArchitecture(Unix, X86)) == Ok(x86Exe)
            && Lookup(m, OsArchitecture(Unix, X86_64)) == Ok(exe)
            && Lookup(m, OsArchitecture(Unix, Aarch64)) == Ok("redis-server-" + RedisVersion + "-linux-arm64")
            && (p.os == MacOSX ==> Lookup(m, p) == Ok(exe))
            && Lookup(m, OsArchitecture(Windows, p.arch)).Err?
  {
    var base := DefaultExecutables()[OsArchitecture(Unix, X86) := x86Exe][OsArchitecture(Unix, X86_64) := exe];
    OverrideOsLookup(base, MacOSX, exe, p);
    OverrideOsLookup(base, MacOSX, exe, OsArchitecture(Unix, X86));
    OverrideOsLookup(base, MacOSX, exe, OsArchitecture(Unix, X86_64));
    OverrideOsLookup(base, MacOSX, exe, OsArchitecture(Unix, Aarch64));
    OverrideOsLookup(base, MacOSX, exe, OsArchitecture(Windows, p.arch));
  }

  /** On a machine detected as Windows, the default registry has no executable, whatever the architecture. */
  lemma DetectedWindowsHasNoDefault(
    osName: string, env: OSDetector.WindowsEnvironment, uname: OSDetector.CommandOutput, sysctl: OSDetector.CommandOutput)
    requires OSDetector.GetOS(osName) == Ok(Windows)
    requires env.processorArchitecture.Some?
    ensures OSDetector.ArchitectureOf(osName, env, uname, sysctl).Ok?
    ensures Lookup(DefaultExecutables(),
                   OsArchitecture(Windows, OSDetector.ArchitectureOf(osName, env, uname, sysctl).value)).Err?
  {
  }
}
