/** The platform tags shared by the detector and the executable registry. */
module Platform {

  /** `OS`: the three operating-system families the detector distinguishes. */
  datatype OS = Windows | Unix | MacOSX

  /** `Architecture`: the CPU architectures named by the detector (x86, x86_64, aarch64). */
  datatype Architecture = X86 | X86_64 | Aarch64

  /** `OsArchitecture`: the key of the executable registry. */
  datatype OsArchitecture = OsArchitecture(os: OS, arch: Architecture)

  /** `Architecture.values()`, in declaration order. */
  const AllArchitectures: seq<Architecture> := [X86, X86_64, Aarch64]

  /** `values()` lists every architecture, each exactly once. */
  lemma AllArchitecturesComplete(a: Architecture)
    ensures a in AllArchitectures
    ensures multiset(AllArchitectures)[a] == 1
  {
  }
}
