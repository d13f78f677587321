/**
 * The constants of include/pm_msrsafe.h: the sysfs and msr_safe path
 * templates, the three snapshot files, the default governor, the
 * performance-control register address and the SET/RESET codes.
 * A `Path` names one of these files; `Name` renders it exactly as the
 * `sprintf` templates do, and `NameInjective` shows that two different
 * paths never render to the same file name.
 */
module Paths {
  import opened Text

  const RESET: int := 0
  const SET: int := 1

  /** IA32_PERF_CTL, the architectural performance-control MSR (address 199H). */
  const IA32_PERF_CTL: u64 := 0x199

  const DEFAULT_GOVERNOR: string := "performance"

  /** The per-CPU files under /sys/devices/system/cpu/cpu%ld/cpufreq/. */
  datatype CpuKind =
    | Driver      // scaling_driver
    | Governor    // scaling_governor
    | ScalingMax  // scaling_max_freq
    | ScalingMin  // scaling_min_freq
    | CpuinfoMax  // cpuinfo_max_freq
    | CpuinfoMin  // cpuinfo_min_freq
    | Setspeed    // scaling_setspeed (cpufreq only)

  datatype DumpKind = IpstateDump | CpufreqDump | MsrsafeDump

  datatype Path =
    | Cpu(kind: CpuKind, cpu: nat)
    | NoTurbo | MaxPerfPct | MinPerfPct   // intel_pstate globals
    | Whitelist | Batch                   // msr_safe globals
    | MsrNode(node: nat)                  // /dev/cpu/%ld/msr_safe
    | Dump(which: DumpKind)

  const SYS_CPU: string := "/sys/devices/system/cpu/"
  const CPU_DIR: string := SYS_CPU + "cpu"
  const PSTATE_DIR: string := SYS_CPU + "intel_pstate/"
  const MSR_DIR: string := "/dev/cpu/"

  function Leaf(k: CpuKind): string
  {
    match k
    case Driver => "scaling_driver"
    case Governor => "scaling_governor"
    case ScalingMax => "scaling_max_freq"
    case ScalingMin => "scaling_min_freq"
    case CpuinfoMax => "cpuinfo_max_freq"
    case CpuinfoMin => "cpuinfo_min_freq"
    case Setspeed => "scaling_setspeed"
  }

  function KindFile(k: CpuKind): string
  {
    "/cpufreq/" + Leaf(k)
  }

  function DumpFile(d: DumpKind): string
  {
    match d
    case IpstateDump => "/tmp/pm_ipstate_dump"
    case CpufreqDump => "/tmp/pm_cpufreq_dump"
    case MsrsafeDump => "/tmp/msrsafe_dump"
  }

  /** The file name a path template produces (`%ld` printed in decimal). */
  function Name(p: Path): string
  {
    match p
    case Cpu(k, i) => CPU_DIR + Dec(i) + KindFile(k)
    case NoTurbo => PSTATE_DIR + "no_turbo"
    case MaxPerfPct => PSTATE_DIR + "max_perf_pct"
    case MinPerfPct => PSTATE_DIR + "min_perf_pct"
    case Whitelist => MSR_DIR + "msr_whitelist"
    case Batch => MSR_DIR + "msr_batch"
    case MsrNode(i) => MSR_DIR + Dec(i) + "/msr_safe"
    case Dump(d) => DumpFile(d)
  }

  // ---------------------------------------------------------------------
  // Injectivity of the templates.

  lemma KindFileInjective(k: CpuKind, k': CpuKind)
    requires KindFile(k) == KindFile(k')
    ensures k == k'
  {
    assert Leaf(k) == KindFile(k)[9..] == KindFile(k')[9..] == Leaf(k');
  }

  lemma CpuNameSplit(k: CpuKind, i: nat)
    ensures Name(Cpu(k, i)) == CPU_DIR + (Dec(i) + KindFile(k))
    ensures |Name(Cpu(k, i))| > 27 && Name(Cpu(k, i))[..27] == CPU_DIR
    ensures Name(Cpu(k, i))[1] == 's' && Name(Cpu(k, i))[24] == 'c'
  {
    CpuDirShape();
    var x := Dec(i) + KindFile(k);
    assert Name(Cpu(k, i)) == CPU_DIR + x;
    assert (CPU_DIR + x)[..27] == CPU_DIR;
  }

  lemma CpuDirShape()
    ensures |CPU_DIR| == 27 && CPU_DIR[1] == 's' && CPU_DIR[24] == 'c'
  {
    assert CPU_DIR[24] == "cpu"[0];
  }

  lemma MsrNameSplit(i: nat)
    ensures Name(MsrNode(i)) == MSR_DIR + (Dec(i) + "/msr_safe")
    ensures Name(MsrNode(i))[1] == 'd' && IsDigit(Name(MsrNode(i))[9])
  {
    var d := Dec(i);
    assert (MSR_DIR + (d + "/msr_safe"))[9] == d[0];
  }

  lemma CpuNameInjective(k: CpuKind, i: nat, k': CpuKind, j: nat)
    requires Name(Cpu(k, i)) == Name(Cpu(k', j))
    ensures k == k' && i == j
  {
    CpuNameSplit(k, i);
    CpuNameSplit(k', j);
    var x, y := Dec(i) + KindFile(k), Dec(j) + KindFile(k');
    assert x == Name(Cpu(k, i))[27..] == Name(Cpu(k', j))[27..] == y;
    DecSplit(i, KindFile(k), j, KindFile(k'));
    KindFileInjective(k, k');
  }

  lemma MsrNameInjective(i: nat, j: nat)
    requires Name(MsrNode(i)) == Name(MsrNode(j))
    ensures i == j
  {
    MsrNameSplit(i);
    MsrNameSplit(j);
    var x, y := Dec(i) + "/msr_safe", Dec(j) + "/msr_safe";
    assert x == Name(MsrNode(i))[9..] == Name(MsrNode(j))[9..] == y;
    DecSplit(i, "/msr_safe", j, "/msr_safe");
  }

  lemma GlobalSplit(p: Path)
    requires p.NoTurbo? || p.MaxPerfPct? || p.MinPerfPct?
    ensures |Name(p)| > 37 && Name(p)[1] == 's' && Name(p)[24] == 'i'
  {
    var leaf := Name(p)[37..];
    assert Name(p) == SYS_CPU + ("intel_pstate/" + leaf);
  }

  /** Characters that tell the families of paths apart. */
  lemma NameShape(p: Path)
    ensures |Name(p)| > 9
    ensures Name(p)[1] == 's' ==> |Name(p)| > 24
    ensures Name(p)[1] == 's' <==> (p.Cpu? || p.NoTurbo? || p.MaxPerfPct? || p.MinPerfPct?)
    ensures Name(p)[1] == 'd' <==> (p.Whitelist? || p.Batch? || p.MsrNode?)
    ensures Name(p)[1] == 's' ==> (Name(p)[24] == 'c' <==> p.Cpu?)
    ensures Name(p)[1] == 'd' ==> (IsDigit(Name(p)[9]) <==> p.MsrNode?)
  {
    match p
    case Cpu(k, i) => CpuNameSplit(k, i);
    case MsrNode(i) => MsrNameSplit(i);
    case Dump(d) => assert Name(p)[1] == 't';
    case NoTurbo => GlobalSplit(p);
    case MaxPerfPct => GlobalSplit(p);
    case MinPerfPct => GlobalSplit(p);
    case Whitelist => assert Name(p)[9] == 'm';
    case Batch => assert Name(p)[9] == 'm';
  }

  /** Different paths are different files. */
  lemma NameInjective(p: Path, q: Path)
    requires Name(p) == Name(q)
    ensures p == q
  {
    NameShape(p);
    NameShape(q);
    if p.Cpu? {
      CpuNameInjective(p.kind, p.cpu, q.kind, q.cpu);
    } else if p.MsrNode? {
      MsrNameInjective(p.node, q.node);
    } else if p.NoTurbo? || p.MaxPerfPct? || p.MinPerfPct? {
      assert Name(p)[37..] == Name(q)[37..];
    } else if p.Whitelist? || p.Batch? {
      assert Name(p)[9..] == Name(q)[9..];
    }
  }

  /** `NameInjective`, read the other way round. */
  lemma NameDistinct(p: Path, q: Path)
    requires p != q
    ensures Name(p) != Name(q)
  {
    if Name(p) == Name(q) {
      NameInjective(p, q);
    }
  }

  /** No control file is a snapshot file. */
  lemma NotDumpFile(p: Path, d: DumpKind)
    requires p != Dump(d)
    ensures Name(p) != DumpFile(d)
  {
    if Name(p) == Name(Dump(d)) {
      NameInjective(p, Dump(d));
    }
  }

  // ---------------------------------------------------------------------
  // Path names are single tokens, so a `path value` line reads back as two tokens.

  lemma DirsNoSpace()
    ensures NoSpace(CPU_DIR) && NoSpace(PSTATE_DIR) && NoSpace(MSR_DIR)
  {
    assert NoSpace(SYS_CPU);
    NoSpaceAppend(SYS_CPU, "cpu");
    NoSpaceAppend(SYS_CPU, "intel_pstate/");
  }

  lemma KindFileNoSpace(k: CpuKind)
    ensures NoSpace(KindFile(k))
  {
    assert NoSpace("/cpufreq/");
    assert NoSpace(Leaf(k)) by {
      match k
      case Driver =>
      case Governor =>
      case ScalingMax =>
      case ScalingMin =>
      case CpuinfoMax =>
      case CpuinfoMin =>
      case Setspeed =>
    }
    NoSpaceAppend("/cpufreq/", Leaf(k));
  }

  lemma DumpFileNoSpace(d: DumpKind)
    ensures NoSpace(DumpFile(d))
  {
  }

  lemma NameIsToken(p: Path)
    ensures IsToken(Name(p))
  {
    DirsNoSpace();
    match p
    case Cpu(k, i) =>
      DecNoSpace(i);
      KindFileNoSpace(k);
      NoSpaceAppend(CPU_DIR, Dec(i));
      NoSpaceAppend(CPU_DIR + Dec(i), KindFile(k));
    case MsrNode(i) =>
      DecNoSpace(i);
      NoSpaceAppend(MSR_DIR, Dec(i));
      NoSpaceAppend(MSR_DIR + Dec(i), "/msr_safe");
    case Dump(d) => DumpFileNoSpace(d);
    case NoTurbo => NoSpaceAppend(PSTATE_DIR, "no_turbo");
    case MaxPerfPct => NoSpaceAppend(PSTATE_DIR, "max_perf_pct");
    case MinPerfPct => NoSpaceAppend(PSTATE_DIR, "min_perf_pct");
    case Whitelist => NoSpaceAppend(MSR_DIR, "msr_whitelist");
    case Batch => NoSpaceAppend(MSR_DIR, "msr_batch");
  }

  lemma NoSpaceAppend(a: string, b: string)
    requires NoSpace(a) && NoSpace(b)
    ensures NoSpace(a + b)
  {
    forall i | 0 <= i < |a + b| ensures !IsSpace((a + b)[i]) {
      if i >= |a| {
        assert (a + b)[i] == b[i - |a|];
      }
    }
  }
}
