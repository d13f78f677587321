/**
 * src/pm.c: the power-manager dispatcher. The name of CPU 0's frequency
 * driver (`scaling_driver`) decides which adapter configures the node:
 * the cpufreq adapter for `acpi-cpufreq` and `intel_cpufreq`, the
 * intel_pstate adapter for `intel_pstate`; any other driver is unsupported.
 */
module Pm {
  import opened Text
  import opened Paths
  import opened Node
  import opened Common
  import Cpufreq
  import Ipstate

  /** The adapters `set_pm` chooses between. */
  datatype Driver = CpuFreq | IntelPstate | Unsupported

  const ACPI_CPUFREQ: string := "acpi-cpufreq"     // intel_pstate=disable
  const INTEL_CPUFREQ: string := "intel_cpufreq"   // intel_pstate=passive
  const INTEL_PSTATE: string := "intel_pstate"

  /** No name starts with both a cpufreq driver's name and `intel_pstate`. */
  lemma PrefixesDisjoint(name: string)
    ensures !(StartsWith(name, INTEL_PSTATE) && (StartsWith(name, ACPI_CPUFREQ) || StartsWith(name, INTEL_CPUFREQ)))
  {
    if StartsWith(name, INTEL_PSTATE) {
      assert name[..|INTEL_PSTATE|][0] == 'i' && name[..|INTEL_PSTATE|][6] == 'p';
      assert ACPI_CPUFREQ[0] == 'a' && INTEL_CPUFREQ[6] == 'c';
    }
  }

  /** The driver-name test of `set_pm`, in its order. */
  function Classify(name: string): (d: Driver)
    ensures d == CpuFreq <==> StartsWith(name, ACPI_CPUFREQ) || StartsWith(name, INTEL_CPUFREQ)
    ensures d == IntelPstate <==> StartsWith(name, INTEL_PSTATE)
  {
    PrefixesDisjoint(name);
    if StartsWith(name, ACPI_CPUFREQ) || StartsWith(name, INTEL_CPUFREQ) then CpuFreq
    else if StartsWith(name, INTEL_PSTATE) then IntelPstate
    else Unsupported
  }

  /** Only a prefix of the name is compared: whatever follows the driver's
      name, the same adapter is chosen, and a name shorter than every known
      driver name is unsupported. */
  lemma ClassifySuffix(x: string)
    ensures Classify(ACPI_CPUFREQ + x) == CpuFreq
    ensures Classify(INTEL_CPUFREQ + x) == CpuFreq
    ensures Classify(INTEL_PSTATE + x) == IntelPstate
    ensures |x| < |ACPI_CPUFREQ| ==> Classify(x) == Unsupported
  {
    assert (ACPI_CPUFREQ + x)[..|ACPI_CPUFREQ|] == ACPI_CPUFREQ;
    assert (INTEL_CPUFREQ + x)[..|INTEL_CPUFREQ|] == INTEL_CPUFREQ;
    assert (INTEL_PSTATE + x)[..|INTEL_PSTATE|] == INTEL_PSTATE;
  }

  /** The file `set_pm` reads: `scaling_driver` of CPU 0. */
  const PM_DRIVER: string := Name(Cpu(Driver, 0))

  /** The adapter `set_pm` would choose on this node, if the driver can be read. */
  function Chosen(e: Env, w: World): Driver
    requires Readable(e, w, PM_DRIVER)
  {
    Classify(FirstToken(w, PM_DRIVER))
  }

  /** What the chosen adapter needs to SET: its snapshot file can be created. */
  predicate AdapterReady(e: Env, w: World, conf: int)
  {
    conf == SET && Readable(e, w, PM_DRIVER) ==>
      match Chosen(e, w)
      case CpuFreq => Cpufreq.CPUFREQ_DUMP !in e.faults.noWrite
      case IntelPstate => Ipstate.IPSTATE_DUMP !in e.faults.noWrite
      case Unsupported => true
  }

  /** `set_pm`: -1 when CPU 0's driver cannot be read, -2 or -3 when the
      cpufreq or intel_pstate adapter fails, -4 for any other driver. */
  function SetPmSpec(e: Env, w: World, conf: int): (o: Outcome)
    requires AdapterReady(e, w, conf)
    ensures o.ret in {0, -1, -2, -3, -4}
    ensures o.ret == -1 <==> !Readable(e, w, PM_DRIVER)
    ensures o.ret == -4 <==> Readable(e, w, PM_DRIVER) && Chosen(e, w) == Unsupported
    ensures o.ret == -1 || o.ret == -4 ==> o.w == w
  {
    var r := ReadStr(e, w, PM_DRIVER, "");
    if r.ret < 0 then Outcome(w, -1)
    else
      match Classify(r.buf)
      case CpuFreq =>
        var a := Cpufreq.SetCpufreqSpec(e, w, conf);
        Outcome(a.w, if a.ret < 0 then -2 else 0)
      case IntelPstate =>
        var a := Ipstate.SetIpstateSpec(e, w, conf);
        Outcome(a.w, if a.ret < 0 then -3 else 0)
      case Unsupported => Outcome(w, -4)
  }

  method SetPm(m: Machine, conf: int) returns (ret: int)
    requires AdapterReady(m.env, m.State(), conf)
    modifies m
    ensures Outcome(m.State(), ret) == SetPmSpec(m.env, old(m.State()), conf)
  {
    var data, status := ReadStrFromFile(m, PM_DRIVER, "");
    if status < 0 {
      return -1;
    }
    ret := 0;
    var d := Classify(data);
    if d == CpuFreq {
      var a := Cpufreq.SetCpufreq(m, conf);
      if a < 0 {
        ret := -2;
      }
    } else if d == IntelPstate {
      var a := Ipstate.SetIpstate(m, conf);
      if a < 0 {
        ret := -3;
      }
    } else {
      ret := -4;
    }
  }

  /** Exactly one adapter runs, with `conf` unchanged, and the status reports
      its failure: the node is the one the chosen adapter leaves, and an
      unsupported driver leaves the node alone. */
  lemma SetPmRunsChosen(e: Env, w: World, conf: int)
    requires AdapterReady(e, w, conf) && Readable(e, w, PM_DRIVER)
    ensures Chosen(e, w) == CpuFreq ==>
      var a := Cpufreq.SetCpufreqSpec(e, w, conf);
      SetPmSpec(e, w, conf).w == a.w && (SetPmSpec(e, w, conf).ret == -2 <==> a.ret < 0)
    ensures Chosen(e, w) == IntelPstate ==>
      var a := Ipstate.SetIpstateSpec(e, w, conf);
      SetPmSpec(e, w, conf).w == a.w && (SetPmSpec(e, w, conf).ret == -3 <==> a.ret < 0)
    ensures Chosen(e, w) == Unsupported ==> SetPmSpec(e, w, conf) == Outcome(w, -4)
  {
  }
}
