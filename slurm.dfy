/**
 * src/slurm.c: the checks that gate the prolog and the epilog. The prolog
 * runs only for a job that asks for the plugin (`SLURM_SPANK_PM_MSRSAFE`)
 * and holds every CPU of the node (`SLURM_CPUS_ON_NODE`); the epilog runs
 * only when some snapshot file owned by the slurm daemon exists, and it
 * deletes every snapshot file somebody else owns.
 *
 * An environment variable is a parameter: None when `getenv` returns NULL.
 */
module Slurm {
  import opened Text
  import opened Paths
  import opened Node
  import opened Common

  /** `check_enable_plugin`: -1 when the variable is unset, 0 when its value
      is a true word of `str_to_bool`, -2 for any other value. */
  function CheckEnablePlugin(v: Option<string>): (r: int)
    ensures r in {0, -1, -2}
    ensures r == -1 <==> v.None?
    ensures r == 0 <==> v.Some? && LowerAll(v.value) in TRUE_WORDS
  {
    if v.None? then -1
    else if StrToBool(v) then 0
    else -2
  }

  /** `check_exclusive_node`: -1 when the variable is unset, -2 when the
      CPU count it holds (as `strtol` reads it) is not the node's, 0 otherwise. */
  function CheckExclusiveNode(e: Env, v: Option<string>): (r: int)
    ensures r in {0, -1, -2}
    ensures r == -1 <==> v.None?
    ensures r == 0 <==> v.Some? && StrToL(v.value) == e.ncpus
  {
    if v.None? then -1
    else if StrToL(v.value) != e.ncpus then -2
    else 0
  }

  /** A job that slurm gave every online CPU passes the exclusivity check. */
  lemma ExclusiveWholeNode(e: Env)
    ensures CheckExclusiveNode(e, Some(Dec(e.ncpus))) == 0
  {
    StrToLOfDec(e.ncpus);
  }

  // ---------------------------------------------------------------------
  // check_plugin_started

  /** The snapshot files, in the order `check_plugin_started` inspects them,
      with the status each reports when somebody else owns it. */
  const DUMPS: seq<DumpKind> := [IpstateDump, CpufreqDump, MsrsafeDump]

  function ForeignCode(d: DumpKind): int
  {
    match d
    case IpstateDump => -1
    case CpufreqDump => -2
    case MsrsafeDump => -3
  }

  /** The snapshot file exists and the slurm daemon does not own it. */
  predicate Foreign(e: Env, w: World, d: DumpKind)
  {
    DumpFile(d) in w.files && w.files[DumpFile(d)].owner != e.uid
  }

  /** The snapshot file exists and the slurm daemon owns it. */
  predicate Valid(e: Env, w: World, d: DumpKind)
  {
    DumpFile(d) in w.files && w.files[DumpFile(d)].owner == e.uid
  }

  /** The state of the three checks: the node, `ret`, and whether some
      `flag_*` has been set. */
  datatype Gate = Gate(w: World, ret: int, valid: bool)

  /** One `access`/`stat` check: a foreign file is removed and sets `ret`;
      an owned file sets its flag. */
  function Inspect(e: Env, g: Gate, d: DumpKind): (t: Gate)
    ensures t.w.regs == g.w.regs
    ensures t.w.files == if Foreign(e, g.w, d) then g.w.files - {DumpFile(d)} else g.w.files
    ensures t.ret == if Foreign(e, g.w, d) then ForeignCode(d) else g.ret
    ensures t.valid == (g.valid || Valid(e, g.w, d))
  {
    var f := DumpFile(d);
    if f !in g.w.files then g
    else if g.w.files[f].owner != e.uid then Gate(g.w.(files := g.w.files - {f}), ForeignCode(d), g.valid)
    else g.(valid := true)
  }

  /** `check_plugin_started`: the three checks, then the status: the code of
      the last foreign file, else 0 when some snapshot is valid, else -4. */
  function PluginStartedSpec(e: Env, w: World): (o: Outcome)
    ensures -4 <= o.ret <= 0
    ensures o.w.regs == w.regs && o.w.files.Keys <= w.files.Keys
  {
    var g := Inspect(e, Inspect(e, Inspect(e, Gate(w, 0, false), IpstateDump), CpufreqDump), MsrsafeDump);
    Outcome(g.w, if g.ret != 0 then g.ret else if g.valid then 0 else -4)
  }

  method CheckPluginStarted(m: Machine) returns (ret: int)
    modifies m
    ensures Outcome(m.State(), ret) == PluginStartedSpec(m.env, old(m.State()))
  {
    ret := 0;
    var flagIpstate, flagCpufreq, flagMsrsafe := false, false, false;
    var uid := m.env.uid;
    if DumpFile(IpstateDump) in m.files {
      if uid != m.files[DumpFile(IpstateDump)].owner {
        Remove(m, DumpFile(IpstateDump));
        ret := -1;
      } else {
        flagIpstate := true;
      }
    }
    if DumpFile(CpufreqDump) in m.files {
      if uid != m.files[DumpFile(CpufreqDump)].owner {
        Remove(m, DumpFile(CpufreqDump));
        ret := -2;
      } else {
        flagCpufreq := true;
      }
    }
    if DumpFile(MsrsafeDump) in m.files {
      if uid != m.files[DumpFile(MsrsafeDump)].owner {
        Remove(m, DumpFile(MsrsafeDump));
        ret := -3;
      } else {
        flagMsrsafe := true;
      }
    }
    if ret == 0 {
      ret := if flagIpstate || flagCpufreq || flagMsrsafe then 0 else -4;
    }
  }

  /** The three snapshot paths are distinct. */
  lemma DumpFilesDistinct(d: DumpKind, d': DumpKind)
    requires d != d'
    ensures DumpFile(d) != DumpFile(d')
  {
  }

  /** The check removes exactly the foreign snapshot files, leaves every other
      file (owned snapshots included) and every register as it was. */
  lemma PluginStartedRemovesForeign(e: Env, w: World)
    ensures var o := PluginStartedSpec(e, w);
      && o.w.regs == w.regs
      && o.w.files == w.files - set d | d in DUMPS && Foreign(e, w, d) :: DumpFile(d)
  {
    var o := PluginStartedSpec(e, w);
    var gone := set d | d in DUMPS && Foreign(e, w, d) :: DumpFile(d);
    forall f ensures f in o.w.files <==> f in w.files - gone {
      if f in gone {
        var d :| d in DUMPS && Foreign(e, w, d) && f == DumpFile(d);
      }
    }
  }

  /** The status: negative exactly when some snapshot is foreign, and then the
      code of the last foreign one in the order intel_pstate, cpufreq,
      msr_safe; otherwise 0 when some snapshot exists and -4 when none does. */
  lemma PluginStartedRet(e: Env, w: World)
    ensures var r := PluginStartedSpec(e, w).ret;
      && (r == -3 <==> Foreign(e, w, MsrsafeDump))
      && (r == -2 <==> Foreign(e, w, CpufreqDump) && !Foreign(e, w, MsrsafeDump))
      && (r == -1 <==> Foreign(e, w, IpstateDump) && !Foreign(e, w, CpufreqDump) && !Foreign(e, w, MsrsafeDump))
      && (r == 0 <==> (forall d | d in DUMPS :: !Foreign(e, w, d)) && exists d | d in DUMPS :: Valid(e, w, d))
      && (r == -4 <==> forall d | d in DUMPS :: DumpFile(d) !in w.files)
  {
    var g1 := Inspect(e, Gate(w, 0, false), IpstateDump);
    var g2 := Inspect(e, g1, CpufreqDump);
    DumpFilesDistinct(IpstateDump, CpufreqDump);
    DumpFilesDistinct(IpstateDump, MsrsafeDump);
    DumpFilesDistinct(CpufreqDump, MsrsafeDump);
    assert SameFile(w, g1.w, DumpFile(CpufreqDump)) && SameFile(w, g1.w, DumpFile(MsrsafeDump));
    assert SameFile(w, g2.w, DumpFile(MsrsafeDump));
    assert DUMPS[0] == IpstateDump && DUMPS[1] == CpufreqDump && DUMPS[2] == MsrsafeDump;
    assert (exists d | d in DUMPS :: Valid(e, w, d)) <==>
      Valid(e, w, IpstateDump) || Valid(e, w, CpufreqDump) || Valid(e, w, MsrsafeDump);
  }

  /** With no snapshot left, the check changes nothing and reports -4. */
  lemma PluginStartedNoDumps(e: Env, w: World)
    requires forall d | d in DUMPS :: DumpFile(d) !in w.files
    ensures PluginStartedSpec(e, w) == Outcome(w, -4)
  {
    assert DUMPS[0] == IpstateDump && DUMPS[1] == CpufreqDump && DUMPS[2] == MsrsafeDump;
  }

  /** The check is idempotent: a second run finds only owned snapshots, so it
      removes nothing more. */
  lemma PluginStartedIdempotent(e: Env, w: World)
    ensures var o := PluginStartedSpec(e, w);
      PluginStartedSpec(e, o.w).w == o.w && PluginStartedSpec(e, o.w).ret in {0, -4}
  {
    var o := PluginStartedSpec(e, w);
    PluginStartedRemovesForeign(e, w);
    forall d | d in DUMPS ensures !Foreign(e, o.w, d) {
    }
    PluginStartedRemovesForeign(e, o.w);
    PluginStartedRet(e, o.w);
  }
}
