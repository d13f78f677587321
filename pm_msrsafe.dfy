/**
 * src/pm_msrsafe.c: the job prolog and epilog of the plugin. The prolog of
 * a job that asks for the plugin and holds the whole node configures
 * msr_safe and then the power manager (SET); the epilog, when a snapshot
 * of the daemon's exists, restores both (RESET) and deletes the snapshots.
 */
module PmMsrsafe {
  import opened Text
  import opened Paths
  import opened Node
  import opened Common
  import opened Msrsafe
  import opened Pm
  import opened Slurm

  /** `cleanup_dumps`: the three snapshot files. */
  const DUMP_FILES: set<string> := {DumpFile(IpstateDump), DumpFile(CpufreqDump), DumpFile(MsrsafeDump)}

  method CleanupDumps(m: Machine)
    modifies m
    ensures m.files == old(m.files) - DUMP_FILES && m.regs == old(m.regs)
  {
    Remove(m, DumpFile(IpstateDump));
    Remove(m, DumpFile(CpufreqDump));
    Remove(m, DumpFile(MsrsafeDump));
  }

  /** Both gates of the prolog pass. */
  predicate Gated(e: Env, enable: Option<string>, cpus: Option<string>)
  {
    CheckEnablePlugin(enable) >= 0 && CheckExclusiveNode(e, cpus) >= 0
  }

  /** What the two SET steps need of the node. */
  predicate PrologReady(e: Env, w: World)
  {
    WhitelistOk(e, w) && AdapterReady(e, w, SET)
  }

  /** The msr_safe step keeps what the power-manager step reads. */
  lemma MsrKeepsAdapter(e: Env, w: World)
    requires PrologReady(e, w)
    ensures AdapterReady(e, SetMsrSpec(e, w, SET).w, SET)
  {
    NotDumpFile(Cpu(Driver, 0), MsrsafeDump);
    if PM_DRIVER in w.files {
      SetMsrKeepsOthers(e, w, PM_DRIVER);
    }
  }

  /** `set_msrsafe(SET)` as the prolog runs it. */
  function MsrSetStep(e: Env, w: World): (a: Outcome)
    requires PrologReady(e, w)
    ensures a == SetMsrSpec(e, w, SET) && AdapterReady(e, a.w, SET)
  {
    MsrKeepsAdapter(e, w);
    SetMsrSpec(e, w, SET)
  }

  /** `slurm_spank_job_prolog`, with the two environment variables as
      parameters: nothing happens unless both gates pass; then msr_safe and
      the power manager are set up, each whatever the other's outcome. */
  function PrologSpec(e: Env, w: World, enable: Option<string>, cpus: Option<string>): (o: Outcome)
    requires Gated(e, enable, cpus) ==> PrologReady(e, w)
    ensures o.ret in {0, -1, -2}
    ensures !Gated(e, enable, cpus) ==> o == Outcome(w, 0)
  {
    if CheckEnablePlugin(enable) < 0 then Outcome(w, 0)
    else if CheckExclusiveNode(e, cpus) < 0 then Outcome(w, 0)
    else SetupSpec(e, w)
  }

  /** The SET steps of the prolog: msr_safe (-1), then the power manager (-2),
      a power-manager failure hiding an msr_safe one. */
  function SetupSpec(e: Env, w: World): (o: Outcome)
    requires PrologReady(e, w)
    ensures o.ret in {0, -1, -2}
  {
    var a := MsrSetStep(e, w);
    var b := SetPmSpec(e, a.w, SET);
    Outcome(b.w, if b.ret < 0 then -2 else if a.ret < 0 then -1 else 0)
  }

  method Setup(m: Machine) returns (ret: int)
    requires PrologReady(m.env, m.State())
    modifies m
    ensures Outcome(m.State(), ret) == SetupSpec(m.env, old(m.State()))
  {
    ret := 0;
    ghost var w := m.State();
    var r := SetMsrsafe(m, SET);
    ghost var a := MsrSetStep(m.env, w);
    assert Outcome(m.State(), r) == a;
    if r < 0 {
      ret := -1;
    }
    r := SetPm(m, SET);
    if r < 0 {
      ret := -2;
    }
  }

  method Prolog(m: Machine, enable: Option<string>, cpus: Option<string>) returns (ret: int)
    requires Gated(m.env, enable, cpus) ==> PrologReady(m.env, m.State())
    modifies m
    ensures Outcome(m.State(), ret) == PrologSpec(m.env, old(m.State()), enable, cpus)
  {
    ret := 0;
    if CheckEnablePlugin(enable) < 0 {
      return 0;
    }
    if CheckExclusiveNode(m.env, cpus) < 0 {
      return 0;
    }
    ret := Setup(m);
  }

  /** The prolog's status: -2 exactly when the power manager failed, -1
      exactly when only msr_safe failed, so a power-manager failure hides an
      msr_safe one. */
  lemma PrologRet(e: Env, w: World, enable: Option<string>, cpus: Option<string>)
    requires Gated(e, enable, cpus) && PrologReady(e, w)
    ensures var a := MsrSetStep(e, w);
      var b := SetPmSpec(e, a.w, SET);
      var r := PrologSpec(e, w, enable, cpus).ret;
      && (r == -2 <==> b.ret < 0)
      && (r == -1 <==> b.ret >= 0 && a.ret < 0)
  {
  }

  // ---------------------------------------------------------------------
  // slurm_spank_job_epilog

  /** A gate that passes found no foreign snapshot, so it removed nothing. */
  lemma GateKeepsNode(e: Env, w: World)
    requires PluginStartedSpec(e, w).ret >= 0
    ensures PluginStartedSpec(e, w).w == w
  {
    PluginStartedRet(e, w);
    PluginStartedRemovesForeign(e, w);
    assert (set d | d in DUMPS && Foreign(e, w, d) :: DumpFile(d)) == {};
  }

  /** What the RESET steps need of the node: the msr_safe snapshot replays. */
  predicate EpilogReady(e: Env, w: World)
  {
    PluginStartedSpec(e, w).ret >= 0 ==> Restorable(e, w)
  }

  /** `slurm_spank_job_epilog`: nothing is restored unless the gate passes; then
      msr_safe and the power manager are restored, each whatever the other's
      outcome, and the three snapshots are deleted. */
  function EpilogSpec(e: Env, w: World): (o: Outcome)
    requires EpilogReady(e, w)
    ensures o.ret in {0, -1, -2}
    ensures PluginStartedSpec(e, w).ret < 0 ==> o == Outcome(PluginStartedSpec(e, w).w, 0)
    ensures PluginStartedSpec(e, w).ret >= 0 ==> forall f | f in DUMP_FILES :: f !in o.w.files
  {
    var g := PluginStartedSpec(e, w);
    if g.ret < 0 then Outcome(g.w, 0)
    else
      GateKeepsNode(e, w);
      var a := SetMsrSpec(e, w, RESET);
      var b := SetPmSpec(e, a.w, RESET);
      Outcome(b.w.(files := b.w.files - DUMP_FILES), if b.ret < 0 then -2 else if a.ret < 0 then -1 else 0)
  }

  method Epilog(m: Machine) returns (ret: int)
    requires EpilogReady(m.env, m.State())
    modifies m
    ensures Outcome(m.State(), ret) == EpilogSpec(m.env, old(m.State()))
  {
    ghost var w := m.State();
    ret := 0;
    var r := CheckPluginStarted(m);
    if r < 0 {
      return 0;
    }
    GateKeepsNode(m.env, w);
    r := SetMsrsafe(m, RESET);
    if r < 0 {
      ret := -1;
    }
    r := SetPm(m, RESET);
    if r < 0 {
      ret := -2;
    }
    CleanupDumps(m);
  }

  /** The epilog's status: -2 exactly when the power manager failed, -1
      exactly when only msr_safe failed. */
  lemma EpilogRet(e: Env, w: World)
    requires PluginStartedSpec(e, w).ret >= 0 && Restorable(e, w)
    ensures var a := SetMsrSpec(e, w, RESET);
      var b := SetPmSpec(e, a.w, RESET);
      var r := EpilogSpec(e, w).ret;
      && (r == -2 <==> b.ret < 0)
      && (r == -1 <==> b.ret >= 0 && a.ret < 0)
  {
    GateKeepsNode(e, w);
  }

  /** A snapshot somebody else owns is never replayed: the epilog then writes
      no register, deletes the foreign snapshots and keeps the daemon's. */
  lemma EpilogForeignNotReplayed(e: Env, w: World, d: DumpKind)
    requires Foreign(e, w, d)
    ensures EpilogReady(e, w)
    ensures var o := EpilogSpec(e, w);
      && o.ret == 0 && o.w.regs == w.regs && DumpFile(d) !in o.w.files
      && forall d' | Valid(e, w, d') :: DumpFile(d') in o.w.files && o.w.files[DumpFile(d')] == w.files[DumpFile(d')]
  {
    PluginStartedRet(e, w);
    PluginStartedRemovesForeign(e, w);
    assert d in DUMPS;
  }

  /** With no snapshot on the node, the epilog changes nothing and returns 0. */
  lemma EpilogNoDumps(e: Env, w: World)
    requires forall f | f in DUMP_FILES :: f !in w.files
    ensures EpilogReady(e, w) && EpilogSpec(e, w) == Outcome(w, 0)
  {
    PluginStartedNoDumps(e, w);
  }

  /** A second epilog after one that ran is a no-op returning 0. */
  lemma EpilogTwice(e: Env, w: World)
    requires PluginStartedSpec(e, w).ret >= 0 && Restorable(e, w)
    ensures var o := EpilogSpec(e, w);
      EpilogReady(e, o.w) && EpilogSpec(e, o.w) == Outcome(o.w, 0)
  {
    EpilogNoDumps(e, EpilogSpec(e, w).w);
  }
}
