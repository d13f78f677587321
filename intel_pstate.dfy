/**
 * src/intel_pstate.c: the adapter for the intel_pstate driver. SET opens the
 * per-CPU control files and the three driver-wide files to others, saves
 * them in `/tmp/pm_ipstate_dump`, and then "hacks" the driver: turbo off,
 * every CPU capped at its minimum frequency, and the performance-control
 * register of every CPU set to the ratio of its maximum frequency. RESET
 * replays the snapshot; it does not touch the registers.
 */
module Ipstate {
  import opened Text
  import opened Paths
  import opened Node
  import opened Common
  import opened Snapshot
  import opened Msrsafe

  const IPSTATE_DUMP: string := DumpFile(IpstateDump)

  // ---------------------------------------------------------------------
  // set_permissions_ipstate

  /** The per-CPU files and their failure codes, in the order the loop toggles them. */
  const PERMISSION_KINDS: seq<(CpuKind, int)> := [(Governor, -1), (ScalingMax, -2), (ScalingMin, -3)]

  /** The driver-wide files, toggled after the loop. */
  const GLOBAL_JOBS: seq<Job> := [
    Job(Name(NoTurbo), OtherReadNoWrite, -4),
    Job(Name(MaxPerfPct), OtherReadNoWrite, -5),
    Job(Name(MinPerfPct), OtherReadNoWrite, -6)]

  function PermissionJobs(n: nat): seq<Job>
  {
    CpuJobs(PERMISSION_KINDS, OtherReadNoWrite, n) + GLOBAL_JOBS
  }

  method SetPermissionsIpstate(m: Machine, conf: int) returns (ret: int)
    modifies m
    ensures Outcome(m.State(), ret) == Toggles(m.env, Outcome(old(m.State()), 0), PermissionJobs(m.env.ncpus), conf)
  {
    ghost var o0 := Outcome(m.State(), 0);
    ret := 0;
    var i := 0;
    while i < m.env.ncpus
      invariant i <= m.env.ncpus
      invariant Outcome(m.State(), ret) == Toggles(m.env, o0, CpuJobs(PERMISSION_KINDS, OtherReadNoWrite, i), conf)
    {
      var b := CpuBlock(PERMISSION_KINDS, OtherReadNoWrite, i);
      ghost var o := Outcome(m.State(), ret);
      ret := RunJob(m, b[0], conf, ret);
      ghost var o1 := Outcome(m.State(), ret);
      ret := RunJob(m, b[1], conf, ret);
      ret := RunJob(m, b[2], conf, ret);
      assert o1 == Apply(m.env, o, b[0], conf);
      TogglesBlock3(m.env, o0, CpuJobs(PERMISSION_KINDS, OtherReadNoWrite, i), b, conf);
      i := i + 1;
    }
    ghost var o := Outcome(m.State(), ret);
    ret := RunJob(m, GLOBAL_JOBS[0], conf, ret);
    ghost var o1 := Outcome(m.State(), ret);
    ret := RunJob(m, GLOBAL_JOBS[1], conf, ret);
    ret := RunJob(m, GLOBAL_JOBS[2], conf, ret);
    assert o1 == Apply(m.env, o, GLOBAL_JOBS[0], conf);
    TogglesBlock3(m.env, o0, CpuJobs(PERMISSION_KINDS, OtherReadNoWrite, m.env.ncpus), GLOBAL_JOBS, conf);
  }

  /** Every CPU's governor, scaling_max_freq and scaling_min_freq gets the
      read-no-write toggle when it can be toggled. */
  lemma PermissionsIpstateCpuModes(e: Env, w: World, conf: int, i: nat, k: nat)
    requires i < e.ncpus && k < |PERMISSION_KINDS|
    requires Toggleable(e, w, Name(Cpu(PERMISSION_KINDS[k].0, i)))
    ensures var f := Name(Cpu(PERMISSION_KINDS[k].0, i));
      Toggles(e, Outcome(w, 0), PermissionJobs(e.ncpus), conf).w.files[f].mode
        == NewMode(OtherReadNoWrite, w.files[f].mode, conf)
  {
    var cj := CpuJobs(PERMISSION_KINDS, OtherReadNoWrite, e.ncpus);
    var js := PermissionJobs(e.ncpus);
    CpuJobsCover(PERMISSION_KINDS, OtherReadNoWrite, e.ncpus, i, k);
    var l :| 0 <= l < |cj| && cj[l] == Job(Name(Cpu(PERMISSION_KINDS[k].0, i)), OtherReadNoWrite, PERMISSION_KINDS[k].1);
    assert js[l] == cj[l];
    OneToggle(js, OtherReadNoWrite);
    TogglesNamed(e, Outcome(w, 0), js, conf, l);
  }

  /** no_turbo, max_perf_pct and min_perf_pct get the read-no-write toggle
      when they can be toggled. */
  lemma PermissionsIpstateGlobalModes(e: Env, w: World, conf: int, g: nat)
    requires g < |GLOBAL_JOBS| && Toggleable(e, w, GLOBAL_JOBS[g].file)
    ensures var f := GLOBAL_JOBS[g].file;
      Toggles(e, Outcome(w, 0), PermissionJobs(e.ncpus), conf).w.files[f].mode
        == NewMode(OtherReadNoWrite, w.files[f].mode, conf)
  {
    var cj := CpuJobs(PERMISSION_KINDS, OtherReadNoWrite, e.ncpus);
    var js := PermissionJobs(e.ncpus);
    assert js[|cj| + g] == GLOBAL_JOBS[g];
    OneToggle(js, OtherReadNoWrite);
    TogglesNamed(e, Outcome(w, 0), js, conf, |cj| + g);
  }

  /** The toggles stop at nothing: 0 exactly when every file could be toggled. */
  lemma PermissionsIpstateRet(e: Env, w: World, conf: int)
    ensures Toggles(e, Outcome(w, 0), PermissionJobs(e.ncpus), conf).ret == 0 <==>
      (forall i, k | 0 <= i < e.ncpus && 0 <= k < |PERMISSION_KINDS| :: Toggleable(e, w, Name(Cpu(PERMISSION_KINDS[k].0, i))))
      && Toggleable(e, w, Name(NoTurbo)) && Toggleable(e, w, Name(MaxPerfPct)) && Toggleable(e, w, Name(MinPerfPct))
  {
    var cj := CpuJobs(PERMISSION_KINDS, OtherReadNoWrite, e.ncpus);
    var js := PermissionJobs(e.ncpus);
    CpuJobsCodes(PERMISSION_KINDS, OtherReadNoWrite, e.ncpus);
    assert forall l | 0 <= l < |js| :: js[l] == if l < |cj| then cj[l] else GLOBAL_JOBS[l - |cj|];
    TogglesSucceed(e, w, js, conf);
    CpuJobsToggleable(e, w, PERMISSION_KINDS, OtherReadNoWrite, e.ncpus);
    assert js[|cj|].file == Name(NoTurbo) && js[|cj| + 1].file == Name(MaxPerfPct) && js[|cj| + 2].file == Name(MinPerfPct);
  }

  // ---------------------------------------------------------------------
  // dump_ipstate

  /** The three value buffers of the CPU loop; they live across iterations,
      so a failed read leaves the previous CPU's value in place ("" before
      any read, where the C buffers are uninitialised). */
  datatype Buffers = Buffers(governor: string, maxFreq: string, minFreq: string)

  type CpuDumping = Dumping<Buffers>

  /** The three `path value` lines printed for CPU `i`. */
  function CpuPairs(i: nat, b: Buffers): (ps: seq<(string, string)>)
    ensures |ps| == 3
  {
    [(Name(Cpu(Governor, i)), b.governor), (Name(Cpu(ScalingMax, i)), b.maxFreq), (Name(Cpu(ScalingMin, i)), b.minFreq)]
  }

  /** One iteration of the CPU loop: three reads (-2, -3, -4) and one print of
      three lines (-5), every failure recorded and none stopping the loop. */
  function DumpCpu(e: Env, w: World, s: CpuDumping, i: nat): CpuDumping
  {
    var gov := ReadStr(e, w, Name(Cpu(Governor, i)), s.bufs.governor);
    var max := ReadStr(e, w, Name(Cpu(ScalingMax, i)), s.bufs.maxFreq);
    var min := ReadStr(e, w, Name(Cpu(ScalingMin, i)), s.bufs.minFreq);
    var r1 := if gov.ret < 0 then -2 else s.ret;
    var r2 := if max.ret < 0 then -3 else r1;
    var r3 := if min.ret < 0 then -4 else r2;
    var b := Buffers(gov.buf, max.buf, min.buf);
    var p := Emit(e, IPSTATE_DUMP, s.out, Records(PairRecords(CpuPairs(i, b))));
    Dumping(p.out, if p.ret < 0 then -5 else r3, b)
  }

  function DumpStep(e: Env, w: World): (CpuDumping, nat) -> CpuDumping
  {
    (t: CpuDumping, i: nat) => DumpCpu(e, w, t, i)
  }

  /** The values of no_turbo, max_perf_pct and min_perf_pct. */
  datatype Globals = Globals(noTurbo: string, maxPerfPct: string, minPerfPct: string)

  /** The three driver-wide `path value` lines. */
  function GlobalPairs(g: Globals): (ps: seq<(string, string)>)
    ensures |ps| == 3
  {
    [(Name(NoTurbo), g.noTurbo), (Name(MaxPerfPct), g.maxPerfPct), (Name(MinPerfPct), g.minPerfPct)]
  }

  /** After the loop: three reads (-6, -7, -8) into fresh buffers and one
      print of three lines (-9). */
  function DumpGlobals(e: Env, w: World, s: CpuDumping): Dumping<Globals>
  {
    var nt := ReadStr(e, w, Name(NoTurbo), "");
    var max := ReadStr(e, w, Name(MaxPerfPct), "");
    var min := ReadStr(e, w, Name(MinPerfPct), "");
    var r1 := if nt.ret < 0 then -6 else s.ret;
    var r2 := if max.ret < 0 then -7 else r1;
    var r3 := if min.ret < 0 then -8 else r2;
    var g := Globals(nt.buf, max.buf, min.buf);
    var p := Emit(e, IPSTATE_DUMP, s.out, Records(PairRecords(GlobalPairs(g))));
    Dumping(p.out, if p.ret < 0 then -9 else r3, g)
  }

  /** `dump_ipstate`. Its check of `fopen` compares the returned `FILE *` with 0
      (`fd_dump < 0`), which never holds, so the model requires that `fopen`
      succeed. A failing header returns -2 at once, leaving the dump empty. */
  function DumpSpec(e: Env, w: World): (o: Outcome)
    requires IPSTATE_DUMP !in e.faults.noWrite
    ensures IPSTATE_DUMP in o.w.files
  {
    var op := OpenWrite(e, w, IPSTATE_DUMP);
    var h := Emit(e, IPSTATE_DUMP, [], SNAPSHOT_HEADER);
    if h.ret < 0 then Outcome(op.w, -2)
    else
      var s := Iterate(DumpStep(e, w), Dumping(h.out, 0, Buffers("", "", "")), e.ncpus);
      var g := DumpGlobals(e, w, s);
      Outcome(Written(op.w, IPSTATE_DUMP, g.out), g.ret)
  }

  method DumpIpstate(m: Machine) returns (ret: int)
    requires IPSTATE_DUMP !in m.env.faults.noWrite
    modifies m
    ensures Outcome(m.State(), ret) == DumpSpec(m.env, old(m.State()))
  {
    ghost var w0 := m.State();
    var fd := FopenWrite(m, IPSTATE_DUMP);
    ghost var w1 := m.State();
    var printed := Fprintf(m, IPSTATE_DUMP, SNAPSHOT_HEADER);
    PrintEmits(m.env, w1, IPSTATE_DUMP, SNAPSHOT_HEADER);
    if printed < 0 {
      assert Written(w1, IPSTATE_DUMP, []) == w1;
      return -2;
    }
    ret := 0;
    ghost var s0 := Dumping(m.files[IPSTATE_DUMP].data, ret, Buffers("", "", ""));
    var bufs := Buffers("", "", "");
    var i := 0;
    while i < m.env.ncpus
      invariant i <= m.env.ncpus
      invariant Dumped(m, w0, IPSTATE_DUMP)
      invariant Dumping(m.files[IPSTATE_DUMP].data, ret, bufs) == Iterate(DumpStep(m.env, w0), s0, i)
    {
      bufs, ret := DumpOneCpu(m, w0, i, bufs, ret);
      i := i + 1;
    }
    ret := DumpGlobalFiles(m, w0, bufs, ret);
  }

  /** The body of the CPU loop, on the node `w0` the dump started from. */
  method DumpOneCpu(m: Machine, ghost w0: World, i: nat, bufs: Buffers, ret: int) returns (bufs': Buffers, ret': int)
    requires Dumped(m, w0, IPSTATE_DUMP)
    modifies m
    ensures Dumped(m, w0, IPSTATE_DUMP)
    ensures Dumping(m.files[IPSTATE_DUMP].data, ret', bufs') == DumpCpu(m.env, w0, Dumping(old(m.files[IPSTATE_DUMP].data), ret, bufs), i)
  {
    ghost var out := m.files[IPSTATE_DUMP].data;
    ghost var w := m.State();
    var governor, maxFreq, minFreq, status;
    ret' := ret;
    ReadsUnchanged(m.env, w0, IpstateDump, out, Cpu(Governor, i), bufs.governor);
    governor, status := ReadStrFromFile(m, Name(Cpu(Governor, i)), bufs.governor);
    if status < 0 {
      ret' := -2;
    }
    ReadsUnchanged(m.env, w0, IpstateDump, out, Cpu(ScalingMax, i), bufs.maxFreq);
    maxFreq, status := ReadStrFromFile(m, Name(Cpu(ScalingMax, i)), bufs.maxFreq);
    if status < 0 {
      ret' := -3;
    }
    ReadsUnchanged(m.env, w0, IpstateDump, out, Cpu(ScalingMin, i), bufs.minFreq);
    minFreq, status := ReadStrFromFile(m, Name(Cpu(ScalingMin, i)), bufs.minFreq);
    if status < 0 {
      ret' := -4;
    }
    bufs' := Buffers(governor, maxFreq, minFreq);
    var text := Records(PairRecords(CpuPairs(i, bufs')));
    status := Fprintf(m, IPSTATE_DUMP, text);
    PrintEmits(m.env, w, IPSTATE_DUMP, text);
    if status < 0 {
      ret' := -5;
    }
  }

  /** The driver-wide part after the loop. */
  method DumpGlobalFiles(m: Machine, ghost w0: World, bufs: Buffers, ret: int) returns (ret': int)
    requires Dumped(m, w0, IPSTATE_DUMP)
    modifies m
    ensures var s := DumpGlobals(m.env, w0, Dumping(old(m.files[IPSTATE_DUMP].data), ret, bufs));
      ret' == s.ret && m.State() == Written(OpenWrite(m.env, w0, IPSTATE_DUMP).w, IPSTATE_DUMP, s.out)
  {
    ghost var out := m.files[IPSTATE_DUMP].data;
    ghost var w := m.State();
    var noTurbo, maxPerfPct, minPerfPct, status;
    ret' := ret;
    ReadsUnchanged(m.env, w0, IpstateDump, out, NoTurbo, "");
    noTurbo, status := ReadStrFromFile(m, Name(NoTurbo), "");
    if status < 0 {
      ret' := -6;
    }
    ReadsUnchanged(m.env, w0, IpstateDump, out, MaxPerfPct, "");
    maxPerfPct, status := ReadStrFromFile(m, Name(MaxPerfPct), "");
    if status < 0 {
      ret' := -7;
    }
    ReadsUnchanged(m.env, w0, IpstateDump, out, MinPerfPct, "");
    minPerfPct, status := ReadStrFromFile(m, Name(MinPerfPct), "");
    if status < 0 {
      ret' := -8;
    }
    var text := Records(PairRecords(GlobalPairs(Globals(noTurbo, maxPerfPct, minPerfPct))));
    status := Fprintf(m, IPSTATE_DUMP, text);
    PrintEmits(m.env, w, IPSTATE_DUMP, text);
    if status < 0 {
      ret' := -9;
    }
  }

  // ---------------------------------------------------------------------
  // What the dump saves.

  predicate SavedReadable(e: Env, w: World, i: nat)
  {
    Readable(e, w, Name(Cpu(Governor, i))) && Readable(e, w, Name(Cpu(ScalingMax, i)))
    && Readable(e, w, Name(Cpu(ScalingMin, i)))
  }

  predicate AllSaved(e: Env, w: World, n: nat)
  {
    forall i | 0 <= i < n :: SavedReadable(e, w, i)
  }

  function SavedBufs(e: Env, w: World, i: nat): Buffers
    requires SavedReadable(e, w, i)
  {
    Buffers(FirstToken(w, Name(Cpu(Governor, i))), FirstToken(w, Name(Cpu(ScalingMax, i))), FirstToken(w, Name(Cpu(ScalingMin, i))))
  }

  /** The pairs CPU `i` contributes to the snapshot of `w` (none when a read would fail). */
  function SavedPairs(e: Env, w: World, i: nat): seq<(string, string)>
  {
    if SavedReadable(e, w, i) then CpuPairs(i, SavedBufs(e, w, i)) else []
  }

  function SavedOf(e: Env, w: World): nat -> seq<(string, string)>
  {
    (i: nat) => SavedPairs(e, w, i)
  }

  /** The pairs of CPUs 0 .. n-1, in order. */
  function Saved(e: Env, w: World, n: nat): seq<(string, string)>
  {
    Joined(SavedOf(e, w), n)
  }

  predicate GlobalsReadable(e: Env, w: World)
  {
    Readable(e, w, Name(NoTurbo)) && Readable(e, w, Name(MaxPerfPct)) && Readable(e, w, Name(MinPerfPct))
  }

  function SavedGlobals(e: Env, w: World): Globals
    requires GlobalsReadable(e, w)
  {
    Globals(FirstToken(w, Name(NoTurbo)), FirstToken(w, Name(MaxPerfPct)), FirstToken(w, Name(MinPerfPct)))
  }

  /** Everything the dump of `w` records, in order. */
  function DumpPairs(e: Env, w: World): seq<(string, string)>
    requires GlobalsReadable(e, w)
  {
    Saved(e, w, e.ncpus) + GlobalPairs(SavedGlobals(e, w))
  }

  lemma DumpCpuContent(e: Env, w: World, s: CpuDumping, i: nat)
    requires SavedReadable(e, w, i) && StreamOk(e, IPSTATE_DUMP)
    ensures DumpCpu(e, w, s, i).ret == s.ret
    ensures DumpCpu(e, w, s, i).out == s.out + Records(PairRecords(SavedPairs(e, w, i)))
  {
  }

  lemma DumpCpusContent(e: Env, w: World, s: CpuDumping, n: nat)
    requires AllSaved(e, w, n) && StreamOk(e, IPSTATE_DUMP)
    ensures Iterate(DumpStep(e, w), s, n).ret == s.ret
    ensures Iterate(DumpStep(e, w), s, n).out == s.out + Records(PairRecords(Saved(e, w, n)))
  {
    var h := Texts(SavedOf(e, w));
    forall t: CpuDumping, i: nat | i < n
      ensures DumpStep(e, w)(t, i).ret == t.ret && DumpStep(e, w)(t, i).out == t.out + h(i)
    {
      DumpCpuContent(e, w, t, i);
    }
    IterateCat(DumpStep(e, w), h, s, n);
    JoinedText(SavedOf(e, w), n);
  }

  lemma DumpGlobalsContent(e: Env, w: World, s: CpuDumping)
    requires GlobalsReadable(e, w) && StreamOk(e, IPSTATE_DUMP)
    ensures DumpGlobals(e, w, s).ret == s.ret
    ensures DumpGlobals(e, w, s).out == s.out + Records(PairRecords(GlobalPairs(SavedGlobals(e, w))))
  {
  }

  /** With every read and every print succeeding, `dump_ipstate` returns 0 and
      leaves the snapshot holding the header, three lines per CPU and the three
      driver-wide lines. */
  lemma DumpIpstateContent(e: Env, w: World)
    requires IPSTATE_DUMP !in e.faults.noWrite && StreamOk(e, IPSTATE_DUMP)
    requires AllSaved(e, w, e.ncpus) && GlobalsReadable(e, w)
    ensures DumpSpec(e, w).ret == 0
    ensures IPSTATE_DUMP in DumpSpec(e, w).w.files
    ensures DumpSpec(e, w).w.files[IPSTATE_DUMP].data == SNAPSHOT_HEADER + Records(PairRecords(DumpPairs(e, w)))
  {
    DumpOutput(e, w);
    DumpHeaderOk(e, w);
  }

  /** What the loops print after a header that is printed. */
  lemma DumpOutput(e: Env, w: World)
    requires StreamOk(e, IPSTATE_DUMP) && AllSaved(e, w, e.ncpus) && GlobalsReadable(e, w)
    ensures var s := Iterate(DumpStep(e, w), Dumping(SNAPSHOT_HEADER, 0, Buffers("", "", "")), e.ncpus);
      var g := DumpGlobals(e, w, s);
      g.ret == 0 && g.out == SNAPSHOT_HEADER + Records(PairRecords(DumpPairs(e, w)))
  {
    var s0 := Dumping(SNAPSHOT_HEADER, 0, Buffers("", "", ""));
    DumpCpusContent(e, w, s0, e.ncpus);
    var s := Iterate(DumpStep(e, w), s0, e.ncpus);
    DumpGlobalsContent(e, w, s);
    var a, b := Saved(e, w, e.ncpus), GlobalPairs(SavedGlobals(e, w));
    var ra, rb := Records(PairRecords(a)), Records(PairRecords(b));
    assert s.out == SNAPSHOT_HEADER + ra && s.ret == 0;
    var g := DumpGlobals(e, w, s);
    assert g.out == SNAPSHOT_HEADER + ra + rb && g.ret == 0;
    PairRecordsAppend(a, b);
    ConcatAssoc(SNAPSHOT_HEADER, ra, rb);
  }

  /** The dump when its header is printed. */
  lemma DumpHeaderOk(e: Env, w: World)
    requires IPSTATE_DUMP !in e.faults.noWrite && (IPSTATE_DUMP, SNAPSHOT_HEADER) !in e.faults.noStream
    ensures var s := Iterate(DumpStep(e, w), Dumping(SNAPSHOT_HEADER, 0, Buffers("", "", "")), e.ncpus);
      var g := DumpGlobals(e, w, s);
      DumpSpec(e, w) == Outcome(Written(OpenWrite(e, w, IPSTATE_DUMP).w, IPSTATE_DUMP, g.out), g.ret)
  {
    assert [] + SNAPSHOT_HEADER == SNAPSHOT_HEADER;
  }

  /** The snapshot has 3 lines per CPU and 3 more, besides the header. */
  lemma DumpPairsSize(e: Env, w: World)
    requires AllSaved(e, w, e.ncpus) && GlobalsReadable(e, w)
    ensures |DumpPairs(e, w)| == 3 * e.ncpus + 3
  {
    forall j: nat | j < e.ncpus
      ensures |SavedOf(e, w)(j)| == 3
    {
      assert SavedReadable(e, w, j);
    }
    JoinedLength(SavedOf(e, w), e.ncpus, 3);
  }

  /** A failing header: -2 at once, and the snapshot left empty. */
  lemma DumpHeaderFails(e: Env, w: World)
    requires IPSTATE_DUMP !in e.faults.noWrite && (IPSTATE_DUMP, SNAPSHOT_HEADER) in e.faults.noStream
    ensures DumpSpec(e, w).ret == -2 && DumpSpec(e, w).w.files[IPSTATE_DUMP].data == []
  {
  }

  /** `dump_ipstate` changes the dump file and nothing else, whatever fails. */
  lemma DumpIpstateFrame(e: Env, w: World)
    requires IPSTATE_DUMP !in e.faults.noWrite
    ensures OnlyChanged(w, DumpSpec(e, w).w, IPSTATE_DUMP)
  {
    var w1 := OpenWrite(e, w, IPSTATE_DUMP).w;
    assert w1.files == w.files[IPSTATE_DUMP := Truncated(e, w, IPSTATE_DUMP)];
  }

  // ---------------------------------------------------------------------
  // Replaying the snapshot.

  /** The files the dump saves. */
  predicate SavedFile(p: Path, n: nat)
  {
    match p
    case Cpu(k, i) => i < n && (k == Governor || k == ScalingMax || k == ScalingMin)
    case NoTurbo => true
    case MaxPerfPct => true
    case MinPerfPct => true
    case _ => false
  }

  lemma CpuPairsOther(j: nat, b: Buffers, p: Path)
    requires !(p.Cpu? && p.cpu == j)
    ensures LastValue(CpuPairs(j, b), Name(p)).None?
  {
    forall k: CpuKind
      ensures Name(Cpu(k, j)) != Name(p)
    {
      if Name(Cpu(k, j)) == Name(p) {
        NameInjective(Cpu(k, j), p);
      }
    }
  }

  lemma CpuPairsLast(i: nat, b: Buffers, k: CpuKind, l: nat)
    requires l < 3 && k == [Governor, ScalingMax, ScalingMin][l]
    ensures LastValue(CpuPairs(i, b), Name(Cpu(k, i))) == Some(CpuPairs(i, b)[l].1)
  {
    var ps := CpuPairs(i, b);
    forall l' | 0 <= l' < 3 && l' != l
      ensures ps[l'].0 != Name(Cpu(k, i))
    {
      var k' := [Governor, ScalingMax, ScalingMin][l'];
      assert ps[l'].0 == Name(Cpu(k', i));
      if ps[l'].0 == Name(Cpu(k, i)) {
        NameInjective(Cpu(k', i), Cpu(k, i));
      }
    }
    LastValueUnique(ps, l, Name(Cpu(k, i)));
  }

  lemma GlobalPairsOther(g: Globals, p: Path)
    requires !(p.NoTurbo? || p.MaxPerfPct? || p.MinPerfPct?)
    ensures LastValue(GlobalPairs(g), Name(p)).None?
  {
    var ps := GlobalPairs(g);
    forall l | 0 <= l < 3
      ensures ps[l].0 != Name(p)
    {
      var q := [NoTurbo, MaxPerfPct, MinPerfPct][l];
      assert ps[l].0 == Name(q);
      if Name(q) == Name(p) {
        NameInjective(q, p);
      }
    }
  }

  lemma GlobalPairsLast(g: Globals, p: Path, l: nat)
    requires l < 3 && p == [NoTurbo, MaxPerfPct, MinPerfPct][l]
    ensures LastValue(GlobalPairs(g), Name(p)) == Some(GlobalPairs(g)[l].1)
  {
    var ps := GlobalPairs(g);
    forall l' | 0 <= l' < 3 && l' != l
      ensures ps[l'].0 != Name(p)
    {
      var q := [NoTurbo, MaxPerfPct, MinPerfPct][l'];
      assert ps[l'].0 == Name(q);
      if Name(q) == Name(p) {
        NameInjective(q, p);
      }
    }
    LastValueUnique(ps, l, Name(p));
  }

  /** In the CPU part of the snapshot, each saved CPU file takes the token it held. */
  lemma SavedLast(e: Env, w: World, n: nat, k: CpuKind, i: nat)
    requires AllSaved(e, w, n) && SavedFile(Cpu(k, i), n)
    ensures Readable(e, w, Name(Cpu(k, i))) && LastValue(Saved(e, w, n), Name(Cpu(k, i))) == Some(FirstToken(w, Name(Cpu(k, i))))
  {
    assert SavedReadable(e, w, i);
    forall j: nat | j < n && j != i
      ensures LastValue(SavedOf(e, w)(j), Name(Cpu(k, i))).None?
    {
      if SavedReadable(e, w, j) {
        CpuPairsOther(j, SavedBufs(e, w, j), Cpu(k, i));
      }
    }
    JoinedLastValue(SavedOf(e, w), n, i, Name(Cpu(k, i)));
    var l := if k == Governor then 0 else if k == ScalingMax then 1 else 2;
    CpuPairsLast(i, SavedBufs(e, w, i), k, l);
  }

  /** No saved CPU file is named by a CPU's lines when it is driver-wide. */
  lemma SavedUnnamed(e: Env, w: World, n: nat, p: Path)
    requires p.NoTurbo? || p.MaxPerfPct? || p.MinPerfPct?
    ensures LastValue(Saved(e, w, n), Name(p)).None?
  {
    forall j: nat | j < n
      ensures LastValue(SavedOf(e, w)(j), Name(p)).None?
    {
      if SavedReadable(e, w, j) {
        CpuPairsOther(j, SavedBufs(e, w, j), p);
      }
    }
    JoinedUnnamed(SavedOf(e, w), n, Name(p));
  }

  /** In the whole snapshot, each saved file takes the token it held. */
  lemma DumpPairsLast(e: Env, w: World, p: Path)
    requires AllSaved(e, w, e.ncpus) && GlobalsReadable(e, w) && SavedFile(p, e.ncpus)
    ensures Readable(e, w, Name(p)) && LastValue(DumpPairs(e, w), Name(p)) == Some(FirstToken(w, Name(p)))
  {
    var a, b := Saved(e, w, e.ncpus), GlobalPairs(SavedGlobals(e, w));
    LastValueAppend(a, b, Name(p));
    if p.Cpu? {
      assert SavedReadable(e, w, p.cpu);
      GlobalPairsOther(SavedGlobals(e, w), p);
      SavedLast(e, w, e.ncpus, p.kind, p.cpu);
    } else {
      var l := if p.NoTurbo? then 0 else if p.MaxPerfPct? then 1 else 2;
      GlobalPairsLast(SavedGlobals(e, w), p, l);
    }
  }

  lemma {:induction false} DumpPairsTokens(e: Env, w: World)
    requires GlobalsReadable(e, w)
    ensures TokenPairs(DumpPairs(e, w))
  {
    forall j: nat | j < e.ncpus
      ensures TokenPairs(SavedOf(e, w)(j))
    {
      if SavedReadable(e, w, j) {
        NameIsToken(Cpu(Governor, j));
        NameIsToken(Cpu(ScalingMax, j));
        NameIsToken(Cpu(ScalingMin, j));
      }
    }
    JoinedTokens(SavedOf(e, w), e.ncpus);
    NameIsToken(NoTurbo);
    NameIsToken(MaxPerfPct);
    NameIsToken(MinPerfPct);
    var a, b := Saved(e, w, e.ncpus), GlobalPairs(SavedGlobals(e, w));
    assert forall k | |a| <= k < |a + b| :: (a + b)[k] == b[k - |a|];
  }

  /** Replaying a snapshot that holds the dump of `w` puts back every saved
      file's token and returns 0. */
  lemma RestoreSaved(e: Env, w: World, w': World, p: Path, buf: string)
    requires WritesOk(e) && AllSaved(e, w, e.ncpus) && GlobalsReadable(e, w) && SavedFile(p, e.ncpus)
    requires CanRead(e, w', IPSTATE_DUMP)
    requires w'.files[IPSTATE_DUMP].data == SNAPSHOT_HEADER + Records(PairRecords(DumpPairs(e, w)))
    ensures RestoreSpec(e, w', IPSTATE_DUMP).ret == 0
    ensures Readable(e, w, Name(p)) && ReadStr(e, RestoreSpec(e, w', IPSTATE_DUMP).w, Name(p), buf) == Scan(FirstToken(w, Name(p)), 1)
  {
    var ps := DumpPairs(e, w);
    DumpPairsTokens(e, w);
    DumpPairsLast(e, w, p);
    assert forall l | 0 <= l < |ps| :: Writable(e, ps[l].0, ps[l].1);
    RestoreWritesBack(e, w', IPSTATE_DUMP, ps, Name(p), buf);
  }

  /** The round trip: the snapshot `dump_ipstate` wrote, replayed by
      `restore_ipstate` with the snapshot intact, returns 0 and puts back every
      saved file's token. */
  lemma IpstateRoundTrip(e: Env, w: World, w': World, p: Path, buf: string)
    requires WritesOk(e) && AllSaved(e, w, e.ncpus) && GlobalsReadable(e, w) && SavedFile(p, e.ncpus)
    requires CanRead(e, w', IPSTATE_DUMP) && w'.files[IPSTATE_DUMP] == DumpSpec(e, w).w.files[IPSTATE_DUMP]
    ensures RestoreSpec(e, w', IPSTATE_DUMP).ret == 0
    ensures Readable(e, w, Name(p)) && ReadStr(e, RestoreSpec(e, w', IPSTATE_DUMP).w, Name(p), buf) == Scan(FirstToken(w, Name(p)), 1)
  {
    DumpIpstateContent(e, w);
    RestoreSaved(e, w, w', p, buf);
  }

  // ---------------------------------------------------------------------
  // restore_ipstate

  method RestoreIpstate(m: Machine) returns (ret: int)
    modifies m
    ensures Outcome(m.State(), ret) == RestoreSpec(m.env, old(m.State()), IPSTATE_DUMP)
  {
    ret := Restore(m, IPSTATE_DUMP);
  }

  // ---------------------------------------------------------------------
  // hack_ipstate

  /** The unit of the cpuinfo frequencies per step of the ratio: 100 MHz in kHz. */
  const FREQ_UNIT: nat := 100000

  /** C's `/` on integers, which truncates toward zero. */
  function Quot(a: int, b: nat): (q: int)
    requires b > 0
    ensures a >= 0 ==> q == a / b
  {
    if a >= 0 then a / b else -((-a) / b)
  }

  /** A conversion to 32-bit `int`: the value modulo 2^32, in two's complement. */
  function Int32(x: int): (r: int)
    ensures -0x8000_0000 <= r < 0x8000_0000
    ensures -0x8000_0000 <= x < 0x8000_0000 ==> r == x
  {
    var u := x % 0x1_0000_0000;
    if u >= 0x8000_0000 then u - 0x1_0000_0000 else u
  }

  /** `uint64_t reg = (int)(freq / 100000) << 8`: the shift is done in `int`
      and a negative result is sign-extended by the conversion to `uint64_t`. */
  function PerfCtl(freq: int): (r: u64)
    ensures r % 256 == 0
  {
    var pstate := Int32(Quot(freq, FREQ_UNIT));
    ShiftClearsLowByte(pstate);
    Int32(pstate * 256) % 0x1_0000_0000_0000_0000
  }

  /** A value shifted left by 8 keeps bits 7:0 clear through both conversions. */
  lemma ShiftClearsLowByte(p: int)
    ensures (Int32(p * 256) % 0x1_0000_0000_0000_0000) % 256 == 0
  {
    var u := (p * 256) % 0x1_0000_0000;
    assert p * 256 == 0x1_0000_0000 * ((p * 256) / 0x1_0000_0000) + u;
    var k := p - 0x100_0000 * ((p * 256) / 0x1_0000_0000);
    assert u == 256 * k;
    var v := if u >= 0x8000_0000 then u - 0x1_0000_0000 else u;
    assert v == 256 * (if u >= 0x8000_0000 then k - 0x100_0000 else k);
    assert Int32(p * 256) == v;
    var z := v % 0x1_0000_0000_0000_0000;
    assert v == 0x1_0000_0000_0000_0000 * (v / 0x1_0000_0000_0000_0000) + z;
    assert z == 256 * ((v / 256) - 0x100_0000_0000_0000 * (v / 0x1_0000_0000_0000_0000));
  }

  /** 3 GHz (3000000 kHz) is ratio 30 in bits 15:8. */
  lemma PerfCtlExample()
    ensures PerfCtl(3000000) == 0x1E00
  {
  }

  /** For any frequency whose ratio fits, the register holds the ratio shifted
      into bits 8 and up, with bits 7:0 clear. */
  lemma PerfCtlRatio(freq: int)
    requires 0 <= freq < 0x80_0000 * FREQ_UNIT
    ensures PerfCtl(freq) == (freq / FREQ_UNIT) * 256
    ensures PerfCtl(freq) / 256 == freq / FREQ_UNIT && PerfCtl(freq) % 256 == 0
  {
    var q := freq / FREQ_UNIT;
    assert 0 <= q < 0x80_0000;
    assert Int32(q) == q;
    assert Int32(q * 256) == q * 256;
  }

  /** The state of the hack loop: the node, the status and the `data` buffer,
      which lives across iterations ("" before any read). */
  datatype Hacking = Hacking(w: World, ret: int, data: string)

  /** One iteration of the CPU loop of `hack_ipstate`: cpuinfo_min_freq is read
      (-2) and written to scaling_max_freq (-3); cpuinfo_max_freq is read (-4)
      and, only when that succeeds, its ratio goes to IA32_PERF_CTL (-5). */
  function HackCpu(e: Env, h: Hacking, i: nat): (t: Hacking)
    ensures t.ret == h.ret || -5 <= t.ret <= -2
  {
    var min := ReadStr(e, h.w, Name(Cpu(CpuinfoMin, i)), h.data);
    var r1 := if min.ret < 0 then -2 else h.ret;
    var cap := WriteStr(e, h.w, Name(Cpu(ScalingMax, i)), min.buf);
    var r2 := if cap.ret < 0 then -3 else r1;
    var max := ReadStr(e, cap.w, Name(Cpu(CpuinfoMax, i)), min.buf);
    if max.ret < 0 then Hacking(cap.w, -4, max.buf)
    else
      var msr := WriteMsrFile(e, cap.w, i, IA32_PERF_CTL, PerfCtl(StrToL(max.buf)));
      Hacking(msr.w, if msr.ret < 0 then -5 else r2, max.buf)
  }

  /** Iterations 0 .. n-1. */
  function HackCpus(e: Env, h: Hacking, n: nat): (t: Hacking)
    ensures t.ret == h.ret || -5 <= t.ret <= -2
  {
    if n == 0 then h else HackCpu(e, HackCpus(e, h, n - 1), n - 1)
  }

  /** `hack_ipstate`: "1" to no_turbo (-1), then the CPU loop. */
  function HackSpec(e: Env, w: World): (o: Outcome)
    ensures -5 <= o.ret <= 0
  {
    var nt := WriteStr(e, w, Name(NoTurbo), "1");
    var h := HackCpus(e, Hacking(nt.w, if nt.ret < 0 then -1 else 0, ""), e.ncpus);
    Outcome(h.w, h.ret)
  }

  method HackIpstate(m: Machine) returns (ret: int)
    modifies m
    ensures Outcome(m.State(), ret) == HackSpec(m.env, old(m.State()))
  {
    ret := 0;
    var r := WriteStrToFile(m, Name(NoTurbo), "1");
    if r < 0 {
      ret := -1;
    }
    ghost var h0 := Hacking(m.State(), ret, "");
    var data := "";
    var i := 0;
    while i < m.env.ncpus
      invariant i <= m.env.ncpus
      invariant Hacking(m.State(), ret, data) == HackCpus(m.env, h0, i)
    {
      data, ret := HackOneCpu(m, i, data, ret);
      i := i + 1;
    }
  }

  method HackOneCpu(m: Machine, i: nat, data: string, ret: int) returns (data': string, ret': int)
    modifies m
    ensures Hacking(m.State(), ret', data') == HackCpu(m.env, Hacking(old(m.State()), ret, data), i)
  {
    var status;
    ret' := ret;
    data', status := ReadStrFromFile(m, Name(Cpu(CpuinfoMin, i)), data);
    if status < 0 {
      ret' := -2;
    }
    status := WriteStrToFile(m, Name(Cpu(ScalingMax, i)), data');
    if status < 0 {
      ret' := -3;
    }
    data', status := ReadStrFromFile(m, Name(Cpu(CpuinfoMax, i)), data');
    if status < 0 {
      ret' := -4;
    } else {
      var freq := StrToL(data');
      status := WriteMsrToFile(m, i, IA32_PERF_CTL, PerfCtl(freq));
      if status < 0 {
        ret' := -5;
      }
    }
  }

  /** An iteration touches only its CPU's scaling_max_freq ... */
  lemma HackCpuFiles(e: Env, h: Hacking, i: nat, f: string)
    requires f != Name(Cpu(ScalingMax, i))
    ensures SameFile(h.w, HackCpu(e, h, i).w, f)
  {
    WriteStrOthers(e, h.w, Name(Cpu(ScalingMax, i)), ReadStr(e, h.w, Name(Cpu(CpuinfoMin, i)), h.data).buf, f);
  }

  /** ... and its CPU's IA32_PERF_CTL. */
  lemma HackCpuRegs(e: Env, h: Hacking, i: nat, r: (nat, u64))
    requires r != (i, IA32_PERF_CTL)
    ensures SameReg(h.w, HackCpu(e, h, i).w, r)
  {
    var min := ReadStr(e, h.w, Name(Cpu(CpuinfoMin, i)), h.data);
    var cap := WriteStr(e, h.w, Name(Cpu(ScalingMax, i)), min.buf);
    assert cap.w.regs == h.w.regs;
    var max := ReadStr(e, cap.w, Name(Cpu(CpuinfoMax, i)), min.buf);
    if max.ret < 0 {
      assert HackCpu(e, h, i).w == cap.w;
    } else {
      var v := PerfCtl(StrToL(max.buf));
      assert HackCpu(e, h, i).w == WriteMsrFile(e, cap.w, i, IA32_PERF_CTL, v).w;
      MsrWriteOthers(e, cap.w, i, IA32_PERF_CTL, v, r);
    }
  }

  /** A register write to `(cpu, addr)` leaves every other register alone. */
  lemma MsrWriteOthers(e: Env, w: World, cpu: nat, addr: u64, v: u64, r: (nat, u64))
    requires r != (cpu, addr)
    ensures SameReg(w, WriteMsrFile(e, w, cpu, addr, v).w, r)
  {
  }

  /** Iterations m .. n-1 leave alone every file that is not one of their scaling_max_freq. */
  lemma {:induction false} HackRangeFiles(e: Env, h: Hacking, m: nat, n: nat, f: string)
    requires m <= n
    requires forall j: nat | m <= j < n :: f != Name(Cpu(ScalingMax, j))
    ensures SameFile(HackCpus(e, h, m).w, HackCpus(e, h, n).w, f)
    decreases n
  {
    if m != n {
      HackRangeFiles(e, h, m, n - 1, f);
      HackStepFiles(e, h, n, f);
      SameFileTrans(HackCpus(e, h, m).w, HackCpus(e, h, n - 1).w, HackCpus(e, h, n).w, f);
    }
  }

  /** The first `n` iterations end with iteration `n - 1`. */
  lemma HackCpusStep(e: Env, h: Hacking, n: nat)
    requires 0 < n
    ensures HackCpus(e, h, n).w == HackCpu(e, HackCpus(e, h, n - 1), n - 1).w
  {
  }

  /** `HackCpuFiles` for the last of the first `n` iterations. */
  lemma HackStepFiles(e: Env, h: Hacking, n: nat, f: string)
    requires 0 < n && f != Name(Cpu(ScalingMax, n - 1))
    ensures SameFile(HackCpus(e, h, n - 1).w, HackCpus(e, h, n).w, f)
  {
    HackCpusStep(e, h, n);
    HackCpuFiles(e, HackCpus(e, h, n - 1), n - 1, f);
  }

  /** Iterations m .. n-1 leave alone every register that is not one of their IA32_PERF_CTL. */
  lemma {:induction false} HackRangeRegs(e: Env, h: Hacking, m: nat, n: nat, r: (nat, u64))
    requires m <= n
    requires !(m <= r.0 < n && r.1 == IA32_PERF_CTL)
    ensures SameReg(HackCpus(e, h, m).w, HackCpus(e, h, n).w, r)
    decreases n
  {
    if m != n {
      HackRangeRegs(e, h, m, n - 1, r);
      HackStepRegs(e, h, n, r);
      SameRegTrans(HackCpus(e, h, m).w, HackCpus(e, h, n - 1).w, HackCpus(e, h, n).w, r);
    }
  }

  /** `HackCpuRegs` for the last of the first `n` iterations. */
  lemma HackStepRegs(e: Env, h: Hacking, n: nat, r: (nat, u64))
    requires 0 < n && r != (n - 1, IA32_PERF_CTL)
    ensures SameReg(HackCpus(e, h, n - 1).w, HackCpus(e, h, n).w, r)
  {
    HackCpuRegs(e, HackCpus(e, h, n - 1), n - 1, r);
  }

  /** The hack's first write leaves every other file and every register alone. */
  lemma NoTurboOthers(e: Env, w: World, f: string, r: (nat, u64))
    requires f != Name(NoTurbo)
    ensures SameFile(w, WriteStr(e, w, Name(NoTurbo), "1").w, f)
    ensures SameReg(w, WriteStr(e, w, Name(NoTurbo), "1").w, r)
  {
    WriteStrOthers(e, w, Name(NoTurbo), "1", f);
  }

  /** The node the hack's iteration `i` starts from agrees with the node the
      hack started from on the files the iteration reads and on its register. */
  lemma HackBefore(e: Env, w: World, i: nat, q: Path)
    requires q == Cpu(CpuinfoMin, i) || q == Cpu(CpuinfoMax, i) || q == MsrNode(i)
    ensures var nt := WriteStr(e, w, Name(NoTurbo), "1");
      var h := HackCpus(e, Hacking(nt.w, if nt.ret < 0 then -1 else 0, ""), i);
      SameFile(w, h.w, Name(q)) && SameReg(w, h.w, (i, IA32_PERF_CTL))
  {
    var nt := WriteStr(e, w, Name(NoTurbo), "1");
    var h0 := Hacking(nt.w, if nt.ret < 0 then -1 else 0, "");
    if Name(q) == Name(NoTurbo) {
      NameInjective(q, NoTurbo);
    }
    NoTurboOthers(e, w, Name(q), (i, IA32_PERF_CTL));
    forall j: nat | j < i
      ensures Name(q) != Name(Cpu(ScalingMax, j))
    {
      if Name(q) == Name(Cpu(ScalingMax, j)) {
        NameInjective(q, Cpu(ScalingMax, j));
      }
    }
    HackRangeFiles(e, h0, 0, i, Name(q));
    HackRangeRegs(e, h0, 0, i, (i, IA32_PERF_CTL));
  }

  /** When no_turbo can be written, the hack leaves it holding "1". */
  lemma HackNoTurbo(e: Env, w: World)
    requires Writable(e, Name(NoTurbo), "1")
    ensures Name(NoTurbo) in HackSpec(e, w).w.files && HackSpec(e, w).w.files[Name(NoTurbo)].data == "1"
  {
    var nt := WriteStr(e, w, Name(NoTurbo), "1");
    forall j: nat | j < e.ncpus
      ensures Name(NoTurbo) != Name(Cpu(ScalingMax, j))
    {
      if Name(NoTurbo) == Name(Cpu(ScalingMax, j)) {
        NameInjective(NoTurbo, Cpu(ScalingMax, j));
      }
    }
    HackRangeFiles(e, Hacking(nt.w, 0, ""), 0, e.ncpus, Name(NoTurbo));
  }

  /** Each CPU's scaling_max_freq ends up holding the token its
      cpuinfo_min_freq held, when that can be read and written. */
  lemma HackCap(e: Env, w: World, i: nat)
    requires i < e.ncpus && Readable(e, w, Name(Cpu(CpuinfoMin, i)))
    requires Writable(e, Name(Cpu(ScalingMax, i)), FirstToken(w, Name(Cpu(CpuinfoMin, i))))
    ensures var f := Name(Cpu(ScalingMax, i));
      f in HackSpec(e, w).w.files && HackSpec(e, w).w.files[f].data == FirstToken(w, Name(Cpu(CpuinfoMin, i)))
  {
    var nt := WriteStr(e, w, Name(NoTurbo), "1");
    var h0 := Hacking(nt.w, if nt.ret < 0 then -1 else 0, "");
    var h := HackCpus(e, h0, i);
    var f := Name(Cpu(ScalingMax, i));
    HackBefore(e, w, i, Cpu(CpuinfoMin, i));
    HackCpuCap(e, w, h, i);
    forall j: nat | i + 1 <= j < e.ncpus
      ensures f != Name(Cpu(ScalingMax, j))
    {
      if f == Name(Cpu(ScalingMax, j)) {
        NameInjective(Cpu(ScalingMax, i), Cpu(ScalingMax, j));
      }
    }
    HackRangeFiles(e, h0, i + 1, e.ncpus, f);
  }

  /** The iteration of CPU `i` writes what it read from cpuinfo_min_freq to scaling_max_freq. */
  lemma HackCpuCap(e: Env, w: World, h: Hacking, i: nat)
    requires SameFile(w, h.w, Name(Cpu(CpuinfoMin, i))) && Readable(e, w, Name(Cpu(CpuinfoMin, i)))
    requires Writable(e, Name(Cpu(ScalingMax, i)), FirstToken(w, Name(Cpu(CpuinfoMin, i))))
    ensures var f := Name(Cpu(ScalingMax, i));
      f in HackCpu(e, h, i).w.files && HackCpu(e, h, i).w.files[f].data == FirstToken(w, Name(Cpu(CpuinfoMin, i)))
  {
    var f := Name(Cpu(ScalingMax, i));
    SameFileReads(e, w, h.w, Name(Cpu(CpuinfoMin, i)), h.data);
    var v := FirstToken(w, Name(Cpu(CpuinfoMin, i)));
    var cap := WriteStr(e, h.w, f, v);
  }

  /** Each CPU whose cpuinfo_max_freq can be read gets, in IA32_PERF_CTL, the
      ratio of that frequency, when its msr_safe device takes the write. */
  lemma HackMsr(e: Env, w: World, i: nat)
    requires i < e.ncpus && Readable(e, w, Name(Cpu(CpuinfoMax, i)))
    requires CanOpenWrite(e, w, Name(MsrNode(i))) && (i, IA32_PERF_CTL) in w.regs && (i, IA32_PERF_CTL) !in e.faults.msrNoWrite
    ensures var r := (i, IA32_PERF_CTL);
      r in HackSpec(e, w).w.regs && HackSpec(e, w).w.regs[r] == PerfCtl(StrToL(FirstToken(w, Name(Cpu(CpuinfoMax, i)))))
  {
    var nt := WriteStr(e, w, Name(NoTurbo), "1");
    var h0 := Hacking(nt.w, if nt.ret < 0 then -1 else 0, "");
    var h := HackCpus(e, h0, i);
    HackBefore(e, w, i, Cpu(CpuinfoMax, i));
    HackBefore(e, w, i, MsrNode(i));
    var min := ReadStr(e, h.w, Name(Cpu(CpuinfoMin, i)), h.data);
    var cap := WriteStr(e, h.w, Name(Cpu(ScalingMax, i)), min.buf);
    HackMsrStep(e, w, h, i, cap.w);
    HackRangeRegs(e, h0, i + 1, e.ncpus, (i, IA32_PERF_CTL));
  }

  lemma HackMsrStep(e: Env, w: World, h: Hacking, i: nat, c: World)
    requires SameFile(w, h.w, Name(Cpu(CpuinfoMax, i))) && SameFile(w, h.w, Name(MsrNode(i))) && SameReg(w, h.w, (i, IA32_PERF_CTL))
    requires c == WriteStr(e, h.w, Name(Cpu(ScalingMax, i)), ReadStr(e, h.w, Name(Cpu(CpuinfoMin, i)), h.data).buf).w
    requires Readable(e, w, Name(Cpu(CpuinfoMax, i)))
    requires CanOpenWrite(e, w, Name(MsrNode(i))) && (i, IA32_PERF_CTL) in w.regs && (i, IA32_PERF_CTL) !in e.faults.msrNoWrite
    ensures var r := (i, IA32_PERF_CTL);
      r in HackCpu(e, h, i).w.regs && HackCpu(e, h, i).w.regs[r] == PerfCtl(StrToL(FirstToken(w, Name(Cpu(CpuinfoMax, i)))))
  {
    var buf := ReadStr(e, h.w, Name(Cpu(CpuinfoMin, i)), h.data).buf;
    var f := Name(Cpu(CpuinfoMax, i));
    if f == Name(Cpu(ScalingMax, i)) {
      NameInjective(Cpu(CpuinfoMax, i), Cpu(ScalingMax, i));
    }
    if Name(MsrNode(i)) == Name(Cpu(ScalingMax, i)) {
      NameInjective(MsrNode(i), Cpu(ScalingMax, i));
    }
    WriteStrOthers(e, h.w, Name(Cpu(ScalingMax, i)), buf, f);
    WriteStrOthers(e, h.w, Name(Cpu(ScalingMax, i)), buf, Name(MsrNode(i)));
    SameFileReads(e, w, c, f, buf);
  }

  /** A CPU whose cpuinfo_max_freq cannot be read keeps its IA32_PERF_CTL. */
  lemma HackNoMsr(e: Env, w: World, i: nat)
    requires !Readable(e, w, Name(Cpu(CpuinfoMax, i)))
    ensures SameReg(w, HackSpec(e, w).w, (i, IA32_PERF_CTL))
  {
    var nt := WriteStr(e, w, Name(NoTurbo), "1");
    var h0 := Hacking(nt.w, if nt.ret < 0 then -1 else 0, "");
    if i < e.ncpus {
      HackNoMsrAt(e, w, h0, i);
    } else {
      HackRangeRegs(e, h0, 0, e.ncpus, (i, IA32_PERF_CTL));
    }
  }

  lemma HackNoMsrAt(e: Env, w: World, h0: Hacking, i: nat)
    requires i < e.ncpus && !Readable(e, w, Name(Cpu(CpuinfoMax, i)))
    requires var nt := WriteStr(e, w, Name(NoTurbo), "1"); h0 == Hacking(nt.w, if nt.ret < 0 then -1 else 0, "")
    ensures SameReg(w, HackCpus(e, h0, e.ncpus).w, (i, IA32_PERF_CTL))
  {
    HackBefore(e, w, i, Cpu(CpuinfoMax, i));
    HackCpuNoMsr(e, w, HackCpus(e, h0, i), i);
    HackRangeRegs(e, h0, i + 1, e.ncpus, (i, IA32_PERF_CTL));
  }

  /** An iteration whose cpuinfo_max_freq read fails writes no register. */
  lemma HackCpuNoMsr(e: Env, w: World, h: Hacking, i: nat)
    requires SameFile(w, h.w, Name(Cpu(CpuinfoMax, i))) && !Readable(e, w, Name(Cpu(CpuinfoMax, i)))
    ensures HackCpu(e, h, i).w.regs == h.w.regs
  {
    var buf := ReadStr(e, h.w, Name(Cpu(CpuinfoMin, i)), h.data).buf;
    var f := Name(Cpu(CpuinfoMax, i));
    if f == Name(Cpu(ScalingMax, i)) {
      NameInjective(Cpu(CpuinfoMax, i), Cpu(ScalingMax, i));
    }
    var cap := WriteStr(e, h.w, Name(Cpu(ScalingMax, i)), buf);
    WriteStrOthers(e, h.w, Name(Cpu(ScalingMax, i)), buf, f);
    SameFileReads(e, w, cap.w, f, buf);
  }

  /** The hack writes no register but the CPUs' IA32_PERF_CTL ... */
  lemma HackOtherRegs(e: Env, w: World, r: (nat, u64))
    requires !(r.0 < e.ncpus && r.1 == IA32_PERF_CTL)
    ensures SameReg(w, HackSpec(e, w).w, r)
  {
    var nt := WriteStr(e, w, Name(NoTurbo), "1");
    HackRangeRegs(e, Hacking(nt.w, if nt.ret < 0 then -1 else 0, ""), 0, e.ncpus, r);
  }

  /** ... and no file but no_turbo and the CPUs' scaling_max_freq. */
  lemma HackOtherFiles(e: Env, w: World, f: string)
    requires f != Name(NoTurbo) && forall j: nat :: f != Name(Cpu(ScalingMax, j))
    ensures SameFile(w, HackSpec(e, w).w, f)
  {
    var nt := WriteStr(e, w, Name(NoTurbo), "1");
    WriteStrOthers(e, w, Name(NoTurbo), "1", f);
    HackRangeFiles(e, Hacking(nt.w, if nt.ret < 0 then -1 else 0, ""), 0, e.ncpus, f);
  }

  // ---------------------------------------------------------------------
  // set_ipstate

  /** `set_ipstate(conf)`: the permissions (-1), then on SET the dump (-2)
      and the hack (-3), on RESET the replay (-4). Later failures overwrite
      earlier codes; any other `conf` only toggles the permissions. */
  function SetIpstateSpec(e: Env, w: World, conf: int): (o: Outcome)
    requires conf == SET ==> IPSTATE_DUMP !in e.faults.noWrite
    ensures -4 <= o.ret <= 0
    ensures conf != SET && conf != RESET ==> -1 <= o.ret <= 0
    ensures conf != SET ==> o.w.regs == w.regs
  {
    var p := Toggles(e, Outcome(w, 0), PermissionJobs(e.ncpus), conf);
    var r1 := if p.ret < 0 then -1 else 0;
    if conf == SET then
      var d := DumpSpec(e, p.w);
      var r2 := if d.ret < 0 then -2 else r1;
      var h := HackSpec(e, d.w);
      Outcome(h.w, if h.ret < 0 then -3 else r2)
    else if conf == RESET then
      var r := RestoreSpec(e, p.w, IPSTATE_DUMP);
      Outcome(r.w, if r.ret < 0 then -4 else r1)
    else Outcome(p.w, r1)
  }

  method SetIpstate(m: Machine, conf: int) returns (ret: int)
    requires conf == SET ==> IPSTATE_DUMP !in m.env.faults.noWrite
    modifies m
    ensures Outcome(m.State(), ret) == SetIpstateSpec(m.env, old(m.State()), conf)
  {
    ret := 0;
    var r := SetPermissionsIpstate(m, conf);
    if r < 0 {
      ret := -1;
    }
    if conf == SET {
      r := DumpIpstate(m);
      if r < 0 {
        ret := -2;
      }
      r := HackIpstate(m);
      if r < 0 {
        ret := -3;
      }
    } else if conf == RESET {
      r := RestoreIpstate(m);
      if r < 0 {
        ret := -4;
      }
    }
  }

  /** RESET leaves every register as it was: the hack's IA32_PERF_CTL values stay. */
  lemma ResetKeepsRegisters(e: Env, w: World)
    ensures SetIpstateSpec(e, w, RESET).w.regs == w.regs
  {
  }

  /** SET saves the node before the hack: the snapshot after SET is the one the
      dump wrote, from the node as the permission toggles left it. */
  lemma SetKeepsSnapshot(e: Env, w: World)
    requires IPSTATE_DUMP !in e.faults.noWrite
    ensures var p := Toggles(e, Outcome(w, 0), PermissionJobs(e.ncpus), SET);
      var up := SetIpstateSpec(e, w, SET);
      IPSTATE_DUMP in up.w.files && up.w.files[IPSTATE_DUMP] == DumpSpec(e, p.w).w.files[IPSTATE_DUMP]
  {
    var p := Toggles(e, Outcome(w, 0), PermissionJobs(e.ncpus), SET);
    NotDumpFile(NoTurbo, IpstateDump);
    forall j: nat
      ensures IPSTATE_DUMP != Name(Cpu(ScalingMax, j))
    {
      NotDumpFile(Cpu(ScalingMax, j), IpstateDump);
    }
    HackOtherFiles(e, DumpSpec(e, p.w).w, IPSTATE_DUMP);
  }

  /** The toggles keep what the dump would save. */
  lemma TogglesKeepDump(e: Env, w: World, js: seq<Job>, conf: int)
    requires AllSaved(e, w, e.ncpus) && GlobalsReadable(e, w)
    ensures var w' := Toggles(e, Outcome(w, 0), js, conf).w;
      AllSaved(e, w', e.ncpus) && GlobalsReadable(e, w') && DumpPairs(e, w') == DumpPairs(e, w)
  {
    var w' := Toggles(e, Outcome(w, 0), js, conf).w;
    forall f: string, buf: string
      ensures ReadStr(e, w', f, buf) == ReadStr(e, w, f, buf)
    {
      TogglesKeepReads(e, w, js, conf, f, buf);
    }
    forall i | 0 <= i < e.ncpus
      ensures SavedReadable(e, w', i) && SavedBufs(e, w', i) == SavedBufs(e, w, i) && ReadAlike(e, w, w', i)
    {
      TogglesKeepSaved(e, w, w', i);
    }
    assert GlobalsReadable(e, w') && SavedGlobals(e, w') == SavedGlobals(e, w) by {
      assert ReadStr(e, w', Name(NoTurbo), "") == ReadStr(e, w, Name(NoTurbo), "");
      assert ReadStr(e, w', Name(MaxPerfPct), "") == ReadStr(e, w, Name(MaxPerfPct), "");
      assert ReadStr(e, w', Name(MinPerfPct), "") == ReadStr(e, w, Name(MinPerfPct), "");
    }
    SavedOfSame(e, w, w', e.ncpus);
  }

  lemma TogglesKeepSaved(e: Env, w: World, w': World, i: nat)
    requires forall f: string, buf: string :: ReadStr(e, w', f, buf) == ReadStr(e, w, f, buf)
    ensures SavedReadable(e, w', i) == SavedReadable(e, w, i)
    ensures SavedReadable(e, w, i) ==> SavedBufs(e, w', i) == SavedBufs(e, w, i)
  {
    var g, mx, mn := Name(Cpu(Governor, i)), Name(Cpu(ScalingMax, i)), Name(Cpu(ScalingMin, i));
    assert ReadStr(e, w', g, "") == ReadStr(e, w, g, "");
    assert ReadStr(e, w', mx, "") == ReadStr(e, w, mx, "");
    assert ReadStr(e, w', mn, "") == ReadStr(e, w, mn, "");
  }

  /** CPU `i`'s saved files read alike in `w` and `w'`. */
  predicate ReadAlike(e: Env, w: World, w': World, i: nat)
  {
    SavedReadable(e, w, i) && SavedReadable(e, w', i) && SavedBufs(e, w', i) == SavedBufs(e, w, i)
  }

  lemma {:induction false} SavedOfSame(e: Env, w: World, w': World, n: nat)
    requires forall i | 0 <= i < n :: ReadAlike(e, w, w', i)
    ensures Saved(e, w', n) == Saved(e, w, n)
  {
    if n > 0 {
      SavedOfSame(e, w, w', n - 1);
      SavedPairsSame(e, w, w', n - 1);
    }
  }

  /** CPU `i` contributes the same pairs to the snapshots of two worlds that read alike. */
  lemma SavedPairsSame(e: Env, w: World, w': World, i: nat)
    requires ReadAlike(e, w, w', i)
    ensures SavedOf(e, w')(i) == SavedOf(e, w)(i)
  {
  }

  /** SET followed by RESET: every file SET saved reads, after RESET, the token
      it held before SET, when no write fails and every saved file could be
      read. (The registers the hack wrote are not restored.) */
  lemma SetResetRoundTrip(e: Env, w: World, p: Path, buf: string)
    requires WritesOk(e) && IPSTATE_DUMP !in e.faults.noRead
    requires AllSaved(e, w, e.ncpus) && GlobalsReadable(e, w) && SavedFile(p, e.ncpus)
    ensures var up := SetIpstateSpec(e, w, SET);
      Readable(e, w, Name(p)) && ReadStr(e, SetIpstateSpec(e, up.w, RESET).w, Name(p), buf) == Scan(FirstToken(w, Name(p)), 1)
  {
    var js := PermissionJobs(e.ncpus);
    var t := Toggles(e, Outcome(w, 0), js, SET);
    TogglesKeepDump(e, w, js, SET);
    DumpPairsLast(e, w, p);
    DumpPairsLast(e, t.w, p);
    var up := SetIpstateSpec(e, w, SET);
    SetKeepsSnapshot(e, w);
    var q := Toggles(e, Outcome(up.w, 0), js, RESET);
    TogglesKeep(e, Outcome(up.w, 0), js, RESET, IPSTATE_DUMP);
    DumpIpstateContent(e, t.w);
    RestoreSaved(e, t.w, q.w, p, buf);
  }
}
