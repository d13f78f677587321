/**
 * src/cpufreq.c: the adapter for the generic cpufreq drivers (acpi-cpufreq,
 * intel_cpufreq). SET opens the per-CPU control files to others, saves
 * them in `/tmp/pm_cpufreq_dump` and switches every CPU to the
 * "performance" governor; RESET replays the snapshot.
 */
module Cpufreq {
  import opened Text
  import opened Paths
  import opened Node
  import opened Common
  import opened Snapshot

  const CPUFREQ_DUMP: string := DumpFile(CpufreqDump)

  const USERSPACE: string := "userspace"

  // ---------------------------------------------------------------------
  // set_permissions_cpufreq

  /** The per-CPU files and their failure codes, in the order the loop toggles them. */
  const PERMISSION_KINDS: seq<(CpuKind, int)> :=
    [(Governor, -1), (ScalingMax, -2), (ScalingMin, -3), (Setspeed, -4)]

  function PermissionJobs(n: nat): seq<Job>
  {
    CpuJobs(PERMISSION_KINDS, OtherReadNoWrite, n)
  }

  method SetPermissionsCpufreq(m: Machine, conf: int) returns (ret: int)
    modifies m
    ensures Outcome(m.State(), ret) == Toggles(m.env, Outcome(old(m.State()), 0), PermissionJobs(m.env.ncpus), conf)
  {
    ghost var o0 := Outcome(m.State(), 0);
    ret := 0;
    var i := 0;
    while i < m.env.ncpus
      invariant i <= m.env.ncpus
      invariant Outcome(m.State(), ret) == Toggles(m.env, o0, PermissionJobs(i), conf)
    {
      var b := CpuBlock(PERMISSION_KINDS, OtherReadNoWrite, i);
      ghost var o := Outcome(m.State(), ret);
      ret := RunJob(m, b[0], conf, ret);
      ghost var o1 := Outcome(m.State(), ret);
      ret := RunJob(m, b[1], conf, ret);
      ghost var o2 := Outcome(m.State(), ret);
      ret := RunJob(m, b[2], conf, ret);
      ghost var o3 := Outcome(m.State(), ret);
      ret := RunJob(m, b[3], conf, ret);
      assert o1 == Apply(m.env, o, b[0], conf);
      assert Outcome(m.State(), ret) == Apply(m.env, Apply(m.env, Apply(m.env, o1, b[1], conf), b[2], conf), b[3], conf);
      TogglesBlock4(m.env, o0, PermissionJobs(i), b, conf);
      i := i + 1;
    }
  }

  /** Every CPU's governor, scaling_max_freq, scaling_min_freq and
      scaling_setspeed gets the read-no-write toggle when it can be toggled. */
  lemma PermissionsCpufreqModes(e: Env, w: World, conf: int, i: nat, k: nat)
    requires i < e.ncpus && k < |PERMISSION_KINDS|
    requires Toggleable(e, w, Name(Cpu(PERMISSION_KINDS[k].0, i)))
    ensures var f := Name(Cpu(PERMISSION_KINDS[k].0, i));
      Toggles(e, Outcome(w, 0), PermissionJobs(e.ncpus), conf).w.files[f].mode
        == NewMode(OtherReadNoWrite, w.files[f].mode, conf)
  {
    var js := PermissionJobs(e.ncpus);
    CpuJobsCover(PERMISSION_KINDS, OtherReadNoWrite, e.ncpus, i, k);
    var l :| 0 <= l < |js| && js[l] == Job(Name(Cpu(PERMISSION_KINDS[k].0, i)), OtherReadNoWrite, PERMISSION_KINDS[k].1);
    OneToggle(js, OtherReadNoWrite);
    TogglesNamed(e, Outcome(w, 0), js, conf, l);
  }

  /** The loop stops at nothing: it returns 0 exactly when every file could be toggled. */
  lemma PermissionsCpufreqRet(e: Env, w: World, conf: int)
    ensures Toggles(e, Outcome(w, 0), PermissionJobs(e.ncpus), conf).ret == 0 <==>
      forall i, k | 0 <= i < e.ncpus && 0 <= k < |PERMISSION_KINDS| ::
        Toggleable(e, w, Name(Cpu(PERMISSION_KINDS[k].0, i)))
  {
    var js := PermissionJobs(e.ncpus);
    CpuJobsCodes(PERMISSION_KINDS, OtherReadNoWrite, e.ncpus);
    TogglesSucceed(e, w, js, conf);
    CpuJobsToggleable(e, w, PERMISSION_KINDS, OtherReadNoWrite, e.ncpus);
  }

  // ---------------------------------------------------------------------
  // dump_cpufreq

  /** The four value buffers of the dump loop. They live across iterations,
      so a failed read leaves the previous CPU's value in place (and "" before
      any read). */
  datatype Buffers = Buffers(governor: string, maxFreq: string, minFreq: string, setspeed: string)

  /** The state of the dump loop. The loop changes no file other than the
      dump, and the dump is none of the files it reads, so
      every read sees the node as it was before the dump was opened. */
  type CpuDumping = Dumping<Buffers>

  /** The `path value` lines printed for CPU `i` from the buffers: governor,
      maximum and minimum frequency, and the setspeed under a `userspace` governor. */
  function CpuPairs(i: nat, b: Buffers): seq<(string, string)>
  {
    var lines := [(Name(Cpu(Governor, i)), b.governor), (Name(Cpu(ScalingMax, i)), b.maxFreq), (Name(Cpu(ScalingMin, i)), b.minFreq)];
    if StartsWith(b.governor, USERSPACE) then lines + [(Name(Cpu(Setspeed, i)), b.setspeed)] else lines
  }

  /** The three reads at the top of an iteration of the CPU loop of
      `dump_cpufreq`, each recording its failure code. */
  function ReadFreqs(e: Env, w: World, s: CpuDumping, i: nat): (r: CpuDumping)
    ensures r.out == s.out && r.bufs.setspeed == s.bufs.setspeed
  {
    var gov := ReadStr(e, w, Name(Cpu(Governor, i)), s.bufs.governor);
    var max := ReadStr(e, w, Name(Cpu(ScalingMax, i)), s.bufs.maxFreq);
    var min := ReadStr(e, w, Name(Cpu(ScalingMin, i)), s.bufs.minFreq);
    var r1 := if gov.ret < 0 then -2 else s.ret;
    var r2 := if max.ret < 0 then -3 else r1;
    var r3 := if min.ret < 0 then -4 else r2;
    Dumping(s.out, r3, Buffers(gov.buf, max.buf, min.buf, s.bufs.setspeed))
  }

  /** The rest of the iteration: under a `userspace` governor the setspeed is
      read too and four lines are printed, otherwise three. */
  function PrintFreqs(e: Env, w: World, s: CpuDumping, i: nat): CpuDumping
  {
    var b := s.bufs;
    if StartsWith(b.governor, USERSPACE) then
      var speed := ReadStr(e, w, Name(Cpu(Setspeed, i)), b.setspeed);
      var r4 := if speed.ret < 0 then -4 else s.ret;
      var b' := b.(setspeed := speed.buf);
      var p := Emit(e, CPUFREQ_DUMP, s.out, Records(PairRecords(CpuPairs(i, b'))));
      Dumping(p.out, if p.ret < 0 then -5 else r4, b')
    else
      var p := Emit(e, CPUFREQ_DUMP, s.out, Records(PairRecords(CpuPairs(i, b))));
      Dumping(p.out, if p.ret < 0 then -6 else s.ret, b)
  }

  /** One iteration of the CPU loop of `dump_cpufreq`. */
  function DumpCpu(e: Env, w: World, s: CpuDumping, i: nat): CpuDumping
  {
    PrintFreqs(e, w, ReadFreqs(e, w, s, i), i)
  }

  /** The CPU loop's body as a step of `Iterate`. */
  function DumpStep(e: Env, w: World): (CpuDumping, nat) -> CpuDumping
  {
    (t: CpuDumping, i: nat) => DumpCpu(e, w, t, i)
  }

  /** `dump_cpufreq`. Its check of `fopen` compares the returned `FILE *` with 0
      (`fd_dump < 0`), which never holds, so a failing `fopen` is not caught and
      the `fprintf` calls that follow get a NULL stream; the model requires that
      `fopen` succeed. A failing header is recorded as -2 and the dump goes on. */
  function DumpSpec(e: Env, w: World): (o: Outcome)
    requires CPUFREQ_DUMP !in e.faults.noWrite
    ensures CPUFREQ_DUMP in o.w.files
    ensures o.w.files.Keys == w.files.Keys + {CPUFREQ_DUMP} && o.w.regs == w.regs
  {
    var op := OpenWrite(e, w, CPUFREQ_DUMP);
    var h := Emit(e, CPUFREQ_DUMP, [], SNAPSHOT_HEADER);
    var s := Iterate(DumpStep(e, w), Dumping(h.out, if h.ret < 0 then -2 else 0, Buffers("", "", "", "")), e.ncpus);
    Outcome(Written(op.w, CPUFREQ_DUMP, s.out), s.ret)
  }

  method DumpCpufreq(m: Machine) returns (ret: int)
    requires CPUFREQ_DUMP !in m.env.faults.noWrite
    modifies m
    ensures Outcome(m.State(), ret) == DumpSpec(m.env, old(m.State()))
  {
    ghost var w0 := m.State();
    var fd := FopenWrite(m, CPUFREQ_DUMP);
    ghost var w1 := m.State();
    ret := 0;
    var printed := Fprintf(m, CPUFREQ_DUMP, SNAPSHOT_HEADER);
    PrintEmits(m.env, w1, CPUFREQ_DUMP, SNAPSHOT_HEADER);
    if printed < 0 {
      ret := -2;
    }
    ghost var s0 := Dumping(m.files[CPUFREQ_DUMP].data, ret, Buffers("", "", "", ""));
    var bufs := Buffers("", "", "", "");
    var i := 0;
    while i < m.env.ncpus
      invariant i <= m.env.ncpus
      invariant Dumped(m, w0, CPUFREQ_DUMP)
      invariant Dumping(m.files[CPUFREQ_DUMP].data, ret, bufs) == Iterate(DumpStep(m.env, w0), s0, i)
    {
      bufs, ret := DumpOneCpu(m, w0, i, bufs, ret);
      i := i + 1;
    }
  }

  /** The body of the CPU loop of `dump_cpufreq`, on the node `w0` the dump started from. */
  method DumpOneCpu(m: Machine, ghost w0: World, i: nat, bufs: Buffers, ret: int) returns (bufs': Buffers, ret': int)
    requires Dumped(m, w0, CPUFREQ_DUMP)
    modifies m
    ensures Dumped(m, w0, CPUFREQ_DUMP)
    ensures Dumping(m.files[CPUFREQ_DUMP].data, ret', bufs') == DumpCpu(m.env, w0, Dumping(old(m.files[CPUFREQ_DUMP].data), ret, bufs), i)
  {
    bufs', ret' := ReadFreqFiles(m, w0, i, bufs, ret);
    bufs', ret' := PrintFreqFiles(m, w0, i, bufs', ret');
  }

  /** The three reads at the top of the iteration. */
  method ReadFreqFiles(m: Machine, ghost w0: World, i: nat, bufs: Buffers, ret: int) returns (bufs': Buffers, ret': int)
    requires Dumped(m, w0, CPUFREQ_DUMP)
    ensures var out := m.files[CPUFREQ_DUMP].data;
      Dumping(out, ret', bufs') == ReadFreqs(m.env, w0, Dumping(out, ret, bufs), i)
  {
    ghost var out := m.files[CPUFREQ_DUMP].data;
    var governor, maxFreq, minFreq, status;
    ret' := ret;
    ReadsUnchanged(m.env, w0, CpufreqDump, out, Cpu(Governor, i), bufs.governor);
    governor, status := ReadStrFromFile(m, Name(Cpu(Governor, i)), bufs.governor);
    if status < 0 {
      ret' := -2;
    }
    ReadsUnchanged(m.env, w0, CpufreqDump, out, Cpu(ScalingMax, i), bufs.maxFreq);
    maxFreq, status := ReadStrFromFile(m, Name(Cpu(ScalingMax, i)), bufs.maxFreq);
    if status < 0 {
      ret' := -3;
    }
    ReadsUnchanged(m.env, w0, CpufreqDump, out, Cpu(ScalingMin, i), bufs.minFreq);
    minFreq, status := ReadStrFromFile(m, Name(Cpu(ScalingMin, i)), bufs.minFreq);
    if status < 0 {
      ret' := -4;
    }
    bufs' := Buffers(governor, maxFreq, minFreq, bufs.setspeed);
  }

  /** The rest of the iteration: the setspeed read under `userspace`, and the print. */
  method PrintFreqFiles(m: Machine, ghost w0: World, i: nat, bufs: Buffers, ret: int) returns (bufs': Buffers, ret': int)
    requires Dumped(m, w0, CPUFREQ_DUMP)
    modifies m
    ensures Dumped(m, w0, CPUFREQ_DUMP)
    ensures Dumping(m.files[CPUFREQ_DUMP].data, ret', bufs') == PrintFreqs(m.env, w0, Dumping(old(m.files[CPUFREQ_DUMP].data), ret, bufs), i)
  {
    ghost var out := m.files[CPUFREQ_DUMP].data;
    ghost var w := m.State();
    var status;
    ret' := ret;
    bufs' := bufs;
    if StartsWith(bufs.governor, USERSPACE) {
      var setspeed;
      ReadsUnchanged(m.env, w0, CpufreqDump, out, Cpu(Setspeed, i), bufs.setspeed);
      setspeed, status := ReadStrFromFile(m, Name(Cpu(Setspeed, i)), bufs.setspeed);
      if status < 0 {
        ret' := -4;
      }
      bufs' := bufs.(setspeed := setspeed);
      var text := Records(PairRecords(CpuPairs(i, bufs')));
      status := Fprintf(m, CPUFREQ_DUMP, text);
      PrintEmits(m.env, w, CPUFREQ_DUMP, text);
      if status < 0 {
        ret' := -5;
      }
    } else {
      var text := Records(PairRecords(CpuPairs(i, bufs)));
      status := Fprintf(m, CPUFREQ_DUMP, text);
      PrintEmits(m.env, w, CPUFREQ_DUMP, text);
      if status < 0 {
        ret' := -6;
      }
    }
  }

  // ---------------------------------------------------------------------
  // What the dump saves.

  /** Every read of CPU `i`'s iteration finds a token: governor, maximum and
      minimum frequency, and the setspeed under a `userspace` governor. */
  predicate SavedReadable(e: Env, w: World, i: nat)
  {
    Readable(e, w, Name(Cpu(Governor, i))) && Readable(e, w, Name(Cpu(ScalingMax, i)))
    && Readable(e, w, Name(Cpu(ScalingMin, i)))
    && (StartsWith(FirstToken(w, Name(Cpu(Governor, i))), USERSPACE) ==> Readable(e, w, Name(Cpu(Setspeed, i))))
  }

  /** Every CPU below `n` is `SavedReadable`. */
  predicate AllSaved(e: Env, w: World, n: nat)
  {
    forall i | 0 <= i < n :: SavedReadable(e, w, i)
  }

  /** The buffers after CPU `i`'s iteration when every read succeeds. */
  function SavedBufs(e: Env, w: World, i: nat): (b: Buffers)
    requires SavedReadable(e, w, i)
  {
    var gov := FirstToken(w, Name(Cpu(Governor, i)));
    Buffers(gov, FirstToken(w, Name(Cpu(ScalingMax, i))), FirstToken(w, Name(Cpu(ScalingMin, i))),
      if StartsWith(gov, USERSPACE) then FirstToken(w, Name(Cpu(Setspeed, i))) else "")
  }

  /** The pairs CPU `i` contributes to the snapshot of `w`: each saved file
      with the token it holds (none when a read would fail). */
  function SavedPairs(e: Env, w: World, i: nat): (ps: seq<(string, string)>)
  {
    if SavedReadable(e, w, i) then CpuPairs(i, SavedBufs(e, w, i)) else []
  }

  function SavedOf(e: Env, w: World): nat -> seq<(string, string)>
  {
    (i: nat) => SavedPairs(e, w, i)
  }

  /** The pairs of CPUs 0 .. n-1, in order. */
  function Saved(e: Env, w: World, n: nat): seq<(string, string)>
  {
    Joined(SavedOf(e, w), n)
  }

  /** One iteration with every read and the print succeeding: the dump grows by
      CPU `i`'s pairs and the status is kept. */
  lemma DumpCpuContent(e: Env, w: World, s: CpuDumping, i: nat)
    requires SavedReadable(e, w, i) && BodyStreamOk(e, CPUFREQ_DUMP)
    ensures DumpCpu(e, w, s, i).ret == s.ret
    ensures DumpCpu(e, w, s, i).out == s.out + Records(PairRecords(SavedPairs(e, w, i)))
  {
    forall b: Buffers ensures Records(PairRecords(CpuPairs(i, b))) != SNAPSHOT_HEADER {
      CpuTextNotHeader(i, b);
    }
  }

  /** A CPU's lines start with a path, so they are never the header. */
  lemma CpuTextNotHeader(i: nat, b: Buffers)
    ensures Records(PairRecords(CpuPairs(i, b))) != SNAPSHOT_HEADER
  {
    var ls := PairRecords(CpuPairs(i, b));
    var f := Name(Cpu(Governor, i));
    CpuNameSplit(Governor, i);
    assert f[0] == '/';
    assert ls[0] == [f, b.governor];
    assert Record(ls[0]) == f + " " + Record([b.governor]);
    assert Records(ls) == Record(ls[0]) + Records(ls[1..]);
    assert Records(ls)[0] == '/' != SNAPSHOT_HEADER[0];
  }

  lemma DumpCpusContent(e: Env, w: World, s: CpuDumping, n: nat)
    requires AllSaved(e, w, n) && BodyStreamOk(e, CPUFREQ_DUMP)
    ensures Iterate(DumpStep(e, w), s, n).ret == s.ret
    ensures Iterate(DumpStep(e, w), s, n).out == s.out + Records(PairRecords(Saved(e, w, n)))
  {
    var h := Texts(SavedOf(e, w));
    forall t: CpuDumping, i: nat | i < n
      ensures DumpStep(e, w)(t, i).ret == t.ret && DumpStep(e, w)(t, i).out == t.out + h(i)
    {
      DumpCpuContent(e, w, t, i);
    }
    IterateCat(DumpStep(e, w), h, s, n);
    JoinedText(SavedOf(e, w), n);
  }

  /** `dump_cpufreq` changes the dump file and nothing else, whatever fails. */
  lemma DumpCpufreqFrame(e: Env, w: World)
    requires CPUFREQ_DUMP !in e.faults.noWrite
    ensures OnlyChanged(w, DumpSpec(e, w).w, CPUFREQ_DUMP)
  {
    var w1 := OpenWrite(e, w, CPUFREQ_DUMP).w;
    assert w1.files == w.files[CPUFREQ_DUMP := Truncated(e, w, CPUFREQ_DUMP)];
  }

  /** With every read and every print succeeding, `dump_cpufreq` returns 0 and
      leaves the snapshot file holding the header followed by one `path value`
      line per saved file. */
  lemma DumpCpufreqContent(e: Env, w: World)
    requires CPUFREQ_DUMP !in e.faults.noWrite && StreamOk(e, CPUFREQ_DUMP) && AllSaved(e, w, e.ncpus)
    ensures DumpSpec(e, w).ret == 0
    ensures CPUFREQ_DUMP in DumpSpec(e, w).w.files
    ensures DumpSpec(e, w).w.files[CPUFREQ_DUMP].data == SNAPSHOT_HEADER + Records(PairRecords(Saved(e, w, e.ncpus)))
  {
    assert [] + SNAPSHOT_HEADER == SNAPSHOT_HEADER;
    var s0 := Dumping(SNAPSHOT_HEADER, 0, Buffers("", "", "", ""));
    DumpCpusContent(e, w, s0, e.ncpus);
    var s := Iterate(DumpStep(e, w), s0, e.ncpus);
    var w1 := OpenWrite(e, w, CPUFREQ_DUMP).w;
    assert DumpSpec(e, w) == Outcome(Written(w1, CPUFREQ_DUMP, s.out), s.ret);
  }

  /** A failing header records -2, yet the CPU loop still runs: the snapshot
      holds every CPU's lines without the header. */
  lemma DumpHeaderFails(e: Env, w: World)
    requires CPUFREQ_DUMP !in e.faults.noWrite && (CPUFREQ_DUMP, SNAPSHOT_HEADER) in e.faults.noStream
    requires BodyStreamOk(e, CPUFREQ_DUMP) && AllSaved(e, w, e.ncpus)
    ensures DumpSpec(e, w).ret == -2
    ensures CPUFREQ_DUMP in DumpSpec(e, w).w.files
    ensures DumpSpec(e, w).w.files[CPUFREQ_DUMP].data == Records(PairRecords(Saved(e, w, e.ncpus)))
  {
    var s0 := Dumping([], -2, Buffers("", "", "", ""));
    DumpCpusContent(e, w, s0, e.ncpus);
    assert [] + Records(PairRecords(Saved(e, w, e.ncpus))) == Records(PairRecords(Saved(e, w, e.ncpus)));
  }

  // ---------------------------------------------------------------------
  // Replaying the snapshot.

  /** The buffer that holds file `k`'s value. */
  function Field(b: Buffers, k: CpuKind): string
  {
    match k
    case Governor => b.governor
    case ScalingMax => b.maxFreq
    case ScalingMin => b.minFreq
    case Setspeed => b.setspeed
    case _ => ""
  }

  /** The files an iteration prints: governor, maximum and minimum frequency,
      and the setspeed under a `userspace` governor. */
  predicate Saves(b: Buffers, k: CpuKind)
  {
    k == Governor || k == ScalingMax || k == ScalingMin || (k == Setspeed && StartsWith(b.governor, USERSPACE))
  }

  /** The lines of CPU `j` name only CPU `j`'s files. */
  lemma CpuPairsOther(j: nat, b: Buffers, k: CpuKind, i: nat)
    requires j != i
    ensures LastValue(CpuPairs(j, b), Name(Cpu(k, i))).None?
  {
    forall k': CpuKind
      ensures Name(Cpu(k', j)) != Name(Cpu(k, i))
    {
      if Name(Cpu(k', j)) == Name(Cpu(k, i)) {
        NameInjective(Cpu(k', j), Cpu(k, i));
      }
    }
  }

  /** Each file CPU `i` prints appears once among its lines, with its buffer. */
  lemma CpuPairsLast(i: nat, b: Buffers, k: CpuKind)
    requires Saves(b, k)
    ensures LastValue(CpuPairs(i, b), Name(Cpu(k, i))) == Some(Field(b, k))
  {
    var ps := CpuPairs(i, b);
    var l := match k case Governor => 0 case ScalingMax => 1 case ScalingMin => 2 case _ => 3;
    forall l' | 0 <= l' < |ps| && l' != l
      ensures ps[l'].0 != Name(Cpu(k, i))
    {
      var k' := match l' case 0 => Governor case 1 => ScalingMax case 2 => ScalingMin case _ => Setspeed;
      assert ps[l'].0 == Name(Cpu(k', i));
      if ps[l'].0 == Name(Cpu(k, i)) {
        NameInjective(Cpu(k', i), Cpu(k, i));
      }
    }
    LastValueUnique(ps, l, Name(Cpu(k, i)));
  }

  lemma CpuPairsTokens(i: nat, b: Buffers)
    requires IsToken(b.governor) && IsToken(b.maxFreq) && IsToken(b.minFreq)
    requires StartsWith(b.governor, USERSPACE) ==> IsToken(b.setspeed)
    ensures TokenPairs(CpuPairs(i, b))
  {
    NameIsToken(Cpu(Governor, i));
    NameIsToken(Cpu(ScalingMax, i));
    NameIsToken(Cpu(ScalingMin, i));
    NameIsToken(Cpu(Setspeed, i));
  }

  lemma SavedPairsTokens(e: Env, w: World, i: nat)
    ensures TokenPairs(SavedPairs(e, w, i))
  {
    if SavedReadable(e, w, i) {
      CpuPairsTokens(i, SavedBufs(e, w, i));
    }
  }

  /** The snapshot is made of tokens, so it reads back as it was written. */
  lemma SavedTokens(e: Env, w: World, n: nat)
    ensures TokenPairs(Saved(e, w, n))
  {
    forall j: nat | j < n
      ensures TokenPairs(SavedOf(e, w)(j))
    {
      SavedPairsTokens(e, w, j);
    }
    JoinedTokens(SavedOf(e, w), n);
  }

  /** In the whole snapshot, each saved file takes the token it held. */
  lemma SavedLast(e: Env, w: World, n: nat, k: CpuKind, i: nat)
    requires AllSaved(e, w, n) && i < n && Saves(SavedBufs(e, w, i), k)
    ensures LastValue(Saved(e, w, n), Name(Cpu(k, i))) == Some(FirstToken(w, Name(Cpu(k, i))))
    ensures CanRead(e, w, Name(Cpu(k, i)))
  {
    assert SavedReadable(e, w, i);
    assert CanRead(e, w, Name(Cpu(k, i))) by {
      if k == Setspeed {
        assert StartsWith(FirstToken(w, Name(Cpu(Governor, i))), USERSPACE);
      }
    }
    forall j: nat | j < n && j != i
      ensures LastValue(SavedOf(e, w)(j), Name(Cpu(k, i))).None?
    {
      if SavedReadable(e, w, j) {
        CpuPairsOther(j, SavedBufs(e, w, j), k, i);
      }
    }
    JoinedLastValue(SavedOf(e, w), n, i, Name(Cpu(k, i)));
    CpuPairsLast(i, SavedBufs(e, w, i), k);
  }

  /** Replaying a snapshot that holds the saved pairs of `w` puts back every
      saved file's token and returns 0. */
  lemma RestoreSaved(e: Env, w: World, w': World, k: CpuKind, i: nat, buf: string)
    requires WritesOk(e) && AllSaved(e, w, e.ncpus) && i < e.ncpus && Saves(SavedBufs(e, w, i), k)
    requires CanRead(e, w', CPUFREQ_DUMP)
    requires w'.files[CPUFREQ_DUMP].data == SNAPSHOT_HEADER + Records(PairRecords(Saved(e, w, e.ncpus)))
    ensures RestoreSpec(e, w', CPUFREQ_DUMP).ret == 0
    ensures ReadStr(e, RestoreSpec(e, w', CPUFREQ_DUMP).w, Name(Cpu(k, i)), buf) == Scan(FirstToken(w, Name(Cpu(k, i))), 1)
  {
    var ps := Saved(e, w, e.ncpus);
    var f := Name(Cpu(k, i));
    SavedTokens(e, w, e.ncpus);
    SavedLast(e, w, e.ncpus, k, i);
    assert forall l | 0 <= l < |ps| :: Writable(e, ps[l].0, ps[l].1);
    RestoreWritesBack(e, w', CPUFREQ_DUMP, ps, f, buf);
  }

  /** The round trip: the snapshot `dump_cpufreq` wrote, replayed by
      `restore_cpufreq` in whatever state the node is in by then (the snapshot
      intact), returns 0 and puts back every saved file's token. */
  lemma CpufreqRoundTrip(e: Env, w: World, w': World, k: CpuKind, i: nat, buf: string)
    requires WritesOk(e) && AllSaved(e, w, e.ncpus) && i < e.ncpus && Saves(SavedBufs(e, w, i), k)
    requires CanRead(e, w', CPUFREQ_DUMP) && w'.files[CPUFREQ_DUMP] == DumpSpec(e, w).w.files[CPUFREQ_DUMP]
    ensures RestoreSpec(e, w', CPUFREQ_DUMP).ret == 0
    ensures ReadStr(e, RestoreSpec(e, w', CPUFREQ_DUMP).w, Name(Cpu(k, i)), buf) == Scan(FirstToken(w, Name(Cpu(k, i))), 1)
  {
    DumpCpufreqContent(e, w);
    RestoreSaved(e, w, w', k, i, buf);
  }

  // ---------------------------------------------------------------------
  // restore_cpufreq

  method RestoreCpufreq(m: Machine) returns (ret: int)
    modifies m
    ensures Outcome(m.State(), ret) == RestoreSpec(m.env, old(m.State()), CPUFREQ_DUMP)
  {
    ret := Restore(m, CPUFREQ_DUMP);
  }

  // ---------------------------------------------------------------------
  // change_governors

  /** One write of the default governor per CPU, in CPU order. */
  function GovernorPairs(n: nat): (ps: seq<(string, string)>)
    ensures |ps| == n
    ensures forall i | 0 <= i < n :: ps[i] == (Name(Cpu(Governor, i)), DEFAULT_GOVERNOR)
  {
    seq(n, i requires 0 <= i < n => (Name(Cpu(Governor, i)), DEFAULT_GOVERNOR))
  }

  /** `change_governors`: a failing write records -2 and the loop goes on. */
  function ChangeGovernorsSpec(e: Env, w: World): (o: Outcome)
    ensures o.ret == 0 || o.ret == -2
    ensures o.w.regs == w.regs
  {
    WritePairsRegs(e, Outcome(w, 0), GovernorPairs(e.ncpus), -2);
    WritePairs(e, Outcome(w, 0), GovernorPairs(e.ncpus), -2)
  }

  method ChangeGovernors(m: Machine) returns (ret: int)
    modifies m
    ensures Outcome(m.State(), ret) == ChangeGovernorsSpec(m.env, old(m.State()))
  {
    ghost var o0 := Outcome(m.State(), 0);
    ret := 0;
    var i := 0;
    while i < m.env.ncpus
      invariant i <= m.env.ncpus
      invariant Outcome(m.State(), ret) == WritePairs(m.env, o0, GovernorPairs(i), -2)
    {
      ghost var o := Outcome(m.State(), ret);
      var file := Name(Cpu(Governor, i));
      ret := WritePairTo(m, (file, DEFAULT_GOVERNOR), -2, ret);
      assert GovernorPairs(i + 1) == GovernorPairs(i) + [(file, DEFAULT_GOVERNOR)];
      WritePairsAppend(m.env, o0, GovernorPairs(i), [(file, DEFAULT_GOVERNOR)], -2);
      assert Outcome(m.State(), ret) == WritePairs(m.env, o, [(file, DEFAULT_GOVERNOR)], -2);
      i := i + 1;
    }
  }

  /** `change_governors` returns 0 when every governor can be written, and -2 otherwise. */
  lemma ChangeGovernorsRet(e: Env, w: World)
    ensures ChangeGovernorsSpec(e, w).ret ==
      if forall i | 0 <= i < e.ncpus :: Writable(e, Name(Cpu(Governor, i)), DEFAULT_GOVERNOR) then 0 else -2
  {
    var ps := GovernorPairs(e.ncpus);
    WritePairsRet(e, Outcome(w, 0), ps, -2);
    if exists k | 0 <= k < |ps| :: !Writable(e, ps[k].0, ps[k].1) {
      var k :| 0 <= k < |ps| && !Writable(e, ps[k].0, ps[k].1);
      assert !Writable(e, Name(Cpu(Governor, k)), DEFAULT_GOVERNOR);
    }
  }

  /** When every governor can be written, each then reads "performance". */
  lemma ChangeGovernorsWrites(e: Env, w: World, i: nat, buf: string)
    requires forall j | 0 <= j < e.ncpus :: Writable(e, Name(Cpu(Governor, j)), DEFAULT_GOVERNOR)
    requires i < e.ncpus && Name(Cpu(Governor, i)) !in e.faults.noRead
    ensures ReadStr(e, ChangeGovernorsSpec(e, w).w, Name(Cpu(Governor, i)), buf) == Scan(DEFAULT_GOVERNOR, 1)
  {
    var ps := GovernorPairs(e.ncpus);
    var f := Name(Cpu(Governor, i));
    forall l | 0 <= l < |ps| && l != i
      ensures ps[l].0 != f
    {
      if ps[l].0 == f {
        NameInjective(Cpu(Governor, l), Cpu(Governor, i));
      }
    }
    LastValueUnique(ps, i, f);
    WritePairsWritten(e, Outcome(w, 0), ps, -2, f);
    assert IsToken(DEFAULT_GOVERNOR);
    ReadsBack(e, ChangeGovernorsSpec(e, w).w, f, DEFAULT_GOVERNOR, buf);
  }

  /** `change_governors` touches the governors and nothing else, whatever fails. */
  lemma ChangeGovernorsOthers(e: Env, w: World, f: string)
    requires forall i: nat :: f != Name(Cpu(Governor, i))
    ensures var r := ChangeGovernorsSpec(e, w).w;
      (f in r.files <==> f in w.files) && (f in w.files ==> r.files[f] == w.files[f])
    ensures ChangeGovernorsSpec(e, w).w.regs == w.regs
  {
    WritePairsUntouched(e, Outcome(w, 0), GovernorPairs(e.ncpus), -2, f);
    WritePairsRegs(e, Outcome(w, 0), GovernorPairs(e.ncpus), -2);
  }

  // ---------------------------------------------------------------------
  // set_cpufreq

  /** `set_cpufreq(conf)`: the permissions (-1), then on SET the dump (-2) and
      the governor change (-3), on RESET the replay (-4). Later failures
      overwrite earlier codes; any other `conf` only toggles the permissions. */
  function SetCpufreqSpec(e: Env, w: World, conf: int): (o: Outcome)
    requires conf == SET ==> CPUFREQ_DUMP !in e.faults.noWrite
    ensures -4 <= o.ret <= 0
    ensures conf != SET && conf != RESET ==> -1 <= o.ret <= 0
    ensures o.w.regs == w.regs
  {
    var p := Toggles(e, Outcome(w, 0), PermissionJobs(e.ncpus), conf);
    var r1 := if p.ret < 0 then -1 else 0;
    if conf == SET then
      var d := DumpSpec(e, p.w);
      var r2 := if d.ret < 0 then -2 else r1;
      var g := ChangeGovernorsSpec(e, d.w);
      Outcome(g.w, if g.ret < 0 then -3 else r2)
    else if conf == RESET then
      var r := RestoreSpec(e, p.w, CPUFREQ_DUMP);
      Outcome(r.w, if r.ret < 0 then -4 else r1)
    else Outcome(p.w, r1)
  }

  method SetCpufreq(m: Machine, conf: int) returns (ret: int)
    requires conf == SET ==> CPUFREQ_DUMP !in m.env.faults.noWrite
    modifies m
    ensures Outcome(m.State(), ret) == SetCpufreqSpec(m.env, old(m.State()), conf)
  {
    ret := 0;
    var r := SetPermissionsCpufreq(m, conf);
    if r < 0 {
      ret := -1;
    }
    if conf == SET {
      r := DumpCpufreq(m);
      if r < 0 {
        ret := -2;
      }
      r := ChangeGovernors(m);
      if r < 0 {
        ret := -3;
      }
    } else if conf == RESET {
      r := RestoreCpufreq(m);
      if r < 0 {
        ret := -4;
      }
    }
  }

  /** CPU `i`'s saved values are the same before and after the toggles. */
  lemma TogglesKeepSaved(e: Env, w: World, w': World, i: nat)
    requires forall f: string, buf: string :: ReadStr(e, w', f, buf) == ReadStr(e, w, f, buf)
    ensures SavedReadable(e, w', i) == SavedReadable(e, w, i)
    ensures SavedReadable(e, w, i) ==> SavedBufs(e, w', i) == SavedBufs(e, w, i)
  {
    var g, mx, mn, sp := Name(Cpu(Governor, i)), Name(Cpu(ScalingMax, i)), Name(Cpu(ScalingMin, i)), Name(Cpu(Setspeed, i));
    assert ReadStr(e, w', g, "") == ReadStr(e, w, g, "");
    assert ReadStr(e, w', mx, "") == ReadStr(e, w, mx, "");
    assert ReadStr(e, w', mn, "") == ReadStr(e, w, mn, "");
    assert ReadStr(e, w', sp, "") == ReadStr(e, w, sp, "");
  }

  /** The toggles keep every CPU's saved values. */
  lemma TogglesKeepAllSaved(e: Env, w: World, js: seq<Job>, conf: int, n: nat)
    requires AllSaved(e, w, n)
    ensures var w' := Toggles(e, Outcome(w, 0), js, conf).w;
      AllSaved(e, w', n) && forall i | 0 <= i < n :: SavedBufs(e, w', i) == SavedBufs(e, w, i)
  {
    var w' := Toggles(e, Outcome(w, 0), js, conf).w;
    forall f: string, buf: string
      ensures ReadStr(e, w', f, buf) == ReadStr(e, w, f, buf)
    {
      TogglesKeepReads(e, w, js, conf, f, buf);
    }
    forall i | 0 <= i < n
      ensures SavedReadable(e, w', i) && SavedBufs(e, w', i) == SavedBufs(e, w, i)
    {
      TogglesKeepSaved(e, w, w', i);
    }
  }

  /** A saved file's buffer holds the token the file held. */
  lemma SavedField(e: Env, w: World, i: nat, k: CpuKind)
    requires SavedReadable(e, w, i) && Saves(SavedBufs(e, w, i), k)
    ensures Field(SavedBufs(e, w, i), k) == FirstToken(w, Name(Cpu(k, i)))
  {
  }

  /** SET leaves the snapshot of the node as the permission toggles left it. */
  lemma SetKeepsSnapshot(e: Env, w: World)
    requires CPUFREQ_DUMP !in e.faults.noWrite
    ensures var p := Toggles(e, Outcome(w, 0), PermissionJobs(e.ncpus), SET);
      var up := SetCpufreqSpec(e, w, SET);
      CPUFREQ_DUMP in up.w.files && up.w.files[CPUFREQ_DUMP] == DumpSpec(e, p.w).w.files[CPUFREQ_DUMP]
  {
    var p := Toggles(e, Outcome(w, 0), PermissionJobs(e.ncpus), SET);
    forall i: nat
      ensures CPUFREQ_DUMP != Name(Cpu(Governor, i))
    {
      NotDumpFile(Cpu(Governor, i), CpufreqDump);
    }
    ChangeGovernorsOthers(e, DumpSpec(e, p.w).w, CPUFREQ_DUMP);
  }

  /** SET followed by RESET: each file SET saved reads, after RESET, the token
      it held before SET, when no write fails and every saved file could be read. */
  lemma SetResetRoundTrip(e: Env, w: World, k: CpuKind, i: nat, buf: string)
    requires WritesOk(e) && CPUFREQ_DUMP !in e.faults.noRead
    requires AllSaved(e, w, e.ncpus) && i < e.ncpus && Saves(SavedBufs(e, w, i), k)
    ensures var up := SetCpufreqSpec(e, w, SET);
      ReadStr(e, SetCpufreqSpec(e, up.w, RESET).w, Name(Cpu(k, i)), buf) == Scan(FirstToken(w, Name(Cpu(k, i))), 1)
  {
    var js := PermissionJobs(e.ncpus);
    var p := Toggles(e, Outcome(w, 0), js, SET);
    TogglesKeepAllSaved(e, w, js, SET, e.ncpus);
    SavedField(e, w, i, k);
    SavedField(e, p.w, i, k);
    var up := SetCpufreqSpec(e, w, SET);
    SetKeepsSnapshot(e, w);
    var q := Toggles(e, Outcome(up.w, 0), js, RESET);
    TogglesKeep(e, Outcome(up.w, 0), js, RESET, CPUFREQ_DUMP);
    DumpCpufreqContent(e, p.w);
    RestoreSaved(e, p.w, q.w, k, i, buf);
  }
}
