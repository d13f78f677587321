/**
 * src/msrsafe.c: access to the model-specific registers through the
 * msr_safe devices `/dev/cpu/<n>/msr_safe`, and the msr_safe adapter. SET
 * checks that msr_safe is installed, opens the whitelist, the batch device
 * and the per-CPU devices to others, and saves every whitelisted register
 * of every CPU in `/tmp/msrsafe_dump`; RESET writes the saved values back.
 */
module Msrsafe {
  import opened Text
  import opened Paths
  import opened Node
  import opened Common
  import opened Snapshot

  // ---------------------------------------------------------------------
  // read_msr, write_msr, read_msr_file, write_msr_file

  /** `read_msr` on the open device of `cpu`: the register's value, or None
      (-1) when the 8-byte `pread` fails. */
  function ReadMsr(w: World, cpu: nat, addr: u64): (r: Option<u64>)
    ensures r.Some? <==> (cpu, addr) in w.regs
    ensures r.Some? ==> r.value == w.regs[(cpu, addr)]
  {
    Pread(w, cpu, addr)
  }

  /** `write_msr` on the open device of `cpu`: 0 and the register set, or -1
      and nothing changed. */
  function WriteMsr(e: Env, w: World, cpu: nat, addr: u64, value: u64): (o: Outcome)
    ensures o.ret == 0 <==> (cpu, addr) in w.regs && (cpu, addr) !in e.faults.msrNoWrite
    ensures o.ret == 0 ==> o.w == w.(regs := w.regs[(cpu, addr) := value])
    ensures o.ret != 0 ==> o.ret == -1 && o.w == w
  {
    Pwrite(e, w, cpu, addr, value)
  }

  /** `read_msr_file`: opens the device of `cpu` read-only (-1 when that
      fails), then `read_msr`. */
  function ReadMsrFile(e: Env, w: World, cpu: nat, addr: u64): (r: Option<u64>)
    ensures r.Some? <==> CanRead(e, w, Name(MsrNode(cpu))) && (cpu, addr) in w.regs
    ensures r.Some? ==> r.value == w.regs[(cpu, addr)]
  {
    if !CanRead(e, w, Name(MsrNode(cpu))) then None else ReadMsr(w, cpu, addr)
  }

  /** `write_msr_file`: opens the device of `cpu` write-only (-1 and no
      access when that fails), then `write_msr`. */
  function WriteMsrFile(e: Env, w: World, cpu: nat, addr: u64, value: u64): (o: Outcome)
    ensures o.ret == 0 <==> CanOpenWrite(e, w, Name(MsrNode(cpu))) && (cpu, addr) in w.regs && (cpu, addr) !in e.faults.msrNoWrite
    ensures o.ret == 0 ==> o.w == w.(regs := w.regs[(cpu, addr) := value])
    ensures o.ret != 0 ==> o.ret == -1 && o.w == w
  {
    if !CanOpenWrite(e, w, Name(MsrNode(cpu))) then Outcome(w, -1) else WriteMsr(e, w, cpu, addr, value)
  }

  /** `read_msr_file(cpu, addr, &value)`: `value0` is what `*value` held
      before the call; a failing call leaves it there. */
  method ReadMsrFromFile(m: Machine, cpu: nat, addr: u64, value0: u64) returns (ret: int, value: u64)
    ensures ret == 0 || ret == -1
    ensures ret == 0 <==> ReadMsrFile(m.env, m.State(), cpu, addr).Some?
    ensures ret == 0 ==> value == ReadMsrFile(m.env, m.State(), cpu, addr).value
    ensures ret != 0 ==> value == value0
  {
    var file := Name(MsrNode(cpu));
    if file !in m.files || file in m.env.faults.noRead {
      return -1, value0;
    }
    var r := PreadMsr(m, cpu, addr);
    if r.None? {
      return -1, value0;
    }
    return 0, r.value;
  }

  method WriteMsrToFile(m: Machine, cpu: nat, addr: u64, value: u64) returns (ret: int)
    modifies m
    ensures Outcome(m.State(), ret) == WriteMsrFile(m.env, old(m.State()), cpu, addr, value)
  {
    var file := Name(MsrNode(cpu));
    if file !in m.files || file in m.env.faults.noWrite {
      return -1;
    }
    ret := PwriteMsr(m, cpu, addr, value);
  }

  // ---------------------------------------------------------------------
  // check_msrsafe

  const WHITELIST: string := Name(Whitelist)
  const BATCH: string := Name(Batch)
  const MSRSAFE_DUMP: string := DumpFile(MsrsafeDump)

  /** Some device among those of CPUs 0 .. n-1 does not exist. */
  predicate NodeMissing(w: World, n: nat)
  {
    exists i | 0 <= i < n :: !Exists(w, Name(MsrNode(i)))
  }

  /** What `check_msrsafe` looks at, in its order: the whitelist (-1), the
      batch device (-2), every per-CPU device (-3). */
  function CheckSpec(e: Env, w: World): (r: int)
    ensures -3 <= r <= 0
    ensures r == 0 ==> Exists(w, WHITELIST) && Exists(w, BATCH) && !NodeMissing(w, e.ncpus)
  {
    var r1 := if !Exists(w, WHITELIST) then -1 else 0;
    var r2 := if !Exists(w, BATCH) then -2 else r1;
    if NodeMissing(w, e.ncpus) then -3 else r2
  }

  /** msr_safe counts as installed exactly when all its files exist; otherwise
      the status names the last kind of file found missing. */
  lemma CheckMsrsafeRet(e: Env, w: World)
    ensures CheckSpec(e, w) == 0 <==>
      Exists(w, WHITELIST) && Exists(w, BATCH) && forall i | 0 <= i < e.ncpus :: Exists(w, Name(MsrNode(i)))
    ensures CheckSpec(e, w) == -3 <==> NodeMissing(w, e.ncpus)
    ensures CheckSpec(e, w) == -2 <==> !NodeMissing(w, e.ncpus) && !Exists(w, BATCH)
    ensures CheckSpec(e, w) == -1 <==> !NodeMissing(w, e.ncpus) && Exists(w, BATCH) && !Exists(w, WHITELIST)
  {
  }

  /** `check_msrsafe`: every check runs, whatever the earlier ones found. */
  method CheckMsrsafe(m: Machine) returns (ret: int)
    ensures ret == CheckSpec(m.env, m.State())
  {
    ret := 0;
    if WHITELIST !in m.files {
      ret := -1;
    }
    if BATCH !in m.files {
      ret := -2;
    }
    ghost var r2 := ret;
    var i := 0;
    while i < m.env.ncpus
      invariant i <= m.env.ncpus
      invariant ret == if NodeMissing(m.State(), i) then -3 else r2
    {
      if Name(MsrNode(i)) !in m.files {
        ret := -3;
      }
      i := i + 1;
    }
  }

  // ---------------------------------------------------------------------
  // set_permissions_msrsafe

  /** The whitelist is opened for reading (-1), the batch device for reading
      and writing (-2). */
  const DEVICE_JOBS: seq<Job> := [Job(WHITELIST, OtherRead, -1), Job(BATCH, OtherReadWrite, -2)]

  /** Every per-CPU device is opened for reading and writing (-3). */
  function NodeJobs(n: nat): (js: seq<Job>)
    ensures |js| == n
    ensures forall i | 0 <= i < n :: js[i] == Job(Name(MsrNode(i)), OtherReadWrite, -3)
  {
    seq(n, i requires 0 <= i < n => Job(Name(MsrNode(i)), OtherReadWrite, -3))
  }

  function MsrPermissionJobs(n: nat): seq<Job>
  {
    DEVICE_JOBS + NodeJobs(n)
  }

  method SetPermissionsMsrsafe(m: Machine, conf: int) returns (ret: int)
    modifies m
    ensures Outcome(m.State(), ret) == Toggles(m.env, Outcome(old(m.State()), 0), MsrPermissionJobs(m.env.ncpus), conf)
  {
    ghost var o0 := Outcome(m.State(), 0);
    ret := RunJob(m, DEVICE_JOBS[0], conf, 0);
    assert Outcome(m.State(), ret) == Toggles(m.env, o0, [DEVICE_JOBS[0]], conf);
    ret := RunJob(m, DEVICE_JOBS[1], conf, ret);
    TogglesSnoc(m.env, o0, [DEVICE_JOBS[0]], DEVICE_JOBS[1], conf);
    MsrJobsSnoc(0);
    ret := ToggleNodes(m, conf, o0, ret);
  }

  lemma MsrJobsSnoc(i: nat)
    ensures [DEVICE_JOBS[0]] + [DEVICE_JOBS[1]] == DEVICE_JOBS + NodeJobs(0)
    ensures DEVICE_JOBS + NodeJobs(i) + [Job(Name(MsrNode(i)), OtherReadWrite, -3)] == DEVICE_JOBS + NodeJobs(i + 1)
  {
  }

  /** The loop over the per-CPU devices of `set_permissions_msrsafe`. */
  method ToggleNodes(m: Machine, conf: int, ghost o0: Outcome, ret0: int) returns (ret: int)
    requires Outcome(m.State(), ret0) == Toggles(m.env, o0, DEVICE_JOBS, conf)
    modifies m
    ensures Outcome(m.State(), ret) == Toggles(m.env, o0, MsrPermissionJobs(m.env.ncpus), conf)
  {
    ret := ret0;
    MsrJobsSnoc(0);
    var i := 0;
    while i < m.env.ncpus
      invariant i <= m.env.ncpus
      invariant Outcome(m.State(), ret) == Toggles(m.env, o0, DEVICE_JOBS + NodeJobs(i), conf)
    {
      var j := Job(Name(MsrNode(i)), OtherReadWrite, -3);
      ret := RunJob(m, j, conf, ret);
      TogglesSnoc(m.env, o0, DEVICE_JOBS + NodeJobs(i), j, conf);
      MsrJobsSnoc(i);
      i := i + 1;
    }
  }

  /** Only the whitelist gets the read toggle; every other job uses read-write. */
  lemma MsrJobsConsistent(n: nat)
    ensures Consistent(MsrPermissionJobs(n))
  {
    var js := MsrPermissionJobs(n);
    forall k, l | 0 <= k < |js| && 0 <= l < |js| && js[k].file == js[l].file
      ensures js[k].t == js[l].t
    {
      if k != 0 {
        MsrJobAfterWhitelist(n, k);
      }
      if l != 0 {
        MsrJobAfterWhitelist(n, l);
      }
    }
  }

  /** Every job after the first is a read-write toggle of a file other than the whitelist. */
  lemma MsrJobAfterWhitelist(n: nat, l: nat)
    requires 1 <= l < |MsrPermissionJobs(n)|
    ensures MsrPermissionJobs(n)[l].file != WHITELIST && MsrPermissionJobs(n)[l].t == OtherReadWrite
  {
    var js := MsrPermissionJobs(n);
    if l == 1 {
      NameDistinct(Batch, Whitelist);
    } else {
      assert js[l] == NodeJobs(n)[l - 2];
      NameDistinct(MsrNode(l - 2), Whitelist);
    }
  }

  /** The whitelist gets the read toggle when it can be toggled. */
  lemma PermissionsWhitelistMode(e: Env, w: World, conf: int)
    requires Toggleable(e, w, WHITELIST)
    ensures Toggles(e, Outcome(w, 0), MsrPermissionJobs(e.ncpus), conf).w.files[WHITELIST].mode
      == NewMode(OtherRead, w.files[WHITELIST].mode, conf)
  {
    MsrJobsConsistent(e.ncpus);
    TogglesNamed(e, Outcome(w, 0), MsrPermissionJobs(e.ncpus), conf, 0);
  }

  /** The batch device gets the read-write toggle when it can be toggled. */
  lemma PermissionsBatchMode(e: Env, w: World, conf: int)
    requires Toggleable(e, w, BATCH)
    ensures Toggles(e, Outcome(w, 0), MsrPermissionJobs(e.ncpus), conf).w.files[BATCH].mode
      == NewMode(OtherReadWrite, w.files[BATCH].mode, conf)
  {
    MsrJobsConsistent(e.ncpus);
    TogglesNamed(e, Outcome(w, 0), MsrPermissionJobs(e.ncpus), conf, 1);
  }

  /** Every CPU's device gets the read-write toggle when it can be toggled. */
  lemma PermissionsNodeMode(e: Env, w: World, conf: int, i: nat)
    requires i < e.ncpus && Toggleable(e, w, Name(MsrNode(i)))
    ensures var f := Name(MsrNode(i));
      Toggles(e, Outcome(w, 0), MsrPermissionJobs(e.ncpus), conf).w.files[f].mode
        == NewMode(OtherReadWrite, w.files[f].mode, conf)
  {
    var js := MsrPermissionJobs(e.ncpus);
    assert js[i + 2] == NodeJobs(e.ncpus)[i];
    MsrJobsConsistent(e.ncpus);
    TogglesNamed(e, Outcome(w, 0), js, conf, i + 2);
  }

  /** A failure stops nothing: 0 exactly when every file could be toggled. */
  lemma PermissionsMsrsafeRet(e: Env, w: World, conf: int)
    ensures Toggles(e, Outcome(w, 0), MsrPermissionJobs(e.ncpus), conf).ret == 0 <==>
      Toggleable(e, w, WHITELIST) && Toggleable(e, w, BATCH)
      && forall i | 0 <= i < e.ncpus :: Toggleable(e, w, Name(MsrNode(i)))
  {
    var js := MsrPermissionJobs(e.ncpus);
    MsrJobsShape(e.ncpus);
    TogglesSucceed(e, w, js, conf);
    JobsToggleable(e, w, js, e.ncpus);
  }

  lemma MsrJobsShape(n: nat)
    ensures var js := MsrPermissionJobs(n);
      && |js| == n + 2 && js[0].file == WHITELIST && js[1].file == BATCH
      && (forall l | 0 <= l < |js| :: js[l].code < 0)
      && forall l | 2 <= l < |js| :: js[l].file == Name(MsrNode(l - 2))
  {
    var js := MsrPermissionJobs(n);
    assert forall l | 2 <= l < |js| :: js[l] == NodeJobs(n)[l - 2];
  }

  lemma JobsToggleable(e: Env, w: World, js: seq<Job>, n: nat)
    requires |js| == n + 2 && js[0].file == WHITELIST && js[1].file == BATCH
    requires forall l | 2 <= l < |js| :: js[l].file == Name(MsrNode(l - 2))
    ensures (forall l | 0 <= l < |js| :: Toggleable(e, w, js[l].file)) <==>
      Toggleable(e, w, WHITELIST) && Toggleable(e, w, BATCH)
      && forall i | 0 <= i < n :: Toggleable(e, w, Name(MsrNode(i)))
  {
    if forall l | 0 <= l < |js| :: Toggleable(e, w, js[l].file) {
      forall i | 0 <= i < n ensures Toggleable(e, w, Name(MsrNode(i))) {
        assert js[i + 2].file == Name(MsrNode(i));
      }
    }
  }

  // ---------------------------------------------------------------------
  // dump_msrsafe: the whitelist

  const MSR_HEADER: string := "# CPU_ID # MSR # Value\n"

  /** A whitelist line as the dump loop reads it. */
  datatype Line =
    | Comment                                      // its first character is '#'
    | Malformed                                    // no mask token: `strtoul` would get NULL
    | Entry(addrStr: string, addr: u64, mask: u64)

  /** The `strtok` calls of the dump loop: the address is the first token
      delimited by spaces, the mask the second, cut at its newline; both are
      read by `strtoul(.., 16)`. */
  function ParseLine(line: string): (l: Line)
    ensures l.Comment? <==> line != [] && line[0] == '#'
    ensures l.Entry? ==> l.addrStr != [] && NoChar(l.addrStr, ' ') && l.addr == StrToUL16(l.addrStr)
  {
    if line != [] && line[0] == '#' then Comment
    else
      match StrTok(line, ' ')
      case None => Malformed
      case Some((a, rest)) =>
        match StrTok(rest, ' ')
        case None => Malformed
        case Some((mk, _)) =>
          match StrTok(mk, '\n')
          case None => Malformed
          case Some((mask, _)) => Entry(a, StrToUL16(a), StrToUL16(mask))
  }

  predicate NoChar(s: string, d: char)
  {
    forall i | 0 <= i < |s| :: s[i] != d
  }

  /** The three `strtok` calls, when each finds its token. */
  lemma ParseLineOf(line: string, a: string, rest: string, mk: string, r: string, mask: string, r': string)
    requires line != [] && line[0] != '#'
    requires StrTok(line, ' ') == Some((a, rest))
    requires StrTok(rest, ' ') == Some((mk, r))
    requires StrTok(mk, '\n') == Some((mask, r'))
    ensures ParseLine(line) == Entry(a, StrToUL16(a), StrToUL16(mask))
  {
  }

  /** A line `addr mask`, ending at its newline or followed by a space and a
      comment, parses to the two fields. */
  lemma ParseEntryLine(a: string, mask: string, tail: string)
    requires a != [] && a[0] != '#' && NoChar(a, ' ')
    requires mask != [] && NoChar(mask, ' ') && NoChar(mask, '\n')
    requires tail == "\n" || (tail != [] && tail[0] == ' ')
    ensures ParseLine(a + " " + mask + tail) == Entry(a, StrToUL16(a), StrToUL16(mask))
  {
    var line := a + " " + mask + tail;
    var rest := mask + tail;
    assert line == a + [' '] + rest;
    assert line[0] == a[0];
    StrTokOf(a, ' ', rest);
    if tail == "\n" {
      MaskAtNewline(mask);
      ParseLineOf(line, a, rest, rest, [], mask, []);
    } else {
      assert rest == mask + [' '] + tail[1..];
      StrTokOf(mask, ' ', tail[1..]);
      StrTokWhole(mask, '\n');
      ParseLineOf(line, a, rest, mask, tail[1..], mask, []);
    }
  }

  /** The mask token of a line ending in a newline keeps the newline until the
      last `strtok` cuts it off. */
  lemma MaskAtNewline(mask: string)
    requires mask != [] && NoChar(mask, ' ') && NoChar(mask, '\n')
    ensures StrTok(mask + "\n", ' ') == Some((mask + "\n", []))
    ensures StrTok(mask + "\n", '\n') == Some((mask, []))
  {
    var rest := mask + "\n";
    assert NoChar(rest, ' ') by {
      forall i | 0 <= i < |rest| ensures rest[i] != ' ' {
        if i < |mask| {
          assert rest[i] == mask[i];
        }
      }
    }
    StrTokWhole(rest, ' ');
    assert rest == mask + ['\n'] + [];
    StrTokOf(mask, '\n', []);
  }

  /** A line with a mask token, or a comment. */
  predicate Parsed(l: Line)
  {
    l.Comment? || l.Entry?
  }

  /** Every entry's address is its address text as `strtoul(.., 16)` reads it. */
  predicate AddrsParsed(ls: seq<Line>)
  {
    forall k | 0 <= k < |ls| :: ls[k].Entry? ==> ls[k].addr == StrToUL16(ls[k].addrStr)
  }

  /** Every non-comment line has a mask token. */
  predicate WellFormed(ls: seq<Line>)
  {
    forall k | 0 <= k < |ls| :: Parsed(ls[k])
  }

  /** What `dump_msrsafe` needs of its input: a whitelist it can open has no
      line without a mask. */
  predicate WhitelistOk(e: Env, w: World)
  {
    CanRead(e, w, WHITELIST) ==> WellFormed(WhitelistLines(w))
  }

  /** The whitelist's lines, as successive `fgets` calls return them, parsed. */
  function WhitelistLines(w: World): (ls: seq<Line>)
    requires WHITELIST in w.files
    ensures |ls| == |SplitLines(w.files[WHITELIST].data)|
    ensures forall k | 0 <= k < |ls| :: ls[k] == ParseLine(SplitLines(w.files[WHITELIST].data)[k])
  {
    var raw := SplitLines(w.files[WHITELIST].data);
    seq(|raw|, k requires 0 <= k < |raw| => ParseLine(raw[k]))
  }

  /** `ParseLine` reads every entry's address from its text. */
  lemma WhitelistAddrs(w: World)
    requires WHITELIST in w.files
    ensures AddrsParsed(WhitelistLines(w))
  {
    var ls := WhitelistLines(w);
    forall k | 0 <= k < |ls| && ls[k].Entry? ensures ls[k].addr == StrToUL16(ls[k].addrStr) {
      assert ls[k] == ParseLine(SplitLines(w.files[WHITELIST].data)[k]);
    }
  }

  // ---------------------------------------------------------------------
  // dump_msrsafe: the rows

  /** The row `fprintf(fd_dump, "%lu %s %lu\n", i, addr_str, value)` prints,
      as a snapshot record of three fields. */
  function Row(cpu: nat, addrStr: string, value: u64): (r: string)
    ensures r == Dec(cpu) + " " + addrStr + " " + Dec(value) + "\n"
  {
    var fs := [Dec(cpu), addrStr, Dec(value)];
    assert fs[1..] == [addrStr, Dec(value)] && fs[1..][1..] == [Dec(value)];
    assert Record(fs[1..]) == addrStr + " " + (Dec(value) + "\n");
    assert Record(fs) == Dec(cpu) + " " + (addrStr + " " + (Dec(value) + "\n"));
    Record(fs)
  }

  type RowDumping = Dumping<()>

  /** CPU `i` of the loop for one entry: `read_msr`, then on success one row
      (-5 when it cannot be printed); -6 and no row when the read fails. */
  function DumpRegister(e: Env, w: World, addrStr: string, addr: u64, s: RowDumping, i: nat): (t: RowDumping)
    ensures t.ret == s.ret || t.ret == -5 || t.ret == -6
    ensures s.out <= t.out
  {
    match ReadMsr(w, i, addr)
    case None => Dumping(s.out, -6, ())
    case Some(v) =>
      var p := Emit(e, MSRSAFE_DUMP, s.out, Row(i, addrStr, v));
      Dumping(p.out, if p.ret < 0 then -5 else s.ret, ())
  }

  function RegisterStep(e: Env, w: World, addrStr: string, addr: u64): (RowDumping, nat) -> RowDumping
  {
    (t: RowDumping, i: nat) => DumpRegister(e, w, addrStr, addr, t, i)
  }

  /** The CPU loop for one entry only appends rows, and records -5 or -6 if anything. */
  lemma {:induction false} RegistersAppend(e: Env, w: World, a: string, addr: u64, s: RowDumping, n: nat)
    ensures var t := Iterate(RegisterStep(e, w, a, addr), s, n);
      (t.ret == s.ret || t.ret == -5 || t.ret == -6) && s.out <= t.out
  {
    if n > 0 {
      RegistersAppend(e, w, a, addr, s, n - 1);
    }
  }

  /** One iteration of the `fgets` loop: comments and zero masks are skipped,
      other entries run the CPU loop. */
  function DumpLine(e: Env, w: World, s: RowDumping, l: Line): (t: RowDumping)
    requires !l.Malformed?
    ensures t.ret == s.ret || t.ret == -5 || t.ret == -6
    ensures s.out <= t.out
  {
    match l
    case Comment => s
    case Entry(a, addr, mask) =>
      RegistersAppend(e, w, a, addr, s, e.ncpus);
      if mask == 0 then s else Iterate(RegisterStep(e, w, a, addr), s, e.ncpus)
  }

  /** The `fgets` loop only appends rows; the status is kept or is that of a
      failed print (-5) or read (-6). */
  function DumpLines(e: Env, w: World, s: RowDumping, ls: seq<Line>): (t: RowDumping)
    requires WellFormed(ls)
    ensures t.ret == s.ret || t.ret == -5 || t.ret == -6
    ensures s.out <= t.out
    decreases |ls|
  {
    if ls == [] then s
    else
      var p := ls[..|ls| - 1];
      assert forall k | 0 <= k < |p| :: p[k] == ls[k];
      DumpLine(e, w, DumpLines(e, w, s, p), ls[|ls| - 1])
  }

  /** Some per-CPU device among those of CPUs 0 .. n-1 cannot be opened for reading. */
  predicate NodeUnreadable(e: Env, w: World)
  {
    exists i | 0 <= i < e.ncpus :: !CanRead(e, w, Name(MsrNode(i)))
  }

  /** `dump_msrsafe`: -1 when the whitelist cannot be opened, -2 when the dump
      cannot, -3 when some device cannot (the dump is left empty), -4 when the
      header cannot be printed; otherwise the rows, the status being that of
      the last failed print (-5) or read (-6). */
  function DumpMsrSpec(e: Env, w: World): (o: Outcome)
    requires WhitelistOk(e, w)
    ensures o.w.regs == w.regs
    ensures o.ret == -1 <==> !CanRead(e, w, WHITELIST)
    ensures o.ret == -2 <==> CanRead(e, w, WHITELIST) && MSRSAFE_DUMP in e.faults.noWrite
    ensures o.ret == -1 || o.ret == -2 ==> o.w == w
    ensures o.ret != -1 && o.ret != -2 ==> OnlyChanged(w, o.w, MSRSAFE_DUMP)
  {
    if !CanRead(e, w, WHITELIST) then Outcome(w, -1)
    else if MSRSAFE_DUMP in e.faults.noWrite then Outcome(w, -2)
    else
      var op := OpenWrite(e, w, MSRSAFE_DUMP);
      if NodeUnreadable(e, w) then Outcome(op.w, -3)
      else
        var h := Emit(e, MSRSAFE_DUMP, [], MSR_HEADER);
        if h.ret < 0 then Outcome(op.w, -4)
        else
          var s := DumpLines(e, w, Dumping(h.out, 0, ()), WhitelistLines(w));
          assert s.ret in {0, -5, -6} by {
            DumpLinesRet(e, w, Dumping(h.out, 0, ()), WhitelistLines(w));
          }
          Outcome(Written(op.w, MSRSAFE_DUMP, s.out), s.ret)
  }

  lemma {:induction false} EntryRet(e: Env, w: World, a: string, addr: u64, s: RowDumping, k: nat)
    requires s.ret in {0, -5, -6}
    ensures Iterate(RegisterStep(e, w, a, addr), s, k).ret in {0, -5, -6}
  {
    if k > 0 {
      EntryRet(e, w, a, addr, s, k - 1);
    }
  }

  lemma {:induction false} DumpLinesRet(e: Env, w: World, s: RowDumping, ls: seq<Line>)
    requires WellFormed(ls) && s.ret in {0, -5, -6}
    ensures DumpLines(e, w, s, ls).ret in {0, -5, -6}
    decreases |ls|
  {
    if ls != [] {
      var p := ls[..|ls| - 1];
      assert forall k | 0 <= k < |p| :: p[k] == ls[k];
      DumpLinesRet(e, w, s, p);
      match ls[|ls| - 1]
      case Comment =>
      case Entry(a, addr, mask) =>
        EntryRet(e, w, a, addr, DumpLines(e, w, s, p), e.ncpus);
    }
  }

  method DumpMsrsafe(m: Machine) returns (ret: int)
    requires WhitelistOk(m.env, m.State())
    modifies m
    ensures Outcome(m.State(), ret) == DumpMsrSpec(m.env, old(m.State()))
  {
    ghost var w0 := m.State();
    if WHITELIST !in m.files || WHITELIST in m.env.faults.noRead {
      return -1;
    }
    var lines := SplitLines(m.files[WHITELIST].data);
    var fd := FopenWrite(m, MSRSAFE_DUMP);
    if fd < 0 {
      return -2;
    }
    ghost var w1 := m.State();
    var nodesOk := OpenNodes(m);
    OpenKeepsNodes(m.env, w0);
    if !nodesOk {
      return -3;
    }
    var printed := Fprintf(m, MSRSAFE_DUMP, MSR_HEADER);
    PrintEmits(m.env, w1, MSRSAFE_DUMP, MSR_HEADER);
    if printed < 0 {
      assert Written(w1, MSRSAFE_DUMP, []) == w1;
      return -4;
    }
    ret := DumpWhitelist(m, w0, lines);
  }

  /** The `fgets` loop over the whitelist lines. */
  method DumpWhitelist(m: Machine, ghost w0: World, lines: seq<string>) returns (ret: int)
    requires Dumped(m, w0, MSRSAFE_DUMP) && WHITELIST in w0.files
    requires lines == SplitLines(w0.files[WHITELIST].data) && WellFormed(WhitelistLines(w0))
    modifies m
    ensures var s := DumpLines(m.env, w0, Dumping(old(m.files[MSRSAFE_DUMP].data), 0, ()), WhitelistLines(w0));
      ret == s.ret && m.State() == Written(OpenWrite(m.env, w0, MSRSAFE_DUMP).w, MSRSAFE_DUMP, s.out)
  {
    ghost var ls := WhitelistLines(w0);
    ret := 0;
    ghost var s0 := Dumping(m.files[MSRSAFE_DUMP].data, ret, ());
    var k := 0;
    while k < |lines|
      invariant k <= |lines|
      invariant Dumped(m, w0, MSRSAFE_DUMP)
      invariant Dumping(m.files[MSRSAFE_DUMP].data, ret, ()) == DumpLines(m.env, w0, s0, ls[..k])
    {
      var l := ParseLine(lines[k]);
      assert l == ls[k];
      ret := DumpWhitelistLine(m, w0, l, ret);
      assert ls[..k + 1][..k] == ls[..k];
      k := k + 1;
    }
    assert ls[..|lines|] == ls;
  }

  /** The `open(.., O_RDONLY)` loop over the per-CPU devices, stopping at the first failure. */
  method OpenNodes(m: Machine) returns (ok: bool)
    ensures ok <==> !NodeUnreadable(m.env, m.State())
  {
    var i := 0;
    while i < m.env.ncpus
      invariant i <= m.env.ncpus
      invariant forall j | 0 <= j < i :: CanRead(m.env, m.State(), Name(MsrNode(j)))
    {
      if Name(MsrNode(i)) !in m.files || Name(MsrNode(i)) in m.env.faults.noRead {
        return false;
      }
      i := i + 1;
    }
    return true;
  }

  /** Opening the dump does not change whether the devices can be opened. */
  lemma OpenKeepsNodes(e: Env, w: World)
    ensures NodeUnreadable(e, OpenWrite(e, w, MSRSAFE_DUMP).w) <==> NodeUnreadable(e, w)
  {
    forall i | 0 <= i < e.ncpus
      ensures CanRead(e, OpenWrite(e, w, MSRSAFE_DUMP).w, Name(MsrNode(i))) <==> CanRead(e, w, Name(MsrNode(i)))
    {
      NotDumpFile(MsrNode(i), MsrsafeDump);
    }
  }

  /** One iteration of the `fgets` loop, on the node `w0` the dump started from. */
  method DumpWhitelistLine(m: Machine, ghost w0: World, l: Line, ret: int) returns (ret': int)
    requires Dumped(m, w0, MSRSAFE_DUMP) && !l.Malformed?
    modifies m
    ensures Dumped(m, w0, MSRSAFE_DUMP)
    ensures Dumping(m.files[MSRSAFE_DUMP].data, ret', ()) == DumpLine(m.env, w0, Dumping(old(m.files[MSRSAFE_DUMP].data), ret, ()), l)
  {
    ret' := ret;
    if l.Comment? || l.mask == 0 {
      return;
    }
    ghost var s0 := Dumping(m.files[MSRSAFE_DUMP].data, ret, ());
    var i := 0;
    while i < m.env.ncpus
      invariant i <= m.env.ncpus
      invariant Dumped(m, w0, MSRSAFE_DUMP)
      invariant Dumping(m.files[MSRSAFE_DUMP].data, ret', ()) == Iterate(RegisterStep(m.env, w0, l.addrStr, l.addr), s0, i)
    {
      ret' := DumpOneRegister(m, w0, l.addrStr, l.addr, i, ret');
      i := i + 1;
    }
  }

  method DumpOneRegister(m: Machine, ghost w0: World, addrStr: string, addr: u64, i: nat, ret: int) returns (ret': int)
    requires Dumped(m, w0, MSRSAFE_DUMP)
    modifies m
    ensures Dumped(m, w0, MSRSAFE_DUMP)
    ensures Dumping(m.files[MSRSAFE_DUMP].data, ret', ()) == DumpRegister(m.env, w0, addrStr, addr, Dumping(old(m.files[MSRSAFE_DUMP].data), ret, ()), i)
  {
    var v := PreadMsr(m, i, addr);
    if v.None? {
      return -6;
    }
    var row := Row(i, addrStr, v.value);
    ghost var w := m.State();
    var status := Fprintf(m, MSRSAFE_DUMP, row);
    PrintEmits(m.env, w, MSRSAFE_DUMP, row);
    ret' := if status < 0 then -5 else ret;
  }

  // ---------------------------------------------------------------------
  // dump_msrsafe: what it saves

  /** One saved register: the CPU, the address as the whitelist writes it, the value. */
  datatype Reg = Reg(cpu: nat, addrStr: string, value: u64)

  function RegRecords(rs: seq<Reg>): (ls: seq<seq<string>>)
    ensures |ls| == |rs|
    ensures forall k | 0 <= k < |rs| :: ls[k] == [Dec(rs[k].cpu), rs[k].addrStr, Dec(rs[k].value)]
  {
    seq(|rs|, k requires 0 <= k < |rs| => [Dec(rs[k].cpu), rs[k].addrStr, Dec(rs[k].value)])
  }

  lemma RegRecordsAppend(a: seq<Reg>, b: seq<Reg>)
    ensures RegRecords(a + b) == RegRecords(a) + RegRecords(b)
  {
    assert forall k | 0 <= k < |a + b| :: (a + b)[k] == if k < |a| then a[k] else b[k - |a|];
  }

  /** CPUs 0 .. n-1 all have the register `addr`. */
  predicate OnAllCpus(w: World, addr: u64, n: nat)
  {
    forall i | 0 <= i < n :: (i, addr) in w.regs
  }

  /** Every entry with a nonzero mask names a register that every CPU has. */
  predicate AllPresent(w: World, ls: seq<Line>, n: nat)
  {
    forall k | 0 <= k < |ls| :: ls[k].Entry? && ls[k].mask > 0 ==> OnAllCpus(w, ls[k].addr, n)
  }

  /** The register `addr` of CPUs 0 .. k-1, in ascending order. */
  function EntryRegs(w: World, a: string, addr: u64, k: nat): (rs: seq<Reg>)
    requires OnAllCpus(w, addr, k)
    ensures |rs| == k
    ensures forall i | 0 <= i < k :: rs[i] == Reg(i, a, w.regs[(i, addr)])
  {
    seq(k, i requires 0 <= i < k => Reg(i, a, w.regs[(i, addr)]))
  }

  /** What a dump of the whitelist lines `ls` saves: for each entry with a
      nonzero mask, in whitelist order, its register on every CPU. */
  function SavedRegs(w: World, ls: seq<Line>, n: nat): seq<Reg>
    requires WellFormed(ls) && AllPresent(w, ls, n)
    decreases |ls|
  {
    if ls == [] then []
    else
      var p := ls[..|ls| - 1];
      assert forall k | 0 <= k < |p| :: p[k] == ls[k];
      var l := ls[|ls| - 1];
      SavedRegs(w, p, n) + if l.Entry? && l.mask > 0 then EntryRegs(w, l.addrStr, l.addr, n) else []
  }

  /** Every open and every print of a dump succeeds and every whitelisted
      register can be read. */
  predicate DumpSucceeds(e: Env, w: World)
  {
    && CanRead(e, w, WHITELIST) && MSRSAFE_DUMP !in e.faults.noWrite && !NodeUnreadable(e, w)
    && StreamOk(e, MSRSAFE_DUMP)
    && WellFormed(WhitelistLines(w)) && AllPresent(w, WhitelistLines(w), e.ncpus)
  }

  /** The CPU loop of one entry prints the entry's rows in CPU order. */
  lemma {:induction false} EntryText(e: Env, w: World, a: string, addr: u64, s: RowDumping, k: nat)
    requires StreamOk(e, MSRSAFE_DUMP) && OnAllCpus(w, addr, k)
    ensures Iterate(RegisterStep(e, w, a, addr), s, k).out == s.out + Records(RegRecords(EntryRegs(w, a, addr, k)))
    ensures Iterate(RegisterStep(e, w, a, addr), s, k).ret == s.ret
  {
    var step := RegisterStep(e, w, a, addr);
    if k == 0 {
      assert s.out + Records(RegRecords(EntryRegs(w, a, addr, 0))) == s.out;
    } else {
      EntryText(e, w, a, addr, s, k - 1);
      var t := Iterate(step, s, k - 1);
      var rs := EntryRegs(w, a, addr, k - 1);
      var r := Reg(k - 1, a, w.regs[(k - 1, addr)]);
      assert (MSRSAFE_DUMP, Row(k - 1, a, r.value)) !in e.faults.noStream;
      assert Iterate(step, s, k) == DumpRegister(e, w, a, addr, t, k - 1);
      assert Iterate(step, s, k).out == t.out + Row(k - 1, a, r.value);
      assert EntryRegs(w, a, addr, k) == rs + [r];
      RegRecordsAppend(rs, [r]);
      RecordsAppend(RegRecords(rs), RegRecords([r]));
      assert Records(RegRecords([r])) == Row(k - 1, a, r.value) by {
        assert RegRecords([r]) == [[Dec(r.cpu), a, Dec(r.value)]];
      }
      ConcatAssoc(s.out, Records(RegRecords(rs)), Row(k - 1, a, r.value));
    }
  }

  /** The `fgets` loop prints the saved registers, line after line. */
  lemma {:induction false} LinesText(e: Env, w: World, s: RowDumping, ls: seq<Line>)
    requires StreamOk(e, MSRSAFE_DUMP) && WellFormed(ls) && AllPresent(w, ls, e.ncpus)
    ensures DumpLines(e, w, s, ls).out == s.out + Records(RegRecords(SavedRegs(w, ls, e.ncpus)))
    ensures DumpLines(e, w, s, ls).ret == s.ret
    decreases |ls|
  {
    if ls == [] {
      assert s.out + Records(RegRecords([])) == s.out;
    } else {
      var p := ls[..|ls| - 1];
      assert forall k | 0 <= k < |p| :: p[k] == ls[k];
      LinesText(e, w, s, p);
      var t := DumpLines(e, w, s, p);
      var l := ls[|ls| - 1];
      var a := SavedRegs(w, p, e.ncpus);
      assert DumpLines(e, w, s, ls) == DumpLine(e, w, t, l);
      if l.Entry? && l.mask > 0 {
        var b := EntryRegs(w, l.addrStr, l.addr, e.ncpus);
        assert SavedRegs(w, ls, e.ncpus) == a + b;
        assert DumpLine(e, w, t, l) == Iterate(RegisterStep(e, w, l.addrStr, l.addr), t, e.ncpus);
        EntryText(e, w, l.addrStr, l.addr, t, e.ncpus);
        RegRecordsAppend(a, b);
        RecordsAppend(RegRecords(a), RegRecords(b));
        ConcatAssoc(s.out, Records(RegRecords(a)), Records(RegRecords(b)));
      } else {
        assert SavedRegs(w, ls, e.ncpus) == a + [] == a;
        assert DumpLine(e, w, t, l) == t;
      }
    }
  }

  /** The text a successful dump writes: the header, then one row per saved register. */
  function SavedText(e: Env, w: World): string
    requires DumpSucceeds(e, w)
  {
    MSR_HEADER + Records(RegRecords(SavedRegs(w, WhitelistLines(w), e.ncpus)))
  }

  /** When everything succeeds, the dump holds the header and then one row per
      saved register, and no other file or register changes. */
  lemma DumpMsrContent(e: Env, w: World)
    requires DumpSucceeds(e, w)
    ensures var o := DumpMsrSpec(e, w);
      && o.ret == 0 && MSRSAFE_DUMP in o.w.files && OnlyChanged(w, o.w, MSRSAFE_DUMP)
      && o.w.files[MSRSAFE_DUMP].data == SavedText(e, w)
  {
    var s0 := Dumping(MSR_HEADER, 0, ());
    assert Emit(e, MSRSAFE_DUMP, [], MSR_HEADER) == Printed(MSR_HEADER, |MSR_HEADER|);
    LinesText(e, w, s0, WhitelistLines(w));
  }

  /** A comment line, or an entry whose mask is 0, prints nothing and keeps
      the status, whatever the register holds. */
  lemma SkippedLine(e: Env, w: World, s: RowDumping, l: Line)
    requires l.Comment? || (l.Entry? && l.mask == 0)
    ensures DumpLine(e, w, s, l) == s
  {
  }

  /** A register that cannot be read prints no row and records -6. */
  lemma FailedReadNoRow(e: Env, w: World, a: string, addr: u64, s: RowDumping, i: nat)
    requires (i, addr) !in w.regs
    ensures DumpRegister(e, w, a, addr, s, i) == Dumping(s.out, -6, ())
  {
  }

  /** `r` holds the value of a register of CPU below `n`, at the address of a
      nonzero-mask entry of `ls` as the whitelist writes it. */
  predicate SavedFrom(w: World, ls: seq<Line>, n: nat, r: Reg)
  {
    && r.cpu < n && (r.cpu, StrToUL16(r.addrStr)) in w.regs && r.value == w.regs[(r.cpu, StrToUL16(r.addrStr))]
    && exists k | 0 <= k < |ls| :: ls[k].Entry? && ls[k].mask > 0 && ls[k].addrStr == r.addrStr
  }

  /** The saved registers are those of the CPUs, and every one of them names a
      register of a nonzero-mask entry as the whitelist writes it. */
  lemma {:induction false} SavedRegsFacts(w: World, ls: seq<Line>, n: nat)
    requires WellFormed(ls) && AddrsParsed(ls) && AllPresent(w, ls, n)
    ensures forall j | 0 <= j < |SavedRegs(w, ls, n)| :: SavedFrom(w, ls, n, SavedRegs(w, ls, n)[j])
    decreases |ls|
  {
    if ls != [] {
      var p := ls[..|ls| - 1];
      assert forall k | 0 <= k < |p| :: p[k] == ls[k];
      SavedRegsFacts(w, p, n);
      var l := ls[|ls| - 1];
      var a := SavedRegs(w, p, n);
      var b: seq<Reg> := if l.Entry? && l.mask > 0 then EntryRegs(w, l.addrStr, l.addr, n) else [];
      assert SavedRegs(w, ls, n) == a + b;
      forall j | 0 <= j < |a + b|
        ensures SavedFrom(w, ls, n, (a + b)[j])
      {
        if j < |a| {
          assert (a + b)[j] == a[j];
          assert SavedFrom(w, p, n, a[j]);
          var k :| 0 <= k < |p| && p[k].Entry? && p[k].mask > 0 && p[k].addrStr == a[j].addrStr;
          assert ls[k] == p[k];
        } else {
          assert (a + b)[j] == b[j - |a|];
          assert ls[|ls| - 1] == l;
        }
      }
    }
  }

  /** The registers the last line of `ls` saves. */
  function LastRegs(w: World, l: Line, n: nat): seq<Reg>
    requires l.Entry? && l.mask > 0 ==> OnAllCpus(w, l.addr, n)
  {
    if l.Entry? && l.mask > 0 then EntryRegs(w, l.addrStr, l.addr, n) else []
  }

  /** `SavedRegs` one line at a time, from the end. */
  lemma SavedRegsLast(w: World, ls: seq<Line>, n: nat)
    requires WellFormed(ls) && AllPresent(w, ls, n) && ls != []
    ensures WellFormed(ls[..|ls| - 1]) && AllPresent(w, ls[..|ls| - 1], n)
    ensures ls[|ls| - 1].Entry? && ls[|ls| - 1].mask > 0 ==> OnAllCpus(w, ls[|ls| - 1].addr, n)
    ensures SavedRegs(w, ls, n) == SavedRegs(w, ls[..|ls| - 1], n) + LastRegs(w, ls[|ls| - 1], n)
  {
    var p := ls[..|ls| - 1];
    assert forall k | 0 <= k < |p| :: p[k] == ls[k];
  }

  /** The last line's registers include every CPU's. */
  lemma LastRegsCover(w: World, l: Line, n: nat, i: nat, a: seq<Reg>)
    requires l.Entry? && l.mask > 0 && OnAllCpus(w, l.addr, n) && i < n
    ensures Reg(i, l.addrStr, w.regs[(i, l.addr)]) in a + LastRegs(w, l, n)
  {
    var b := LastRegs(w, l, n);
    assert b[i] == Reg(i, l.addrStr, w.regs[(i, l.addr)]);
    assert (a + b)[|a| + i] == b[i];
  }

  /** Every CPU's register of every nonzero-mask entry is saved. */
  lemma {:induction false} SavedRegsCover(w: World, ls: seq<Line>, n: nat, k: nat, i: nat)
    requires WellFormed(ls) && AllPresent(w, ls, n)
    requires k < |ls| && i < n && ls[k].Entry? && ls[k].mask > 0
    ensures Reg(i, ls[k].addrStr, w.regs[(i, ls[k].addr)]) in SavedRegs(w, ls, n)
    decreases |ls|
  {
    var p := ls[..|ls| - 1];
    var l := ls[|ls| - 1];
    SavedRegsLast(w, ls, n);
    var a := SavedRegs(w, p, n);
    var x := Reg(i, ls[k].addrStr, w.regs[(i, ls[k].addr)]);
    if k < |p| {
      assert p[k] == ls[k];
      SavedRegsCover(w, p, n, k, i);
      assert x in a;
    } else {
      LastRegsCover(w, l, n, i, a);
    }
    assert x in a + LastRegs(w, l, n);
  }

  // ---------------------------------------------------------------------
  // restore_msrsafe

  lemma MsrHeaderSelfMatching()
    ensures SelfMatching(MSR_HEADER)
  {
  }

  /** A row as `fscanf(fd_dump, "%ld %lx %lu\n", ..)` reads it. */
  datatype Setting = Setting(cpu: nat, addr: u64, value: u64)

  /** The rows of the text after the header, three tokens each: None unless
      every row is a decimal CPU below `n`, a hexadecimal address and a
      decimal value that fits in 64 bits. */
  function ParseRows(ts: seq<string>, n: nat): (r: Option<seq<Setting>>)
    ensures r.Some? ==> |r.value| * 3 == |ts| && forall k | 0 <= k < |r.value| :: r.value[k].cpu < n
    decreases |ts|
  {
    if ts == [] then Some([])
    else if |ts| < 3 || !IsDecToken(ts[0]) || !IsHexToken(ts[1]) || !IsDecToken(ts[2]) then None
    else if DecValue(ts[0]) >= n || DecValue(ts[2]) > MAX_U64 then None
    else
      match ParseRows(ts[3..], n)
      case None => None
      case Some(rs) => Some([Setting(DecValue(ts[0]), StrToUL16(ts[1]), DecValue(ts[2]))] + rs)
  }

  /** Every per-CPU device can be opened for writing. */
  predicate NodesWritable(e: Env, w: World)
  {
    forall i | 0 <= i < e.ncpus :: CanOpenWrite(e, w, Name(MsrNode(i)))
  }

  /** The tokens after the header. */
  function RowTokens(w: World): seq<string>
    requires MSRSAFE_DUMP in w.files
  {
    Tokens(ScanLiteral(MSR_HEADER, w.files[MSRSAFE_DUMP].data).1)
  }

  /** What `restore_msrsafe` needs of its input: once the dump and the devices
      are open, the text after the header is rows a `fscanf` reads whole, each
      naming a CPU whose device was opened. */
  predicate Restorable(e: Env, w: World)
  {
    CanRead(e, w, MSRSAFE_DUMP) && NodesWritable(e, w) ==> ParseRows(RowTokens(w), e.ncpus).Some?
  }

  /** The `write_msr` calls of the replay loop; a failure records -4 and the loop goes on. */
  function WriteRows(e: Env, o: Outcome, rs: seq<Setting>): (r: Outcome)
    ensures r.w.files == o.w.files && r.w.regs.Keys == o.w.regs.Keys
    ensures r.ret == o.ret || r.ret == -4
    decreases |rs|
  {
    if rs == [] then o
    else
      var p := WriteRows(e, o, rs[..|rs| - 1]);
      var s := rs[|rs| - 1];
      var q := WriteMsr(e, p.w, s.cpu, s.addr, s.value);
      Outcome(q.w, if q.ret < 0 then -4 else p.ret)
  }

  /** `restore_msrsafe`: -1 when the dump cannot be opened, -2 when some device
      cannot (nothing is written); a missing header records -3 and the replay
      still runs. */
  function RestoreMsrSpec(e: Env, w: World): (o: Outcome)
    requires Restorable(e, w)
    ensures o.w.files == w.files && o.w.regs.Keys == w.regs.Keys
    ensures o.ret == -1 <==> !CanRead(e, w, MSRSAFE_DUMP)
    ensures o.ret == -2 <==> CanRead(e, w, MSRSAFE_DUMP) && !NodesWritable(e, w)
    ensures o.ret == -1 || o.ret == -2 ==> o.w == w
  {
    if !CanRead(e, w, MSRSAFE_DUMP) then Outcome(w, -1)
    else if !NodesWritable(e, w) then Outcome(w, -2)
    else
      var h := ScanLiteral(MSR_HEADER, w.files[MSRSAFE_DUMP].data);
      WriteRows(e, Outcome(w, if h.0 then -3 else 0), ParseRows(Tokens(h.1), e.ncpus).value)
  }

  method RestoreMsrsafe(m: Machine) returns (ret: int)
    requires Restorable(m.env, m.State())
    modifies m
    ensures Outcome(m.State(), ret) == RestoreMsrSpec(m.env, old(m.State()))
  {
    if MSRSAFE_DUMP !in m.files || MSRSAFE_DUMP in m.env.faults.noRead {
      return -1;
    }
    var nodesOk := OpenNodesForWrite(m);
    if !nodesOk {
      return -2;
    }
    var h := ScanLiteral(MSR_HEADER, m.files[MSRSAFE_DUMP].data);
    var rows := ParseRows(Tokens(h.1), m.env.ncpus).value;
    ret := ReplayRows(m, rows, if h.0 then -3 else 0);
  }

  /** The `fscanf`/`write_msr` loop over the rows, starting from status `ret0`. */
  method ReplayRows(m: Machine, rows: seq<Setting>, ret0: int) returns (ret: int)
    modifies m
    ensures Outcome(m.State(), ret) == WriteRows(m.env, Outcome(old(m.State()), ret0), rows)
  {
    ret := ret0;
    var k := 0;
    while k < |rows|
      invariant k <= |rows|
      invariant Outcome(m.State(), ret) == WriteRows(m.env, Outcome(old(m.State()), ret0), rows[..k])
    {
      var r := rows[k];
      var status := PwriteMsr(m, r.cpu, r.addr, r.value);
      if status < 0 {
        ret := -4;
      }
      assert rows[..k + 1][..k] == rows[..k];
      k := k + 1;
    }
    assert rows[..|rows|] == rows;
  }

  /** The `open(.., O_WRONLY)` loop over the per-CPU devices, stopping at the first failure. */
  method OpenNodesForWrite(m: Machine) returns (ok: bool)
    ensures ok <==> NodesWritable(m.env, m.State())
  {
    var i := 0;
    while i < m.env.ncpus
      invariant i <= m.env.ncpus
      invariant forall j | 0 <= j < i :: CanOpenWrite(m.env, m.State(), Name(MsrNode(j)))
    {
      if Name(MsrNode(i)) !in m.files || Name(MsrNode(i)) in m.env.faults.noWrite {
        return false;
      }
      i := i + 1;
    }
    return true;
  }

  /** An empty dump records -3 and writes nothing. */
  lemma RestoreNoRows(e: Env, w: World)
    requires CanRead(e, w, MSRSAFE_DUMP) && NodesWritable(e, w)
    requires ScanLiteral(MSR_HEADER, w.files[MSRSAFE_DUMP].data).0
    ensures Restorable(e, w) && RestoreMsrSpec(e, w) == Outcome(w, -3)
  {
  }

  // ---------------------------------------------------------------------
  // The replay loop's effect on the registers

  /** The row can be written: its register exists and writing it does not fail. */
  predicate RowWritable(e: Env, w: World, s: Setting)
  {
    (s.cpu, s.addr) in w.regs && (s.cpu, s.addr) !in e.faults.msrNoWrite
  }

  /** The registers the rows name. */
  function Keys(rs: seq<Setting>): set<(nat, u64)>
  {
    set k | 0 <= k < |rs| :: (rs[k].cpu, rs[k].addr)
  }

  /** The replay records -4 exactly when some row cannot be written, and runs every row. */
  lemma {:induction false} WriteRowsRet(e: Env, o: Outcome, rs: seq<Setting>)
    ensures WriteRows(e, o, rs).ret == if exists k | 0 <= k < |rs| :: !RowWritable(e, o.w, rs[k]) then -4 else o.ret
    decreases |rs|
  {
    if rs != [] {
      var p := rs[..|rs| - 1];
      assert forall k | 0 <= k < |p| :: p[k] == rs[k];
      WriteRowsRet(e, o, p);
      var q := WriteRows(e, o, p);
      assert forall s :: RowWritable(e, q.w, s) <==> RowWritable(e, o.w, s);
    }
  }

  /** Rows that agree with the map `saved` and can all be written leave every
      register they name holding its saved value, and every other register as
      it was. */
  lemma {:induction false} WriteRowsBack(e: Env, o: Outcome, rs: seq<Setting>, saved: map<(nat, u64), u64>)
    requires forall k | 0 <= k < |rs| :: RowWritable(e, o.w, rs[k])
    requires forall k | 0 <= k < |rs| :: (rs[k].cpu, rs[k].addr) in saved && saved[(rs[k].cpu, rs[k].addr)] == rs[k].value
    ensures forall key | key in o.w.regs ::
      WriteRows(e, o, rs).w.regs[key] == if key in Keys(rs) then saved[key] else o.w.regs[key]
    decreases |rs|
  {
    if rs != [] {
      var p := rs[..|rs| - 1];
      assert forall k | 0 <= k < |p| :: p[k] == rs[k];
      WriteRowsBack(e, o, p, saved);
      var q := WriteRows(e, o, p);
      var s := rs[|rs| - 1];
      assert RowWritable(e, q.w, s);
      assert Keys(rs) == Keys(p) + {(s.cpu, s.addr)} by {
        forall key | key in Keys(rs) ensures key in Keys(p) + {(s.cpu, s.addr)} {
          var k :| 0 <= k < |rs| && key == (rs[k].cpu, rs[k].addr);
          if k < |p| {
            assert key == (p[k].cpu, p[k].addr);
          }
        }
      }
    }
  }

  // ---------------------------------------------------------------------
  // Saving and replaying the registers

  /** The rows the replay loop reads back from the saved registers. */
  function Settings(rs: seq<Reg>): (ss: seq<Setting>)
    ensures |ss| == |rs|
    ensures forall k | 0 <= k < |rs| :: ss[k] == Setting(rs[k].cpu, StrToUL16(rs[k].addrStr), rs[k].value)
  {
    seq(|rs|, k requires 0 <= k < |rs| => Setting(rs[k].cpu, StrToUL16(rs[k].addrStr), rs[k].value))
  }

  /** One saved register's row reads back as its numbers. */
  lemma ParseRowsRow(r: Reg, rest: seq<string>, n: nat)
    requires r.cpu < n && IsHexToken(r.addrStr)
    ensures ParseRows([Dec(r.cpu), r.addrStr, Dec(r.value)] + rest, n) ==
      match ParseRows(rest, n)
      case None => None
      case Some(ss) => Some([Setting(r.cpu, StrToUL16(r.addrStr), r.value)] + ss)
  {
    var ts := [Dec(r.cpu), r.addrStr, Dec(r.value)] + rest;
    assert ts[0] == Dec(r.cpu) && ts[1] == r.addrStr && ts[2] == Dec(r.value) && ts[3..] == rest;
    DecValueOfDec(r.cpu);
    DecValueOfDec(r.value);
  }

  /** The rows of saved registers, one register at a time. */
  lemma RowsCons(rs: seq<Reg>, n: nat, tail: seq<Setting>)
    requires rs != [] && rs[0].cpu < n && IsHexToken(rs[0].addrStr)
    requires ParseRows(Flatten(RegRecords(rs[1..])), n) == Some(tail)
    ensures ParseRows(Flatten(RegRecords(rs)), n) == Some([Setting(rs[0].cpu, StrToUL16(rs[0].addrStr), rs[0].value)] + tail)
  {
    var L := RegRecords(rs);
    assert L[1..] == RegRecords(rs[1..]);
    assert Flatten(L) == L[0] + Flatten(L[1..]);
    ParseRowsRow(rs[0], Flatten(L[1..]), n);
  }

  lemma SettingsCons(rs: seq<Reg>)
    requires rs != []
    ensures Settings(rs) == [Setting(rs[0].cpu, StrToUL16(rs[0].addrStr), rs[0].value)] + Settings(rs[1..])
  {
  }

  /** Reading the rows of saved registers back yields their numbers. */
  lemma {:induction false} ParseRowsOf(rs: seq<Reg>, n: nat)
    requires forall j | 0 <= j < |rs| :: rs[j].cpu < n && IsHexToken(rs[j].addrStr)
    ensures ParseRows(Flatten(RegRecords(rs)), n) == Some(Settings(rs))
    decreases |rs|
  {
    if rs == [] {
      assert RegRecords(rs) == [];
    } else {
      assert forall j | 0 <= j < |rs[1..]| :: rs[1..][j] == rs[j + 1];
      ParseRowsOf(rs[1..], n);
      RowsCons(rs, n, Settings(rs[1..]));
      SettingsCons(rs);
    }
  }

  /** The text of saved registers tokenises to their fields. */
  lemma RowsTokens(rs: seq<Reg>)
    requires forall j | 0 <= j < |rs| :: IsHexToken(rs[j].addrStr)
    ensures Tokens(SkipSpace(Records(RegRecords(rs)))) == Flatten(RegRecords(rs))
  {
    var L := RegRecords(rs);
    forall k | 0 <= k < |L| ensures |L[k]| > 0 && AllTokens(L[k]) {
      DecNoSpace(rs[k].cpu);
      DecNoSpace(rs[k].value);
      HexTokenIsToken(rs[k].addrStr);
    }
    TokensOfRecords(L);
    TokensOfSkipSpace(Records(L));
  }

  /** The entries write their addresses in hexadecimal, as `%lx` reads them back. */
  predicate HexAddresses(ls: seq<Line>)
  {
    forall k | 0 <= k < |ls| :: ls[k].Entry? ==> IsHexToken(ls[k].addrStr)
  }

  /** The replay of a dump holding the header and the rows of `rs`, on a node
      whose devices open, writes exactly those rows. */
  lemma RestoreOfRows(e: Env, w: World, rs: seq<Reg>)
    requires CanRead(e, w, MSRSAFE_DUMP) && NodesWritable(e, w)
    requires w.files[MSRSAFE_DUMP].data == MSR_HEADER + Records(RegRecords(rs))
    requires RowsFit(e, rs)
    ensures Restorable(e, w) && RestoreMsrSpec(e, w) == WriteRows(e, Outcome(w, 0), Settings(rs))
  {
    MsrHeaderSelfMatching();
    ScanOwnHeader(MSR_HEADER, Records(RegRecords(rs)));
    RowsTokens(rs);
    ParseRowsOf(rs, e.ncpus);
  }

  /** Every saved register belongs to a CPU, carries a hexadecimal address and
      holds the value the node had. */
  lemma SavedSettings(e: Env, w: World)
    requires DumpSucceeds(e, w) && HexAddresses(WhitelistLines(w))
    ensures RowsFit(e, SavedRegs(w, WhitelistLines(w), e.ncpus))
    ensures Agree(Settings(SavedRegs(w, WhitelistLines(w), e.ncpus)), w.regs)
  {
    var ls := WhitelistLines(w);
    var rs := SavedRegs(w, ls, e.ncpus);
    WhitelistAddrs(w);
    SavedRegsFacts(w, ls, e.ncpus);
    forall j | 0 <= j < |rs| ensures rs[j].cpu < e.ncpus && IsHexToken(rs[j].addrStr) {
      assert SavedFrom(w, ls, e.ncpus, rs[j]);
    }
  }

  /** Every saved register names a CPU and carries a hexadecimal address. */
  predicate RowsFit(e: Env, rs: seq<Reg>)
  {
    forall j | 0 <= j < |rs| :: rs[j].cpu < e.ncpus && IsHexToken(rs[j].addrStr)
  }

  /** Every row names a register of `regs` and carries the value it holds there. */
  predicate Agree(rs: seq<Setting>, regs: map<(nat, u64), u64>)
  {
    forall k | 0 <= k < |rs| :: (rs[k].cpu, rs[k].addr) in regs && regs[(rs[k].cpu, rs[k].addr)] == rs[k].value
  }

  /** Replaying rows that agree with `saved`, all writable, succeeds and
      restores exactly the registers they name. */
  lemma ReplayBack(e: Env, w: World, rs: seq<Setting>, saved: map<(nat, u64), u64>)
    requires Agree(rs, saved)
    requires forall key | key in Keys(rs) :: key in w.regs && key !in e.faults.msrNoWrite
    ensures WriteRows(e, Outcome(w, 0), rs).ret == 0
    ensures forall key | key in w.regs ::
      WriteRows(e, Outcome(w, 0), rs).w.regs[key] == if key in Keys(rs) then saved[key] else w.regs[key]
  {
    assert forall k | 0 <= k < |rs| :: (rs[k].cpu, rs[k].addr) in Keys(rs);
    WriteRowsRet(e, Outcome(w, 0), rs);
    WriteRowsBack(e, Outcome(w, 0), rs, saved);
  }

  /** The registers a successful dump saves. */
  function SavedKeys(e: Env, w: World): (ks: set<(nat, u64)>)
    requires DumpSucceeds(e, w) && HexAddresses(WhitelistLines(w))
    ensures ks <= w.regs.Keys
  {
    SavedSettings(e, w);
    Keys(Settings(SavedRegs(w, WhitelistLines(w), e.ncpus)))
  }

  /** Replaying the text a dump of the node `w` writes (`DumpMsrContent`) on a
      node `w'` whose dump file holds it succeeds when the saved registers can
      be written, puts back the value `w` had in every saved register, and
      leaves every other register of `w'` alone. */
  lemma MsrRoundTrip(e: Env, w: World, w': World)
    requires DumpSucceeds(e, w) && HexAddresses(WhitelistLines(w))
    requires MSRSAFE_DUMP in w'.files && w'.files[MSRSAFE_DUMP].data == SavedText(e, w)
    requires CanRead(e, w', MSRSAFE_DUMP) && NodesWritable(e, w')
    requires forall key | key in SavedKeys(e, w) :: key in w'.regs && key !in e.faults.msrNoWrite
    ensures Restorable(e, w') && RestoreMsrSpec(e, w').ret == 0
    ensures forall key | key in w'.regs ::
      RestoreMsrSpec(e, w').w.regs[key] == if key in SavedKeys(e, w) then w.regs[key] else w'.regs[key]
  {
    var rs := SavedRegs(w, WhitelistLines(w), e.ncpus);
    SavedSettings(e, w);
    RestoreOfRows(e, w', rs);
    ReplayBack(e, w', Settings(rs), w.regs);
  }

  // ---------------------------------------------------------------------
  // set_msrsafe

  /** The two nodes hold the same files with the same contents and the same
      registers; only modes may differ. */
  predicate SameContents(w: World, w': World)
  {
    && w'.files.Keys == w.files.Keys && w'.regs == w.regs
    && forall f | f in w.files :: w'.files[f].data == w.files[f].data
  }

  /** The permission toggles keep what msr_safe reads and writes. */
  lemma TogglesSameContents(e: Env, w: World, js: seq<Job>, conf: int)
    ensures SameContents(w, Toggles(e, Outcome(w, 0), js, conf).w)
  {
    forall f | f in w.files
      ensures Toggles(e, Outcome(w, 0), js, conf).w.files[f].data == w.files[f].data
    {
      TogglesKeep(e, Outcome(w, 0), js, conf, f);
    }
  }

  /** The saved registers depend on the registers alone. */
  lemma {:induction false} SavedRegsSame(w: World, w': World, ls: seq<Line>, n: nat)
    requires w'.regs == w.regs && WellFormed(ls) && AllPresent(w, ls, n)
    ensures AllPresent(w', ls, n) && SavedRegs(w', ls, n) == SavedRegs(w, ls, n)
    decreases |ls|
  {
    if ls != [] {
      var p := ls[..|ls| - 1];
      assert forall k | 0 <= k < |p| :: p[k] == ls[k];
      SavedRegsSame(w, w', p, n);
      var l := ls[|ls| - 1];
      if l.Entry? && l.mask > 0 {
        assert EntryRegs(w', l.addrStr, l.addr, n) == EntryRegs(w, l.addrStr, l.addr, n);
      }
    }
  }

  /** What the dump and the replay depend on is the same on nodes of the same contents. */
  lemma SameContentsMsr(e: Env, w: World, w': World)
    requires SameContents(w, w')
    ensures WhitelistOk(e, w') == WhitelistOk(e, w) && Restorable(e, w') == Restorable(e, w)
    ensures WHITELIST in w.files ==> WhitelistLines(w') == WhitelistLines(w)
    ensures DumpSucceeds(e, w') == DumpSucceeds(e, w)
    ensures NodesWritable(e, w') == NodesWritable(e, w)
  {
    if WHITELIST in w.files {
      assert WhitelistLines(w') == WhitelistLines(w);
    }
    assert NodeUnreadable(e, w') == NodeUnreadable(e, w);
  }

  /** `set_permissions_msrsafe` as `set_msrsafe` sees it: the toggles, which
      keep what the dump and the replay depend on. */
  function ToggleMsrsafe(e: Env, w: World, conf: int): (p: Outcome)
    ensures SameContents(w, p.w)
    ensures WhitelistOk(e, p.w) == WhitelistOk(e, w) && Restorable(e, p.w) == Restorable(e, w)
  {
    var p := Toggles(e, Outcome(w, 0), MsrPermissionJobs(e.ncpus), conf);
    TogglesSameContents(e, w, MsrPermissionJobs(e.ncpus), conf);
    SameContentsMsr(e, w, p.w);
    p
  }

  /** `set_msrsafe`: check (-1), toggle the permissions (-2), then on SET dump
      the registers (-3) and on RESET replay the dump (-4); every step runs,
      and the status names the last one that failed. */
  function SetMsrSpec(e: Env, w: World, conf: int): (o: Outcome)
    requires conf == SET ==> WhitelistOk(e, w)
    requires conf == RESET ==> Restorable(e, w)
    ensures conf == SET ==> o.w.regs == w.regs
    ensures conf != RESET ==> o.w.files.Keys >= w.files.Keys
    ensures conf == RESET ==> o.w.files.Keys == w.files.Keys && o.w.regs.Keys == w.regs.Keys
    ensures o.ret in {0, -1, -2, -3, -4}
  {
    var r0 := if CheckSpec(e, w) < 0 then -1 else 0;
    var p := ToggleMsrsafe(e, w, conf);
    var r1 := if p.ret < 0 then -2 else r0;
    if conf == SET then
      var d := DumpMsrSpec(e, p.w);
      Outcome(d.w, if d.ret < 0 then -3 else r1)
    else if conf == RESET then
      var r := RestoreMsrSpec(e, p.w);
      Outcome(r.w, if r.ret < 0 then -4 else r1)
    else Outcome(p.w, r1)
  }

  method SetMsrsafe(m: Machine, conf: int) returns (ret: int)
    requires conf == SET ==> WhitelistOk(m.env, m.State())
    requires conf == RESET ==> Restorable(m.env, m.State())
    modifies m
    ensures Outcome(m.State(), ret) == SetMsrSpec(m.env, old(m.State()), conf)
  {
    ret := 0;
    var r := CheckMsrsafe(m);
    if r < 0 {
      ret := -1;
    }
    ghost var w := m.State();
    r := SetPermissionsMsrsafe(m, conf);
    if r < 0 {
      ret := -2;
    }
    assert m.State() == ToggleMsrsafe(m.env, w, conf).w;
    if conf == SET {
      r := DumpMsrsafe(m);
      if r < 0 {
        ret := -3;
      }
    } else if conf == RESET {
      r := RestoreMsrsafe(m);
      if r < 0 {
        ret := -4;
      }
    }
  }

  /** The status is 0 exactly when every step succeeds; -3 and -4 report a
      failed dump or replay whatever came before, and -1 is reported only
      when the check is the one step that failed. */
  lemma SetMsrsafeRet(e: Env, w: World, conf: int)
    requires conf == SET ==> WhitelistOk(e, w)
    requires conf == RESET ==> Restorable(e, w)
    ensures var p := ToggleMsrsafe(e, w, conf);
      var last := if conf == SET then DumpMsrSpec(e, p.w).ret else if conf == RESET then RestoreMsrSpec(e, p.w).ret else 0;
      var o := SetMsrSpec(e, w, conf);
      && (o.ret == 0 <==> CheckSpec(e, w) >= 0 && p.ret >= 0 && last >= 0)
      && (o.ret == -1 <==> CheckSpec(e, w) < 0 && p.ret >= 0 && last >= 0)
      && (o.ret == -2 <==> p.ret < 0 && last >= 0)
      && (conf == SET ==> (o.ret == -3 <==> last < 0))
      && (conf == RESET ==> (o.ret == -4 <==> last < 0))
  {
  }

  /** SET leaves the dump a successful `dump_msrsafe` writes: the header and a
      row for every whitelisted register of every CPU. */
  lemma SetSavesRegisters(e: Env, w: World)
    requires DumpSucceeds(e, w)
    ensures var up := SetMsrSpec(e, w, SET);
      up.ret in {0, -1, -2} && MSRSAFE_DUMP in up.w.files && up.w.files[MSRSAFE_DUMP].data == SavedText(e, w)
  {
    var p := ToggleMsrsafe(e, w, SET);
    SameContentsMsr(e, w, p.w);
    DumpMsrContent(e, p.w);
    SavedRegsSame(w, p.w, WhitelistLines(w), e.ncpus);
  }

  /** SET, then whatever the job does to the registers, then RESET: when the
      dump SET wrote is still there and every saved register can be written,
      RESET puts back the value each saved register had before SET and leaves
      every other register as the job left it. */
  lemma SetResetRoundTrip(e: Env, w: World, w': World)
    requires DumpSucceeds(e, w) && HexAddresses(WhitelistLines(w))
    requires MSRSAFE_DUMP in w'.files && w'.files[MSRSAFE_DUMP].data == SetMsrSpec(e, w, SET).w.files[MSRSAFE_DUMP].data
    requires CanRead(e, w', MSRSAFE_DUMP) && NodesWritable(e, w')
    requires forall key | key in SavedKeys(e, w) :: key in w'.regs && key !in e.faults.msrNoWrite
    ensures Restorable(e, w')
    ensures forall key | key in w'.regs ::
      SetMsrSpec(e, w', RESET).w.regs[key] == if key in SavedKeys(e, w) then w.regs[key] else w'.regs[key]
  {
    SetSavesRegisters(e, w);
    var p := ToggleMsrsafe(e, w', RESET);
    SameContentsMsr(e, w', p.w);
    MsrRoundTrip(e, w, p.w);
  }

  /** SET changes the contents of no file other than the dump. */
  lemma SetMsrKeepsOthers(e: Env, w: World, f: string)
    requires WhitelistOk(e, w) && f != MSRSAFE_DUMP && f in w.files
    ensures f in SetMsrSpec(e, w, SET).w.files && SetMsrSpec(e, w, SET).w.files[f].data == w.files[f].data
  {
    var p := ToggleMsrsafe(e, w, SET);
    assert p.w.files[f].data == w.files[f].data;
  }
}
