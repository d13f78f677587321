/**
 * src/common.c: `str_to_bool`, the four permission toggles, and the
 * single-token read and write of a control file.
 *
 * A toggle changes the "other" bits of a file's mode: `S_IROTH` (others may
 * read) and `S_IWOTH` (others may write). `Toggles` runs a list of toggles
 * the way the adapters' `set_permissions_*` loops do, keeping the status of
 * the last failing one.
 */
module Common {
  import opened Text
  import opened Paths
  import opened Node

  // ---------------------------------------------------------------------
  // str_to_bool

  const TRUE_WORDS: set<string> := {"enable", "on", "yes", "1"}

  /** `str_to_bool`: a case-insensitive comparison with each accepted word. */
  function StrToBool(s: Option<string>): (b: bool)
    ensures b <==> s.Some? && LowerAll(s.value) in TRUE_WORDS
  {
    if s.None? then false
    else
      FoldedEquals(s.value, "enable");
      FoldedEquals(s.value, "on");
      FoldedEquals(s.value, "yes");
      FoldedEquals(s.value, "1");
      EqualsIgnoreCase(s.value, "enable") || EqualsIgnoreCase(s.value, "on")
      || EqualsIgnoreCase(s.value, "yes") || EqualsIgnoreCase(s.value, "1")
  }

  predicate IsLowerCase(t: string) { forall i | 0 <= i < |t| :: !('A' <= t[i] <= 'Z') }

  /** Against a word in lower case, `strcasecmp` is comparison after case folding. */
  lemma FoldedEquals(s: string, t: string)
    requires IsLowerCase(t)
    ensures LowerAll(s) == t <==> EqualsIgnoreCase(s, t)
  {
    if EqualsIgnoreCase(s, t) {
      forall i | 0 <= i < |s| ensures LowerAll(s)[i] == t[i] {
        assert Lower(t[i]) == t[i];
      }
    }
  }

  // ---------------------------------------------------------------------
  // The mode arithmetic.

  /** Others may read (octal 0004, bit 2) and others may write (octal 0002, bit 1). */
  const S_IROTH: Mode := {2}
  const S_IWOTH: Mode := {1}

  /** `set_read_permission`: SET grants others read, RESET revokes it. */
  function ReadPermissionMode(mode: Mode, conf: int): Mode
  {
    if conf == SET then mode + S_IROTH
    else if conf == RESET then mode - S_IROTH
    else mode
  }

  /** `set_write_permission`: SET grants others write, RESET revokes it. */
  function WritePermissionMode(mode: Mode, conf: int): Mode
  {
    if conf == SET then mode + S_IWOTH
    else if conf == RESET then mode - S_IWOTH
    else mode
  }

  /** `set_read_write_permission`: SET grants both, RESET revokes both. */
  function ReadWritePermissionMode(mode: Mode, conf: int): Mode
  {
    if conf == SET then mode + S_IROTH + S_IWOTH
    else if conf == RESET then mode - S_IROTH - S_IWOTH
    else mode
  }

  /** `set_read_no_write_permission`: SET grants both, but RESET revokes only
      the write bit, so others keep read access afterwards. */
  function ReadNoWritePermissionMode(mode: Mode, conf: int): Mode
  {
    if conf == SET then mode + S_IROTH + S_IWOTH
    else if conf == RESET then mode - S_IWOTH
    else mode
  }

  /** The four toggles of src/common.c. */
  datatype Toggle = OtherRead | OtherWrite | OtherReadWrite | OtherReadNoWrite

  function NewMode(t: Toggle, mode: Mode, conf: int): Mode
  {
    match t
    case OtherRead => ReadPermissionMode(mode, conf)
    case OtherWrite => WritePermissionMode(mode, conf)
    case OtherReadWrite => ReadWritePermissionMode(mode, conf)
    case OtherReadNoWrite => ReadNoWritePermissionMode(mode, conf)
  }

  /** Bit by bit: SET turns on the other-read bit (2) for every toggle but the
      write one and the other-write bit (1) for every toggle but the read one;
      RESET turns off bit 2 only for the read and read/write toggles and bit 1
      for all but the read one; any other `conf` changes nothing, and no other
      bit ever changes. */
  lemma ToggleBits(t: Toggle, mode: Mode, conf: int)
    ensures var r := NewMode(t, mode, conf);
      && (forall b | b != 1 && b != 2 :: b in r <==> b in mode)
      && (conf == SET ==> (2 in r <==> 2 in mode || t != OtherWrite) && (1 in r <==> 1 in mode || t != OtherRead))
      && (conf == RESET ==>
            (2 in r <==> 2 in mode && (t == OtherWrite || t == OtherReadNoWrite))
            && (1 in r <==> 1 in mode && t == OtherRead))
      && (conf != SET && conf != RESET ==> r == mode)
  {
  }

  /** Applying a toggle twice with the same `conf` is applying it once. */
  lemma ToggleIdempotent(t: Toggle, mode: Mode, conf: int)
    ensures NewMode(t, NewMode(t, mode, conf), conf) == NewMode(t, mode, conf)
  {
  }

  /** SET then RESET of the read/write toggle leaves both other bits clear. */
  lemma ReadWriteSetReset(mode: Mode)
    ensures var r := NewMode(OtherReadWrite, NewMode(OtherReadWrite, mode, SET), RESET);
      2 !in r && 1 !in r
  {
  }

  /** SET then RESET of the read-no-write toggle leaves others the read bit,
      whatever the start mode: the toggle does not undo itself. */
  lemma ReadNoWriteAsymmetric(mode: Mode)
    ensures var r := NewMode(OtherReadNoWrite, NewMode(OtherReadNoWrite, mode, SET), RESET);
      2 in r && 1 !in r
  {
  }

  // ---------------------------------------------------------------------
  // One toggle on a file.

  /** The toggle reaches `chmod` and `chmod` succeeds. */
  predicate Toggleable(e: Env, w: World, file: string)
  {
    file in w.files && file !in e.faults.noStat && file !in e.faults.noChmod
  }

  /** Any of the four `set_*_permission` functions: -1 when the file does not
      exist, -2 when `stat` fails, -3 when `chmod` fails, else 0 with the new mode. */
  function Permission(e: Env, w: World, file: string, t: Toggle, conf: int): (o: Outcome)
    ensures o.ret == 0 <==> Toggleable(e, w, file)
    ensures o.ret == -1 <==> file !in w.files
    ensures o.ret in {0, -1, -2, -3}
    ensures o.ret != 0 ==> o.w == w
    ensures o.ret == 0 ==> o.w == w.(files := w.files[file := w.files[file].(mode := NewMode(t, w.files[file].mode, conf))])
  {
    if file !in w.files then Outcome(w, -1)
    else if file in e.faults.noStat then Outcome(w, -2)
    else if file in e.faults.noChmod then Outcome(w, -3)
    else Outcome(w.(files := w.files[file := w.files[file].(mode := NewMode(t, w.files[file].mode, conf))]), 0)
  }

  method SetPermission(m: Machine, file: string, t: Toggle, conf: int) returns (ret: int)
    modifies m
    ensures Outcome(m.State(), ret) == Permission(m.env, old(m.State()), file, t, conf)
  {
    if file !in m.files {
      return -1;
    }
    if file in m.env.faults.noStat {
      return -2;
    }
    var mode := NewMode(t, m.files[file].mode, conf);
    if file in m.env.faults.noChmod {
      return -3;
    }
    m.files := m.files[file := m.files[file].(mode := mode)];
    return 0;
  }

  // ---------------------------------------------------------------------
  // A sequence of toggles, each with the status it records on failure.

  datatype Job = Job(file: string, t: Toggle, code: int)

  /** One step of a `set_permissions_*` loop: `if(toggle(file) < 0) ret = code;`. */
  function Apply(e: Env, o: Outcome, j: Job, conf: int): Outcome
  {
    var r := Permission(e, o.w, j.file, j.t, conf);
    Outcome(r.w, if r.ret < 0 then j.code else o.ret)
  }

  /** The jobs run in order; toggles change modes and nothing else. */
  function Toggles(e: Env, o: Outcome, js: seq<Job>, conf: int): (r: Outcome)
    ensures r.w.regs == o.w.regs
    ensures r.w.files.Keys == o.w.files.Keys
    decreases |js|
  {
    if js == [] then o else Apply(e, Toggles(e, o, js[..|js| - 1], conf), js[|js| - 1], conf)
  }

  /** `if(set_*_permission(j.file, conf) < 0) ret = j.code;` */
  method RunJob(m: Machine, j: Job, conf: int, ret: int) returns (ret': int)
    modifies m
    ensures Outcome(m.State(), ret') == Apply(m.env, Outcome(old(m.State()), ret), j, conf)
  {
    var r := SetPermission(m, j.file, j.t, conf);
    ret' := if r < 0 then j.code else ret;
  }

  lemma TogglesSnoc(e: Env, o: Outcome, js: seq<Job>, j: Job, conf: int)
    ensures Toggles(e, o, js + [j], conf) == Apply(e, Toggles(e, o, js, conf), j, conf)
  {
    assert (js + [j])[..|js|] == js;
  }

  /** The four toggles of one CPU of a loop, one after the other. */
  lemma TogglesBlock4(e: Env, o: Outcome, js: seq<Job>, b: seq<Job>, conf: int)
    requires |b| == 4
    ensures Toggles(e, o, js + b, conf) ==
      Apply(e, Apply(e, Apply(e, Apply(e, Toggles(e, o, js, conf), b[0], conf), b[1], conf), b[2], conf), b[3], conf)
  {
    assert js + b == js + [b[0]] + [b[1]] + [b[2]] + [b[3]];
    TogglesSnoc(e, o, js, b[0], conf);
    TogglesSnoc(e, o, js + [b[0]], b[1], conf);
    TogglesSnoc(e, o, js + [b[0]] + [b[1]], b[2], conf);
    TogglesSnoc(e, o, js + [b[0]] + [b[1]] + [b[2]], b[3], conf);
  }

  /** The three toggles of one CPU of a loop, one after the other. */
  lemma TogglesBlock3(e: Env, o: Outcome, js: seq<Job>, b: seq<Job>, conf: int)
    requires |b| == 3
    ensures Toggles(e, o, js + b, conf) ==
      Apply(e, Apply(e, Apply(e, Toggles(e, o, js, conf), b[0], conf), b[1], conf), b[2], conf)
  {
    assert js + b == js + [b[0]] + [b[1]] + [b[2]];
    TogglesSnoc(e, o, js, b[0], conf);
    TogglesSnoc(e, o, js + [b[0]], b[1], conf);
    TogglesSnoc(e, o, js + [b[0]] + [b[1]], b[2], conf);
  }

  lemma {:induction false} TogglesAppend(e: Env, o: Outcome, a: seq<Job>, b: seq<Job>, conf: int)
    ensures Toggles(e, o, a + b, conf) == Toggles(e, Toggles(e, o, a, conf), b, conf)
    decreases |b|
  {
    if b != [] {
      var b' := b[..|b| - 1];
      assert (a + b)[..|a + b| - 1] == a + b';
      assert (a + b)[|a + b| - 1] == b[|b| - 1];
      TogglesAppend(e, o, a, b', conf);
    } else {
      assert a + b == a;
    }
  }

  /** The jobs of one CPU `i` of a `set_permissions_*` loop: one per control
      file kind, in order, each with its failure code. */
  function CpuBlock(kinds: seq<(CpuKind, int)>, t: Toggle, i: nat): (js: seq<Job>)
    ensures |js| == |kinds|
    ensures forall k | 0 <= k < |kinds| :: js[k] == Job(Name(Cpu(kinds[k].0, i)), t, kinds[k].1)
  {
    seq(|kinds|, k requires 0 <= k < |kinds| => Job(Name(Cpu(kinds[k].0, i)), t, kinds[k].1))
  }

  /** The jobs of CPUs 0 .. n-1 in ascending order. */
  function CpuJobs(kinds: seq<(CpuKind, int)>, t: Toggle, n: nat): (js: seq<Job>)
    ensures forall k | 0 <= k < |js| :: js[k].t == t
  {
    if n == 0 then [] else CpuJobs(kinds, t, n - 1) + CpuBlock(kinds, t, n - 1)
  }

  /** Every CPU below `n` has a job for every kind. */
  lemma {:induction false} CpuJobsCover(kinds: seq<(CpuKind, int)>, t: Toggle, n: nat, i: nat, k: nat)
    requires i < n && k < |kinds|
    ensures Job(Name(Cpu(kinds[k].0, i)), t, kinds[k].1) in CpuJobs(kinds, t, n)
    decreases n
  {
    var p := CpuJobs(kinds, t, n - 1);
    var b := CpuBlock(kinds, t, n - 1);
    assert CpuJobs(kinds, t, n) == p + b;
    if i == n - 1 {
      assert b[k] in b;
    } else {
      CpuJobsCover(kinds, t, n - 1, i, k);
    }
  }

  /** Every job belongs to a CPU below `n` and to one of the kinds. */
  lemma {:induction false} CpuJobsOnly(kinds: seq<(CpuKind, int)>, t: Toggle, n: nat, l: nat)
    requires l < |CpuJobs(kinds, t, n)|
    ensures exists i, k | 0 <= i < n && 0 <= k < |kinds| ::
      CpuJobs(kinds, t, n)[l] == Job(Name(Cpu(kinds[k].0, i)), t, kinds[k].1)
    decreases n
  {
    var p := CpuJobs(kinds, t, n - 1);
    var b := CpuBlock(kinds, t, n - 1);
    assert CpuJobs(kinds, t, n) == p + b;
    if l < |p| {
      CpuJobsOnly(kinds, t, n - 1, l);
      var i, k :| 0 <= i < n - 1 && 0 <= k < |kinds| && p[l] == Job(Name(Cpu(kinds[k].0, i)), t, kinds[k].1);
      assert CpuJobs(kinds, t, n)[l] == p[l];
    } else {
      assert CpuJobs(kinds, t, n)[l] == b[l - |p|];
    }
  }

  lemma CpuJobsCodes(kinds: seq<(CpuKind, int)>, t: Toggle, n: nat)
    requires forall k | 0 <= k < |kinds| :: kinds[k].1 < 0
    ensures forall l | 0 <= l < |CpuJobs(kinds, t, n)| :: CpuJobs(kinds, t, n)[l].code < 0
  {
    forall l | 0 <= l < |CpuJobs(kinds, t, n)| ensures CpuJobs(kinds, t, n)[l].code < 0 {
      CpuJobsOnly(kinds, t, n, l);
    }
  }

  /** The jobs name exactly the files of the kinds on CPUs 0 .. n-1. */
  lemma CpuJobsToggleable(e: Env, w: World, kinds: seq<(CpuKind, int)>, t: Toggle, n: nat)
    ensures (forall l | 0 <= l < |CpuJobs(kinds, t, n)| :: Toggleable(e, w, CpuJobs(kinds, t, n)[l].file)) <==>
      (forall i, k | 0 <= i < n && 0 <= k < |kinds| :: Toggleable(e, w, Name(Cpu(kinds[k].0, i))))
  {
    var js := CpuJobs(kinds, t, n);
    if forall l | 0 <= l < |js| :: Toggleable(e, w, js[l].file) {
      forall i, k | 0 <= i < n && 0 <= k < |kinds| ensures Toggleable(e, w, Name(Cpu(kinds[k].0, i))) {
        CpuJobsCover(kinds, t, n, i, k);
      }
    }
    if forall i, k | 0 <= i < n && 0 <= k < |kinds| :: Toggleable(e, w, Name(Cpu(kinds[k].0, i))) {
      forall l | 0 <= l < |js| ensures Toggleable(e, w, js[l].file) {
        CpuJobsOnly(kinds, t, n, l);
      }
    }
  }

  /** Jobs that all use one toggle are consistent. */
  lemma OneToggle(js: seq<Job>, t: Toggle)
    requires forall k | 0 <= k < |js| :: js[k].t == t
    ensures Consistent(js)
  {
  }

  /** The code of the last job whose file cannot be toggled, or `dflt` when each can. */
  function LastFailure(e: Env, w: World, js: seq<Job>, dflt: int): int
    decreases |js|
  {
    if js == [] then dflt
    else if !Toggleable(e, w, js[|js| - 1].file) then js[|js| - 1].code
    else LastFailure(e, w, js[..|js| - 1], dflt)
  }

  /** A failure does not stop the sequence; the status is that of the last failure. */
  lemma {:induction false} TogglesRet(e: Env, o: Outcome, js: seq<Job>, conf: int)
    ensures Toggles(e, o, js, conf).ret == LastFailure(e, o.w, js, o.ret)
    decreases |js|
  {
    if js != [] {
      TogglesRet(e, o, js[..|js| - 1], conf);
    }
  }

  lemma {:induction false} LastFailureZero(e: Env, w: World, js: seq<Job>)
    requires forall k | 0 <= k < |js| :: js[k].code < 0
    ensures LastFailure(e, w, js, 0) == 0 <==> forall k | 0 <= k < |js| :: Toggleable(e, w, js[k].file)
    decreases |js|
  {
    if js != [] {
      var p := js[..|js| - 1];
      assert forall k | 0 <= k < |p| :: p[k] == js[k];
      LastFailureZero(e, w, p);
    }
  }

  /** Starting from 0, the sequence returns 0 exactly when every file can be toggled. */
  lemma TogglesSucceed(e: Env, w: World, js: seq<Job>, conf: int)
    requires forall k | 0 <= k < |js| :: js[k].code < 0
    ensures Toggles(e, Outcome(w, 0), js, conf).ret == 0 <==>
      forall k | 0 <= k < |js| :: Toggleable(e, w, js[k].file)
  {
    TogglesRet(e, Outcome(w, 0), js, conf);
    LastFailureZero(e, w, js);
  }

  /** Jobs on the same file use the same toggle. */
  predicate Consistent(js: seq<Job>)
  {
    forall k, l | 0 <= k < |js| && 0 <= l < |js| && js[k].file == js[l].file :: js[k].t == js[l].t
  }

  predicate Mentions(js: seq<Job>, f: string)
  {
    exists k | 0 <= k < |js| :: js[k].file == f
  }

  /** What the last job does to one file. */
  lemma TogglesLast(e: Env, o: Outcome, js: seq<Job>, conf: int, f: string)
    requires js != [] && f in o.w.files
    ensures var p := Toggles(e, o, js[..|js| - 1], conf).w.files[f];
      var j := js[|js| - 1];
      Toggles(e, o, js, conf).w.files[f] ==
        if f == j.file && Toggleable(e, o.w, f) then p.(mode := NewMode(j.t, p.mode, conf)) else p
  {
  }

  /** Toggles change modes only: every file keeps its contents and its owner. */
  lemma {:induction false} TogglesKeep(e: Env, o: Outcome, js: seq<Job>, conf: int, f: string)
    requires f in o.w.files
    ensures var r := Toggles(e, o, js, conf).w.files[f];
      r.data == o.w.files[f].data && r.owner == o.w.files[f].owner
    decreases |js|
  {
    if js != [] {
      TogglesKeep(e, o, js[..|js| - 1], conf, f);
      TogglesLast(e, o, js, conf, f);
    }
  }

  /** A file no job names is unchanged. */
  lemma {:induction false} TogglesUnmentioned(e: Env, o: Outcome, js: seq<Job>, conf: int, f: string)
    requires f in o.w.files && !Mentions(js, f)
    ensures Toggles(e, o, js, conf).w.files[f] == o.w.files[f]
    decreases |js|
  {
    if js != [] {
      var n := |js| - 1;
      var js' := js[..n];
      assert !Mentions(js', f) by {
        assert forall k | 0 <= k < n :: js'[k] == js[k];
      }
      TogglesUnmentioned(e, o, js', conf, f);
      TogglesLast(e, o, js, conf, f);
    }
  }

  /** A file that cannot be toggled is unchanged. */
  lemma {:induction false} TogglesUntoggleable(e: Env, o: Outcome, js: seq<Job>, conf: int, f: string)
    requires f in o.w.files && !Toggleable(e, o.w, f)
    ensures Toggles(e, o, js, conf).w.files[f] == o.w.files[f]
    decreases |js|
  {
    if js != [] {
      TogglesUntoggleable(e, o, js[..|js| - 1], conf, f);
      TogglesLast(e, o, js, conf, f);
    }
  }

  /** Every file the jobs name gets its toggle's mode, once however often it is named. */
  lemma {:induction false} TogglesNamed(e: Env, o: Outcome, js: seq<Job>, conf: int, k: nat)
    requires Consistent(js) && k < |js| && Toggleable(e, o.w, js[k].file)
    ensures Toggles(e, o, js, conf).w.files[js[k].file].mode == NewMode(js[k].t, o.w.files[js[k].file].mode, conf)
    decreases |js|
  {
    var n := |js| - 1;
    var js' := js[..n];
    var j := js[n];
    var f := js[k].file;
    assert Consistent(js') by {
      assert forall i | 0 <= i < n :: js'[i] == js[i];
    }
    TogglesLast(e, o, js, conf, f);
    if f != j.file {
      assert js'[k] == js[k];
      TogglesNamed(e, o, js', conf, k);
    } else if Mentions(js', f) {
      var l :| 0 <= l < n && js'[l].file == f;
      assert js[l] == js'[l];
      TogglesNamed(e, o, js', conf, l);
      ToggleIdempotent(j.t, o.w.files[f].mode, conf);
    } else {
      TogglesUnmentioned(e, o, js', conf, f);
    }
  }

  // ---------------------------------------------------------------------
  // read_str_from_file and write_str_to_file

  /** A `fscanf` result: the buffer afterwards and the value returned. */
  datatype Scan = Scan(buf: string, ret: int)

  /** The file can be opened and holds at least one token. */
  predicate Readable(e: Env, w: World, file: string)
  {
    CanRead(e, w, file) && First(w.files[file].data).Some?
  }

  function FirstToken(w: World, file: string): (t: string)
    requires file in w.files && First(w.files[file].data).Some?
    ensures IsToken(t)
  {
    First(w.files[file].data).value
  }

  /** `read_str_from_file`: -1 when the file cannot be opened; otherwise what
      `fscanf(fd, "%s", str)` returns, 1 with the first token, or EOF (-1)
      when the file holds no token. On failure the buffer keeps what it had. */
  function ReadStr(e: Env, w: World, file: string, buf: string): (r: Scan)
    ensures r.ret == 1 || (r.ret == -1 && r.buf == buf)
    ensures r.ret == 1 <==> Readable(e, w, file)
    ensures r.ret == 1 ==> IsToken(r.buf) && r.buf == FirstToken(w, file)
  {
    if !CanRead(e, w, file) then Scan(buf, -1)
    else
      var t := First(w.files[file].data);
      if t.None? then Scan(buf, -1) else Scan(t.value, 1)
  }

  method ReadStrFromFile(m: Machine, file: string, buf: string) returns (str: string, ret: int)
    ensures Scan(str, ret) == ReadStr(m.env, m.State(), file, buf)
  {
    if file !in m.files || file in m.env.faults.noRead {
      return buf, -1;
    }
    var t := First(m.files[file].data);
    if t.None? {
      return buf, -1;
    }
    return t.value, 1;
  }

  /** `write_str_to_file`: -1 when `fopen(file, "w")` fails; otherwise the file
      is emptied and `fprintf(fd, "%s", str)` writes the string. */
  function WriteStr(e: Env, w: World, file: string, v: string): (o: Outcome)
    ensures o.ret < 0 <==> file in e.faults.noWrite || (file, v) in e.faults.noStream
    ensures o.w.regs == w.regs
    ensures file in e.faults.noWrite ==> o.w == w
    ensures file !in e.faults.noWrite ==> o.w.files.Keys == w.files.Keys + {file}
    ensures forall f | f in w.files && f != file :: o.w.files[f] == w.files[f]
    ensures file !in e.faults.noWrite ==>
      file in o.w.files && o.w.files[file].data == (if o.ret < 0 then [] else v)
    ensures file !in e.faults.noWrite && file in w.files ==>
      o.w.files[file].mode == w.files[file].mode && o.w.files[file].owner == w.files[file].owner
    ensures file !in e.faults.noWrite && file !in w.files ==> o.w.files[file].owner == e.uid
  {
    var op := OpenWrite(e, w, file);
    if op.ret < 0 then op
    else
      assert [] + v == v;
      Print(e, op.w, file, v)
  }

  method WriteStrToFile(m: Machine, file: string, v: string) returns (ret: int)
    modifies m
    ensures Outcome(m.State(), ret) == WriteStr(m.env, old(m.State()), file, v)
  {
    ret := FopenWrite(m, file);
    if ret < 0 {
      return -1;
    }
    ret := Fprintf(m, file, v);
  }

  /** Writing a single token and reading the file back yields that token. */
  lemma WriteThenRead(e: Env, w: World, file: string, v: string, buf: string)
    requires IsToken(v)
    requires file !in e.faults.noWrite && (file, v) !in e.faults.noStream && file !in e.faults.noRead
    ensures ReadStr(e, WriteStr(e, w, file, v).w, file, buf) == Scan(v, 1)
  {
    var w' := WriteStr(e, w, file, v).w;
    assert w'.files[file].data == v;
    FirstOfToken(v);
  }

  /** The permission toggles change no contents, so every read sees the same token. */
  lemma TogglesKeepReads(e: Env, w: World, js: seq<Job>, conf: int, f: string, buf: string)
    ensures ReadStr(e, Toggles(e, Outcome(w, 0), js, conf).w, f, buf) == ReadStr(e, w, f, buf)
  {
    if f in w.files {
      TogglesKeep(e, Outcome(w, 0), js, conf, f);
    }
  }

  /** A read sees only the file it reads. */
  lemma SameFileReads(e: Env, w: World, w': World, f: string, buf: string)
    requires SameFile(w, w', f)
    ensures ReadStr(e, w', f, buf) == ReadStr(e, w, f, buf)
  {
  }

  /** `write_str_to_file` leaves every other file as it was. */
  lemma WriteStrOthers(e: Env, w: World, file: string, v: string, f: string)
    requires f != file
    ensures SameFile(w, WriteStr(e, w, file, v).w, f)
  {
  }
}
