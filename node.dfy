/**
 * The node the plugin runs on, reduced to what the plugin observes of it:
 * the files it opens (sysfs control files, the msr_safe devices, the
 * snapshot files under /tmp) and the model-specific registers behind the
 * per-CPU msr_safe devices.
 *
 * Which system calls fail is not something the plugin decides; it is an
 * oracle of the environment (`Faults`): a call on a file in the matching
 * set fails, every other call succeeds.
 */
module Node {
  import opened Text

  /** A file mode (`st_mode`) as the set of positions of its one bits:
      `mode | S_IROTH` is `mode + S_IROTH`, `mode & ~S_IROTH` is `mode - S_IROTH`. */
  type Mode = set<nat>

  /** A file: its contents, its permission bits (`st_mode`) and its owner (`st_uid`). */
  datatype File = File(data: string, mode: Mode, owner: nat)

  /** The calls that fail. */
  datatype Faults = Faults(
    noRead: set<string>,              // fopen(.., "r") and open(.., O_RDONLY) fail
    noWrite: set<string>,             // fopen(.., "w") and open(.., O_WRONLY) fail
    noStat: set<string>,              // stat fails
    noChmod: set<string>,             // chmod fails
    noStream: set<(string, string)>,  // fprintf of this text to this open file fails
    msrNoWrite: set<(nat, u64)>)      // an 8-byte pwrite to this register fails

  /** What does not change while the plugin runs: the number of online CPUs
      (`sysconf(_SC_NPROCESSORS_ONLN)`), the uid of the slurm daemon
      (`getuid()`), the mode a newly created file gets, and the faults. */
  datatype Env = Env(ncpus: nat, uid: nat, createMode: Mode, faults: Faults)

  /** The state the plugin changes: files by name, and registers by (CPU, address).
      A register that is absent cannot be read (`pread` returns less than 8 bytes). */
  datatype World = World(files: map<string, File>, regs: map<(nat, u64), u64>)

  /** The state after an operation and the status code the operation returns. */
  datatype Outcome = Outcome(w: World, ret: int)

  /** `w` and `w'` agree on file `f`: both lack it, or both hold the same file. */
  predicate SameFile(w: World, w': World, f: string)
  {
    (f in w.files <==> f in w'.files) && (f in w.files ==> w.files[f] == w'.files[f])
  }

  /** `w` and `w'` agree on register `r`. */
  predicate SameReg(w: World, w': World, r: (nat, u64))
  {
    (r in w.regs <==> r in w'.regs) && (r in w.regs ==> w.regs[r] == w'.regs[r])
  }

  lemma SameFileTrans(a: World, b: World, c: World, f: string)
    requires SameFile(a, b, f) && SameFile(b, c, f)
    ensures SameFile(a, c, f)
  {
  }

  lemma SameRegTrans(a: World, b: World, c: World, r: (nat, u64))
    requires SameReg(a, b, r) && SameReg(b, c, r)
    ensures SameReg(a, c, r)
  {
  }

  class Machine {
    const env: Env
    var files: map<string, File>
    var regs: map<(nat, u64), u64>

    function State(): World
      reads this
    {
      World(files, regs)
    }

    constructor (env: Env, w: World)
      ensures this.env == env && State() == w
    {
      this.env := env;
      files := w.files;
      regs := w.regs;
    }
  }

  // ---------------------------------------------------------------------
  // The system calls, as operations on the node.

  /** `access(file, F_OK) == 0`. */
  predicate Exists(w: World, file: string) { file in w.files }

  /** `fopen(file, "r")` or `open(file, O_RDONLY)` succeeds. */
  predicate CanRead(e: Env, w: World, file: string)
  {
    file in w.files && file !in e.faults.noRead
  }

  /** `open(file, O_WRONLY)` succeeds: the file must exist, since it is not created. */
  predicate CanOpenWrite(e: Env, w: World, file: string)
  {
    file in w.files && file !in e.faults.noWrite
  }

  /** What `fopen(file, "w")` leaves behind: the file emptied, keeping its mode
      and owner, or a new empty file owned by the caller. */
  function Truncated(e: Env, w: World, file: string): (f: File)
    ensures f.data == []
    ensures file in w.files ==> f.mode == w.files[file].mode && f.owner == w.files[file].owner
    ensures file !in w.files ==> f.owner == e.uid
  {
    if file in w.files then w.files[file].(data := []) else File([], e.createMode, e.uid)
  }

  /** `fopen(file, "w")`; fails exactly on the files in `noWrite`. */
  function OpenWrite(e: Env, w: World, file: string): (o: Outcome)
    ensures o.ret == 0 || o.ret == -1
    ensures o.ret == 0 <==> file !in e.faults.noWrite
    ensures o.ret == 0 ==> file in o.w.files && o.w.files[file].data == []
  {
    if file in e.faults.noWrite then Outcome(w, -1)
    else Outcome(w.(files := w.files[file := Truncated(e, w, file)]), 0)
  }

  /** `fprintf(stream, "%s", text)` on an open stream: appends `text` and returns
      the number of characters written, or fails with nothing written. */
  function Print(e: Env, w: World, file: string, text: string): (o: Outcome)
    requires file in w.files
    ensures o.ret == |text| || o.ret == -1
    ensures o.ret < 0 <==> (file, text) in e.faults.noStream
    ensures o.ret >= 0 ==> o.w.files == w.files[file := w.files[file].(data := w.files[file].data + text)]
    ensures o.ret < 0 ==> o.w == w
    ensures o.w.regs == w.regs
  {
    if (file, text) in e.faults.noStream then Outcome(w, -1)
    else Outcome(w.(files := w.files[file := w.files[file].(data := w.files[file].data + text)]), |text|)
  }

  /** What a `fprintf` of `text` to the open file `file` leaves of the text
      written to it so far (`out`), and what it returns: `Print` on the file's
      contents alone. */
  datatype Printed = Printed(out: string, ret: int)

  function Emit(e: Env, file: string, out: string, text: string): (p: Printed)
  {
    if (file, text) in e.faults.noStream then Printed(out, -1) else Printed(out + text, |text|)
  }

  /** The node with `file` holding `out`. */
  function Written(w: World, file: string, out: string): World
    requires file in w.files
  {
    w.(files := w.files[file := w.files[file].(data := out)])
  }

  /** `Print` is `Emit` on the file's contents. */
  lemma PrintEmits(e: Env, w: World, file: string, text: string)
    requires file in w.files
    ensures var p := Emit(e, file, w.files[file].data, text);
      Print(e, w, file, text) == Outcome(Written(w, file, p.out), p.ret)
  {
    if (file, text) !in e.faults.noStream {
    } else {
      assert w.files[file := w.files[file].(data := w.files[file].data)] == w.files;
    }
  }

  /** `pread(fd, &data, 8, addr) == 8` on the msr_safe device of `cpu`. */
  function Pread(w: World, cpu: nat, addr: u64): (r: Option<u64>)
    ensures r.Some? <==> (cpu, addr) in w.regs
    ensures r.Some? ==> r.value == w.regs[(cpu, addr)]
  {
    if (cpu, addr) in w.regs then Some(w.regs[(cpu, addr)]) else None
  }

  /** `pwrite(fd, &value, 8, addr) == 8` on the msr_safe device of `cpu`. */
  function Pwrite(e: Env, w: World, cpu: nat, addr: u64, value: u64): (o: Outcome)
    ensures o.ret == 0 <==> (cpu, addr) in w.regs && (cpu, addr) !in e.faults.msrNoWrite
    ensures o.ret == 0 ==> o.w.regs == w.regs[(cpu, addr) := value]
    ensures o.ret != 0 ==> o.ret == -1 && o.w == w
    ensures o.w.files == w.files
  {
    if (cpu, addr) in w.regs && (cpu, addr) !in e.faults.msrNoWrite then
      Outcome(w.(regs := w.regs[(cpu, addr) := value]), 0)
    else Outcome(w, -1)
  }

  method FopenWrite(m: Machine, file: string) returns (ret: int)
    modifies m
    ensures Outcome(m.State(), ret) == OpenWrite(m.env, old(m.State()), file)
  {
    if file in m.env.faults.noWrite {
      return -1;
    }
    m.files := m.files[file := Truncated(m.env, m.State(), file)];
    return 0;
  }

  method Fprintf(m: Machine, file: string, text: string) returns (ret: int)
    requires file in m.files
    modifies m
    ensures Outcome(m.State(), ret) == Print(m.env, old(m.State()), file, text)
  {
    if (file, text) in m.env.faults.noStream {
      return -1;
    }
    m.files := m.files[file := m.files[file].(data := m.files[file].data + text)];
    return |text|;
  }

  method PreadMsr(m: Machine, cpu: nat, addr: u64) returns (r: Option<u64>)
    ensures r == Pread(m.State(), cpu, addr)
  {
    if (cpu, addr) in m.regs {
      return Some(m.regs[(cpu, addr)]);
    }
    return None;
  }

  method PwriteMsr(m: Machine, cpu: nat, addr: u64, value: u64) returns (ret: int)
    modifies m
    ensures Outcome(m.State(), ret) == Pwrite(m.env, old(m.State()), cpu, addr, value)
  {
    if (cpu, addr) in m.regs && (cpu, addr) !in m.env.faults.msrNoWrite {
      m.regs := m.regs[(cpu, addr) := value];
      return 0;
    }
    return -1;
  }

  /** `remove(file)`. */
  method Remove(m: Machine, file: string)
    modifies m
    ensures m.files == old(m.files) - {file} && m.regs == old(m.regs)
  {
    m.files := m.files - {file};
  }
}
