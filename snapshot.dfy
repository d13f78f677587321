/**
 * The `path value` snapshot files that src/cpufreq.c and src/intel_pstate.c
 * write and replay (`/tmp/pm_cpufreq_dump`, `/tmp/pm_ipstate_dump`): a
 * header line, then one `path value` line per saved control file.
 *
 * `restore_cpufreq` and `restore_ipstate` are the same code on different
 * files. Both open the snapshot, scan the header, then call
 * `fscanf("%s %s\n")` until it reports EOF and write each value to its path.
 * `Pairs` says which writes that loop performs on a token stream, `WritePairs`
 * performs them, and `Restore` is the loop itself.
 */
module Snapshot {
  import opened Text
  import opened Paths
  import opened Node
  import opened Common

  const SNAPSHOT_HEADER: string := "# file # value\n"

  lemma HeaderSelfMatching()
    ensures SelfMatching(SNAPSHOT_HEADER)
  {
  }

  /** The `write_str_to_file` calls the replay loop makes on a token stream.
      Each `fscanf` takes a path and a value; when only a path is left, the
      call returns 1 and the value buffer still holds the previous value
      (`stale`). */
  function Pairs(ts: seq<string>, stale: string): (ps: seq<(string, string)>)
    ensures |ps| == (|ts| + 1) / 2
    decreases |ts|
  {
    if ts == [] then []
    else if |ts| == 1 then [(ts[0], stale)]
    else [(ts[0], ts[1])] + Pairs(ts[2..], ts[1])
  }

  /** Whether the write of `v` to `f` succeeds. */
  predicate Writable(e: Env, f: string, v: string)
  {
    f !in e.faults.noWrite && (f, v) !in e.faults.noStream
  }

  /** One `if(write_str_to_file(p.0, p.1) < 0) ret = code;`. */
  function WritePair(e: Env, o: Outcome, p: (string, string), code: int): Outcome
  {
    var r := WriteStr(e, o.w, p.0, p.1);
    Outcome(r.w, if r.ret < 0 then code else o.ret)
  }

  /** The writes in order, none stopping the ones after it. */
  function WritePairs(e: Env, o: Outcome, ps: seq<(string, string)>, code: int): (r: Outcome)
    ensures r.ret == o.ret || r.ret == code
    decreases |ps|
  {
    if ps == [] then o else WritePairs(e, WritePair(e, o, ps[0], code), ps[1..], code)
  }

  /** The status code of a failing replay write. */
  const REPLAY_FAILED: int := -3

  /** `restore_cpufreq` / `restore_ipstate` with snapshot file `dump`. */
  function RestoreSpec(e: Env, w: World, dump: string): (o: Outcome)
    ensures !CanRead(e, w, dump) ==> o == Outcome(w, -1)
    ensures o.w.regs == w.regs
  {
    if !CanRead(e, w, dump) then Outcome(w, -1)
    else
      var scan := ScanLiteral(SNAPSHOT_HEADER, w.files[dump].data);
      var o0 := Outcome(w, if scan.0 then -2 else 0);
      WritePairsRegs(e, o0, Pairs(Tokens(scan.1), ""), REPLAY_FAILED);
      WritePairs(e, o0, Pairs(Tokens(scan.1), ""), REPLAY_FAILED)
  }

  method Restore(m: Machine, dump: string) returns (ret: int)
    modifies m
    ensures Outcome(m.State(), ret) == RestoreSpec(m.env, old(m.State()), dump)
  {
    if dump !in m.files || dump in m.env.faults.noRead {
      return -1;
    }
    var scan := ScanLiteral(SNAPSHOT_HEADER, m.files[dump].data);
    ret := if scan.0 then -2 else 0;
    ret := Replay(m, Tokens(scan.1), ret);
  }

  /** The `while (fscanf(fd, "%s %s\n", file, value) != EOF)` loop of the restores. */
  method Replay(m: Machine, ts: seq<string>, ret0: int) returns (ret: int)
    modifies m
    ensures Outcome(m.State(), ret) == WritePairs(m.env, Outcome(old(m.State()), ret0), Pairs(ts, ""), REPLAY_FAILED)
  {
    ret := ret0;
    ghost var start := Outcome(m.State(), ret);
    var pos := 0;
    var value := "";
    while pos < |ts|
      invariant 0 <= pos <= |ts|
      invariant WritePairs(m.env, Outcome(m.State(), ret), Pairs(ts[pos..], value), REPLAY_FAILED)
        == WritePairs(m.env, start, Pairs(ts, ""), REPLAY_FAILED)
      decreases |ts| - pos
    {
      var file := ts[pos];
      if pos + 1 < |ts| {
        value := ts[pos + 1];
        pos := pos + 2;
      } else {
        pos := pos + 1;
      }
      ret := WritePairTo(m, (file, value), REPLAY_FAILED, ret);
    }
  }

  /** One write of the replay (or governor) loop and its failure code. */
  method WritePairTo(m: Machine, p: (string, string), code: int, ret: int) returns (ret': int)
    modifies m
    ensures Outcome(m.State(), ret') == WritePair(m.env, Outcome(old(m.State()), ret), p, code)
  {
    var r := WriteStrToFile(m, p.0, p.1);
    ret' := if r < 0 then code else ret;
  }

  // ---------------------------------------------------------------------
  // What the writes do.

  lemma {:induction false} WritePairsRegs(e: Env, o: Outcome, ps: seq<(string, string)>, code: int)
    ensures WritePairs(e, o, ps, code).w.regs == o.w.regs
    decreases |ps|
  {
    if ps != [] {
      WritePairsRegs(e, WritePair(e, o, ps[0], code), ps[1..], code);
    }
  }

  lemma {:induction false} WritePairsAppend(e: Env, o: Outcome, a: seq<(string, string)>, b: seq<(string, string)>, code: int)
    ensures WritePairs(e, o, a + b, code) == WritePairs(e, WritePairs(e, o, a, code), b, code)
    decreases |a|
  {
    if a == [] {
      assert a + b == b;
    } else {
      assert (a + b)[1..] == a[1..] + b;
      WritePairsAppend(e, WritePair(e, o, a[0], code), a[1..], b, code);
    }
  }

  /** The status is `code` exactly when some write fails; failures do not stop the replay. */
  lemma {:induction false} WritePairsRet(e: Env, o: Outcome, ps: seq<(string, string)>, code: int)
    ensures WritePairs(e, o, ps, code).ret ==
      if exists k | 0 <= k < |ps| :: !Writable(e, ps[k].0, ps[k].1) then code else o.ret
    decreases |ps|
  {
    if ps != [] {
      var o' := WritePair(e, o, ps[0], code);
      WritePairsRet(e, o', ps[1..], code);
      if exists k | 0 <= k < |ps[1..]| :: !Writable(e, ps[1..][k].0, ps[1..][k].1) {
        var k :| 0 <= k < |ps[1..]| && !Writable(e, ps[1..][k].0, ps[1..][k].1);
        assert ps[k + 1] == ps[1..][k];
      } else {
        forall k | 1 <= k < |ps| ensures Writable(e, ps[k].0, ps[k].1) {
          assert ps[k] == ps[1..][k - 1];
        }
      }
    }
  }

  /** The value of the last pair naming `f`. */
  function LastValue(ps: seq<(string, string)>, f: string): (r: Option<string>)
    ensures r.None? <==> forall k | 0 <= k < |ps| :: ps[k].0 != f
    decreases |ps|
  {
    if ps == [] then None
    else
      var t := LastValue(ps[1..], f);
      if t.Some? then t
      else
        assert forall k | 1 <= k < |ps| :: ps[k] == ps[1..][k - 1];
        if ps[0].0 == f then Some(ps[0].1) else None
  }

  lemma {:induction false} LastValueAppend(a: seq<(string, string)>, b: seq<(string, string)>, f: string)
    ensures LastValue(a + b, f) == if LastValue(b, f).Some? then LastValue(b, f) else LastValue(a, f)
    decreases |a|
  {
    if a == [] {
      assert a + b == b;
    } else {
      assert (a + b)[1..] == a[1..] + b;
      LastValueAppend(a[1..], b, f);
    }
  }

  /** A file named by exactly one pair takes that pair's value. */
  lemma {:induction false} LastValueUnique(ps: seq<(string, string)>, l: nat, f: string)
    requires l < |ps| && ps[l].0 == f
    requires forall l' | 0 <= l' < |ps| && l' != l :: ps[l'].0 != f
    ensures LastValue(ps, f) == Some(ps[l].1)
    decreases |ps|
  {
    assert forall k | 0 <= k < |ps[1..]| :: ps[1..][k] == ps[k + 1];
    if l > 0 {
      LastValueUnique(ps[1..], l - 1, f);
    }
  }

  /** A file no pair names is neither created, removed nor changed, whatever fails. */
  lemma {:induction false} WritePairsUntouched(e: Env, o: Outcome, ps: seq<(string, string)>, code: int, f: string)
    requires LastValue(ps, f).None?
    ensures var r := WritePairs(e, o, ps, code).w;
      (f in r.files <==> f in o.w.files) && (f in o.w.files ==> r.files[f] == o.w.files[f])
    decreases |ps|
  {
    if ps != [] {
      assert ps[0].0 != f;
      assert forall k | 0 <= k < |ps[1..]| :: ps[1..][k] == ps[k + 1];
      WritePairsUntouched(e, WritePair(e, o, ps[0], code), ps[1..], code, f);
    }
  }

  /** All writes succeeding, every file a pair names ends up holding the value
      of the last pair naming it. */
  lemma {:induction false} WritePairsWritten(e: Env, o: Outcome, ps: seq<(string, string)>, code: int, f: string)
    requires forall k | 0 <= k < |ps| :: Writable(e, ps[k].0, ps[k].1)
    requires LastValue(ps, f).Some?
    ensures var r := WritePairs(e, o, ps, code).w;
      f in r.files && r.files[f].data == LastValue(ps, f).value
    decreases |ps|
  {
    var o' := WritePair(e, o, ps[0], code);
    assert forall k | 0 <= k < |ps[1..]| :: ps[1..][k] == ps[k + 1];
    if LastValue(ps[1..], f).Some? {
      WritePairsWritten(e, o', ps[1..], code, f);
    } else {
      assert ps[0].0 == f;
      assert o'.w.files[f].data == [] + ps[0].1;
      WritePairsUntouched(e, o', ps[1..], code, f);
    }
  }

  // ---------------------------------------------------------------------
  // Snapshot text is read back as it was written.

  /** The pairs, laid out as two-field records, tokenise back into these pairs. */
  function PairRecords(ps: seq<(string, string)>): (ls: seq<seq<string>>)
    ensures |ls| == |ps|
    ensures forall k | 0 <= k < |ps| :: ls[k] == [ps[k].0, ps[k].1]
  {
    if ps == [] then [] else [[ps[0].0, ps[0].1]] + PairRecords(ps[1..])
  }

  lemma {:induction false} PairRecordsConcat(a: seq<(string, string)>, b: seq<(string, string)>)
    ensures PairRecords(a + b) == PairRecords(a) + PairRecords(b)
    decreases |a|
  {
    if a != [] {
      assert (a + b)[1..] == a[1..] + b;
      PairRecordsConcat(a[1..], b);
    } else {
      assert a + b == b;
    }
  }

  lemma PairRecordsAppend(a: seq<(string, string)>, b: seq<(string, string)>)
    ensures Records(PairRecords(a + b)) == Records(PairRecords(a)) + Records(PairRecords(b))
  {
    PairRecordsConcat(a, b);
    RecordsAppend(PairRecords(a), PairRecords(b));
  }

  // ---------------------------------------------------------------------
  // The dump loops.

  /** The state of a dump loop: the text written to the snapshot so far, the
      status, and the value buffers `B`, which live across iterations. */
  datatype Dumping<B> = Dumping(out: string, ret: int, bufs: B)

  /** Iterations 0 .. n-1 of a loop whose body is `step`. */
  function Iterate<B>(step: (Dumping<B>, nat) -> Dumping<B>, s: Dumping<B>, n: nat): Dumping<B>
  {
    if n == 0 then s else step(Iterate(step, s, n - 1), n - 1)
  }

  /** The pairs of iterations 0 .. n-1, in order. */
  function Joined(g: nat -> seq<(string, string)>, n: nat): (ps: seq<(string, string)>)
  {
    if n == 0 then [] else Joined(g, n - 1) + g(n - 1)
  }

  /** The texts of iterations 0 .. n-1, in order. */
  function Cat(h: nat -> string, n: nat): string
  {
    if n == 0 then [] else Cat(h, n - 1) + h(n - 1)
  }

  /** Iteration `i` as snapshot text. */
  function Texts(g: nat -> seq<(string, string)>): nat -> string
  {
    (i: nat) => Records(PairRecords(g(i)))
  }

  /** When each iteration `i` keeps the status and appends `h(i)`, the loop
      appends the texts in order and keeps the status. */
  lemma {:induction false} IterateCat<B>(step: (Dumping<B>, nat) -> Dumping<B>, h: nat -> string, s: Dumping<B>, n: nat)
    requires forall t: Dumping<B>, i: nat | i < n :: step(t, i).ret == t.ret && step(t, i).out == t.out + h(i)
    ensures Iterate(step, s, n).ret == s.ret
    ensures Iterate(step, s, n).out == s.out + Cat(h, n)
  {
    if n > 0 {
      IterateCat(step, h, s, n - 1);
    }
  }

  /** Printing the pairs iteration by iteration prints the joined pairs. */
  lemma {:induction false} JoinedText(g: nat -> seq<(string, string)>, n: nat)
    ensures Records(PairRecords(Joined(g, n))) == Cat(Texts(g), n)
  {
    if n > 0 {
      JoinedText(g, n - 1);
      PairRecordsAppend(Joined(g, n - 1), g(n - 1));
    }
  }

  /** A file named only by the pairs of iteration `i` takes its last value there. */
  lemma {:induction false} JoinedLastValue(g: nat -> seq<(string, string)>, n: nat, i: nat, f: string)
    requires i < n
    requires forall j: nat | j < n && j != i :: LastValue(g(j), f).None?
    ensures LastValue(Joined(g, n), f) == LastValue(g(i), f)
  {
    LastValueAppend(Joined(g, n - 1), g(n - 1), f);
    if i < n - 1 {
      JoinedLastValue(g, n - 1, i, f);
    } else if n - 1 > 0 {
      JoinedUnnamed(g, n - 1, f);
    }
  }

  lemma {:induction false} JoinedUnnamed(g: nat -> seq<(string, string)>, n: nat, f: string)
    requires forall j: nat | j < n :: LastValue(g(j), f).None?
    ensures LastValue(Joined(g, n), f).None?
  {
    if n > 0 {
      LastValueAppend(Joined(g, n - 1), g(n - 1), f);
      JoinedUnnamed(g, n - 1, f);
    }
  }

  /** Iterations of `c` pairs each join to `c * n` pairs. */
  lemma {:induction false} JoinedLength(g: nat -> seq<(string, string)>, n: nat, c: nat)
    requires forall j: nat | j < n :: |g(j)| == c
    ensures |Joined(g, n)| == c * n
  {
    if n > 0 {
      JoinedLength(g, n - 1, c);
    }
  }

  lemma {:induction false} JoinedTokens(g: nat -> seq<(string, string)>, n: nat)
    requires forall j: nat | j < n :: TokenPairs(g(j))
    ensures TokenPairs(Joined(g, n))
  {
    if n > 0 {
      JoinedTokens(g, n - 1);
      var a, b := Joined(g, n - 1), g(n - 1);
      assert forall k | |a| <= k < |a + b| :: (a + b)[k] == b[k - |a|];
    }
  }

  /** The dump file changes and nothing else does. */
  predicate OnlyChanged(w: World, w': World, dump: string)
  {
    dump in w'.files && w'.files == w.files[dump := w'.files[dump]] && w'.regs == w.regs
  }

  /** No `fprintf` to the dump fails. */
  predicate StreamOk(e: Env, dump: string)
  {
    forall p | p in e.faults.noStream :: p.0 != dump
  }

  /** Of the `fprintf` calls to `dump`, only the header's may fail. */
  predicate BodyStreamOk(e: Env, dump: string)
  {
    forall p | p in e.faults.noStream && p.0 == dump :: p.1 == SNAPSHOT_HEADER
  }

  /** No open, write or print fails. */
  predicate WritesOk(e: Env)
  {
    e.faults.noWrite == {} && e.faults.noStream == {}
  }

  /** The node `w0` a dump started from, with the dump file holding what has
      been written to it so far. */
  predicate Dumped(m: Machine, w0: World, dump: string)
    reads m
  {
    dump !in m.env.faults.noWrite && dump in m.files
    && m.State() == Written(OpenWrite(m.env, w0, dump).w, dump, m.files[dump].data)
  }

  /** While a dump is being written, the other files read as they did before it was opened. */
  lemma ReadsUnchanged(e: Env, w0: World, d: DumpKind, out: string, p: Path, buf: string)
    requires DumpFile(d) !in e.faults.noWrite && p != Dump(d)
    ensures var w1 := OpenWrite(e, w0, DumpFile(d)).w;
      ReadStr(e, Written(w1, DumpFile(d), out), Name(p), buf) == ReadStr(e, w0, Name(p), buf)
  {
    NotDumpFile(p, d);
  }

  /** Opening the dump and writing to it changes the dump file and nothing else. */
  lemma DumpFrame(e: Env, w: World, dump: string, out: string)
    requires dump !in e.faults.noWrite
    ensures OnlyChanged(w, Written(OpenWrite(e, w, dump).w, dump, out), dump)
  {
    var w1 := OpenWrite(e, w, dump).w;
    assert w1.files == w.files[dump := Truncated(e, w, dump)];
  }

  predicate TokenPairs(ps: seq<(string, string)>)
  {
    forall k | 0 <= k < |ps| :: IsToken(ps[k].0) && IsToken(ps[k].1)
  }

  lemma {:induction false} PairsOfFlatten(ps: seq<(string, string)>, stale: string)
    ensures Pairs(Flatten(PairRecords(ps)), stale) == ps
    decreases |ps|
  {
    if ps != [] {
      var ls := PairRecords(ps);
      assert ls[1..] == PairRecords(ps[1..]);
      var ts := Flatten(ls);
      assert ts == [ps[0].0, ps[0].1] + Flatten(ls[1..]);
      assert ts[2..] == Flatten(ls[1..]);
      PairsOfFlatten(ps[1..], ps[0].1);
    }
  }

  lemma PairRecordsWellFormed(ps: seq<(string, string)>)
    requires TokenPairs(ps)
    ensures WellFormedRecords(PairRecords(ps))
  {
    var ls := PairRecords(ps);
    forall k | 0 <= k < |ls| ensures |ls[k]| > 0 && AllTokens(ls[k]) {
      assert ls[k] == [ps[k].0, ps[k].1];
    }
  }

  /** The text of the pairs as `path value` lines tokenises back into the pairs. */
  lemma PairsOfRecords(ps: seq<(string, string)>)
    requires TokenPairs(ps)
    ensures Pairs(Tokens(Records(PairRecords(ps))), "") == ps
  {
    PairRecordsWellFormed(ps);
    TokensOfRecords(PairRecords(ps));
    PairsOfFlatten(ps, "");
  }

  lemma ScanHeaderPairs(h: string, ps: seq<(string, string)>)
    requires SelfMatching(h) && TokenPairs(ps)
    ensures var scan := ScanLiteral(h, h + Records(PairRecords(ps)));
      !scan.0 && Pairs(Tokens(scan.1), "") == ps
  {
    var r := Records(PairRecords(ps));
    ScanOwnHeader(h, r);
    TokensOfSkipSpace(r);
    PairsOfRecords(ps);
  }

  /** The round trip of the snapshot format: a file holding the header and
      the pairs as `path value` lines replays exactly these pairs, in order. */
  lemma SnapshotPairs(ps: seq<(string, string)>)
    requires TokenPairs(ps)
    ensures var scan := ScanLiteral(SNAPSHOT_HEADER, SNAPSHOT_HEADER + Records(PairRecords(ps)));
      !scan.0 && Pairs(Tokens(scan.1), "") == ps
  {
    HeaderSelfMatching();
    ScanHeaderPairs(SNAPSHOT_HEADER, ps);
  }

  /** Restoring from a snapshot the dump wrote performs exactly its pairs. */
  lemma RestoreOfSnapshot(e: Env, w: World, dump: string, ps: seq<(string, string)>)
    requires TokenPairs(ps)
    requires CanRead(e, w, dump) && w.files[dump].data == SNAPSHOT_HEADER + Records(PairRecords(ps))
    ensures RestoreSpec(e, w, dump) == WritePairs(e, Outcome(w, 0), ps, REPLAY_FAILED)
  {
    SnapshotPairs(ps);
  }

  /** Restoring from such a snapshot, in whatever state the node is now: when
      every write can succeed, each named file ends up holding its last saved
      token, so reading it back yields that token, and the status is 0. */
  lemma RestoreWritesBack(e: Env, w: World, dump: string, ps: seq<(string, string)>, f: string, buf: string)
    requires TokenPairs(ps)
    requires CanRead(e, w, dump) && w.files[dump].data == SNAPSHOT_HEADER + Records(PairRecords(ps))
    requires forall k | 0 <= k < |ps| :: Writable(e, ps[k].0, ps[k].1)
    requires LastValue(ps, f).Some? && f !in e.faults.noRead
    ensures RestoreSpec(e, w, dump).ret == 0
    ensures ReadStr(e, RestoreSpec(e, w, dump).w, f, buf) == Scan(LastValue(ps, f).value, 1)
  {
    RestoreOfSnapshot(e, w, dump, ps);
    var r := WritePairs(e, Outcome(w, 0), ps, REPLAY_FAILED);
    WritePairsRet(e, Outcome(w, 0), ps, REPLAY_FAILED);
    WritePairsWritten(e, Outcome(w, 0), ps, REPLAY_FAILED, f);
    var v := LastValue(ps, f).value;
    LastValueToken(ps, f);
    ReadsBack(e, r.w, f, v, buf);
  }

  /** A file holding exactly one token reads back as that token. */
  lemma ReadsBack(e: Env, w: World, f: string, v: string, buf: string)
    requires IsToken(v) && f in w.files && w.files[f].data == v && f !in e.faults.noRead
    ensures ReadStr(e, w, f, buf) == Scan(v, 1)
  {
    FirstOfToken(v);
  }

  lemma LastValueToken(ps: seq<(string, string)>, f: string)
    requires TokenPairs(ps) && LastValue(ps, f).Some?
    ensures IsToken(LastValue(ps, f).value)
  {
    LastValueWitness(ps, f);
  }

  lemma {:induction false} LastValueWitness(ps: seq<(string, string)>, f: string)
    requires LastValue(ps, f).Some?
    ensures exists k | 0 <= k < |ps| :: ps[k].0 == f && ps[k].1 == LastValue(ps, f).value
    decreases |ps|
  {
    if LastValue(ps[1..], f).Some? {
      LastValueWitness(ps[1..], f);
      var k :| 0 <= k < |ps[1..]| && ps[1..][k].0 == f && ps[1..][k].1 == LastValue(ps, f).value;
      assert ps[k + 1] == ps[1..][k];
    } else {
      assert ps[0].0 == f;
    }
  }

  /** A snapshot that cannot be opened: -1 and nothing written. */
  lemma RestoreUnreadable(e: Env, w: World, dump: string)
    requires !CanRead(e, w, dump)
    ensures RestoreSpec(e, w, dump) == Outcome(w, -1)
  {
  }

  /** An empty snapshot reports -2 and writes nothing. */
  lemma RestoreEmpty(e: Env, w: World, dump: string)
    requires CanRead(e, w, dump) && w.files[dump].data == []
    ensures RestoreSpec(e, w, dump) == Outcome(w, -2)
  {
  }

  lemma HeaderMismatch(s: string)
    requires s != [] && s[0] != '#'
    ensures ScanLiteral(SNAPSHOT_HEADER, s) == (false, s)
  {
    assert SNAPSHOT_HEADER[0] == '#';
  }

  /** A header that is missing but not at EOF is not an error: the replay
      simply starts where the header scan stopped. */
  lemma RestoreNoHeader(e: Env, w: World, dump: string, ps: seq<(string, string)>)
    requires TokenPairs(ps) && ps != [] && ps[0].0 != [] && ps[0].0[0] != '#'
    requires CanRead(e, w, dump) && w.files[dump].data == Records(PairRecords(ps))
    requires forall k | 0 <= k < |ps| :: Writable(e, ps[k].0, ps[k].1)
    ensures RestoreSpec(e, w, dump).ret == 0
  {
    var ls := PairRecords(ps);
    var s := Records(ls);
    assert s == Record(ls[0]) + Records(ls[1..]);
    assert Record(ls[0]) == ps[0].0 + " " + Record(ls[0][1..]);
    assert s[0] == ps[0].0[0];
    HeaderMismatch(s);
    PairsOfRecords(ps);
    WritePairsRet(e, Outcome(w, 0), ps, REPLAY_FAILED);
  }
}
