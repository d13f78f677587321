# slurm_spank_pm_msrsafe, modelled in Dafny

The model covers the core of a SLURM SPANK plugin that lets a job's user
drive CPU power management on the node the job holds exclusively.

The job prolog runs two steps when the job asks for the plugin and owns every
CPU:

- **msr_safe.** It checks that the msr_safe driver is installed and opens its
  whitelist, batch device and per-CPU devices to other users. It then saves,
  for every CPU, each model-specific register (MSR) of a whitelist entry
  whose mask is nonzero in `/tmp/msrsafe_dump`; comment lines and entries
  with a zero mask are skipped.
- **Power manager.** It reads CPU 0's frequency driver and configures that
  driver:
  - **cpufreq** (`acpi-cpufreq`, `intel_cpufreq`): open the per-CPU control
    files, save them in `/tmp/pm_cpufreq_dump`, switch every CPU to the
    `performance` governor.
  - **intel_pstate**: open the per-CPU and driver-wide files, save them in
    `/tmp/pm_ipstate_dump`, then turn turbo off, cap every CPU at its minimum
    frequency and write the ratio of its maximum frequency to `IA32_PERF_CTL`.

The job epilog first deletes every snapshot somebody else owns. It goes on
only when none of the three snapshots was foreign and at least one owned by
the slurm daemon exists. A single foreign snapshot makes it return 0 at once:
nothing is replayed and the daemon's own snapshots stay. Otherwise it replays
the msr_safe snapshot and the snapshot of the current frequency driver, then
deletes all three.

## How the node is represented

The node is `Node.Machine`, a class with two fields:

- `files`: each file's contents, mode and owner, keyed by path.
- `regs`: the MSRs, keyed by CPU and address.

Its constant `env` holds the online CPU count (`sysconf`), the daemon's uid
(`getuid`), the mode of newly created files, and an oracle of which system
calls fail (`Faults`).

Each C function of the core is a `method` on the machine. Its `ensures`
equates the new state and the return code with a specification function of
the old state. The properties are lemmas about those specification
functions.

The modules follow the source files:

| Module | Source | What it holds |
|---|---|---|
| `Text` | C library | white space, `%s` tokens, `fscanf` literals, `strtol`/`strtoul`, `%lu`, `fgets`, `strtok` |
| `Paths` | `include/pm_msrsafe.h` | the path templates and constants |
| `Node` | | the node and its system calls |
| `Common` | `src/common.c` | |
| `Snapshot` | | the `path value` snapshot format shared by `src/cpufreq.c` and `src/intel_pstate.c` |
| `Cpufreq` | `src/cpufreq.c` | |
| `Ipstate` | `src/intel_pstate.c` | |
| `Msrsafe` | `src/msrsafe.c` | |
| `Pm` | `src/pm.c` | |
| `Slurm` | `src/slurm.c` | |
| `PmMsrsafe` | `src/pm_msrsafe.c` | prolog and epilog sequencing |

## The permission toggles

- **`set_read_no_write_permission`** (src/common.c:147-179).
  - The name suggests that SET grants others read access only.
  - The code's SET adds both S_IROTH and S_IWOTH (lines 164-167).
  - Its RESET clears only S_IWOTH (lines 168-170), so others keep read access
    after RESET (`Common.ReadNoWriteAsymmetric`).
- **The msr_safe files** (src/msrsafe.c:167-191).
  - The whitelist gets `set_read_permission` (line 173).
  - The batch device and the per-CPU devices get `set_read_write_permission`
    (lines 179 and 188).
  - `Msrsafe.MsrJobsConsistent` and `Msrsafe.PermissionsWhitelistMode` state this.

## Model

| member | source | states |
|---|---|---|
| Text.Tokens | src/cpufreq.c:180 | what repeated `%s` conversions read is a sequence of non-empty runs without white space |
| Text.First | src/common.c:193 | one `%s` conversion yields a non-empty token without white space, or nothing |
| Text.FirstOfTokens | src/common.c:193 | one `%s` reads exactly the first of the tokens repeated `%s` conversions would read, and nothing when there is none |
| Text.FirstOfToken | src/common.c:193 | a file holding a single token reads back as that token |
| Text.TokensOfRecords | src/cpufreq.c:134-152 | text printed as space-separated fields, one record per line, tokenises back to exactly those fields in order |
| Text.ScanLiteral | src/cpufreq.c:176 | a literal `fscanf` never consumes more than its input, and reporting EOF means the input is used up |
| Text.ScanOwnHeader | src/cpufreq.c:176 | a file that starts with the header a dump printed is never reported empty, and scanning resumes right after the header |
| Text.DecValueOfDec | src/msrsafe.c:260 | a number printed with `%lu` reads back as the same number |
| Text.StrToLOfDec | src/slurm.c:76 | `strtol` reads back the number `%ld` printed |
| Text.StrToL | src/slurm.c:76 | blank input reads as 0; a negative value needs a leading `-`; a run of digits reads as its decimal value |
| Text.StrToUL16 | src/msrsafe.c:251-255 | blank input reads as 0; a whole `%lx` token, with or without `0x`, reads as its hexadecimal value, saturating at ULONG_MAX |
| Text.HexPrefixOfHex | src/msrsafe.c:251-255 | `strtoul` consumes every digit of an all-hexadecimal string |
| Text.DecSplit | include/pm_msrsafe.h:54-59 | a decimal number followed by a non-digit splits back uniquely, so the `cpu%ld/...` templates are injective |
| Text.SplitLines | src/msrsafe.c:246 | every line `fgets` returns is non-empty |
| Text.LineLen | src/msrsafe.c:246 | one `fgets` line stops at its first newline, which it includes |
| Text.StrTok | src/msrsafe.c:250-254 | a `strtok` token is non-empty and holds no delimiter |
| Text.StrTokOf | src/msrsafe.c:250-253 | a token followed by the delimiter is returned, and the next call resumes right after the delimiter |
| Text.StrTokWhole | src/msrsafe.c:254 | a token running to the end of the string is returned whole |
| Text.LowerAll | src/common.c:40-43 | case folding keeps the length and folds each character |
| Text.EqualsIgnoreCase | src/common.c:40-43 | `strcasecmp(a, b) == 0` exactly when `a` and `b` lower-case to the same string |
| Paths.NameInjective | include/pm_msrsafe.h:54-80 | two different paths never render to the same file name |
| Paths.NameDistinct | include/pm_msrsafe.h:54-80 | different paths are different file names |
| Paths.CpuNameInjective | include/pm_msrsafe.h:54-62 | the per-CPU sysfs templates determine both the file kind and the CPU |
| Paths.MsrNameInjective | include/pm_msrsafe.h:72 | the msr_safe device template determines the CPU |
| Paths.NotDumpFile | include/pm_msrsafe.h:54-80 | no control file or device is one of the snapshot files |
| Paths.NameIsToken | include/pm_msrsafe.h:54-80 | every path is a single `%s` token, so it survives being saved in a snapshot |
| Node.Truncated | src/common.c:206 | `fopen(.., "w")` empties an existing file and keeps its mode and owner; a new file is owned by the caller |
| Node.OpenWrite | src/common.c:206-210 | `fopen(.., "w")` fails exactly on the files the environment refuses, and otherwise leaves the file empty |
| Node.Print | src/common.c:212 | `fprintf` returns the length written and appends the text, or returns -1 and changes nothing; no register changes |
| Node.Pread | src/msrsafe.c:40-50 | an 8-byte `pread` succeeds exactly when the register exists, and yields its value |
| Node.Pwrite | src/msrsafe.c:55-63 | an 8-byte `pwrite` succeeds exactly when the register exists and accepts the write; then only that register changes, otherwise nothing does |
| Node.FopenWrite | src/common.c:206-210 | the open is `OpenWrite` on the node |
| Node.Fprintf | src/common.c:212 | the print is `Print` on the node |
| Node.PreadMsr | src/msrsafe.c:40-50 | the read is `Pread` on the node |
| Node.PwriteMsr | src/msrsafe.c:55-63 | the write is `Pwrite` on the node |
| Node.Remove | src/slurm.c:106 | a `remove` that succeeds deletes that one file and nothing else (a failing one is not modelled) |
| Common.StrToBool | src/common.c:37-47 | true exactly when the string is present and equals, ignoring case, one of `enable`, `on`, `yes`, `1` |
| Common.FoldedEquals | src/common.c:40-43 | comparing an input with a lower-case word ignoring case is comparing it after case folding |
| Common.ToggleBits | src/common.c:50-179 | bit by bit, and for each of the four toggles, which of the other-read and other-write bits SET and RESET turn on or off; any other `conf` changes nothing, and no other bit ever changes |
| Common.ToggleIdempotent | src/common.c:50-179 | a toggle applied twice with the same `conf` equals one application |
| Common.ReadWriteSetReset | src/common.c:128-136 | SET then RESET of the read/write toggle leaves others neither read nor write |
| Common.ReadNoWriteAsymmetric | src/common.c:163-170 | SET then RESET of the read-no-write toggle leaves others with read and without write, whatever the starting mode |
| Common.Permission | src/common.c:50-79 | the status is -1 exactly for a missing file, 0 exactly when `stat` and `chmod` succeed, else -2 or -3; failure changes nothing; success sets only that file's mode, to the toggle's new mode (the same for all four toggles) |
| Common.SetPermission | src/common.c:50-79 | the call is `Permission` on the node |
| Common.Toggles | src/cpufreq.c:43-71 | a sequence of toggles keeps every register and the set of files |
| Common.RunJob | src/cpufreq.c:45-49 | one `if(toggle(file) < 0) ret = code` step |
| Common.TogglesAppend | src/cpufreq.c:37-74 | the toggles over two job lists are the toggles over the first then over the second |
| Common.CpuBlock | src/cpufreq.c:45-70 | one CPU's jobs are one per file kind, in order, with each kind's failure code |
| Common.CpuJobs | src/cpufreq.c:43-71 | the jobs of the CPU loop all apply the loop's one toggle |
| Common.TogglesBlock4 | src/cpufreq.c:43-71 | one cpufreq iteration runs its four toggles in order after the earlier ones |
| Common.TogglesBlock3 | src/intel_pstate.c:43-85 | one intel_pstate iteration, and the three driver-wide toggles, run their three toggles in order after the earlier ones |
| Common.CpuJobsCover | src/cpufreq.c:43-71 | every CPU below the count gets a job for every file kind |
| Common.CpuJobsOnly | src/cpufreq.c:43-71 | every job belongs to a CPU below the count and to one of the kinds |
| Common.CpuJobsToggleable | src/cpufreq.c:43-71 | every job's file can be toggled exactly when every kind's file of every CPU can be |
| Common.TogglesRet | src/cpufreq.c:37-74 | no failure stops the sequence; the status is the code of the last job whose file could not be toggled |
| Common.LastFailureZero | src/cpufreq.c:37-74 | with negative codes, the last-failure status is 0 exactly when every file can be toggled |
| Common.TogglesSucceed | src/cpufreq.c:37-74 | starting from 0, the sequence returns 0 exactly when every file can be toggled |
| Common.TogglesLast | src/cpufreq.c:37-74 | the last job toggles its own file, when that file can be toggled, and no other |
| Common.TogglesKeep | src/common.c:71 | toggles keep every file's contents and owner |
| Common.TogglesUnmentioned | src/cpufreq.c:37-74 | a file no job names is unchanged |
| Common.TogglesUntoggleable | src/cpufreq.c:37-74 | a file that cannot be toggled is unchanged |
| Common.TogglesNamed | src/cpufreq.c:37-74 | every toggleable named file ends with its toggle's new mode applied once, however often it is named |
| Common.ReadStr | src/common.c:181-198 | status 1 exactly when the file opens and holds a token, and then the buffer holds its first token; otherwise EOF/-1 with the buffer unchanged |
| Common.ReadStrFromFile | src/common.c:181-198 | the read is `ReadStr` on the node |
| Common.WriteStr | src/common.c:200-217 | negative exactly when the open or the print fails; a failed open changes nothing; otherwise the file holds the string, or is left empty when the print fails, and keeps its mode and owner (a new file is owned by the caller); no other file or register changes |
| Common.WriteStrToFile | src/common.c:200-217 | the write is `WriteStr` on the node |
| Common.WriteThenRead | src/common.c:181-217 | writing a single token and reading the file back yields that token |
| Common.TogglesKeepReads | src/common.c:71 | permission toggles never change what a read returns |
| Common.SameFileReads | src/common.c:181-198 | a read depends only on the file it reads |
| Common.WriteStrOthers | src/common.c:200-217 | a write leaves every other file as it was |
| Snapshot.HeaderSelfMatching | src/cpufreq.c:94 | the snapshot header `# file # value\n` is a self-matching `fscanf` literal |
| Snapshot.Pairs | src/cpufreq.c:180-186 | the replay makes one write per two tokens; a lone trailing path is written with the stale value buffer |
| Snapshot.WritePairs | src/cpufreq.c:180-186 | the writes run in order and none stops the next; the status ends as it started or as the failure code |
| Snapshot.RestoreSpec | src/cpufreq.c:162-192 | a snapshot that cannot be opened gives -1 and changes nothing; a restore never changes a register |
| Snapshot.Restore | src/cpufreq.c:162-192 | the restore is `RestoreSpec` on the node |
| Snapshot.Replay | src/cpufreq.c:180-186 | the loop performs `WritePairs` over the pairs of the token stream |
| Snapshot.WritePairTo | src/cpufreq.c:181-185 | one write and its failure code |
| Snapshot.WritePairsRegs | src/cpufreq.c:180-186 | the replay writes no register |
| Snapshot.WritePairsAppend | src/cpufreq.c:180-186 | replaying two lists of pairs is replaying one after the other |
| Snapshot.WritePairsRet | src/cpufreq.c:180-186 | the status is the failure code exactly when some write fails; failures do not stop the replay |
| Snapshot.WritePairsUntouched | src/cpufreq.c:180-186 | a file no pair names is neither created, removed nor changed, whatever fails |
| Snapshot.WritePairsWritten | src/cpufreq.c:180-186 | when every write succeeds, each named file holds the value of the last pair naming it |
| Snapshot.IterateCat | src/cpufreq.c:99-154 | a loop whose iterations keep the status and append text appends those texts in order |
| Snapshot.JoinedLastValue | src/cpufreq.c:99-154 | a file named only by iteration `i`'s lines takes its value from those lines |
| Snapshot.ReadsUnchanged | src/cpufreq.c:99-154 | while a dump is written, every control file reads as it did before the dump was opened |
| Snapshot.DumpFrame | src/cpufreq.c:87-157 | opening and writing the dump changes the dump file and nothing else |
| Snapshot.PairsOfRecords | src/cpufreq.c:134-152 | `path value` lines of tokens tokenise back into the same pairs |
| Snapshot.SnapshotPairs | src/cpufreq.c:76-192 | round trip of the format: a file holding the header and the pairs as lines passes the header scan and replays exactly those pairs, in order |
| Snapshot.RestoreOfSnapshot | src/cpufreq.c:162-192 | restoring such a file performs exactly its pairs, starting from status 0 |
| Snapshot.RestoreWritesBack | src/cpufreq.c:162-192 | when every write succeeds, restoring such a file returns 0, and each named file then reads as its last saved token |
| Snapshot.ReadsBack | src/common.c:193 | a file holding exactly one token reads as that token |
| Snapshot.RestoreUnreadable | src/cpufreq.c:169-173 | an unopenable snapshot: -1 and nothing written |
| Snapshot.RestoreEmpty | src/cpufreq.c:176-179 | an empty snapshot: -2 and nothing written |
| Snapshot.HeaderMismatch | src/cpufreq.c:176 | input that does not start with `#` stops the header scan at once, without EOF and without consuming input |
| Snapshot.RestoreNoHeader | src/cpufreq.c:176-186 | a file of `path value` lines without the header is not an error: when every write succeeds, the restore returns 0 |
| Cpufreq.SetPermissionsCpufreq | src/cpufreq.c:37-74 | the toggles, in order, of every CPU's governor, scaling_max_freq, scaling_min_freq and scaling_setspeed (codes -1 to -4) |
| Cpufreq.PermissionsCpufreqModes | src/cpufreq.c:43-71 | each of those files, when toggleable, ends with the read-no-write toggle applied |
| Cpufreq.PermissionsCpufreqRet | src/cpufreq.c:37-74 | the status is 0 exactly when every one of those files can be toggled |
| Cpufreq.ReadFreqs | src/cpufreq.c:100-122 | the three reads print nothing and leave the setspeed buffer alone |
| Cpufreq.DumpSpec | src/cpufreq.c:76-160 | after `dump_cpufreq` the snapshot file exists; it is the only file added, and no register changes |
| Cpufreq.DumpCpufreq | src/cpufreq.c:76-160 | the dump is `DumpSpec` on the node |
| Cpufreq.DumpOneCpu | src/cpufreq.c:99-154 | one iteration of the CPU loop, reading from the node as the dump found it |
| Cpufreq.ReadFreqFiles | src/cpufreq.c:100-122 | the three reads of an iteration, with codes -2, -3, -4 |
| Cpufreq.PrintFreqFiles | src/cpufreq.c:124-153 | under a `userspace` governor, the setspeed read (-4) and four lines (-5); otherwise three lines (-6) |
| Cpufreq.DumpCpuContent | src/cpufreq.c:99-154 | an iteration whose reads and print succeed keeps the status and appends that CPU's `path value` lines |
| Cpufreq.DumpCpusContent | src/cpufreq.c:99-154 | the loop appends every CPU's lines in CPU order |
| Cpufreq.DumpCpufreqFrame | src/cpufreq.c:76-160 | `dump_cpufreq` changes only the snapshot file, whatever fails |
| Cpufreq.DumpCpufreqContent | src/cpufreq.c:76-160 | when all reads and prints succeed, the status is 0 and the snapshot holds the header and one line per saved file |
| Cpufreq.CpuTextNotHeader | src/cpufreq.c:134-152 | a CPU's lines start with a path, so they never equal the header |
| Cpufreq.DumpHeaderFails | src/cpufreq.c:93-154 | a failing header gives -2 and the loop still writes every CPU's lines, without the header |
| Cpufreq.CpuPairsOther | src/cpufreq.c:134-152 | a CPU's lines name only that CPU's files |
| Cpufreq.CpuPairsLast | src/cpufreq.c:134-152 | each file a CPU prints appears once among its lines, with its buffer's value |
| Cpufreq.SavedTokens | src/cpufreq.c:134-152 | the saved values and paths are all single tokens, so the snapshot reads back as written |
| Cpufreq.SavedLast | src/cpufreq.c:99-154 | in the snapshot, each saved file's last value is the token it held |
| Cpufreq.SavedField | src/cpufreq.c:99-154 | the buffer of a saved file holds the token that file held |
| Cpufreq.RestoreSaved | src/cpufreq.c:162-192 | replaying a snapshot that holds the saved pairs returns 0 and makes each saved file read its saved token |
| Cpufreq.CpufreqRoundTrip | src/cpufreq.c:76-192 | the snapshot `dump_cpufreq` wrote, replayed by `restore_cpufreq` in whatever later state, returns 0 and puts back each saved file's token |
| Cpufreq.RestoreCpufreq | src/cpufreq.c:162-192 | `restore_cpufreq` is the shared restore on `/tmp/pm_cpufreq_dump` |
| Cpufreq.GovernorPairs | src/cpufreq.c:200-208 | one write of `performance` per CPU governor, in CPU order |
| Cpufreq.ChangeGovernorsSpec | src/cpufreq.c:194-211 | the status is 0 or -2; no register changes |
| Cpufreq.ChangeGovernors | src/cpufreq.c:194-211 | the loop is `ChangeGovernorsSpec` on the node |
| Cpufreq.ChangeGovernorsRet | src/cpufreq.c:194-211 | the status is 0 when every governor can be written, else -2 |
| Cpufreq.ChangeGovernorsWrites | src/cpufreq.c:194-211 | when every write succeeds, each CPU's governor reads `performance` |
| Cpufreq.ChangeGovernorsOthers | src/cpufreq.c:194-211 | no file but the governors and no register changes, whatever fails |
| Cpufreq.SetCpufreq | src/cpufreq.c:213-241 | the permissions (-1); then on SET the dump (-2) and the governors (-3), on RESET the replay (-4), later failures overwriting earlier codes |
| Cpufreq.SetCpufreqSpec | src/cpufreq.c:213-241 | the status is one of 0, -1, -2, -3, -4, and 0 or -1 for a `conf` other than SET and RESET; no register changes |
| Cpufreq.TogglesKeepAllSaved | src/cpufreq.c:217-223 | the permission toggles keep every value the dump saves |
| Cpufreq.SetKeepsSnapshot | src/cpufreq.c:213-241 | after SET, the snapshot is the one the dump writes of the node as the toggles left it; the governor change does not touch it |
| Cpufreq.SetResetRoundTrip | src/cpufreq.c:213-241 | SET then RESET: each file SET saved reads again the token it held before SET, when no write fails |
| Ipstate.SetPermissionsIpstate | src/intel_pstate.c:37-88 | every CPU's governor, scaling_max_freq, scaling_min_freq (-1 to -3), then no_turbo, max_perf_pct, min_perf_pct (-4 to -6), in order |
| Ipstate.PermissionsIpstateCpuModes | src/intel_pstate.c:43-64 | each per-CPU file, when toggleable, ends with the read-no-write toggle applied |
| Ipstate.PermissionsIpstateGlobalModes | src/intel_pstate.c:66-85 | each driver-wide file, when toggleable, ends with the read-no-write toggle applied |
| Ipstate.PermissionsIpstateRet | src/intel_pstate.c:37-88 | the status is 0 exactly when every per-CPU and driver-wide file can be toggled |
| Ipstate.DumpSpec | src/intel_pstate.c:90-186 | after `dump_ipstate` the snapshot file exists |
| Ipstate.DumpIpstate | src/intel_pstate.c:90-186 | the dump is `DumpSpec` on the node |
| Ipstate.DumpOneCpu | src/intel_pstate.c:115-149 | one iteration: three reads (-2, -3, -4) and a three-line print (-5) |
| Ipstate.DumpGlobalFiles | src/intel_pstate.c:151-183 | the driver-wide reads (-6, -7, -8) and print (-9) close the dump |
| Ipstate.DumpCpuContent | src/intel_pstate.c:115-149 | an iteration whose reads and print succeed keeps the status and appends that CPU's three lines |
| Ipstate.DumpCpusContent | src/intel_pstate.c:115-149 | the loop appends every CPU's lines in CPU order |
| Ipstate.DumpGlobalsContent | src/intel_pstate.c:151-180 | successful driver-wide reads and print append the three driver-wide lines |
| Ipstate.DumpIpstateContent | src/intel_pstate.c:90-186 | when every read and print succeeds, the status is 0 and the snapshot holds the header, three lines per CPU, then the three driver-wide lines |
| Ipstate.DumpOutput | src/intel_pstate.c:115-180 | after a printed header, the loops print exactly the saved pairs with status 0 |
| Ipstate.DumpHeaderOk | src/intel_pstate.c:108-186 | with the header printed, the dump is the CPU loop followed by the driver-wide part |
| Ipstate.DumpPairsSize | src/intel_pstate.c:115-180 | the snapshot holds 3 lines per CPU plus 3 |
| Ipstate.DumpHeaderFails | src/intel_pstate.c:108-113 | a failing header print returns -2 at once and leaves the snapshot empty |
| Ipstate.DumpIpstateFrame | src/intel_pstate.c:90-186 | `dump_ipstate` changes only the snapshot file, whatever fails |
| Ipstate.CpuPairsOther | src/intel_pstate.c:141-144 | a CPU's lines name only that CPU's files |
| Ipstate.CpuPairsLast | src/intel_pstate.c:141-144 | each of a CPU's three files appears among its lines with its buffer's value |
| Ipstate.GlobalPairsOther | src/intel_pstate.c:173-176 | the driver-wide lines name only the driver-wide files |
| Ipstate.GlobalPairsLast | src/intel_pstate.c:173-176 | each driver-wide file appears among those lines with its value |
| Ipstate.SavedLast | src/intel_pstate.c:115-149 | in the CPU part of the snapshot, each saved CPU file's last value is the token it held |
| Ipstate.DumpPairsLast | src/intel_pstate.c:90-186 | in the whole snapshot, each saved file's last value is the token it held |
| Ipstate.DumpPairsTokens | src/intel_pstate.c:141-176 | every saved path and value is a single token |
| Ipstate.RestoreSaved | src/intel_pstate.c:188-218 | replaying a snapshot that holds the dump returns 0 and makes each saved file read its saved token |
| Ipstate.IpstateRoundTrip | src/intel_pstate.c:90-218 | the snapshot `dump_ipstate` wrote, replayed by `restore_ipstate` in whatever later state, returns 0 and puts back each saved file's token |
| Ipstate.RestoreIpstate | src/intel_pstate.c:188-218 | `restore_ipstate` is the shared restore on `/tmp/pm_ipstate_dump` |
| Ipstate.Quot | src/intel_pstate.c:260 | C's truncating division agrees with Dafny's on non-negative operands |
| Ipstate.PerfCtl | src/intel_pstate.c:259-261 | the IA32_PERF_CTL value has bits 7:0 clear for every frequency, an overflowing shift included |
| Ipstate.ShiftClearsLowByte | src/intel_pstate.c:260-261 | a shift by 8 keeps bits 7:0 clear through both integer conversions |
| Ipstate.Int32 | src/intel_pstate.c:260 | the `(int)` conversion lands in the 32-bit range and keeps values already in it |
| Ipstate.PerfCtlExample | src/intel_pstate.c:258-261 | 3 GHz gives ratio 30 in bits 15:8 (0x1E00) |
| Ipstate.PerfCtlRatio | src/intel_pstate.c:258-261 | for every frequency whose ratio fits, the register holds frequency / 100000 shifted left by 8, with bits 7:0 clear |
| Ipstate.HackIpstate | src/intel_pstate.c:220-270 | the hack is `HackSpec` on the node |
| Ipstate.HackSpec | src/intel_pstate.c:220-270 | the status is between -5 and 0 |
| Ipstate.HackCpu | src/intel_pstate.c:234-267 | one iteration keeps the status or records one of -2 .. -5 |
| Ipstate.HackCpus | src/intel_pstate.c:234-267 | the CPU loop keeps the status or records one of -2 .. -5 |
| Ipstate.HackOneCpu | src/intel_pstate.c:234-267 | one iteration of the hack loop |
| Ipstate.HackCpuFiles | src/intel_pstate.c:234-267 | an iteration changes no file but its CPU's scaling_max_freq |
| Ipstate.HackCpuRegs | src/intel_pstate.c:234-267 | an iteration changes no register but its CPU's IA32_PERF_CTL |
| Ipstate.MsrWriteOthers | src/msrsafe.c:102-133 | a write to one register leaves every other register alone |
| Ipstate.HackRangeFiles | src/intel_pstate.c:234-267 | a run of iterations changes no file but their scaling_max_freq |
| Ipstate.HackRangeRegs | src/intel_pstate.c:234-267 | a run of iterations changes no register but their IA32_PERF_CTL |
| Ipstate.NoTurboOthers | src/intel_pstate.c:227 | the no_turbo write leaves every other file and every register alone |
| Ipstate.HackBefore | src/intel_pstate.c:234-267 | iteration `i` sees its CPU's cpuinfo files, device and IA32_PERF_CTL as the hack found them |
| Ipstate.HackNoTurbo | src/intel_pstate.c:226-231 | when no_turbo can be written, it ends up holding `1` |
| Ipstate.HackCap | src/intel_pstate.c:235-249 | each CPU's scaling_max_freq ends up holding its cpuinfo_min_freq token, when that can be read and written |
| Ipstate.HackCpuCap | src/intel_pstate.c:235-249 | the iteration copies cpuinfo_min_freq into scaling_max_freq |
| Ipstate.HackMsr | src/intel_pstate.c:251-266 | each CPU's IA32_PERF_CTL ends up holding the ratio of its `strtol`-read cpuinfo_max_freq, when the device takes the write |
| Ipstate.HackNoMsr | src/intel_pstate.c:251-257 | a CPU whose cpuinfo_max_freq cannot be read keeps its IA32_PERF_CTL |
| Ipstate.HackNoMsrAt | src/intel_pstate.c:251-257 | the same, for a CPU the loop reaches |
| Ipstate.HackCpuNoMsr | src/intel_pstate.c:251-257 | an iteration whose cpuinfo_max_freq read fails writes no register |
| Ipstate.HackOtherRegs | src/intel_pstate.c:220-270 | the hack writes no register but the online CPUs' IA32_PERF_CTL |
| Ipstate.HackOtherFiles | src/intel_pstate.c:220-270 | the hack writes no file but no_turbo and the scaling_max_freq files |
| Ipstate.SetIpstate | src/intel_pstate.c:272-301 | the permissions (-1); then on SET the dump (-2) and the hack (-3), on RESET the replay (-4), later failures overwriting earlier codes |
| Ipstate.SetIpstateSpec | src/intel_pstate.c:272-301 | the status is one of 0, -1, -2, -3, -4, and 0 or -1 for a `conf` other than SET and RESET; only SET changes registers |
| Ipstate.ResetKeepsRegisters | src/intel_pstate.c:293-298 | RESET leaves every register as it is, so the IA32_PERF_CTL values the hack wrote stay |
| Ipstate.SetKeepsSnapshot | src/intel_pstate.c:272-292 | after SET, the snapshot is the one the dump writes of the node as the toggles left it, before the hack |
| Ipstate.TogglesKeepDump | src/intel_pstate.c:276-282 | the permission toggles keep everything the dump saves |
| Ipstate.SetResetRoundTrip | src/intel_pstate.c:272-301 | SET then RESET: each saved file reads again the token it held before SET, when no write fails |
| Msrsafe.ReadMsr | src/msrsafe.c:37-51 | a value exactly when the register exists, and it is the register's value |
| Msrsafe.WriteMsr | src/msrsafe.c:53-64 | 0 exactly when the register exists and takes the write, and then only it changes; otherwise -1 and nothing changes |
| Msrsafe.ReadMsrFile | src/msrsafe.c:66-100 | a value exactly when the device opens and the register exists |
| Msrsafe.WriteMsrFile | src/msrsafe.c:102-133 | 0 exactly when the device opens for writing and the register takes the write; otherwise -1 and nothing changes |
| Msrsafe.ReadMsrFromFile | src/msrsafe.c:66-100 | the status is 0 or -1 as `ReadMsrFile` says, with its value; a failing call leaves `*value` as it was |
| Msrsafe.WriteMsrToFile | src/msrsafe.c:102-133 | the write is `WriteMsrFile` on the node |
| Msrsafe.CheckMsrsafeRet | src/msrsafe.c:135-165 | 0 exactly when the whitelist, the batch device and every per-CPU device exist; otherwise the code of the last kind found missing (-3 devices, -2 batch, -1 whitelist) |
| Msrsafe.CheckMsrsafe | src/msrsafe.c:135-165 | the check runs every test and changes nothing |
| Msrsafe.CheckSpec | src/msrsafe.c:135-165 | the status is between -3 and 0, and 0 only when the whitelist, the batch device and every per-CPU device exist |
| Msrsafe.NodeJobs | src/msrsafe.c:184-192 | one read-write job per CPU device, code -3 |
| Msrsafe.SetPermissionsMsrsafe | src/msrsafe.c:167-195 | the whitelist (read, -1), the batch device (read-write, -2), then every CPU's device (read-write, -3), in order |
| Msrsafe.ToggleNodes | src/msrsafe.c:185-192 | the per-CPU loop continues the toggles of the two device jobs |
| Msrsafe.MsrJobsConsistent | src/msrsafe.c:172-192 | only the whitelist gets the read toggle; every other file gets read-write |
| Msrsafe.MsrJobAfterWhitelist | src/msrsafe.c:178-191 | every toggle after the whitelist's is a read-write toggle of another file |
| Msrsafe.PermissionsWhitelistMode | src/msrsafe.c:172-176 | the whitelist, when toggleable, ends with the read toggle applied |
| Msrsafe.PermissionsBatchMode | src/msrsafe.c:178-182 | the batch device, when toggleable, ends with the read-write toggle applied |
| Msrsafe.PermissionsNodeMode | src/msrsafe.c:184-192 | each CPU's device, when toggleable, ends with the read-write toggle applied |
| Msrsafe.PermissionsMsrsafeRet | src/msrsafe.c:167-195 | the status is 0 exactly when every one of those files can be toggled |
| Msrsafe.ParseLine | src/msrsafe.c:246-255 | a line is a comment exactly when it starts with `#`; an entry's address is a non-empty space-free token read in hexadecimal |
| Msrsafe.ParseLineOf | src/msrsafe.c:250-255 | when the three `strtok` calls find their tokens, the entry holds the address and the mask read in hexadecimal |
| Msrsafe.ParseEntryLine | src/msrsafe.c:246-255 | a line `addr mask` ending at its newline or followed by a space parses to those two fields |
| Msrsafe.MaskAtNewline | src/msrsafe.c:253-254 | the mask keeps its newline after the second `strtok`, and the third cuts it off |
| Msrsafe.WhitelistLines | src/msrsafe.c:246 | one parsed line per `fgets` line, in order |
| Msrsafe.WhitelistAddrs | src/msrsafe.c:250-251 | every entry's address is its text read by `strtoul(.., 16)` |
| Msrsafe.DumpMsrSpec | src/msrsafe.c:197-283 | registers never change; -1 exactly when the whitelist cannot be opened and -2 exactly when the dump cannot, both changing nothing; otherwise only the dump file changes |
| Msrsafe.DumpMsrsafe | src/msrsafe.c:197-283 | the dump is `DumpMsrSpec` on the node |
| Msrsafe.DumpWhitelist | src/msrsafe.c:246-274 | the `fgets` loop runs every whitelist line in order |
| Msrsafe.OpenNodes | src/msrsafe.c:222-233 | the open loop succeeds exactly when every CPU's device can be opened for reading |
| Msrsafe.OpenKeepsNodes | src/msrsafe.c:215-233 | opening the dump does not change whether the devices open |
| Msrsafe.DumpWhitelistLine | src/msrsafe.c:246-274 | one iteration of the `fgets` loop |
| Msrsafe.DumpOneRegister | src/msrsafe.c:258-272 | one CPU of an entry: read, then print a row (-5) or record a failed read (-6) |
| Msrsafe.DumpRegister | src/msrsafe.c:258-272 | one CPU of an entry appends to the dump and keeps the status or records -5 or -6 |
| Msrsafe.RegistersAppend | src/msrsafe.c:258-272 | the CPU loop of an entry appends to the dump and keeps the status or records -5 or -6 |
| Msrsafe.DumpLine | src/msrsafe.c:246-274 | one whitelist line appends to the dump and keeps the status or records -5 or -6 |
| Msrsafe.DumpLines | src/msrsafe.c:246-274 | the `fgets` loop appends to the dump and keeps the status or records -5 or -6 |
| Msrsafe.EntryRet | src/msrsafe.c:258-272 | the status of an entry's CPU loop stays among 0, -5 and -6 |
| Msrsafe.DumpLinesRet | src/msrsafe.c:246-274 | the status of the `fgets` loop stays among 0, -5 and -6 |
| Msrsafe.EntryText | src/msrsafe.c:258-272 | with prints succeeding, an entry's CPU loop prints its register's rows in CPU order and keeps the status |
| Msrsafe.LinesText | src/msrsafe.c:246-274 | with prints succeeding, the `fgets` loop prints the saved registers' rows, line after line |
| Msrsafe.DumpMsrContent | src/msrsafe.c:197-283 | when everything succeeds, the status is 0, only the dump changes, and it holds the header and one row per saved register |
| Msrsafe.SkippedLine | src/msrsafe.c:247-257 | a comment, or an entry whose mask is 0, prints nothing and keeps the status |
| Msrsafe.FailedReadNoRow | src/msrsafe.c:259-271 | a register that cannot be read prints no row and records -6 |
| Msrsafe.SavedRegsFacts | src/msrsafe.c:246-274 | every saved register belongs to an online CPU and is a nonzero-mask entry's register, with its address text |
| Msrsafe.SavedRegsCover | src/msrsafe.c:246-274 | every online CPU's register of every nonzero-mask entry is saved |
| Msrsafe.MsrHeaderSelfMatching | src/msrsafe.c:314 | the header `# CPU_ID # MSR # Value\n` is a self-matching `fscanf` literal |
| Msrsafe.ParseRows | src/msrsafe.c:318 | rows that parse take three tokens each and name a CPU below the online count |
| Msrsafe.WriteRows | src/msrsafe.c:318-324 | the replay changes no file and no register's existence; the status is kept or becomes -4 |
| Msrsafe.RestoreMsrSpec | src/msrsafe.c:285-332 | files and the set of registers are kept; -1 exactly when the dump cannot be opened and -2 exactly when some device cannot, both changing nothing |
| Msrsafe.RestoreMsrsafe | src/msrsafe.c:285-332 | the restore is `RestoreMsrSpec` on the node |
| Msrsafe.ReplayRows | src/msrsafe.c:318-324 | the `fscanf`/`write_msr` loop is `WriteRows` on the node |
| Msrsafe.OpenNodesForWrite | src/msrsafe.c:301-311 | the open loop succeeds exactly when every CPU's device can be opened for writing |
| Msrsafe.RestoreNoRows | src/msrsafe.c:314-318 | a dump at EOF during the header scan records -3 and writes nothing |
| Msrsafe.WriteRowsRet | src/msrsafe.c:318-324 | the replay records -4 exactly when some row cannot be written, and runs every row |
| Msrsafe.WriteRowsBack | src/msrsafe.c:318-324 | rows that agree with the saved values, all writable, leave each named register holding its saved value and every other register as it was |
| Msrsafe.ParseRowsOf | src/msrsafe.c:318 | the rows of saved registers read back as their numbers |
| Msrsafe.RowsTokens | src/msrsafe.c:260 | the text of saved-register rows tokenises to their fields |
| Msrsafe.RestoreOfRows | src/msrsafe.c:285-332 | replaying a dump of the header and saved rows, with every device open, writes exactly those rows |
| Msrsafe.SavedSettings | src/msrsafe.c:246-274 | every saved register belongs to a CPU, has a hexadecimal address, and holds the value the node had |
| Msrsafe.ReplayBack | src/msrsafe.c:318-324 | replaying agreeing, writable rows returns 0 and restores exactly the registers they name |
| Msrsafe.MsrRoundTrip | src/msrsafe.c:197-332 | a dump of node `w` replayed on a later node returns 0, puts back `w`'s value in every saved register, and leaves every other register alone |
| Msrsafe.TogglesSameContents | src/msrsafe.c:167-195 | the permission toggles keep every file's contents and every register |
| Msrsafe.SetMsrSpec | src/msrsafe.c:334-366 | SET changes no register and removes no file; RESET keeps the set of files and registers; the status is 0, -1, -2, -3 or -4 |
| Msrsafe.SetMsrsafe | src/msrsafe.c:334-366 | the call is `SetMsrSpec` on the node |
| Msrsafe.SetMsrsafeRet | src/msrsafe.c:334-366 | every step runs; the status is 0 exactly when all succeed, and otherwise names the last failing step: -3 or -4 for the dump or replay, -2 for the toggles, -1 for the check alone |
| Msrsafe.SetSavesRegisters | src/msrsafe.c:350-356 | SET leaves the dump a successful `dump_msrsafe` writes, with status 0, -1 or -2 |
| Msrsafe.SetResetRoundTrip | src/msrsafe.c:334-366 | SET, any change of registers, then RESET: each saved register holds again its value before SET, and every other register stays as the job left it |
| Msrsafe.SetMsrKeepsOthers | src/msrsafe.c:334-356 | SET changes the contents of no file other than the dump |
| Pm.PrefixesDisjoint | src/pm.c:53-60 | no driver name starts with both `intel_pstate` and a cpufreq driver's name |
| Pm.Classify | src/pm.c:53-69 | cpufreq exactly for names starting `acpi-cpufreq` or `intel_cpufreq`, intel_pstate exactly for names starting `intel_pstate`, otherwise unsupported |
| Pm.ClassifySuffix | src/pm.c:53-60 | only a prefix is compared: any suffix keeps the choice, and a name shorter than every known driver name is unsupported |
| Pm.SetPmSpec | src/pm.c:38-72 | -1 exactly when CPU 0's driver cannot be read; -4 exactly for an unsupported driver; both leave the node unchanged |
| Pm.SetPm | src/pm.c:38-72 | the call is `SetPmSpec` on the node |
| Pm.SetPmRunsChosen | src/pm.c:52-69 | exactly the chosen adapter runs with the same `conf`; the node is what it leaves, and -2 or -3 report exactly its failure |
| Slurm.CheckEnablePlugin | src/slurm.c:37-58 | -1 exactly when the variable is unset, 0 exactly when it is a true word, else -2 |
| Slurm.CheckExclusiveNode | src/slurm.c:60-88 | -1 exactly when the variable is unset, 0 exactly when its `strtol` value is the online CPU count, else -2 |
| Slurm.ExclusiveWholeNode | src/slurm.c:74-78 | a job given every online CPU passes the exclusivity check |
| Slurm.CheckPluginStarted | src/slurm.c:90-147 | the three `access`/`stat` checks are `PluginStartedSpec` on the node: a snapshot somebody else owns is removed and sets its code, an owned one sets its flag |
| Slurm.Inspect | src/slurm.c:100-137 | one check removes the snapshot exactly when it is foreign, then sets that file's code; it sets the flag exactly when the file is owned; registers are untouched |
| Slurm.PluginStartedSpec | src/slurm.c:90-147 | the status is between -4 and 0; no file appears and no register changes |
| Slurm.DumpFilesDistinct | include/pm_msrsafe.h:78-80 | the three snapshot paths are distinct |
| Slurm.PluginStartedRemovesForeign | src/slurm.c:100-137 | exactly the snapshots somebody else owns are removed; every other file and every register stays |
| Slurm.PluginStartedRet | src/slurm.c:90-147 | negative exactly when some snapshot is foreign, and then the code of the last one (-1, -2, -3); else 0 when an owned snapshot exists and -4 when none does |
| Slurm.PluginStartedNoDumps | src/slurm.c:139-146 | with no snapshot, nothing changes and the status is -4 |
| Slurm.PluginStartedIdempotent | src/slurm.c:90-147 | a second check removes nothing more and reports 0 or -4 |
| PmMsrsafe.CleanupDumps | src/pm_msrsafe.c:78-83 | the three snapshots are removed and nothing else changes |
| PmMsrsafe.MsrKeepsAdapter | src/pm_msrsafe.c:122-130 | the msr_safe step keeps what the power-manager step needs |
| PmMsrsafe.PrologSpec | src/pm_msrsafe.c:97-133 | when either gate fails, nothing changes and the status is 0; the status is always 0, -1 or -2 |
| PmMsrsafe.Prolog | src/pm_msrsafe.c:97-133 | the prolog is `PrologSpec` on the node |
| PmMsrsafe.SetupSpec | src/pm_msrsafe.c:122-132 | the SET steps of a gated prolog end with status 0, -1 or -2 |
| PmMsrsafe.Setup | src/pm_msrsafe.c:122-132 | the SET steps are `SetupSpec` on the node |
| PmMsrsafe.PrologRet | src/pm_msrsafe.c:122-132 | -2 exactly when the power manager failed, -1 exactly when only msr_safe failed |
| PmMsrsafe.GateKeepsNode | src/slurm.c:100-146 | a passing gate found no foreign snapshot and removes nothing |
| PmMsrsafe.EpilogSpec | src/pm_msrsafe.c:135-167 | a failing gate only removes foreign snapshots and returns 0; otherwise no snapshot remains afterwards; the status is 0, -1 or -2 |
| PmMsrsafe.Epilog | src/pm_msrsafe.c:135-167 | the epilog is `EpilogSpec` on the node |
| PmMsrsafe.EpilogRet | src/pm_msrsafe.c:153-166 | -2 exactly when the power manager failed, -1 exactly when only msr_safe failed |
| PmMsrsafe.EpilogForeignNotReplayed | src/pm_msrsafe.c:142-147 | with a foreign snapshot, the epilog returns 0, writes no register, deletes the foreign snapshot and keeps the daemon's |
| PmMsrsafe.EpilogNoDumps | src/pm_msrsafe.c:142-147 | with no snapshot, the epilog changes nothing and returns 0 |
| PmMsrsafe.EpilogTwice | src/pm_msrsafe.c:135-167 | a second epilog after one that ran changes nothing and returns 0 |

## Left out

- I/O is a state change on `Node.Machine`. Which system calls fail is an oracle of the environment, not modelled behaviour.
- The number of online CPUs (`sysconf`) and the daemon's uid (`getuid`) are fixed fields of the environment.
- The environment variables `SLURM_SPANK_PM_MSRSAFE` and `SLURM_CPUS_ON_NODE` are parameters: None stands for `getenv` returning NULL.
- `slurm_info` logging, `gethostname` (used only in log messages), the `SLURM_SPANK_DEBUG` and `SLURM_SPANK_TEST` variants, the test `main`, and the `slurm_spank_init`/`slurm_spank_slurmd_init` entry points, which only log, are not modelled.
- What the registers and control files mean to the hardware is not modelled; they are values.
- Cpufreq.DumpSpec: requires that the dump file open for writing. `dump_cpufreq` tests the returned `FILE *` with `fd_dump < 0` (src/cpufreq.c:88), which never catches a failed `fopen`, and the following `fprintf` calls would get a NULL stream.
- Ipstate.DumpSpec: requires that the dump file open for writing, for the same `fd_dump < 0` test (src/intel_pstate.c:103).
- Cpufreq.SetCpufreqSpec: requires on SET that the cpufreq dump opens; this is inherited from `Cpufreq.DumpSpec`.
- Ipstate.SetIpstateSpec: requires on SET that the intel_pstate dump opens; this is inherited from `Ipstate.DumpSpec`.
- Pm.SetPmSpec: requires `AdapterReady`, i.e. the chosen adapter's dump opens on SET. PmMsrsafe.PrologSpec inherits this through `PrologReady`.
- Msrsafe.DumpMsrSpec: requires `WhitelistOk`: no readable whitelist line lacks a mask token. `strtoul` of a NULL token is undefined behaviour in C.
- Msrsafe.RestoreMsrSpec: requires `Restorable`. The text after the header must be whole rows of decimal CPU, hexadecimal address and decimal value, each CPU below the online count, because `fd_msr[cpu_id]` is indexed unchecked (src/msrsafe.c:319). A row that fails to match would make the C loop spin without reaching EOF. PmMsrsafe.EpilogSpec inherits this through `EpilogReady`.
- Msrsafe.ParseRows: rejects a CPU number at or above the online count, which the C does not check.
- Uninitialised C buffers hold "" in the model. A dump that prints a buffer no read has filled prints "" where the C prints stack garbage.
- `strtol` overflow saturation is not modelled (`Text.StrToL` is exact). The narrowing `(int)` cast and the shift of `hack_ipstate` are modelled (`Ipstate.Int32`, `Ipstate.PerfCtl`).
- A sign before a `strtoul(.., 16)` number is not modelled. Overflow saturation at ULONG_MAX is modelled.
- The 1024-byte buffers of `fgets`, `fscanf("%s")` and `sprintf` are unbounded strings. A whitelist line longer than 1023 characters, which `fgets` would split, is one line in the model.
- File descriptors and `close` are not modelled: in the model, opening a file for reading or a device for `pread`/`pwrite` changes nothing. This includes the error paths at src/msrsafe.c:227-228 and src/msrsafe.c:306-307, which close `fd_msr[i]` `i` times instead of `fd_msr[j]`: descriptors leak.
- Common.WriteStr and the dumps: a successful `fprintf` puts its text in the file at once. In the C the text sits in the stdio buffer until `fclose` (src/common.c:214, src/cpufreq.c:157, src/intel_pstate.c:183, src/msrsafe.c:279), and no caller checks what `fclose` returns. A write that the kernel rejects only when `fclose` flushes it is reported as success by the C. The model has no such failure: its `noStream` oracle fails the `fprintf` call itself.
- Node.Remove: always deletes the file; a failing `remove` is not modelled. Every caller ignores the result (src/slurm.c:106, 119 and 132; src/pm_msrsafe.c:80-82), so in the C a snapshot that cannot be deleted stays on the node.
- Slurm.PluginStartedRemovesForeign: states the files left for a `remove` that succeeds, as `Node.Remove` models it.
- PmMsrsafe.CleanupDumps: states the files left for a `remove` that succeeds, as `Node.Remove` models it.
- `check_plugin_started` ignores the result of `stat` (src/slurm.c:102). The model reads the owner of an existing file directly; a `stat` that fails after `access` succeeded is not modelled.
- Ipstate.SetResetRoundTrip: covers the saved files only. RESET does not write the IA32_PERF_CTL values the hack changed back (`Ipstate.ResetKeepsRegisters`).
- Concurrency between the prolog and epilog of different jobs, and other processes changing the node meanwhile, are not modelled.
