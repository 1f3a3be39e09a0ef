# fstesting, modelled in Dafny

fstesting compares two filesystems by behaviour. It opens one test file under
the same generated name in each of two storage roots. It applies the same
generated list of commands to both files: reopen, read, positioned read,
write, positioned write, seek, truncate, fsync and size query. After every
command it compares the two sides' results and, for reads, the bytes read. A
run stops at the first divergence.

Two programs drive the library:

- The behaviour test hands random command lists to a property-based search
  library. It carries its own copy of the command code, and that copy panics
  on every divergence except a byte mismatch, which it still returns as an
  error.
- The regression runner replays four hand-written command lists that once
  exposed a divergence.

Both programs first read `DIR1 DIR2 MAX_FILE_SIZE_MB` from the command line.
Half of that size, in bytes, becomes the ceiling for every generated number.

The model has these parts:

- `Io` (io.dfy): the vocabulary.
  - `usize` is modelled as `Usize`.
  - `std::io::Result` is `IoResult`, its errors are `IoError` values built
    from an `ErrorKind`, and the variants of a divergence report are `Detail`.
  - A panic is one of the `Panicked` outcomes.
- `RefFs` (ref_fs.dfy): a reference semantics for the POSIX file calls the
  harness makes. Each side's handle is a `Handle` value: its bytes, cursor
  and access mode. A storage root is a `Dir` object whose `files` map the
  calls update in place.
- `Config` (config.dfy): the start-up that both `main`s share.
  - The argument check and `str::parse::<usize>`, with its inverse `Decimal`.
  - The ceiling `(size * 1024 * 1024) / 2`, overflow panics included.
  - The `OnceLock` cell that holds the ceiling, as a class.
- `Commands` (commands.dfy): `BoundedUsize`, the `Command` enum, and
  `Arbitrary` (the generator), driven by drawn integers passed in as
  parameters. It also holds `Shrink`, the shrinker, both as written and as
  evidently intended.
- `Compare` (compare.dfy): `check_res` and `check_bytes`; the latter is
  written as the loop the source runs.
- `Session` (session.dfy): the twin-file session.
  - `TestFile` is a class over a root. Its methods are proved against the
    reference semantics.
  - `Apply` runs one command on both sides and is proved against the
    specification function `Step`.
  - `CommandsTest` is the session class. Its `Run` is a loop proved against
    the fail-fast specification `RunSpec`.
- `BehaviorTest` (behavior_test.dfy): the behaviour test's panicking copy of
  `apply`, `Test` and `run_test`. A lemma proves that its verdicts are the
  library's verdicts, lifted into panics.
- `Regressions` (check_regressions.dfy): the four regression cases, what the
  reference semantics gives for each, and the runner's `main`.

The main results:

- Two sides that start in the same state never diverge (`StepTwinsAgree`,
  `RunSpecTwinsAgree`).
- A real divergence is caught and located: a length difference by a size
  query, a content difference by a positioned read that names the first
  differing offset.
- A run stops at the first divergence (`RunSpecAppend`).
- The behaviour test's panicking comparator agrees with the library's
  comparator (`RunVariantIsLifted`).
- With intact storage roots, every regression case passes on the reference
  semantics (`RegressionsPassOnTheReference`).

## Model

| member | source | states |
|---|---|---|
| `RefFs.Zeros` | src/commands.rs:68-69 | the buffer a read is given is `count` zero bytes |
| `RefFs.Available` | src/commands.rs:79 | a read transfers at most `count` bytes, never past the end of the file, and fewer only when it reaches the end |
| `RefFs.ReadAtSpec` | src/commands.rs:79 | `read_at` leaves the handle unchanged and succeeds with the transferred count; the buffer holds the file's bytes at the offset up to that count and zeros after it |
| `RefFs.ReadSpec` | src/commands.rs:70 | `read` is `read_at` at the cursor, and the cursor advances by the count read |
| `RefFs.Overwrite` | src/commands.rs:98 | a write stores exactly the data at the offset and leaves every other byte; a non-empty write grows the file to cover the data and a gap reads as zero, while a write of no bytes leaves the file as it was |
| `RefFs.Resize` | src/commands.rs:111 | `set_len` gives exactly the requested length, keeping the old bytes below it and zero-filling beyond |
| `RefFs.EmptyWriteChangesNothing` | src/commands.rs:94-101 | a zero-byte `write` or `write_at`, even past the end, returns 0 and changes neither the handle nor the file |
| `RefFs.ReadBackWrittenBytes` | src/commands.rs:94-101 | what `write_at` stored, `read_at` at the same offset returns |
| `Config.ParseUsize` | examples/behavior-test.rs:300 | a parse succeeds exactly on an optional `+` followed by one or more decimal digits (leading zeros allowed) whose value is below `2^64`, and yields that value |
| `Config.ParseDecimal` | examples/behavior-test.rs:300 | every `usize` round-trips through its decimal spelling, and nothing at or above `2^64` parses |
| `Config.DigitsValueOfDecimal` | examples/behavior-test.rs:300 | the digits of `Decimal(n)` spell `n` |
| `Config.CeilingFromMb` | examples/behavior-test.rs:305 | the ceiling is half the size in bytes and is zero exactly when the size is zero; it panics with an overflow exactly when `size * 2^20` does not fit in a `usize` |
| `Config.Configure` | examples/behavior-test.rs:292-305 | no arguments panics, because the usage message indexes `args[0]`; any count other than 4 is a usage error; an unparsable size panics, and so does a size whose byte count overflows a `usize`; otherwise the two roots and a ceiling that is half the size in bytes |
| `Config.OnceCeiling.GetOrInit` | examples/behavior-test.rs:305 | the first value stored in the cell stays there and is returned |
| `Config.Start` | examples/check-regressions.rs:44-57 | on the still-empty cell, start-up decides what `Configure` says, stores the ceiling in the cell when the arguments are good, and leaves the cell empty otherwise |
| `Commands.ArbitraryBounded` | src/commands.rs:35-37 | a missing ceiling panics and a zero ceiling divides by zero; otherwise the value is below the ceiling, and a draw already below it is kept |
| `Commands.ShrinkBounded` | src/commands.rs:39-42 | a bounded value offers exactly the `usize` candidates of its value, in order, each wrapped |
| `Commands.ShrinkBoundedStaysBelow` | src/commands.rs:39-42 | every candidate of a bounded value is smaller than it, so it stays under the ceiling |
| `Commands.Arbitrary` | src/commands.rs:201-219 | the draw modulo 8 picks the variant, so `Size` is never generated; the field-less arms never consult the ceiling; on the other arms an unset ceiling panics and a zero ceiling divides by zero; with a positive ceiling every field is below it |
| `Commands.ArbitraryReachesAllButSize` | src/commands.rs:201-219 | conversely, every bounded command other than `Size` is generated by some draws |
| `Commands.ArbitraryEveryArm` | src/commands.rs:202 | the generator with modulus 9 draws every variant, and every field stays below the ceiling |
| `Commands.ArbitraryEveryArmReachesAll` | src/commands.rs:202 | with modulus 9, every bounded command, `Size` included, is generated |
| `Commands.ShrinkOne` | src/commands.rs:224-245 | a one-field command shrinks into the same variant, one candidate per candidate of its field |
| `Commands.ShrinkPair` | src/commands.rs:228-241 | a two-field command offers the two fields' candidates zipped, so as many as the shorter list holds |
| `Commands.ShrinkFields` | src/commands.rs:228-241 | the intended two-field shrink: every offset candidate with the count held fixed, then every count candidate with the offset held fixed |
| `Commands.ShrinkFieldsLighter` | src/commands.rs:228-241 | every intended two-field candidate keeps the variant, keeps one field, and is strictly lighter than the command it came from |
| `Commands.ShrinkAsWritten` | src/commands.rs:221-249 | as written, a field-less command offers itself, a `PWrite` offers only `PRead`s, and every other command keeps its variant; a one-field command offers one candidate per candidate of its field, carrying that value; a two-field command offers as many candidates as the shorter field list, candidate `i` pairing the `i`-th offset and count candidates |
| `Commands.ShrinkAsWrittenKeepsBounds` | src/commands.rs:221-249 | as written, every candidate still respects the ceiling |
| `Commands.PWriteShrinksIntoPRead` | src/commands.rs:237-241 | a concrete `PWrite` whose candidates are all `PRead`s |
| `Commands.PairZipStalls` | src/commands.rs:228-232 | as written, `PRead(5, 0)` offers nothing because the zip stops at the count's empty list; the intended shrink offers `PRead(0, 0)` |
| `Commands.FieldlessShrinksToItself` | src/commands.rs:223-247 | as written, `Reopen`, `Fsync` and `Size` offer a candidate that is not lighter than themselves |
| `Commands.Shrink` | src/commands.rs:221-249 | as intended, every candidate keeps the variant and a field-less command offers nothing; a one-field command offers one candidate per candidate of its field, carrying that value; a two-field command offers first every offset candidate with the count held fixed, then every count candidate with the offset held fixed |
| `Commands.ShrinkMakesProgress` | src/commands.rs:221-249 | as intended, every candidate is strictly lighter (so shrinking terminates) and stays under the ceiling |
| `Compare.CheckRes` | src/commands.rs:139-176 | Ok exactly when both values are equal or both errors have the same kind; a divergence has kind `Other`; one success against one failure is always a divergence |
| `Compare.CheckResSymmetric` | src/commands.rs:139-176 | whether the check passes does not depend on the order of the sides |
| `Compare.FirstMismatch` | src/commands.rs:180-193 | the index of the first difference within the shorter buffer, and none exactly when the buffers agree that far |
| `Compare.BytesVerdict` | src/commands.rs:178-197 | passes exactly when the buffers agree as far as the shorter one goes; otherwise names the first differing offset and both bytes there |
| `Compare.BytesVerdictEqualLength` | src/commands.rs:178-197 | for buffers of equal length, a divergence is reported exactly when they differ |
| `Compare.BytesVerdictPrefixPasses` | src/commands.rs:180-182 | a buffer passes against any extension of itself |
| `Compare.CheckBytes` | src/commands.rs:178-197 | the loop returns exactly the verdict `BytesVerdict` specifies |
| `Session.Observe` | src/commands.rs:59-137 | each arm makes the observation its command calls for; reads fill a buffer of `count` bytes; positioned calls, fsync and size leave the cursor alone |
| `Session.Judge` | src/commands.rs:59-137 | (definition) the comparison an arm of `apply` makes: `check_res` on the two results, then, for reads that agree, `check_bytes` on the buffers; for a size query the sync verdict is dropped and only the sizes are compared |
| `Session.SizeIgnoresSyncVerdict` | src/commands.rs:122-133 | the size arm's verdict is the size comparison alone; differing sync results are dropped |
| `Session.JudgeFilled` | src/commands.rs:67-84 | for a read, disagreeing results are reported before any byte is looked at; with agreeing results and equal lengths, the step passes exactly when the buffers are equal |
| `Session.StepTwinsAgree` | src/commands.rs:59-137 | two sides in the same state pass every command and stay in the same state |
| `Session.SizeDetectsLengthDivergence` | src/commands.rs:122-133 | files of different length fail a size query |
| `Session.PReadPinpointsFirstDifference` | src/commands.rs:76-84 | files of one length but different content fail a whole-file positioned read, which reports the first differing offset and both bytes |
| `Session.PWriteStoresPayloadOnBothSides` | src/commands.rs:94-101 | with writable handles, a positioned write passes and stores the same payload at the offset on both sides |
| `Session.Step` | src/commands.rs:59-137 | (definition) one `apply`: the command's calls on each side with the same payload, the comparison `Judge` makes, and both handles after the calls |
| `Session.RunSpec` | src/commands.rs:307-316 | (definition) `run`: the commands in order, stopping at the first step whose verdict is an error; Ok with the final handles when every step passes |
| `Session.RunSpecFrom` | src/commands.rs:310-313 | the run from step `i` is step `i`, followed by the rest only if that step passed |
| `Session.RunSpecAppend` | src/commands.rs:307-316 | running `a + b` runs `a`, then `b` only if `a` passed |
| `Session.RunSpecTwinsAgree` | src/commands.rs:307-316 | two sides that start in the same state pass every command list and end in the same state |
| `Session.TestFile.CreateNew` | src/commands.rs:258-262 | a missing root gives ENOENT and an existing name gives EEXIST, both leaving the root untouched; otherwise a new empty file opened read-write at position 0 |
| `Session.TestFile.Size` | src/commands.rs:264-266 | the length of the file, looked up by path |
| `Session.TestFile.Reopen` | src/commands.rs:268-271 | the handle becomes a read-only one at position 0 on the same bytes |
| `Session.TestFile.Drop` | src/commands.rs:288-292 | the file is removed from its root, and nothing else is |
| `Session.TestFile.Read` | src/commands.rs:70 | `read` through the handle, as the reference semantics gives it; only the cursor changes |
| `Session.TestFile.ReadAt` | src/commands.rs:79 | `read_at` through the handle changes nothing |
| `Session.TestFile.Write` | src/commands.rs:89 | `write` through the handle, with the root's entry for the file replaced by the new bytes |
| `Session.TestFile.WriteAt` | src/commands.rs:98 | `write_at` through the handle, with the root's entry for the file replaced by the new bytes |
| `Session.TestFile.Seek` | src/commands.rs:104-105 | `seek` from the start moves the cursor only |
| `Session.TestFile.SetLen` | src/commands.rs:111 | `set_len` through the handle, with the root's entry for the file replaced by the new bytes |
| `Session.TestFile.SyncAll` | src/commands.rs:117 | `sync_all` changes nothing |
| `Session.TwinCreateError` | src/commands.rs:300-305 | (definition) why `CommandsTest::new` fails: a missing first root, the name taken in the first root, a missing second root, or the name taken in the second (the same root twice included), checked in that order |
| `Session.Apply` | src/commands.rs:59-137 | one command on both sides gives the verdict and the two new handles that `Step` specifies; each root changes only in the test file's entry |
| `Session.ApplyRead` | src/commands.rs:67-84 | the read arms as `Step` specifies them |
| `Session.ApplySize` | src/commands.rs:122-133 | the size arm as `Step` specifies it: both syncs, a dropped check, then the sizes |
| `Session.ApplyCall` | src/commands.rs:85-121 | the remaining arms as `Step` specifies them |
| `Session.SessionVerdict` | src/commands.rs:300-316 | over the reference semantics a session fails exactly when its files cannot be created, and then with that error |
| `Session.CommandsTest.New` | src/commands.rs:300-305 | fails exactly when the twin files cannot be created, leaving both roots unchanged; otherwise two new empty files under one name |
| `Session.CommandsTest.Run` | src/commands.rs:307-316 | the verdict and both handles are those of the fail-fast run `RunSpec` |
| `Session.CommandsTest.Close` | src/commands.rs:288-292 | dropping the session removes both files |
| `BehaviorTest.CheckResPanicking` | examples/behavior-test.rs:127-141 | returns Ok exactly when the library check passes; one success against one failure is the explicit panic; any other divergence fails an `assert_eq!` |
| `BehaviorTest.ObserveVariant` | examples/behavior-test.rs:53-125 | (definition) the calls an arm of the copy's `apply` makes on one side: the library's, except that the size query is a bare metadata length with no sync |
| `BehaviorTest.JudgeVariant` | examples/behavior-test.rs:53-125 | (definition) the copy's comparison: the panicking `check_res`, then `check_bytes` for reads that agree |
| `BehaviorTest.StepVariant` | examples/behavior-test.rs:53-125 | (definition) one `apply` of the copy on both sides, with its verdict and both handles after it |
| `BehaviorTest.RunVariantSpec` | examples/behavior-test.rs:272-281 | (definition) the copy's `run`: the commands in order, stopping at the first panic or error |
| `BehaviorTest.CheckResPanickingIsLifted` | examples/behavior-test.rs:127-141 | the panicking comparator is the library comparator with its divergences turned into panics |
| `BehaviorTest.StepVariantIsLifted` | examples/behavior-test.rs:53-125 | each step of the behaviour test is the library's step with its verdict lifted, and leaves the same handles |
| `BehaviorTest.RunVariantSpecFrom` | examples/behavior-test.rs:275-278 | the run from step `i` is step `i`, followed by the rest only if that step passed |
| `BehaviorTest.RunVariantIsLifted` | examples/behavior-test.rs:272-281 | a whole run of the behaviour test is the library's run with its verdict lifted |
| `BehaviorTest.RunVariantErrorsAreByteMismatches` | examples/behavior-test.rs:127-162 | a behaviour-test run returns an error only for a byte mismatch, since every other divergence panics; two identical sides pass |
| `BehaviorTest.ApplyVariant` | examples/behavior-test.rs:53-125 | one command on both sides gives the outcome and handles that `StepVariant` specifies |
| `BehaviorTest.ApplyReadVariant` | examples/behavior-test.rs:61-78 | the read arms as `StepVariant` specifies them |
| `BehaviorTest.ApplyCallVariant` | examples/behavior-test.rs:79-121 | the remaining arms, including a size query with no sync first |
| `BehaviorTest.Test.New` | examples/behavior-test.rs:265-270 | the same creation contract as the library session |
| `BehaviorTest.Test.Run` | examples/behavior-test.rs:272-281 | the outcome and handles of `RunVariantSpec` |
| `BehaviorTest.Test.Close` | examples/behavior-test.rs:253-257 | dropping the session, even while a panic unwinds, removes both files |
| `BehaviorTest.RunTest` | examples/behavior-test.rs:284-289 | a wrong argument count fails the assertion; otherwise the creation error or the run's outcome from fresh files; the roots end as they started |
| `Regressions.Test1` | examples/check-regressions.rs:8-13 | (definition) `test_1`'s commands: a positioned write of 2539667 bytes at 2011037, then a positioned read of 5 bytes at 1 |
| `Regressions.Test2` | examples/check-regressions.rs:15-17 | (definition) `test_2`'s command: a truncate to 1 byte |
| `Regressions.Test3` | examples/check-regressions.rs:19-24 | (definition) `test_3`'s commands: a truncate to 2 bytes, then a positioned read of 1 byte at 1 |
| `Regressions.Test4` | examples/check-regressions.rs:26-34 | (definition) `test_4`'s commands: truncate to 2532034, write 2419266 bytes, truncate to 662889, reopen, positioned read of 1411041 bytes at 796278 |
| `Regressions.Cases` | examples/check-regressions.rs:59-62 | (definition) the four cases in the order `main` runs them |
| `Regressions.LiteralsBypassTheCeiling` | examples/check-regressions.rs:8-34 | with a 1 MiB argument the ceiling is 524288, and the generator can never produce the first commands of cases 1 and 4 |
| `Regressions.Test1ReadsInsideTheGap` | examples/check-regressions.rs:8-13 | the write far past the end leaves a zero-filled gap, and the read at offset 1 returns five zeros |
| `Regressions.Test2ExtendsByOneZero` | examples/check-regressions.rs:15-17 | extending an empty file to one byte succeeds and leaves one zero byte |
| `Regressions.Test3ReadsTheExtension` | examples/check-regressions.rs:19-24 | extending to two bytes and reading one byte at offset 1 returns a zero |
| `Regressions.Test4ReadsPastTheEnd` | examples/check-regressions.rs:26-34 | after the cut to 662889 bytes and the reopen, the handle is read-only at position 0, and the read at 796278 lies past the end: it transfers nothing and leaves the buffer all zeros |
| `Regressions.FailFast` | examples/check-regressions.rs:59-62 | Ok exactly when every case passes; otherwise the verdict of a failed case with every earlier case passed |
| `Regressions.FailFastAt` | examples/check-regressions.rs:59-62 | the first failing case's verdict is the overall verdict |
| `Regressions.RegressionsPassOnTheReference` | examples/check-regressions.rs:59-65 | over the reference semantics all cases pass exactly when every session can be created, and otherwise the first creation error is reported |
| `Regressions.RunTest` | examples/check-regressions.rs:36-41 | a wrong argument count fails the assertion; otherwise the session's verdict; the roots end as they started |
| `Regressions.RunCases` | examples/check-regressions.rs:59-62 | running the cases in order, stopping at the first failure, gives `FailFast` of their verdicts |
| `Regressions.CheckRegressions` | examples/check-regressions.rs:43-66 | start-up panics and usage errors pass through; otherwise the cell holds the ceiling and the verdict is that of the four cases; the roots end as they started |

## Left out

- Real filesystems. Each side runs on `RefFs`, one reference semantics, so
  the model proves that the harness raises no false alarm and that it
  catches real divergences, not that any particular filesystem behaves well.
  - Which errno a read-only handle gets (EBADF for writes, EINVAL for
    `set_len`) is the model's choice.
  - So is the rule that `sync_all`, `metadata` and `File::open` on an
    existing file never fail.
- The property-based search loop (`quickcheck(run_test)`, behavior-test.rs:307)
  and its `Gen`.
  - Each drawn `usize` is a parameter of `Arbitrary`.
  - The library's own `usize` shrinker is a function parameter, assumed
    only to offer smaller values (`StrictlyShrinks`).
- Randomness, names and paths:
  - The random bytes of a write (`rand::rng().fill_bytes`) are a payload
    parameter of exactly `count` bytes.
  - The UUIDv7 file name is a parameter.
  - Joining a root path and a name is a `Dir` object holding files by name.
- Output and messages:
  - `println!` and `eprintln!` output is not modelled.
  - The text of the error and usage messages is replaced by a `Detail` value
    that carries the same facts (offset, bytes, kinds).
- Short reads and short writes are not modelled: the reference semantics
  transfers as much as it can in one call.
- 64-bit file offsets are unbounded naturals; the `usize`-to-`u64` casts
  cannot lose anything at the sizes the ceiling allows.
- `Session.TestFile.Drop`: the `expect` panic when the file cannot be
  removed is not modelled, because over the model the file always exists
  when it is dropped.
- `Config.Start`: requires the ceiling cell to be empty, as it is when either
  `main` starts. A second initialisation, where `get_or_init` would skip its
  closure and so never compute the ceiling, is not modelled.
- `Config.CeilingFromMb`: only the debug-build overflow panic is modelled.
  A release build would wrap `size * 1024 * 1024` modulo `2^64`.
- The behaviour test has its own copies of `BoundedUsize`, the generator,
  the shrinker, `check_bytes` and `TestFile`. Each is identical to the
  library's and is modelled once, in `Commands`, `Compare` and `Session`.
- Unwinding is modelled only by its outcomes.
  - A panic is a `Panicked` result.
  - The files a panicking run leaves behind are removed, as unwinding drops
    them.
- Concurrency: the harness is single-threaded apart from the process-wide
  cell, which is modelled as one object.

## Findings

| source | as written | input that shows it | evidently intended | confidence | as-written member | corrected member |
|---|---|---|---|---|---|---|
| src/commands.rs:237-241 | the candidates for a `PWrite` are built with `Command::PRead` | `PWrite(1, 1)` with a `usize` shrinker that offers 0 yields `[PRead(0, 0)]`, so a failing write is "shrunk" into a read | candidates that stay `PWrite`, like every other arm | high, not executed | `Commands.PWriteShrinksIntoPRead` | `Commands.Shrink` |
| src/commands.rs:223-247 | `Reopen`, `Fsync` and `Size` each offer themselves as a shrink candidate | `Fsync` yields `[Fsync]`, a candidate no simpler than the input, so a search that keeps failing candidates can revisit it forever | no candidates (an empty iterator) | medium, not executed | `Commands.FieldlessShrinksToItself` | `Commands.ShrinkMakesProgress` |
| src/commands.rs:202 | the arm is chosen by `usize::arbitrary(g) % 8`, so the arms 0 to 7 cover every remainder and the `_ => Command::Size` arm can never be taken | every draw: `Arbitrary` never returns `Size`, so the size query is never generated | `% 9`, so that all nine variants are drawn | high, not executed | `Commands.Arbitrary` | `Commands.ArbitraryEveryArm` |
| src/commands.rs:228-232 | the offset and count candidates of a `PRead` (and of a `PWrite`) are zipped, so there are only as many as the shorter list has | `PRead(5, 0)` with a `usize` shrinker that offers 0 for positive values: the count offers nothing, so no candidate is offered, though `PRead(0, 0)` is simpler | each field shrunk with the other held fixed | medium, not executed | `Commands.PairZipStalls` | `Commands.Shrink` |
