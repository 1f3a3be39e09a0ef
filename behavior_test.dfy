/**
 * The random behaviour test's own copy of the comparator. It differs from the
 * library in two ways: `check_res` asserts instead of returning an error, and
 * the size query is not preceded by a sync. Its `BoundedUsize`, `Command`
 * and `TestFile` are the library's, repeated, and are modelled once.
 */
module BehaviorTest {
  import opened Io
  import opened RefFs
  import opened Commands
  import opened Compare
  import opened Session

  /** `check_res` of the behaviour test: `assert_eq!` on the two values or the
      two error kinds, and a panic when one side failed and the other did not. */
  function CheckResPanicking<T(==)>(res1: IoResult<T>, res2: IoResult<T>): (r: Panicking<IoResult<()>>)
    // when it returns at all, it returns success
    ensures r.Returned? ==> r.value == Ok(())
    // it returns exactly when the library comparator would pass
    ensures r.Returned? <==> CheckRes(res1, res2).Ok?
    ensures r.Panicked? ==> (r.reason == MixedOutcome <==> res1.Ok? != res2.Ok?)
    ensures r.Panicked? ==> r.reason == MixedOutcome || r.reason == AssertEqFailed
  {
    if res1.Ok? && res2.Ok? then
      if res1.value == res2.value then Returned(Ok(())) else Panicked(AssertEqFailed)
    else if res1.Err? && res2.Err? then
      if res1.error.kind == res2.error.kind then Returned(Ok(())) else Panicked(AssertEqFailed)
    else Panicked(MixedOutcome)
  }

  /** The calls one arm of this `apply` makes on one side: the library's,
      except that the size query is a bare `metadata` length. */
  function ObserveVariant(cmd: Command, h: Handle, payload: seq<Byte>): (Observation, Handle)
  {
    if cmd.Size? then (Measured(SizeSpec(h)), h) else Observe(cmd, h, payload)
  }

  /** The comparison one arm of this `apply` makes. */
  function JudgeVariant(o1: Observation, o2: Observation): Panicking<IoResult<()>>
    requires Shape(o1) == Shape(o2)
  {
    match o1
    case Unit(r1) => CheckResPanicking(r1, o2.result)
    case Amount(r1) => CheckResPanicking(r1, o2.amount)
    case Filled(r1, b1) =>
      var c := CheckResPanicking(r1, o2.filled);
      if c.Panicked? then c else Returned(BytesVerdict(b1, o2.buffer))
    case Sized(_, z1) => CheckResPanicking(z1, o2.size)
    case Measured(z1) => CheckResPanicking(z1, o2.length)
  }

  /** The verdict of one step and both handles after it. */
  datatype VariantOutcome = VariantOutcome(verdict: Panicking<IoResult<()>>, after1: Handle, after2: Handle)

  function StepVariant(cmd: Command, h1: Handle, h2: Handle, payload: seq<Byte>): VariantOutcome
  {
    var (o1, a1) := ObserveVariant(cmd, h1, payload);
    var (o2, a2) := ObserveVariant(cmd, h2, payload);
    VariantOutcome(JudgeVariant(o1, o2), a1, a2)
  }

  /** How a library verdict shows up in the behaviour test: a byte mismatch is
      still an error, every other divergence is a panic. */
  function Lift(v: IoResult<()>): Panicking<IoResult<()>>
  {
    if v.Ok? || v.error.detail.BytesMismatch? then Returned(v)
    else if v.error.detail.ResultMismatch? then Panicked(MixedOutcome)
    else Panicked(AssertEqFailed)
  }

  /** The panicking comparator is the library comparator, lifted. */
  lemma CheckResPanickingIsLifted<T>(res1: IoResult<T>, res2: IoResult<T>)
    ensures CheckResPanicking(res1, res2) == Lift(CheckRes(res1, res2))
  {
  }

  /** Over the reference semantics, a step of the behaviour test ends in the
      state a library step ends in, with the library verdict lifted: the sync
      the library adds before a size query changes nothing there. */
  lemma StepVariantIsLifted(cmd: Command, h1: Handle, h2: Handle, payload: seq<Byte>)
    ensures var s := Step(cmd, h1, h2, payload);
            StepVariant(cmd, h1, h2, payload) == VariantOutcome(Lift(s.verdict), s.after1, s.after2)
  {
    var (o1, _) := Observe(cmd, h1, payload);
    var (o2, _) := Observe(cmd, h2, payload);
    if o1.Unit? {
      CheckResPanickingIsLifted(o1.result, o2.result);
    } else if o1.Amount? {
      CheckResPanickingIsLifted(o1.amount, o2.amount);
    } else if o1.Filled? {
      CheckResPanickingIsLifted(o1.filled, o2.filled);
    } else if o1.Sized? {
      CheckResPanickingIsLifted(o1.size, o2.size);
    }
  }

  function RunVariantSpec(cmds: seq<Command>, h1: Handle, h2: Handle, payloads: seq<seq<Byte>>): VariantOutcome
    requires |payloads| == |cmds|
    decreases |cmds|
  {
    if cmds == [] then VariantOutcome(Returned(Ok(())), h1, h2)
    else
      var s := StepVariant(cmds[0], h1, h2, payloads[0]);
      if s.verdict.Panicked? || s.verdict.value.Err? then s
      else RunVariantSpec(cmds[1..], s.after1, s.after2, payloads[1..])
  }

  /** One step of a run from position `i`: the step there, and the rest only if it passed. */
  lemma RunVariantSpecFrom(cmds: seq<Command>, i: nat, h1: Handle, h2: Handle, payloads: seq<seq<Byte>>)
    requires |payloads| == |cmds| && i < |cmds|
    ensures var s := StepVariant(cmds[i], h1, h2, payloads[i]);
            RunVariantSpec(cmds[i..], h1, h2, payloads[i..]) ==
              if s.verdict.Panicked? || s.verdict.value.Err? then s
              else RunVariantSpec(cmds[i + 1..], s.after1, s.after2, payloads[i + 1..])
  {
    assert cmds[i..][0] == cmds[i] && cmds[i..][1..] == cmds[i + 1..];
    assert payloads[i..][0] == payloads[i] && payloads[i..][1..] == payloads[i + 1..];
  }

  /** A whole run of the behaviour test is a library run with its verdict lifted. */
  lemma {:induction false} RunVariantIsLifted(cmds: seq<Command>, h1: Handle, h2: Handle, payloads: seq<seq<Byte>>)
    requires |payloads| == |cmds|
    ensures var o := RunSpec(cmds, h1, h2, payloads);
            RunVariantSpec(cmds, h1, h2, payloads) == VariantOutcome(Lift(o.verdict), o.after1, o.after2)
    decreases |cmds|
  {
    if cmds != [] {
      StepVariantIsLifted(cmds[0], h1, h2, payloads[0]);
      var s := Step(cmds[0], h1, h2, payloads[0]);
      if s.verdict.Ok? {
        RunVariantIsLifted(cmds[1..], s.after1, s.after2, payloads[1..]);
      }
    }
  }

  /** The only error a run of the behaviour test returns is a byte mismatch;
      every other divergence panics, and twins never diverge. */
  lemma RunVariantErrorsAreByteMismatches(cmds: seq<Command>, h1: Handle, h2: Handle, payloads: seq<seq<Byte>>)
    requires |payloads| == |cmds|
    ensures var v := RunVariantSpec(cmds, h1, h2, payloads).verdict;
            v.Returned? && v.value.Err? ==> v.value.error.detail.BytesMismatch?
    ensures RunVariantSpec(cmds, h1, h1, payloads).verdict == Returned(Ok(()))
  {
    RunVariantIsLifted(cmds, h1, h2, payloads);
    RunVariantIsLifted(cmds, h1, h1, payloads);
    RunSpecTwinsAgree(cmds, h1, payloads);
  }

  /** `Command::apply` of the behaviour test, its arms grouped by the checks they make. */
  method ApplyVariant(cmd: Command, fd1: TestFile, fd2: TestFile, payload: seq<Byte>) returns (r: Panicking<IoResult<()>>)
    requires Twins(fd1, fd2) && PayloadFits(cmd, payload)
    modifies fd1, fd2, fd1.dir, fd2.dir
    ensures Twins(fd1, fd2)
    ensures var s := StepVariant(cmd, old(fd1.View()), old(fd2.View()), payload);
            r == s.verdict && fd1.View() == s.after1 && fd2.View() == s.after2
    ensures fd1.dir.files == old(fd1.dir.files)[fd1.name := fd1.View().content]
    ensures fd2.dir.files == old(fd2.dir.files)[fd2.name := fd2.View().content]
  {
    if cmd.Read? || cmd.PRead? {
      r := ApplyReadVariant(cmd, fd1, fd2, payload);
    } else {
      r := ApplyCallVariant(cmd, fd1, fd2, payload);
    }
  }

  /** The arms that read: the results are asserted equal, then the buffers compared. */
  method ApplyReadVariant(cmd: Command, fd1: TestFile, fd2: TestFile, payload: seq<Byte>) returns (r: Panicking<IoResult<()>>)
    requires cmd.Read? || cmd.PRead?
    requires Twins(fd1, fd2) && PayloadFits(cmd, payload)
    modifies fd1, fd2, fd1.dir, fd2.dir
    ensures Twins(fd1, fd2)
    ensures var s := StepVariant(cmd, old(fd1.View()), old(fd2.View()), payload);
            r == s.verdict && fd1.View() == s.after1 && fd2.View() == s.after2
    ensures fd1.dir.files == old(fd1.dir.files)[fd1.name := fd1.View().content]
    ensures fd2.dir.files == old(fd2.dir.files)[fd2.name := fd2.View().content]
  {
    var res1, bytes1, res2, bytes2;
    if cmd.Read? {
      res1, bytes1 := fd1.Read(cmd.count.value);
      res2, bytes2 := fd2.Read(cmd.count.value);
    } else {
      res1, bytes1 := fd1.ReadAt(cmd.offset.value, cmd.count.value);
      res2, bytes2 := fd2.ReadAt(cmd.offset.value, cmd.count.value);
    }
    r := CheckResPanicking(res1, res2);
    if r.Returned? {
      var b := CheckBytes(bytes1, bytes2);
      r := Returned(b);
    }
  }

  /** The other arms: one call on each side, then the results asserted equal;
      the size arm reads both lengths with no sync first. */
  method ApplyCallVariant(cmd: Command, fd1: TestFile, fd2: TestFile, payload: seq<Byte>) returns (r: Panicking<IoResult<()>>)
    requires !(cmd.Read? || cmd.PRead?)
    requires Twins(fd1, fd2) && PayloadFits(cmd, payload)
    modifies fd1, fd2, fd1.dir, fd2.dir
    ensures Twins(fd1, fd2)
    ensures var s := StepVariant(cmd, old(fd1.View()), old(fd2.View()), payload);
            r == s.verdict && fd1.View() == s.after1 && fd2.View() == s.after2
    ensures fd1.dir.files == old(fd1.dir.files)[fd1.name := fd1.View().content]
    ensures fd2.dir.files == old(fd2.dir.files)[fd2.name := fd2.View().content]
  {
    match cmd
    case Reopen =>
      var res1 := fd1.Reopen();
      var res2 := fd2.Reopen();
      r := CheckResPanicking(res1, res2);
    case Write(_) =>
      var res1 := fd1.Write(payload);
      var res2 := fd2.Write(payload);
      r := CheckResPanicking(res1, res2);
    case PWrite(offset, _) =>
      var res1 := fd1.WriteAt(payload, offset.value);
      var res2 := fd2.WriteAt(payload, offset.value);
      r := CheckResPanicking(res1, res2);
    case Seek(offset) =>
      var res1 := fd1.Seek(offset.value);
      var res2 := fd2.Seek(offset.value);
      r := CheckResPanicking(res1, res2);
    case Truncate(length) =>
      var res1 := fd1.SetLen(length.value);
      var res2 := fd2.SetLen(length.value);
      r := CheckResPanicking(res1, res2);
    case Fsync =>
      var res1 := fd1.SyncAll();
      var res2 := fd2.SyncAll();
      r := CheckResPanicking(res1, res2);
    case Size =>
      var res1 := fd1.Size();
      var res2 := fd2.Size();
      r := CheckResPanicking(res1, res2);
  }

  /** `Test`: the twin files of one behaviour-test session. */
  class Test {
    const fd1: TestFile
    const fd2: TestFile

    ghost predicate Valid()
      reads this, fd1, fd2, fd1.dir, fd2.dir
    {
      Twins(fd1, fd2) && fd1.name == fd2.name
    }

    constructor Pair(fd1: TestFile, fd2: TestFile)
      ensures this.fd1 == fd1 && this.fd2 == fd2
    {
      this.fd1 := fd1;
      this.fd2 := fd2;
    }

    /** `Test::new`, the same creation as the library's session. */
    static method New(dir1: Dir, dir2: Dir, fname: string) returns (r: IoResult<Test>)
      modifies dir1, dir2
      ensures r.Err? <==> old(TwinCreateError(dir1, dir2, fname)).Some?
      ensures r.Err? ==> Some(r.error) == old(TwinCreateError(dir1, dir2, fname))
      ensures r.Err? ==> dir1.files == old(dir1.files) && dir2.files == old(dir2.files)
      ensures r.Ok? ==>
                fresh(r.value) && fresh(r.value.fd1) && fresh(r.value.fd2) && r.value.Valid() &&
                r.value.fd1.dir == dir1 && r.value.fd2.dir == dir2 && r.value.fd1.name == fname &&
                r.value.fd1.View() == Fresh && r.value.fd2.View() == Fresh &&
                dir1.files == old(dir1.files)[fname := []] && dir2.files == old(dir2.files)[fname := []]
    {
      var c := CommandsTest.New(dir1, dir2, fname);
      if c.Err? {
        return Err(c.error);
      }
      var t := new Test.Pair(c.value.fd1, c.value.fd2);
      return Ok(t);
    }

    /** `Test::run`: apply the commands in order, up to the first error or panic. */
    method Run(cmds: seq<Command>, payloads: seq<seq<Byte>>) returns (r: Panicking<IoResult<()>>)
      requires Valid() && PayloadsFit(cmds, payloads)
      modifies fd1, fd2, fd1.dir, fd2.dir
      ensures Valid()
      ensures var o := RunVariantSpec(cmds, old(fd1.View()), old(fd2.View()), payloads);
              r == o.verdict && fd1.View() == o.after1 && fd2.View() == o.after2
      ensures fd1.dir.files == old(fd1.dir.files)[fd1.name := fd1.View().content]
      ensures fd2.dir.files == old(fd2.dir.files)[fd2.name := fd2.View().content]
    {
      ghost var start1, start2 := fd1.View(), fd2.View();
      var i := 0;
      while i < |cmds|
        invariant 0 <= i <= |cmds|
        invariant Valid()
        invariant RunVariantSpec(cmds, start1, start2, payloads) ==
                  RunVariantSpec(cmds[i..], fd1.View(), fd2.View(), payloads[i..])
        invariant fd1.dir.files == old(fd1.dir.files)[fd1.name := fd1.View().content]
        invariant fd2.dir.files == old(fd2.dir.files)[fd2.name := fd2.View().content]
      {
        RunVariantSpecFrom(cmds, i, fd1.View(), fd2.View(), payloads);
        ghost var before1, before2 := fd1.View().content, fd2.View().content;
        r := ApplyVariant(cmds[i], fd1, fd2, payloads[i]);
        StoreTwice(old(fd1.dir.files), fd1.name, before1, fd1.View().content);
        StoreTwice(old(fd2.dir.files), fd2.name, before2, fd2.View().content);
        if r.Panicked? || r.value.Err? {
          return;
        }
        i := i + 1;
      }
      r := Returned(Ok(()));
    }

    /** Dropping the session, also on the way out of a panic, removes both files. */
    method Close()
      requires Valid()
      modifies fd1.dir, fd2.dir
      ensures fd1.dir.files == old(fd1.dir.files) - {fd1.name}
      ensures fd2.dir.files == old(fd2.dir.files) - {fd2.name}
    {
      fd1.Drop();
      fd2.Drop();
    }
  }

  /** `run_test` of the behaviour test: re-check the argument count, open a
      session under a fresh name in the two roots, run, and drop the session,
      which removes both files whatever the outcome. */
  method RunTest(args: seq<string>, root1: Dir, root2: Dir, fname: string,
                 cmds: seq<Command>, payloads: seq<seq<Byte>>) returns (r: Panicking<IoResult<()>>)
    requires PayloadsFit(cmds, payloads)
    modifies root1, root2
    ensures |args| != 4 ==> r == Panicked(AssertEqFailed)
    ensures |args| == 4 ==>
              r == match old(TwinCreateError(root1, root2, fname))
                   case Some(e) => Returned(Err(e))
                   case None => RunVariantSpec(cmds, Fresh, Fresh, payloads).verdict
    // nothing is left behind in either root
    ensures root1.files == old(root1.files) && root2.files == old(root2.files)
  {
    if |args| != 4 {
      return Panicked(AssertEqFailed);
    }
    var t := Test.New(root1, root2, fname);
    if t.Err? {
      return Returned(Err(t.error));
    }
    var test := t.value;
    r := test.Run(cmds, payloads);
    test.Close();
  }
}
