/**
 * The regression runner: four command lists captured from failures of the
 * behaviour test, each replayed in a session of its own, in a fixed order,
 * stopping at the first that fails.
 */
module Regressions {
  import opened Io
  import opened RefFs
  import opened Commands
  import opened Session
  import opened Config

  function Test1(): seq<Command>
  {
    [PWrite(BoundedUsize(2011037), BoundedUsize(2539667)), PRead(BoundedUsize(1), BoundedUsize(5))]
  }

  function Test2(): seq<Command>
  {
    [Truncate(BoundedUsize(1))]
  }

  function Test3(): seq<Command>
  {
    [Truncate(BoundedUsize(2)), PRead(BoundedUsize(1), BoundedUsize(1))]
  }

  function Test4(): seq<Command>
  {
    [Truncate(BoundedUsize(2532034)), Write(BoundedUsize(2419266)), Truncate(BoundedUsize(662889)),
     Reopen, PRead(BoundedUsize(796278), BoundedUsize(1411041))]
  }

  /** The cases, in the order `main` runs them. */
  function Cases(): seq<seq<Command>>
  {
    [Test1(), Test2(), Test3(), Test4()]
  }

  /** A payload of the right size for every write of every case. */
  predicate FitCases(cases: seq<seq<Command>>, payloads: seq<seq<seq<Byte>>>)
  {
    |cases| == 4 && |payloads| == 4 && forall k :: 0 <= k < 4 ==> PayloadsFit(cases[k], payloads[k])
  }

  predicate CasePayloadsFit(payloads: seq<seq<seq<Byte>>>)
  {
    FitCases(Cases(), payloads)
  }

  /** The values are written out by hand, so they are not held to the
      generation ceiling: with a maximum size of 1 MiB the ceiling is 524288,
      and the generator can produce neither the first write of case 1 nor the
      first truncation of case 4. */
  lemma LiteralsBypassTheCeiling(tag: Usize, first: Usize, second: Usize)
    ensures Configure(["check-regressions", "a", "b", "1"]) == Returned(Configured("a", "b", 524288))
    ensures Arbitrary(tag, first, second, Some(524288)) != Returned(Test1()[0])
    ensures Arbitrary(tag, first, second, Some(524288)) != Returned(Test4()[0])
  {
    assert ParseUsize("1") == Some(1) by {
      assert "1"[..0] == [];
    }
    assert !BoundedBy(Test1()[0], 524288);
    assert !BoundedBy(Test4()[0], 524288);
  }

  /** Case 1: a positioned write far past the end of an empty file leaves a
      zero gap, and the read inside that gap returns five zero bytes. */
  lemma Test1ReadsInsideTheGap(payload: seq<Byte>)
    requires |payload| == 2539667
    ensures var h := Observe(Test1()[0], Fresh, payload).1;
            |h.content| == 2011037 + 2539667 &&
            Observe(Test1()[1], h, []).0 == Filled(Ok(5), Zeros(5))
  {
    var h := Observe(Test1()[0], Fresh, payload).1;
    var e := ReadAtSpec(h, 1, 5);
    assert e.buffer == Zeros(5) by {
      forall i | 0 <= i < 5 ensures e.buffer[i] == 0 {
        assert h.content[1 + i] == 0;
      }
    }
  }

  /** Case 2: extending an empty file to one byte succeeds and leaves one zero byte. */
  lemma Test2ExtendsByOneZero()
    ensures Observe(Test2()[0], Fresh, []) == (Unit(Ok(())), Handle([0], 0, true))
  {
    assert Resize([], 1) == [0];
  }

  /** Case 3: extending an empty file to two bytes and reading the second one
      gives one zero byte. */
  lemma Test3ReadsTheExtension()
    ensures var h := Observe(Test3()[0], Fresh, []).1;
            h.content == [0, 0] && Observe(Test3()[1], h, []).0 == Filled(Ok(1), [0])
  {
    var h := Observe(Test3()[0], Fresh, []).1;
    assert h.content == [0, 0];
    var e := ReadAtSpec(h, 1, 1);
    assert e.buffer == [0];
  }

  /** Case 4: after the cut to 662889 bytes and the reopen, the handle is
      read-only at position 0 and the read at 796278 lies past the end: it
      transfers nothing and leaves the buffer all zeros. */
  lemma Test4ReadsPastTheEnd(payload: seq<Byte>)
    requires |payload| == 2419266
    ensures var h1 := Observe(Test4()[0], Fresh, []).1;
            var h2 := Observe(Test4()[1], h1, payload).1;
            var h3 := Observe(Test4()[2], h2, []).1;
            var h4 := Observe(Test4()[3], h3, []).1;
            |h4.content| == 662889 && h4.pos == 0 && !h4.writable &&
            Observe(Test4()[4], h4, []).0 == Filled(Ok(0), Zeros(1411041))
  {
    var h1 := Observe(Test4()[0], Fresh, []).1;
    var h2 := Observe(Test4()[1], h1, payload).1;
    assert |h2.content| == 2532034;
    var h3 := Observe(Test4()[2], h2, []).1;
    var h4 := Observe(Test4()[3], h3, []).1;
    var e := ReadAtSpec(h4, 796278, 1411041);
    assert e.buffer == Zeros(1411041);
  }

  /** The verdict `main` reports for a list of case verdicts: the first
      failure, and success only if there is none. */
  function FailFast(verdicts: seq<IoResult<()>>): (r: IoResult<()>)
    ensures r.Ok? <==> forall k :: 0 <= k < |verdicts| ==> verdicts[k].Ok?
    ensures r.Ok? ==> r == Ok(())
    ensures r.Err? ==> exists k :: 0 <= k < |verdicts| && verdicts[k] == r &&
                                   forall j :: 0 <= j < k ==> verdicts[j].Ok?
  {
    if verdicts == [] then Ok(())
    else if verdicts[0].Err? then verdicts[0]
    else
      var rest := FailFast(verdicts[1..]);
      assert forall k :: 0 <= k < |verdicts[1..]| ==> verdicts[1..][k] == verdicts[k + 1];
      rest
  }

  /** The first failure is the verdict. */
  lemma FailFastAt(verdicts: seq<IoResult<()>>, i: nat)
    requires i < |verdicts| && verdicts[i].Err? && forall j :: 0 <= j < i ==> verdicts[j].Ok?
    ensures FailFast(verdicts) == verdicts[i]
  {
    var r := FailFast(verdicts);
    var m :| 0 <= m < |verdicts| && verdicts[m] == r && forall j :: 0 <= j < m ==> verdicts[j].Ok?;
    assert m == i;
  }

  /** Why each case's session could not be created, if it could not. */
  function CreateErrors(root1: Dir, root2: Dir, names: seq<string>): seq<Option<IoError>>
    requires |names| == 4
    reads root1, root2
  {
    [TwinCreateError(root1, root2, names[0]), TwinCreateError(root1, root2, names[1]),
     TwinCreateError(root1, root2, names[2]), TwinCreateError(root1, root2, names[3])]
  }

  /** Each case's verdict, run in a session of its own. */
  function CaseVerdicts(createErrors: seq<Option<IoError>>, cases: seq<seq<Command>>, payloads: seq<seq<seq<Byte>>>): seq<IoResult<()>>
    requires |createErrors| == 4 && FitCases(cases, payloads)
  {
    [SessionVerdict(createErrors[0], cases[0], payloads[0]), SessionVerdict(createErrors[1], cases[1], payloads[1]),
     SessionVerdict(createErrors[2], cases[2], payloads[2]), SessionVerdict(createErrors[3], cases[3], payloads[3])]
  }

  /** Over the reference semantics every case passes when its session can be
      created, so the verdict of `main` is the first case whose session cannot
      be created, and success when there is none. */
  lemma RegressionsPassOnTheReference(createErrors: seq<Option<IoError>>, cases: seq<seq<Command>>,
                                      payloads: seq<seq<seq<Byte>>>)
    requires |createErrors| == 4 && FitCases(cases, payloads)
    ensures FailFast(CaseVerdicts(createErrors, cases, payloads)).Ok? <==>
              forall k :: 0 <= k < 4 ==> createErrors[k].None?
    ensures forall k :: 0 <= k < 4 && createErrors[k].Some? && (forall j :: 0 <= j < k ==> createErrors[j].None?) ==>
              FailFast(CaseVerdicts(createErrors, cases, payloads)) == Err(createErrors[k].value)
  {
    var v := CaseVerdicts(createErrors, cases, payloads);
    assert forall k :: 0 <= k < 4 ==> (v[k].Ok? <==> createErrors[k].None?);
    forall k | 0 <= k < 4 && createErrors[k].Some? && (forall j :: 0 <= j < k ==> createErrors[j].None?)
      ensures FailFast(v) == Err(createErrors[k].value)
    {
      FailFastAt(v, k);
    }
  }

  /** `run_test` of the regression runner: re-check the argument count, open a
      session under a fresh name in the two roots, run, and drop the session,
      which removes both files. */
  method RunTest(args: seq<string>, root1: Dir, root2: Dir, fname: string,
                 cmds: seq<Command>, payloads: seq<seq<Byte>>) returns (r: Panicking<IoResult<()>>)
    requires PayloadsFit(cmds, payloads)
    modifies root1, root2
    ensures |args| != 4 ==> r == Panicked(AssertEqFailed)
    ensures |args| == 4 ==> r == Returned(SessionVerdict(old(TwinCreateError(root1, root2, fname)), cmds, payloads))
    // nothing is left behind in either root
    ensures root1.files == old(root1.files) && root2.files == old(root2.files)
  {
    if |args| != 4 {
      return Panicked(AssertEqFailed);
    }
    var t := CommandsTest.New(root1, root2, fname);
    if t.Err? {
      return Returned(Err(t.error));
    }
    var test := t.value;
    var v := test.Run(cmds, payloads);
    test.Close();
    r := Returned(v);
  }

  /** The four cases of `main`, in order, stopping at the first failure. */
  method RunCases(args: seq<string>, root1: Dir, root2: Dir, names: seq<string>,
                  cases: seq<seq<Command>>, payloads: seq<seq<seq<Byte>>>) returns (r: IoResult<()>)
    requires |args| == 4 && |names| == 4 && FitCases(cases, payloads)
    modifies root1, root2
    ensures r == FailFast(CaseVerdicts(old(CreateErrors(root1, root2, names)), cases, payloads))
    ensures root1.files == old(root1.files) && root2.files == old(root2.files)
  {
    ghost var v := CaseVerdicts(CreateErrors(root1, root2, names), cases, payloads);
    var r1 := RunTest(args, root1, root2, names[0], cases[0], payloads[0]);
    if r1.value.Err? {
      FailFastAt(v, 0);
      return r1.value;
    }
    var r2 := RunTest(args, root1, root2, names[1], cases[1], payloads[1]);
    if r2.value.Err? {
      FailFastAt(v, 1);
      return r2.value;
    }
    var r3 := RunTest(args, root1, root2, names[2], cases[2], payloads[2]);
    if r3.value.Err? {
      FailFastAt(v, 2);
      return r3.value;
    }
    var r4 := RunTest(args, root1, root2, names[3], cases[3], payloads[3]);
    if r4.value.Err? {
      FailFastAt(v, 3);
      return r4.value;
    }
    assert forall k :: 0 <= k < 4 ==> v[k].Ok?;
    r := Ok(());
  }

  /** `main` of the regression runner: the usage check, the parse of the size
      and the ceiling, then the four cases. Each case leaves both roots as it
      found them. */
  method CheckRegressions(args: seq<string>, root1: Dir, root2: Dir, names: seq<string>,
                          payloads: seq<seq<seq<Byte>>>, cell: OnceCeiling) returns (exit: Panicking<IoResult<()>>)
    requires |names| == 4 && CasePayloadsFit(payloads) && cell.value.None?
    modifies cell, root1, root2
    ensures Configure(args).Panicked? ==> exit == Panicked(Configure(args).reason)
    ensures Configure(args).Returned? && Configure(args).value.UsageError? ==>
              exit == Returned(Err(Configure(args).value.error))
    ensures Configure(args).Returned? && Configure(args).value.Configured? ==>
              exit == Returned(FailFast(CaseVerdicts(old(CreateErrors(root1, root2, names)), Cases(), payloads)))
    ensures Configure(args).Returned? && Configure(args).value.Configured? ==>
              cell.value == Some(Configure(args).value.ceiling)
    ensures root1.files == old(root1.files) && root2.files == old(root2.files)
  {
    var launch := Start(args, cell);
    if launch.Panicked? {
      return Panicked(launch.reason);
    }
    if launch.value.UsageError? {
      return Returned(Err(launch.value.error));
    }
    var r := RunCases(args, root1, root2, names, Cases(), payloads);
    exit := Returned(r);
  }
}
