/**
 * The twin file session: one test file in each storage root under one shared
 * name, a command applied to both and the two outcomes compared, and a run of
 * a command list that stops at the first divergence.
 */
module Session {
  import opened Io
  import opened RefFs
  import opened Commands
  import opened Compare

  /** What one side's calls produced for one command. */
  datatype Observation =
    | Unit(result: IoResult<()>)                        // reopen, set_len, sync_all
    | Amount(amount: IoResult<nat>)                     // write, write_at (bytes written), seek (new position)
    | Filled(filled: IoResult<nat>, buffer: seq<Byte>)  // read, read_at, and the buffer they filled
    | Sized(synced: IoResult<()>, size: IoResult<nat>)  // sync_all, then the length by path
    | Measured(length: IoResult<nat>)                   // the length by path, with no sync first

  function Shape(o: Observation): nat
  {
    match o
    case Unit(_) => 0
    case Amount(_) => 1
    case Filled(_, _) => 2
    case Sized(_, _) => 3
    case Measured(_) => 4
  }

  /** The shape of observation each command makes. */
  function ShapeOf(cmd: Command): nat
  {
    match cmd
    case Reopen => 0
    case Truncate(_) => 0
    case Fsync => 0
    case Write(_) => 1
    case PWrite(_, _) => 1
    case Seek(_) => 1
    case Read(_) => 2
    case PRead(_, _) => 2
    case Size => 3
  }

  /** The random buffer `apply` fills for a write holds exactly `count` bytes. */
  predicate PayloadFits(cmd: Command, payload: seq<Byte>)
  {
    (cmd.Write? || cmd.PWrite?) ==> |payload| == cmd.count.value
  }

  predicate PayloadsFit(cmds: seq<Command>, payloads: seq<seq<Byte>>)
  {
    |payloads| == |cmds| && forall i :: 0 <= i < |cmds| ==> PayloadFits(cmds[i], payloads[i])
  }

  /** The calls one arm of `apply` makes on one side, under the reference semantics. */
  function Observe(cmd: Command, h: Handle, payload: seq<Byte>): (r: (Observation, Handle))
    ensures Shape(r.0) == ShapeOf(cmd)
    // a read fills a zeroed buffer of exactly `count` bytes
    ensures cmd.Read? || cmd.PRead? ==> |r.0.buffer| == cmd.count.value
    // positioned calls, fsync and the size query leave the cursor alone
    ensures cmd.PRead? || cmd.PWrite? || cmd.Fsync? || cmd.Size? ==> r.1.pos == h.pos
  {
    match cmd
    case Reopen => var e := ReopenSpec(h); (Unit(e.result), e.after)
    case Read(count) => var e := ReadSpec(h, count.value); (Filled(e.result, e.buffer), e.after)
    case PRead(offset, count) =>
      var e := ReadAtSpec(h, offset.value, count.value); (Filled(e.result, e.buffer), e.after)
    case Write(_) => var e := WriteSpec(h, payload); (Amount(e.result), e.after)
    case PWrite(offset, _) => var e := WriteAtSpec(h, payload, offset.value); (Amount(e.result), e.after)
    case Seek(offset) => var e := SeekSpec(h, offset.value); (Amount(e.result), e.after)
    case Truncate(length) => var e := SetLenSpec(h, length.value); (Unit(e.result), e.after)
    case Fsync => (Unit(SyncSpec(h)), h)
    case Size => (Sized(SyncSpec(h), SizeSpec(h)), h)
  }

  /** The comparison one arm of `apply` makes of the two sides' observations. */
  function Judge(o1: Observation, o2: Observation): IoResult<()>
    requires Shape(o1) == Shape(o2)
  {
    match o1
    case Unit(r1) => CheckRes(r1, o2.result)
    case Amount(r1) => CheckRes(r1, o2.amount)
    case Filled(r1, b1) =>
      // the bytes are looked at only once the two results agree
      var c := CheckRes(r1, o2.filled);
      if c.Err? then c else BytesVerdict(b1, o2.buffer)
    // the two sync results are checked, but that verdict is dropped
    case Sized(_, z1) => CheckRes(z1, o2.size)
    case Measured(z1) => CheckRes(z1, o2.length)
  }

  /** Whatever the two syncs before a size query returned, only the sizes decide. */
  lemma SizeIgnoresSyncVerdict(sync1: IoResult<()>, sync2: IoResult<()>, size1: IoResult<nat>, size2: IoResult<nat>)
    ensures Judge(Sized(sync1, size1), Sized(sync2, size2)) == CheckRes(size1, size2)
    ensures sync1.Ok? && sync2.Err? && size1 == size2 ==> Judge(Sized(sync1, size1), Sized(sync2, size2)).Ok?
  {
  }

  /** For a read, results that disagree are reported as such and the bytes are
      never compared; with results that agree and buffers of one length, the
      step passes exactly when the buffers are equal. */
  lemma JudgeFilled(r1: IoResult<nat>, b1: seq<Byte>, r2: IoResult<nat>, b2: seq<Byte>)
    ensures CheckRes(r1, r2).Err? ==> Judge(Filled(r1, b1), Filled(r2, b2)) == CheckRes(r1, r2)
    ensures |b1| == |b2| ==>
              (Judge(Filled(r1, b1), Filled(r2, b2)).Ok? <==> CheckRes(r1, r2).Ok? && b1 == b2)
  {
    if |b1| == |b2| {
      BytesVerdictEqualLength(b1, b2);
    }
  }

  /** The verdict of one step and both handles after it. */
  datatype TwinOutcome = TwinOutcome(verdict: IoResult<()>, after1: Handle, after2: Handle)

  /** One `apply`: the same command, with the same payload, on both sides, then the comparison. */
  function Step(cmd: Command, h1: Handle, h2: Handle, payload: seq<Byte>): TwinOutcome
  {
    var (o1, a1) := Observe(cmd, h1, payload);
    var (o2, a2) := Observe(cmd, h2, payload);
    TwinOutcome(Judge(o1, o2), a1, a2)
  }

  /** Two sides in the same state pass every step and stay in the same state:
      the harness raises no false alarm. */
  lemma StepTwinsAgree(cmd: Command, h: Handle, payload: seq<Byte>)
    ensures Step(cmd, h, h, payload).verdict == Ok(())
    ensures Step(cmd, h, h, payload).after1 == Step(cmd, h, h, payload).after2
  {
    var o := Observe(cmd, h, payload).0;
    if o.Filled? {
      BytesVerdictEqualLength(o.buffer, o.buffer);
    }
  }

  /** Sides whose files differ in length fail a size query. */
  lemma SizeDetectsLengthDivergence(h1: Handle, h2: Handle, payload: seq<Byte>)
    requires |h1.content| != |h2.content|
    ensures Step(Size, h1, h2, payload).verdict == Err(IoError(Other, OkValueMismatch))
  {
  }

  /** Sides whose files have one length but differ fail a whole-file positioned
      read, which names the first differing offset and both bytes there. */
  lemma PReadPinpointsFirstDifference(h1: Handle, h2: Handle, payload: seq<Byte>)
    requires |h1.content| == |h2.content| < USIZE_LIMIT && h1.content != h2.content
    ensures var cmd := PRead(BoundedUsize(0), BoundedUsize(|h1.content|));
            var v := Step(cmd, h1, h2, payload).verdict;
            v.Err? && v.error.detail.BytesMismatch? &&
            var k := v.error.detail.offset;
            k < |h1.content| && h1.content[k] != h2.content[k] &&
            v.error.detail.byte1 == h1.content[k] && v.error.detail.byte2 == h2.content[k] &&
            forall j :: 0 <= j < k ==> h1.content[j] == h2.content[j]
  {
    var n := |h1.content|;
    var e1 := ReadAtSpec(h1, 0, n);
    var e2 := ReadAtSpec(h2, 0, n);
    assert e1.buffer == h1.content;
    assert e2.buffer == h2.content;
    BytesVerdictEqualLength(h1.content, h2.content);
  }

  /** Both sides receive the very same bytes: after a positioned write to two
      writable handles, both files hold the payload at the offset. */
  lemma PWriteStoresPayloadOnBothSides(offset: BoundedUsize, count: BoundedUsize, h1: Handle, h2: Handle, payload: seq<Byte>)
    requires PayloadFits(PWrite(offset, count), payload) && h1.writable && h2.writable
    ensures var s := Step(PWrite(offset, count), h1, h2, payload);
            s.verdict == Ok(()) &&
            forall i :: 0 <= i < count.value ==>
              s.after1.content[offset.value + i] == payload[i] == s.after2.content[offset.value + i]
  {
  }

  /** The commands run in order on both sides, stopping at the first divergence. */
  function RunSpec(cmds: seq<Command>, h1: Handle, h2: Handle, payloads: seq<seq<Byte>>): TwinOutcome
    requires |payloads| == |cmds|
    decreases |cmds|
  {
    if cmds == [] then TwinOutcome(Ok(()), h1, h2)
    else
      var s := Step(cmds[0], h1, h2, payloads[0]);
      if s.verdict.Err? then s else RunSpec(cmds[1..], s.after1, s.after2, payloads[1..])
  }

  /** One step of a run from position `i`: the step there, and the rest only if it passed. */
  lemma RunSpecFrom(cmds: seq<Command>, i: nat, h1: Handle, h2: Handle, payloads: seq<seq<Byte>>)
    requires |payloads| == |cmds| && i < |cmds|
    ensures var s := Step(cmds[i], h1, h2, payloads[i]);
            RunSpec(cmds[i..], h1, h2, payloads[i..]) ==
              if s.verdict.Err? then s else RunSpec(cmds[i + 1..], s.after1, s.after2, payloads[i + 1..])
  {
    assert cmds[i..][0] == cmds[i] && cmds[i..][1..] == cmds[i + 1..];
    assert payloads[i..][0] == payloads[i] && payloads[i..][1..] == payloads[i + 1..];
  }

  /** Fail-fast: running `a` then `b` is running `a`, and `b` only if `a` passed. */
  lemma {:induction false} RunSpecAppend(a: seq<Command>, b: seq<Command>, h1: Handle, h2: Handle,
                                         pa: seq<seq<Byte>>, pb: seq<seq<Byte>>)
    requires |pa| == |a| && |pb| == |b|
    ensures var first := RunSpec(a, h1, h2, pa);
            RunSpec(a + b, h1, h2, pa + pb) ==
              if first.verdict.Err? then first else RunSpec(b, first.after1, first.after2, pb)
    decreases |a|
  {
    if a == [] {
      assert a + b == b;
      assert pa + pb == pb;
    } else {
      assert (a + b)[0] == a[0] && (a + b)[1..] == a[1..] + b;
      assert (pa + pb)[0] == pa[0] && (pa + pb)[1..] == pa[1..] + pb;
      var s := Step(a[0], h1, h2, pa[0]);
      if s.verdict.Ok? {
        RunSpecAppend(a[1..], b, s.after1, s.after2, pa[1..], pb);
      }
    }
  }

  /** Two sides that start in the same state pass every command list. */
  lemma {:induction false} RunSpecTwinsAgree(cmds: seq<Command>, h: Handle, payloads: seq<seq<Byte>>)
    requires |payloads| == |cmds|
    ensures RunSpec(cmds, h, h, payloads).verdict == Ok(())
    ensures RunSpec(cmds, h, h, payloads).after1 == RunSpec(cmds, h, h, payloads).after2
    decreases |cmds|
  {
    if cmds != [] {
      StepTwinsAgree(cmds[0], h, payloads[0]);
      RunSpecTwinsAgree(cmds[1..], Step(cmds[0], h, h, payloads[0]).after1, payloads[1..]);
    }
  }

  /** `TestFile`: a path (a root and a name) and the open handle on it. The
      bytes live in the root; the handle holds the cursor and the access mode. */
  class TestFile {
    const dir: Dir
    const name: string
    var pos: nat
    var writable: bool

    ghost predicate Valid()
      reads this, dir
    {
      name in dir.files
    }

    function View(): Handle
      reads this, dir
      requires Valid()
    {
      Handle(dir.files[name], pos, writable)
    }

    constructor Opened(dir: Dir, name: string)
      ensures this.dir == dir && this.name == name && pos == 0 && writable
    {
      this.dir := dir;
      this.name := name;
      pos := 0;
      writable := true;
    }

    /** `TestFile::create_new`: create the file exclusively, open for reading and writing. */
    static method CreateNew(dir: Dir, name: string) returns (r: IoResult<TestFile>)
      modifies dir
      ensures !dir.present ==> r == Err(OsError(ENOENT)) && dir.files == old(dir.files)
      ensures dir.present && name in old(dir.files) ==> r == Err(OsError(EEXIST)) && dir.files == old(dir.files)
      ensures dir.present && name !in old(dir.files) ==>
                r.Ok? && fresh(r.value) && r.value.dir == dir && r.value.name == name &&
                dir.files == old(dir.files)[name := []] && r.value.Valid() && r.value.View() == Fresh
    {
      if !dir.present {
        return Err(OsError(ENOENT));
      }
      if name in dir.files {
        return Err(OsError(EEXIST));
      }
      dir.files := dir.files[name := []];
      var f := new TestFile.Opened(dir, name);
      return Ok(f);
    }

    /** `TestFile::size`: the length by path. */
    method Size() returns (r: IoResult<nat>)
      requires Valid()
      ensures r == SizeSpec(View())
    {
      r := Ok(|dir.files[name]|);
    }

    /** `TestFile::reopen`: replace the handle with a read-only one opened by path. */
    method Reopen() returns (r: IoResult<()>)
      requires Valid()
      modifies this
      ensures Valid()
      ensures r == ReopenSpec(old(View())).result && View() == ReopenSpec(old(View())).after
    {
      pos := 0;
      writable := false;
      r := Ok(());
    }

    /** `Drop for TestFile`: remove the file from its root. */
    method Drop()
      requires Valid()
      modifies dir
      ensures dir.files == old(dir.files) - {name}
    {
      dir.files := dir.files - {name};
    }

    /** `Read::read` through the handle. */
    method Read(count: nat) returns (r: IoResult<nat>, buffer: seq<Byte>)
      requires Valid()
      modifies this
      ensures Valid()
      ensures var e := ReadSpec(old(View()), count);
              r == e.result && buffer == e.buffer && View() == e.after
    {
      var e := ReadSpec(View(), count);
      r, buffer := e.result, e.buffer;
      pos := e.after.pos;
    }

    /** `FileExt::read_at` through the handle. */
    method ReadAt(at: nat, count: nat) returns (r: IoResult<nat>, buffer: seq<Byte>)
      requires Valid()
      ensures var e := ReadAtSpec(View(), at, count); r == e.result && buffer == e.buffer
    {
      var e := ReadAtSpec(View(), at, count);
      r, buffer := e.result, e.buffer;
    }

    /** `Write::write` through the handle. */
    method Write(data: seq<Byte>) returns (r: IoResult<nat>)
      requires Valid()
      modifies this, dir
      ensures Valid()
      ensures var e := WriteSpec(old(View()), data); r == e.result && View() == e.after
      ensures dir.files == old(dir.files)[name := View().content]
    {
      var e := WriteSpec(View(), data);
      dir.files := dir.files[name := e.after.content];
      pos := e.after.pos;
      r := e.result;
    }

    /** `FileExt::write_at` through the handle. */
    method WriteAt(data: seq<Byte>, at: nat) returns (r: IoResult<nat>)
      requires Valid()
      modifies dir
      ensures Valid()
      ensures var e := WriteAtSpec(old(View()), data, at); r == e.result && View() == e.after
      ensures dir.files == old(dir.files)[name := View().content]
    {
      var e := WriteAtSpec(View(), data, at);
      dir.files := dir.files[name := e.after.content];
      r := e.result;
    }

    /** `Seek::seek` from the start through the handle. */
    method Seek(at: nat) returns (r: IoResult<nat>)
      requires Valid()
      modifies this
      ensures Valid()
      ensures var e := SeekSpec(old(View()), at); r == e.result && View() == e.after
    {
      var e := SeekSpec(View(), at);
      pos := e.after.pos;
      r := e.result;
    }

    /** `File::set_len` through the handle. */
    method SetLen(len: nat) returns (r: IoResult<()>)
      requires Valid()
      modifies dir
      ensures Valid()
      ensures var e := SetLenSpec(old(View()), len); r == e.result && View() == e.after
      ensures dir.files == old(dir.files)[name := View().content]
    {
      var e := SetLenSpec(View(), len);
      dir.files := dir.files[name := e.after.content];
      r := e.result;
    }

    /** `File::sync_all` through the handle. */
    method SyncAll() returns (r: IoResult<()>)
      requires Valid()
      ensures r == SyncSpec(View())
    {
      r := Ok(());
    }
  }

  /** Two valid test files in two different roots. */
  ghost predicate Twins(fd1: TestFile, fd2: TestFile)
    reads fd1, fd2, fd1.dir, fd2.dir
  {
    fd1.Valid() && fd2.Valid() && fd1.dir != fd2.dir
  }

  /** `Command::apply`: run the command on side 1, then on side 2 with the same
      payload, then compare. Only the two test files change. The arms are
      grouped below by the checks they make. */
  method Apply(cmd: Command, fd1: TestFile, fd2: TestFile, payload: seq<Byte>) returns (r: IoResult<()>)
    requires Twins(fd1, fd2) && PayloadFits(cmd, payload)
    modifies fd1, fd2, fd1.dir, fd2.dir
    ensures Twins(fd1, fd2)
    ensures var s := Step(cmd, old(fd1.View()), old(fd2.View()), payload);
            r == s.verdict && fd1.View() == s.after1 && fd2.View() == s.after2
    ensures fd1.dir.files == old(fd1.dir.files)[fd1.name := fd1.View().content]
    ensures fd2.dir.files == old(fd2.dir.files)[fd2.name := fd2.View().content]
  {
    if cmd.Read? || cmd.PRead? {
      r := ApplyRead(cmd, fd1, fd2, payload);
    } else if cmd.Size? {
      r := ApplySize(cmd, fd1, fd2, payload);
    } else {
      r := ApplyCall(cmd, fd1, fd2, payload);
    }
  }

  /** The arms that read: the results are checked, then the buffers. */
  method ApplyRead(cmd: Command, fd1: TestFile, fd2: TestFile, payload: seq<Byte>) returns (r: IoResult<()>)
    requires cmd.Read? || cmd.PRead?
    requires Twins(fd1, fd2) && PayloadFits(cmd, payload)
    modifies fd1, fd2, fd1.dir, fd2.dir
    ensures Twins(fd1, fd2)
    ensures var s := Step(cmd, old(fd1.View()), old(fd2.View()), payload);
            r == s.verdict && fd1.View() == s.after1 && fd2.View() == s.after2
    ensures fd1.dir.files == old(fd1.dir.files)[fd1.name := fd1.View().content]
    ensures fd2.dir.files == old(fd2.dir.files)[fd2.name := fd2.View().content]
  {
    var res1, bytes1, res2, bytes2;
    if cmd.Read? {
      res1, bytes1 := fd1.Read(cmd.count.value);
      res2, bytes2 := fd2.Read(cmd.count.value);
    } else {
      res1, bytes1 := fd1.ReadAt(cmd.offset.value, cmd.count.value);
      res2, bytes2 := fd2.ReadAt(cmd.offset.value, cmd.count.value);
    }
    r := CheckRes(res1, res2);
    if r.Ok? {
      r := CheckBytes(bytes1, bytes2);
    }
  }

  /** The size arm: both files are synced and that comparison is made but its
      verdict dropped; then the sizes are compared. */
  method ApplySize(cmd: Command, fd1: TestFile, fd2: TestFile, payload: seq<Byte>) returns (r: IoResult<()>)
    requires cmd.Size?
    requires Twins(fd1, fd2) && PayloadFits(cmd, payload)
    modifies fd1, fd2, fd1.dir, fd2.dir
    ensures Twins(fd1, fd2)
    ensures var s := Step(cmd, old(fd1.View()), old(fd2.View()), payload);
            r == s.verdict && fd1.View() == s.after1 && fd2.View() == s.after2
    ensures fd1.dir.files == old(fd1.dir.files)[fd1.name := fd1.View().content]
    ensures fd2.dir.files == old(fd2.dir.files)[fd2.name := fd2.View().content]
  {
    var sync1 := fd1.SyncAll();
    var sync2 := fd2.SyncAll();
    var _ := CheckRes(sync1, sync2);
    var size1 := fd1.Size();
    var size2 := fd2.Size();
    r := CheckRes(size1, size2);
  }

  /** The other arms: one call on each side, then the results are compared. */
  method ApplyCall(cmd: Command, fd1: TestFile, fd2: TestFile, payload: seq<Byte>) returns (r: IoResult<()>)
    requires !(cmd.Read? || cmd.PRead? || cmd.Size?)
    requires Twins(fd1, fd2) && PayloadFits(cmd, payload)
    modifies fd1, fd2, fd1.dir, fd2.dir
    ensures Twins(fd1, fd2)
    ensures var s := Step(cmd, old(fd1.View()), old(fd2.View()), payload);
            r == s.verdict && fd1.View() == s.after1 && fd2.View() == s.after2
    ensures fd1.dir.files == old(fd1.dir.files)[fd1.name := fd1.View().content]
    ensures fd2.dir.files == old(fd2.dir.files)[fd2.name := fd2.View().content]
  {
    match cmd
    case Reopen =>
      var res1 := fd1.Reopen();
      var res2 := fd2.Reopen();
      r := CheckRes(res1, res2);
    case Write(_) =>
      var res1 := fd1.Write(payload);
      var res2 := fd2.Write(payload);
      r := CheckRes(res1, res2);
    case PWrite(offset, _) =>
      var res1 := fd1.WriteAt(payload, offset.value);
      var res2 := fd2.WriteAt(payload, offset.value);
      r := CheckRes(res1, res2);
    case Seek(offset) =>
      var res1 := fd1.Seek(offset.value);
      var res2 := fd2.Seek(offset.value);
      r := CheckRes(res1, res2);
    case Truncate(length) =>
      var res1 := fd1.SetLen(length.value);
      var res2 := fd2.SetLen(length.value);
      r := CheckRes(res1, res2);
    case Fsync =>
      var res1 := fd1.SyncAll();
      var res2 := fd2.SyncAll();
      r := CheckRes(res1, res2);
  }

  /** Why creating the twin files fails, if it does: a missing root, or a name
      already taken, which includes the second root being the first one. */
  function TwinCreateError(dir1: Dir, dir2: Dir, fname: string): Option<IoError>
    reads dir1, dir2
  {
    if !dir1.present then Some(OsError(ENOENT))
    else if fname in dir1.files then Some(OsError(EEXIST))
    else if !dir2.present then Some(OsError(ENOENT))
    else if dir1 == dir2 || fname in dir2.files then Some(OsError(EEXIST))
    else None
  }

  /** The verdict of a whole session: the creation error if there is one,
      otherwise the run from two fresh files. */
  function SessionVerdict(createError: Option<IoError>, cmds: seq<Command>, payloads: seq<seq<Byte>>): (r: IoResult<()>)
    requires |payloads| == |cmds|
    // over the reference semantics only a failed creation fails a session
    ensures r.Ok? <==> createError.None?
    ensures createError.Some? ==> r == Err(createError.value)
  {
    match createError
    case Some(e) => Err(e)
    case None =>
      RunSpecTwinsAgree(cmds, Fresh, payloads);
      RunSpec(cmds, Fresh, Fresh, payloads).verdict
  }

  /** Storing twice under one name keeps only the second. */
  lemma StoreTwice(files: map<string, seq<Byte>>, name: string, first: seq<Byte>, second: seq<Byte>)
    ensures files[name := first][name := second] == files[name := second]
  {
  }

  /** `CommandsTest`: the twin files of one session. */
  class CommandsTest {
    const fd1: TestFile
    const fd2: TestFile

    ghost predicate Valid()
      reads this, fd1, fd2, fd1.dir, fd2.dir
    {
      Twins(fd1, fd2) && fd1.name == fd2.name
    }

    constructor Pair(fd1: TestFile, fd2: TestFile)
      ensures this.fd1 == fd1 && this.fd2 == fd2
    {
      this.fd1 := fd1;
      this.fd2 := fd2;
    }

    /** `CommandsTest::new`: create the file under one generated name in both
        roots; when the second creation fails, the first file is dropped, and
        so removed, on the way out. */
    static method New(dir1: Dir, dir2: Dir, fname: string) returns (r: IoResult<CommandsTest>)
      modifies dir1, dir2
      ensures r.Err? <==> old(TwinCreateError(dir1, dir2, fname)).Some?
      ensures r.Err? ==> Some(r.error) == old(TwinCreateError(dir1, dir2, fname))
      ensures r.Err? ==> dir1.files == old(dir1.files) && dir2.files == old(dir2.files)
      ensures r.Ok? ==>
                fresh(r.value) && fresh(r.value.fd1) && fresh(r.value.fd2) && r.value.Valid() &&
                r.value.fd1.dir == dir1 && r.value.fd2.dir == dir2 && r.value.fd1.name == fname &&
                r.value.fd1.View() == Fresh && r.value.fd2.View() == Fresh &&
                dir1.files == old(dir1.files)[fname := []] && dir2.files == old(dir2.files)[fname := []]
    {
      var c1 := TestFile.CreateNew(dir1, fname);
      if c1.Err? {
        return Err(c1.error);
      }
      var c2 := TestFile.CreateNew(dir2, fname);
      if c2.Err? {
        c1.value.Drop();
        assert dir1.files == old(dir1.files);
        return Err(c2.error);
      }
      var t := new CommandsTest.Pair(c1.value, c2.value);
      return Ok(t);
    }

    /** `CommandsTest::run`: apply the commands in order and return the first
        divergence; the state reached is the one the specification predicts. */
    method Run(cmds: seq<Command>, payloads: seq<seq<Byte>>) returns (r: IoResult<()>)
      requires Valid() && PayloadsFit(cmds, payloads)
      modifies fd1, fd2, fd1.dir, fd2.dir
      ensures Valid()
      ensures var o := RunSpec(cmds, old(fd1.View()), old(fd2.View()), payloads);
              r == o.verdict && fd1.View() == o.after1 && fd2.View() == o.after2
      ensures fd1.dir.files == old(fd1.dir.files)[fd1.name := fd1.View().content]
      ensures fd2.dir.files == old(fd2.dir.files)[fd2.name := fd2.View().content]
    {
      ghost var start1, start2 := fd1.View(), fd2.View();
      var i := 0;
      while i < |cmds|
        invariant 0 <= i <= |cmds|
        invariant Valid()
        invariant RunSpec(cmds, start1, start2, payloads) == RunSpec(cmds[i..], fd1.View(), fd2.View(), payloads[i..])
        invariant fd1.dir.files == old(fd1.dir.files)[fd1.name := fd1.View().content]
        invariant fd2.dir.files == old(fd2.dir.files)[fd2.name := fd2.View().content]
      {
        RunSpecFrom(cmds, i, fd1.View(), fd2.View(), payloads);
        ghost var before1, before2 := fd1.View().content, fd2.View().content;
        r := Apply(cmds[i], fd1, fd2, payloads[i]);
        StoreTwice(old(fd1.dir.files), fd1.name, before1, fd1.View().content);
        StoreTwice(old(fd2.dir.files), fd2.name, before2, fd2.View().content);
        if r.Err? {
          return;
        }
        i := i + 1;
      }
      r := Ok(());
    }

    /** Dropping the session drops both files, which removes them. */
    method Close()
      requires Valid()
      modifies fd1.dir, fd2.dir
      ensures fd1.dir.files == old(fd1.dir.files) - {fd1.name}
      ensures fd2.dir.files == old(fd2.dir.files) - {fd2.name}
    {
      fd1.Drop();
      fd2.Drop();
    }
  }
}
