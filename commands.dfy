/**
 * The operation model of the harness: bounded magnitudes, the closed set of
 * commands, how a command is generated from drawn integers and how it is
 * shrunk into simpler candidates.
 */
module Commands {
  import opened Io

  /** `BoundedUsize`: a magnitude meant to stay below the ceiling. The wrapper
      itself checks nothing; `BoundedUsize::new` is this constructor. */
  datatype BoundedUsize = BoundedUsize(value: Usize)

  /** Euclidean remainder facts the ceiling relies on. */
  lemma RemainderBelow(x: nat, c: nat)
    requires 0 < c
    ensures x % c < c
    ensures x < c ==> x % c == x
  {
    if x < c {
      MultipleAwayFromZero(c, x / c);
    }
  }

  /** A non-zero multiple of a positive number is at least that far from zero. */
  lemma MultipleAwayFromZero(c: int, q: int)
    requires 0 < c
    ensures q >= 1 ==> c * q >= c
    ensures q <= -1 ==> c * q <= -c
  {
  }

  /** `BoundedUsize::arbitrary`: a drawn `usize` reduced modulo the ceiling
      read from the process-wide cell. */
  function ArbitraryBounded(draw: Usize, ceiling: Option<Usize>): (r: Panicking<BoundedUsize>)
    ensures ceiling.None? ==> r == Panicked(CeilingUnset)
    ensures ceiling == Some(0) ==> r == Panicked(DivisionByZero)
    ensures ceiling.Some? && ceiling.value > 0 ==> r.Returned? && r.value.value < ceiling.value
    // a draw already below the ceiling is kept as it is
    ensures ceiling.Some? && draw < ceiling.value ==> r == Returned(BoundedUsize(draw))
  {
    match ceiling
    case None => Panicked(CeilingUnset)
    case Some(c) =>
      if c == 0 then Panicked(DivisionByZero)
      else
        RemainderBelow(draw, c);
        Returned(BoundedUsize(draw % c))
  }

  /** What the search library's own `usize` shrinker is assumed to do: offer
      finitely many candidates, each strictly smaller. */
  predicate StrictlyShrinks(shrinkUsize: Usize -> seq<Usize>)
  {
    forall x: Usize, i :: 0 <= i < |shrinkUsize(x)| ==> shrinkUsize(x)[i] < x
  }

  /** `BoundedUsize::shrink`: the `usize` candidates, wrapped. */
  function ShrinkBounded(b: BoundedUsize, shrinkUsize: Usize -> seq<Usize>): (r: seq<BoundedUsize>)
    ensures |r| == |shrinkUsize(b.value)|
    ensures forall i :: 0 <= i < |r| ==> r[i].value == shrinkUsize(b.value)[i]
  {
    var xs := shrinkUsize(b.value);
    seq(|xs|, i requires 0 <= i < |xs| => BoundedUsize(xs[i]))
  }

  lemma ShrinkBoundedStaysBelow(b: BoundedUsize, ceiling: nat, shrinkUsize: Usize -> seq<Usize>)
    requires StrictlyShrinks(shrinkUsize) && b.value < ceiling
    ensures forall i :: 0 <= i < |ShrinkBounded(b, shrinkUsize)| ==>
              ShrinkBounded(b, shrinkUsize)[i].value < b.value
    ensures forall i :: 0 <= i < |ShrinkBounded(b, shrinkUsize)| ==>
              ShrinkBounded(b, shrinkUsize)[i].value < ceiling
  {
  }

  datatype Command =
    | Reopen
    | Read(count: BoundedUsize)
    | PRead(offset: BoundedUsize, count: BoundedUsize)
    | Write(count: BoundedUsize)
    | PWrite(offset: BoundedUsize, count: BoundedUsize)
    | Seek(offset: BoundedUsize)
    | Truncate(length: BoundedUsize)
    | Fsync
    | Size

  /** The arm of `arbitrary` that builds each variant; `Size` is the `_` arm. */
  function Tag(cmd: Command): nat
  {
    match cmd
    case Reopen => 0
    case Read(_) => 1
    case PRead(_, _) => 2
    case Write(_) => 3
    case PWrite(_, _) => 4
    case Seek(_) => 5
    case Truncate(_) => 6
    case Fsync => 7
    case Size => 8
  }

  /** Every numeric field of the command is below the ceiling. */
  predicate BoundedBy(cmd: Command, ceiling: nat)
  {
    match cmd
    case Read(count) => count.value < ceiling
    case PRead(offset, count) => offset.value < ceiling && count.value < ceiling
    case Write(count) => count.value < ceiling
    case PWrite(offset, count) => offset.value < ceiling && count.value < ceiling
    case Seek(offset) => offset.value < ceiling
    case Truncate(length) => length.value < ceiling
    case _ => true
  }

  /** The sum of the numeric fields: what a simpler command has less of. */
  function Weight(cmd: Command): nat
  {
    match cmd
    case Read(count) => count.value
    case PRead(offset, count) => offset.value + count.value
    case Write(count) => count.value
    case PWrite(offset, count) => offset.value + count.value
    case Seek(offset) => offset.value
    case Truncate(length) => length.value
    case _ => 0
  }

  /** `Command::arbitrary`: the first drawn `usize` modulo 8 picks the arm, the
      next ones (in order) become the arm's fields. */
  function Arbitrary(tag: Usize, first: Usize, second: Usize, ceiling: Option<Usize>): (r: Panicking<Command>)
    ensures r.Returned? ==> !r.value.Size?
    ensures r.Returned? ==> Tag(r.value) == tag % 8
    // the field-less arms never consult the ceiling
    ensures tag % 8 == 0 || tag % 8 == 7 ==> r.Returned?
    ensures ceiling.Some? && ceiling.value > 0 ==> r.Returned? && BoundedBy(r.value, ceiling.value)
    ensures ceiling.None? && 1 <= tag % 8 <= 6 ==> r == Panicked(CeilingUnset)
    ensures ceiling == Some(0) && 1 <= tag % 8 <= 6 ==> r == Panicked(DivisionByZero)
  {
    if tag % 8 == 0 then Returned(Reopen)
    else if tag % 8 == 7 then Returned(Fsync)
    // every other arm draws a bounded value, which needs a set, non-zero ceiling
    else if ceiling.None? then Panicked(CeilingUnset)
    else if ceiling.value == 0 then Panicked(DivisionByZero)
    else
      var a := ArbitraryBounded(first, ceiling).value;
      var b := ArbitraryBounded(second, ceiling).value;
      Returned(
        match tag % 8
        case 1 => Read(a)
        case 2 => PRead(a, b)
        case 3 => Write(a)
        case 4 => PWrite(a, b)
        case 5 => Seek(a)
        case 6 => Truncate(a)
        case _ => Size)
  }

  /** The draws that spell a command: its first and second numeric field. */
  function FirstField(cmd: Command): Usize
  {
    match cmd
    case Read(count) => count.value
    case PRead(offset, _) => offset.value
    case Write(count) => count.value
    case PWrite(offset, _) => offset.value
    case Seek(offset) => offset.value
    case Truncate(length) => length.value
    case _ => 0
  }

  function SecondField(cmd: Command): Usize
  {
    match cmd
    case PRead(_, count) => count.value
    case PWrite(_, count) => count.value
    case _ => 0
  }

  /** Conversely, every bounded command other than `Size` is generated by some draws. */
  lemma ArbitraryReachesAllButSize(cmd: Command, ceiling: Usize)
    requires !cmd.Size? && ceiling > 0 && BoundedBy(cmd, ceiling)
    ensures Arbitrary(Tag(cmd), FirstField(cmd), SecondField(cmd), Some(ceiling)) == Returned(cmd)
  {
  }

  /** The generator as evidently intended: the arm is the first draw modulo 9,
      so that the `_` arm, `Size`, is drawn as well. */
  function ArbitraryEveryArm(tag: Usize, first: Usize, second: Usize, ceiling: Option<Usize>): (r: Panicking<Command>)
    ensures r.Returned? ==> Tag(r.value) == tag % 9
    ensures tag % 9 == 0 || tag % 9 == 7 || tag % 9 == 8 ==> r.Returned?
    ensures ceiling.Some? && ceiling.value > 0 ==> r.Returned? && BoundedBy(r.value, ceiling.value)
  {
    RemainderBelow(tag, 9);
    RemainderBelow(tag % 9, 8);
    if tag % 9 == 8 then Returned(Size) else Arbitrary(tag % 9, first, second, ceiling)
  }

  /** With the intended modulus every bounded command, `Size` included, is generated. */
  lemma ArbitraryEveryArmReachesAll(cmd: Command, ceiling: Usize)
    requires ceiling > 0 && BoundedBy(cmd, ceiling)
    ensures ArbitraryEveryArm(Tag(cmd), FirstField(cmd), SecondField(cmd), Some(ceiling)) == Returned(cmd)
  {
    RemainderBelow(Tag(cmd), 9);
    if !cmd.Size? {
      RemainderBelow(Tag(cmd), 8);
      ArbitraryReachesAllButSize(cmd, ceiling);
    }
  }

  function Min(a: nat, b: nat): nat
  {
    if a <= b then a else b
  }

  /** The candidates of the one-field variants: the field's candidates, same tag. */
  function ShrinkOne(cmd: Command, shrinkUsize: Usize -> seq<Usize>): (r: seq<Command>)
    requires cmd.Read? || cmd.Write? || cmd.Seek? || cmd.Truncate?
    ensures |r| == |shrinkUsize(FirstField(cmd))|
    ensures forall i :: 0 <= i < |r| ==>
              Tag(r[i]) == Tag(cmd) && FirstField(r[i]) == shrinkUsize(FirstField(cmd))[i]
  {
    var xs := ShrinkBounded(BoundedUsize(FirstField(cmd)), shrinkUsize);
    seq(|xs|, i requires 0 <= i < |xs| =>
      match cmd
      case Read(_) => Read(xs[i])
      case Write(_) => Write(xs[i])
      case Seek(_) => Seek(xs[i])
      case Truncate(_) => Truncate(xs[i]))
  }

  /** The offset and count candidates paired up position by position (a zip),
      so as many as the shorter of the two lists; `asWrite` picks the variant
      they are wrapped in. */
  function ShrinkPair(offset: BoundedUsize, count: BoundedUsize, asWrite: bool,
                      shrinkUsize: Usize -> seq<Usize>): (r: seq<Command>)
    ensures |r| == Min(|shrinkUsize(offset.value)|, |shrinkUsize(count.value)|)
    ensures forall i :: 0 <= i < |r| ==>
              (if asWrite then r[i].PWrite? else r[i].PRead?) &&
              FirstField(r[i]) == shrinkUsize(offset.value)[i] &&
              SecondField(r[i]) == shrinkUsize(count.value)[i]
  {
    var os := ShrinkBounded(offset, shrinkUsize);
    var cs := ShrinkBounded(count, shrinkUsize);
    seq(Min(|os|, |cs|), i requires 0 <= i < Min(|os|, |cs|) =>
      if asWrite then PWrite(os[i], cs[i]) else PRead(os[i], cs[i]))
  }

  /** A positioned command; `asWrite` picks the variant. */
  function Positioned(asWrite: bool, offset: BoundedUsize, count: BoundedUsize): (cmd: Command)
    ensures cmd.PWrite? == asWrite && (cmd.PRead? || cmd.PWrite?)
    ensures cmd.offset == offset && cmd.count == count
  {
    if asWrite then PWrite(offset, count) else PRead(offset, count)
  }

  /** The offset candidates with the count held fixed, then the count
      candidates with the offset held fixed. */
  function ShrinkFields(offset: BoundedUsize, count: BoundedUsize, asWrite: bool,
                        shrinkUsize: Usize -> seq<Usize>): (r: seq<Command>)
    ensures |r| == |shrinkUsize(offset.value)| + |shrinkUsize(count.value)|
    ensures forall i :: 0 <= i < |shrinkUsize(offset.value)| ==>
              r[i] == Positioned(asWrite, BoundedUsize(shrinkUsize(offset.value)[i]), count)
    ensures forall j :: 0 <= j < |shrinkUsize(count.value)| ==>
              r[|shrinkUsize(offset.value)| + j] == Positioned(asWrite, offset, BoundedUsize(shrinkUsize(count.value)[j]))
  {
    var os := ShrinkBounded(offset, shrinkUsize);
    var cs := ShrinkBounded(count, shrinkUsize);
    seq(|os|, i requires 0 <= i < |os| => Positioned(asWrite, os[i], count)) +
    seq(|cs|, j requires 0 <= j < |cs| => Positioned(asWrite, offset, cs[j]))
  }

  /** `Command::shrink` exactly as the source has it: a field-less command
      offers itself, and a `PWrite` offers `PRead` candidates. */
  function ShrinkAsWritten(cmd: Command, shrinkUsize: Usize -> seq<Usize>): (r: seq<Command>)
    ensures cmd.Reopen? || cmd.Fsync? || cmd.Size? ==> r == [cmd]
    ensures !cmd.PWrite? ==> forall i :: 0 <= i < |r| ==> Tag(r[i]) == Tag(cmd)
    ensures cmd.PWrite? ==> forall i :: 0 <= i < |r| ==> r[i].PRead?
    ensures cmd.PRead? || cmd.PWrite? ==>
              |r| == Min(|shrinkUsize(cmd.offset.value)|, |shrinkUsize(cmd.count.value)|)
    // candidate i of a two-field command pairs candidate i of each field
    ensures cmd.PRead? || cmd.PWrite? ==>
              forall i :: 0 <= i < |r| ==>
                FirstField(r[i]) == shrinkUsize(cmd.offset.value)[i] &&
                SecondField(r[i]) == shrinkUsize(cmd.count.value)[i]
    // a one-field command offers its field's candidates, in order
    ensures cmd.Read? || cmd.Write? || cmd.Seek? || cmd.Truncate? ==>
              |r| == |shrinkUsize(FirstField(cmd))| &&
              forall i :: 0 <= i < |r| ==> FirstField(r[i]) == shrinkUsize(FirstField(cmd))[i]
  {
    match cmd
    case Reopen => [Reopen]
    case PRead(offset, count) => ShrinkPair(offset, count, false, shrinkUsize)
    case PWrite(offset, count) => ShrinkPair(offset, count, false, shrinkUsize)
    case Fsync => [Fsync]
    case Size => [Size]
    case _ => ShrinkOne(cmd, shrinkUsize)
  }

  /** `Command::shrink` as intended: every candidate keeps the variant, a
      field-less command has nothing simpler to offer, and each field of a
      two-field command is shrunk while the other is held fixed. */
  function Shrink(cmd: Command, shrinkUsize: Usize -> seq<Usize>): (r: seq<Command>)
    ensures forall i :: 0 <= i < |r| ==> Tag(r[i]) == Tag(cmd)
    ensures cmd.Reopen? || cmd.Fsync? || cmd.Size? ==> r == []
    ensures cmd.PRead? || cmd.PWrite? ==>
              |r| == |shrinkUsize(cmd.offset.value)| + |shrinkUsize(cmd.count.value)|
    // the offset candidates come first, each with the count held fixed ...
    ensures cmd.PRead? || cmd.PWrite? ==>
              forall i :: 0 <= i < |shrinkUsize(cmd.offset.value)| ==>
                r[i] == Positioned(cmd.PWrite?, BoundedUsize(shrinkUsize(cmd.offset.value)[i]), cmd.count)
    // ... then the count candidates, each with the offset held fixed
    ensures cmd.PRead? || cmd.PWrite? ==>
              forall j :: 0 <= j < |shrinkUsize(cmd.count.value)| ==>
                r[|shrinkUsize(cmd.offset.value)| + j] ==
                  Positioned(cmd.PWrite?, cmd.offset, BoundedUsize(shrinkUsize(cmd.count.value)[j]))
    // a one-field command offers its field's candidates, in order
    ensures cmd.Read? || cmd.Write? || cmd.Seek? || cmd.Truncate? ==>
              |r| == |shrinkUsize(FirstField(cmd))| &&
              forall i :: 0 <= i < |r| ==> FirstField(r[i]) == shrinkUsize(FirstField(cmd))[i]
  {
    match cmd
    case Reopen => []
    case PRead(offset, count) => ShrinkFields(offset, count, false, shrinkUsize)
    case PWrite(offset, count) => ShrinkFields(offset, count, true, shrinkUsize)
    case Fsync => []
    case Size => []
    case _ => ShrinkOne(cmd, shrinkUsize)
  }

  /** Each two-field candidate keeps the variant, shrinks one field and keeps the other. */
  lemma ShrinkFieldsLighter(offset: BoundedUsize, count: BoundedUsize, asWrite: bool,
                            shrinkUsize: Usize -> seq<Usize>)
    requires StrictlyShrinks(shrinkUsize)
    ensures forall i :: 0 <= i < |ShrinkFields(offset, count, asWrite, shrinkUsize)| ==>
              var c := ShrinkFields(offset, count, asWrite, shrinkUsize)[i];
              c.PWrite? == asWrite && (c.PRead? || c.PWrite?) &&
              (c.offset == offset || c.count == count) &&
              c.offset.value <= offset.value && c.count.value <= count.value &&
              c.offset.value + c.count.value < offset.value + count.value
  {
    var r := ShrinkFields(offset, count, asWrite, shrinkUsize);
    var n := |shrinkUsize(offset.value)|;
    forall i | 0 <= i < |r|
      ensures r[i].PWrite? == asWrite && (r[i].PRead? || r[i].PWrite?)
      ensures r[i].offset == offset || r[i].count == count
      ensures r[i].offset.value <= offset.value && r[i].count.value <= count.value
      ensures r[i].offset.value + r[i].count.value < offset.value + count.value
    {
      if i < n {
        assert r[i] == Positioned(asWrite, BoundedUsize(shrinkUsize(offset.value)[i]), count);
      } else {
        assert r[i] == Positioned(asWrite, offset, BoundedUsize(shrinkUsize(count.value)[i - n]));
      }
    }
  }

  /** With a strictly shrinking `usize` shrinker, every candidate of the corrected
      shrink is lighter, so repeated shrinking stops; and it stays in bounds. */
  lemma ShrinkMakesProgress(cmd: Command, ceiling: nat, shrinkUsize: Usize -> seq<Usize>)
    requires StrictlyShrinks(shrinkUsize)
    ensures forall i :: 0 <= i < |Shrink(cmd, shrinkUsize)| ==>
              Weight(Shrink(cmd, shrinkUsize)[i]) < Weight(cmd)
    ensures BoundedBy(cmd, ceiling) ==>
              forall i :: 0 <= i < |Shrink(cmd, shrinkUsize)| ==> BoundedBy(Shrink(cmd, shrinkUsize)[i], ceiling)
  {
    match cmd
    case PRead(offset, count) => ShrinkFieldsLighter(offset, count, false, shrinkUsize);
    case PWrite(offset, count) => ShrinkFieldsLighter(offset, count, true, shrinkUsize);
    case Reopen | Fsync | Size =>
    case _ =>
      var r := Shrink(cmd, shrinkUsize);
      forall i | 0 <= i < |r|
        ensures Weight(r[i]) < Weight(cmd)
        ensures BoundedBy(cmd, ceiling) ==> BoundedBy(r[i], ceiling)
      {
        assert FirstField(r[i]) < FirstField(cmd);
      }
  }

  /** The source's shrink keeps every candidate below the ceiling too. */
  lemma ShrinkAsWrittenKeepsBounds(cmd: Command, ceiling: nat, shrinkUsize: Usize -> seq<Usize>)
    requires StrictlyShrinks(shrinkUsize) && BoundedBy(cmd, ceiling)
    ensures forall i :: 0 <= i < |ShrinkAsWritten(cmd, shrinkUsize)| ==>
              BoundedBy(ShrinkAsWritten(cmd, shrinkUsize)[i], ceiling)
  {
  }

  /** The `usize` shrinker that offers 0 for every positive value. */
  function TowardZero(x: Usize): seq<Usize>
  {
    if x == 0 then [] else [0]
  }

  /** As written, a `PWrite` shrinks into a `PRead` of the same magnitudes. */
  lemma PWriteShrinksIntoPRead()
    ensures ShrinkAsWritten(PWrite(BoundedUsize(1), BoundedUsize(1)), TowardZero)
            == [PRead(BoundedUsize(0), BoundedUsize(0))]
  {
  }

  /** As written, the zip stops at the shorter list: a read whose count cannot
      shrink offers nothing, though its offset could. The intended shrink
      offers the read at offset 0. */
  lemma PairZipStalls()
    ensures ShrinkAsWritten(PRead(BoundedUsize(5), BoundedUsize(0)), TowardZero) == []
    ensures Shrink(PRead(BoundedUsize(5), BoundedUsize(0)), TowardZero) == [PRead(BoundedUsize(0), BoundedUsize(0))]
  {
  }

  /** As written, a field-less command offers itself, a candidate that is not simpler. */
  lemma FieldlessShrinksToItself(cmd: Command, shrinkUsize: Usize -> seq<Usize>)
    requires cmd.Reopen? || cmd.Fsync? || cmd.Size?
    ensures ShrinkAsWritten(cmd, shrinkUsize) == [cmd]
    ensures Weight(ShrinkAsWritten(cmd, shrinkUsize)[0]) == Weight(cmd)
  {
  }
}
