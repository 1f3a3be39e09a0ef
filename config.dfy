/**
 * Process start-up shared by both example programs: the argument-count check,
 * the parse of the maximum file size in MiB, the generation ceiling derived
 * from it, and the process-wide cell that holds that ceiling.
 */
module Config {
  import opened Io

  const MIB: nat := 1024 * 1024

  predicate IsDigit(c: char)
  {
    '0' <= c <= '9'
  }

  predicate AllDigits(s: string)
  {
    forall i :: 0 <= i < |s| ==> IsDigit(s[i])
  }

  function DigitValue(c: char): nat
    requires IsDigit(c)
  {
    c as int - '0' as int
  }

  function DigitChar(d: nat): (c: char)
    requires d < 10
    ensures IsDigit(c) && DigitValue(c) == d
  {
    ('0' as int + d) as char
  }

  /** The number a string of decimal digits spells, most significant first. */
  function DigitsValue(s: string): nat
    requires AllDigits(s)
  {
    if s == [] then 0 else DigitsValue(s[..|s| - 1]) * 10 + DigitValue(s[|s| - 1])
  }

  /** `str::parse::<usize>()`: an optional '+', then at least one decimal digit,
      and a value that fits in a `usize`. */
  function ParseUsize(s: string): (r: Option<Usize>)
    ensures r.Some? ==> |s| > 0 && (IsDigit(s[0]) || s[0] == '+')
    ensures r.Some? ==> var body := if s[0] == '+' then s[1..] else s;
                        body != [] && AllDigits(body) && r.value == DigitsValue(body)
    // conversely, every such spelling of a value below 2^64 parses, leading zeros included
    ensures var body := if |s| > 0 && s[0] == '+' then s[1..] else s;
            body != [] && AllDigits(body) && DigitsValue(body) < USIZE_LIMIT ==> r == Some(DigitsValue(body))
  {
    var body := if |s| > 0 && s[0] == '+' then s[1..] else s;
    if body == [] || !AllDigits(body) then None
    else if DigitsValue(body) >= USIZE_LIMIT then None
    else Some(DigitsValue(body))
  }

  /** The decimal spelling of `n`, the inverse the parse is checked against. */
  function Decimal(n: nat): (s: string)
    ensures s != [] && AllDigits(s)
  {
    if n < 10 then [DigitChar(n)] else Decimal(n / 10) + [DigitChar(n % 10)]
  }

  lemma {:induction false} DigitsValueOfDecimal(n: nat)
    ensures DigitsValue(Decimal(n)) == n
  {
    if n >= 10 {
      var d := Decimal(n / 10);
      var s := d + [DigitChar(n % 10)];
      assert s[..|s| - 1] == d;
      DigitsValueOfDecimal(n / 10);
    }
  }

  /** Every `usize` survives printing and parsing; nothing larger parses. */
  lemma ParseDecimal(n: nat)
    ensures n < USIZE_LIMIT ==> ParseUsize(Decimal(n)) == Some(n)
    ensures n >= USIZE_LIMIT ==> ParseUsize(Decimal(n)) == None
  {
    DigitsValueOfDecimal(n);
  }

  /** `(size * 1024 * 1024) / 2` with the overflow checks of a debug build. */
  function CeilingFromMb(size: Usize): (r: Panicking<Usize>)
    ensures r.Panicked? <==> size * MIB >= USIZE_LIMIT
    ensures r.Panicked? ==> r.reason == ArithmeticOverflow
    // half the maximum size in bytes, so zero exactly when the size is zero
    ensures r.Returned? ==> 2 * r.value == size * MIB
    ensures r.Returned? ==> (r.value == 0 <==> size == 0)
  {
    MibSteps(size);
    if size * 1024 >= USIZE_LIMIT || size * 1024 * 1024 >= USIZE_LIMIT then Panicked(ArithmeticOverflow)
    else Returned((size * 1024 * 1024) / 2)
  }

  /** The two multiplications by 1024 make one by `MIB`, never smaller than the
      first alone, and their product halves exactly. */
  lemma MibSteps(size: nat)
    ensures size * 1024 * 1024 == size * MIB
    ensures size * 1024 <= size * MIB
    ensures (size * 1024 * 1024) / 2 == size * (MIB / 2)
    ensures size * (MIB / 2) == 0 <==> size == 0
  {
    var half := size * (MIB / 2);
    assert size * MIB == 2 * half;
  }

  /** What the start of `main` decides: a usage error, or the two roots and the ceiling. */
  datatype Launch = UsageError(error: IoError) | Configured(dir1: string, dir2: string, ceiling: Usize)

  /** The argument check, the parse of the size argument and the ceiling. */
  function Configure(args: seq<string>): (r: Panicking<Launch>)
    // the usage message formats args[0], which does not exist when there are no arguments
    ensures |args| == 0 ==> r == Panicked(IndexOutOfBounds)
    ensures |args| > 0 && |args| != 4 ==> r == Returned(UsageError(IoError(Other, Usage)))
    ensures |args| == 4 && ParseUsize(args[3]).None? ==> r == Panicked(InvalidFileSize)
    ensures |args| == 4 && ParseUsize(args[3]).Some? && ParseUsize(args[3]).value * MIB >= USIZE_LIMIT ==>
              r == Panicked(ArithmeticOverflow)
    ensures |args| == 4 && ParseUsize(args[3]).Some? && ParseUsize(args[3]).value * MIB < USIZE_LIMIT ==>
              r.Returned? && r.value.Configured?
    ensures r.Returned? && r.value.Configured? ==>
              |args| == 4 && ParseUsize(args[3]).Some? &&
              r.value.dir1 == args[1] && r.value.dir2 == args[2] &&
              2 * r.value.ceiling == ParseUsize(args[3]).value * MIB
  {
    if |args| != 4 then
      if |args| == 0 then Panicked(IndexOutOfBounds) else Returned(UsageError(IoError(Other, Usage)))
    else
      match ParseUsize(args[3])
      case None => Panicked(InvalidFileSize)
      case Some(size) =>
        match CeilingFromMb(size)
        case Panicked(p) => Panicked(p)
        case Returned(c) => Returned(Configured(args[1], args[2], c))
  }

  /** The process-wide `OnceLock<usize>` that holds the ceiling. */
  class OnceCeiling {
    var value: Option<Usize>

    constructor ()
      ensures value == None
    {
      value := None;
    }

    /** `get_or_init`: the first value stored stays. */
    method GetOrInit(v: Usize) returns (r: Usize)
      modifies this
      ensures old(value).Some? ==> value == old(value) && r == old(value).value
      ensures old(value).None? ==> value == Some(v) && r == v
    {
      if value.None? {
        value := Some(v);
      }
      r := value.value;
    }
  }

  /** The common start of both `main`s: check and parse the arguments, then
      initialise the ceiling cell, and only on success. Each `main` runs it
      once, on the process-wide cell as the process starts, so the cell is
      still empty and the initialising closure always runs. */
  method Start(args: seq<string>, cell: OnceCeiling) returns (launch: Panicking<Launch>)
    requires cell.value.None?
    modifies cell
    ensures launch == Configure(args)
    ensures launch.Returned? && launch.value.Configured? ==> cell.value == Some(launch.value.ceiling)
    ensures !(launch.Returned? && launch.value.Configured?) ==> cell.value.None?
  {
    launch := Configure(args);
    if launch.Returned? && launch.value.Configured? {
      var _ := cell.GetOrInit(launch.value.ceiling);
    }
  }
}
