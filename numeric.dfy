/** The numeric-or-string field readers: `deserialize_optional_string_as_int`
    of src/lib.rs and `deserialize_optional_string_as_u32/u64/u8` of
    src/index.rs. All four run one procedure and differ only in the bound of
    the target integer type, so the model states it once, with the bound as
    a parameter. */
module NumericField {
  import opened Wrappers
  import opened Text

  const U8_MAX: nat := 0xFF
  const U32_MAX: nat := 0xFFFF_FFFF
  const U64_MAX: nat := 0xFFFF_FFFF_FFFF_FFFF

  /** Rust's `u8`, `u32` and `u64`. */
  type U8 = n: nat | n <= U8_MAX
  type U32 = n: nat | n <= U32_MAX
  type U64 = n: nat | n <= U64_MAX

  // A value a reader has checked against the bound, narrowed to its type.

  function AsU8(o: Option<nat>): Option<U8>
    requires o.Some? ==> o.value <= U8_MAX
  {
    if o.Some? then Some(o.value as U8) else None
  }

  function AsU32(o: Option<nat>): Option<U32>
    requires o.Some? ==> o.value <= U32_MAX
  {
    if o.Some? then Some(o.value as U32) else None
  }

  function AsU64(o: Option<nat>): Option<U64>
    requires o.Some? ==> o.value <= U64_MAX
  {
    if o.Some? then Some(o.value as U64) else None
  }

  /** The JSON value found under a numeric-or-string key. A number that is
      not an integer, and any array, object or boolean, is `JOther`. */
  datatype JsonScalar = JNull | JString(s: string) | JNumber(n: int) | JOther

  /** Rust's `IntErrorKind` cases that `str::parse` of an unsigned type can return. */
  datatype IntErrorKind = Empty | InvalidDigit | PosOverflow

  datatype ReadError =
    | NoMatchingVariant        // neither `String` nor an in-range integer
    | BadInteger(kind: IntErrorKind)
  {
    /** The text serde reports for the error (without position). */
    function Message(): string
    {
      match this
      case NoMatchingVariant => "data did not match any variant of untagged enum StringOrInt"
      case BadInteger(Empty) => "cannot parse integer from empty string"
      case BadInteger(InvalidDigit) => "invalid digit found in string"
      case BadInteger(PosOverflow) => "number too large to fit in target type"
    }
  }

  /** The digits `str::parse` reads: a single leading `+` is skipped. */
  function DigitsOf(s: string): string
  {
    if |s| > 0 && s[0] == '+' then s[1..] else s
  }

  /** A string `str::parse::<uN>` accepts whatever its size: an optional
      `+` followed by one or more ASCII digits. */
  predicate IsUnsignedNumeral(s: string)
  {
    |DigitsOf(s)| > 0 && AllAsciiDigits(DigitsOf(s))
  }

  /** The digit loop of `str::parse`: left to right, a non-digit fails with
      `InvalidDigit`, a value beyond `max` fails with `PosOverflow`. */
  function ScanDigits(ds: string, acc: nat, max: nat): (r: Result<nat, IntErrorKind>)
    requires acc <= max
    ensures r.Success? <==> AllAsciiDigits(ds) && FoldDecimal(acc, ds) <= max
    ensures r.Success? ==> r.value == FoldDecimal(acc, ds)
    ensures r.Failure? && AllAsciiDigits(ds) ==> r.error == PosOverflow
    ensures r.Failure? ==> r.error != Empty
    decreases ds
  {
    if |ds| == 0 then Success(acc)
    else if !IsAsciiDigit(ds[0]) then Failure(InvalidDigit)
    else
      var v := acc * 10 + DigitValue(ds[0]);
      if v > max then
        FoldDecimalGrows(v, ds[1..]);
        Failure(PosOverflow)
      else
        var r := ScanDigits(ds[1..], v, max);
        assert AllAsciiDigits(ds) <==> AllAsciiDigits(ds[1..]);
        r
  }

  /** `s.parse::<uN>()` where `max` is the largest value of `uN`. */
  function ParseUnsigned(s: string, max: nat): (r: Result<nat, IntErrorKind>)
    ensures r.Success? <==> IsUnsignedNumeral(s) && FoldDecimal(0, DigitsOf(s)) <= max
    ensures r.Success? ==> r.value == FoldDecimal(0, DigitsOf(s))
    ensures r == Failure(Empty) <==> s == ""
  {
    if |s| == 0 then Failure(Empty)
    else if |s| == 1 && (s[0] == '+' || s[0] == '-') then Failure(InvalidDigit)
    else ScanDigits(DigitsOf(s), 0, max)
  }

  /** One numeric-or-string field: JSON null, `""` and `"null"` are absent,
      a numeral string is parsed as `uN`, an integer passes through when it
      fits `uN`, and everything else is an error. */
  function ReadOptionalUnsigned(v: JsonScalar, max: nat): (r: Result<Option<nat>, ReadError>)
    ensures r == Success(None) <==> v == JNull || v == JString("") || v == JString("null")
    ensures v.JNumber? ==> (r.Success? <==> 0 <= v.n <= max) && (r.Success? ==> r.value == Some(v.n))
    ensures v.JString? && v.s != "" && v.s != "null" ==>
      (r.Success? <==> IsUnsignedNumeral(v.s) && FoldDecimal(0, DigitsOf(v.s)) <= max) &&
      (r.Success? ==> r.value == Some(FoldDecimal(0, DigitsOf(v.s))))
    ensures v == JOther ==> r == Failure(NoMatchingVariant)
    ensures r.Success? && r.value.Some? ==> r.value.value <= max
  {
    match v
    case JNull => Success(None)
    case JString(s) =>
      if s == "" || s == "null" then Success(None)
      else
        (match ParseUnsigned(s, max)
         case Success(n) => Success(Some(n))
         case Failure(kind) => Failure(BadInteger(kind)))
    case JNumber(n) =>
      if 0 <= n <= max then Success(Some(n)) else Failure(NoMatchingVariant)
    case JOther => Failure(NoMatchingVariant)
  }

  /** The decimal rendering of any value in range reads back as that value,
      bare or behind a `+`. */
  lemma RenderedValueReadsBack(n: nat, max: nat)
    requires n <= max
    ensures ReadOptionalUnsigned(JString(NatToString(n)), max) == Success(Some(n))
    ensures ReadOptionalUnsigned(JString("+" + NatToString(n)), max) == Success(Some(n))
  {
    var s := NatToString(n);
    assert s != "null" by { assert !IsAsciiDigit('n'); assert s[0] != 'n' || |s| != 4; }
    assert DigitsOf(s) == s;
    assert DigitsOf("+" + s) == s;
  }

  /** A value one past the bound is refused, as a number and as a string. */
  lemma OnePastTheBoundIsRefused(max: nat)
    ensures ReadOptionalUnsigned(JNumber(max + 1), max).Failure?
    ensures ReadOptionalUnsigned(JString(NatToString(max + 1)), max) == Failure(BadInteger(PosOverflow))
  {
    var s := NatToString(max + 1);
    assert s != "null" by { assert !IsAsciiDigit('n'); assert s[0] != 'n' || |s| != 4; }
    assert DigitsOf(s) == s;
  }

  /** A string with a character that is neither a digit nor a leading `+`
      (and is not `"null"`) is an error. */
  lemma NonNumeralIsRefused(s: string, max: nat)
    requires s != "" && s != "null" && !IsUnsignedNumeral(s)
    ensures ReadOptionalUnsigned(JString(s), max).Failure?
    ensures ReadOptionalUnsigned(JString(s), max) != Failure(NoMatchingVariant)
  {
  }

  /** A numeral string reads as its value when that fits, and is refused as
      too large otherwise. */
  lemma {:induction false} NumeralReads(s: string, max: nat)
    requires IsUnsignedNumeral(s)
    ensures FoldDecimal(0, DigitsOf(s)) <= max ==>
      ReadOptionalUnsigned(JString(s), max) == Success(Some(FoldDecimal(0, DigitsOf(s))))
    ensures FoldDecimal(0, DigitsOf(s)) > max ==>
      ReadOptionalUnsigned(JString(s), max) == Failure(BadInteger(PosOverflow))
  {
    assert !IsUnsignedNumeral("null") by { assert !IsAsciiDigit(DigitsOf("null")[0]); }
    if FoldDecimal(0, DigitsOf(s)) > max {
      assert s != "" && s != "null";
      var p := ParseUnsigned(s, max);
      assert p.Failure? && p.error != Empty;
      assert !(|s| == 1 && (s[0] == '+' || s[0] == '-'));
    }
  }

  /** The examples the column tests use for `character_maximum_length` (u64):
      255, "255", 4294967295, "4294967295" and null. */
  lemma CharacterLengthExamples()
    ensures ReadOptionalUnsigned(JNumber(255), U64_MAX) == Success(Some(255))
    ensures ReadOptionalUnsigned(JString("255"), U64_MAX) == Success(Some(255))
    ensures ReadOptionalUnsigned(JNumber(4294967295), U64_MAX) == Success(Some(4294967295))
    ensures ReadOptionalUnsigned(JString("4294967295"), U64_MAX) == Success(Some(4294967295))
    ensures ReadOptionalUnsigned(JNull, U64_MAX) == Success(None)
  {
    ValueOf255();
    NumeralReads("255", U64_MAX);
    ValueOf4294967295();
    NumeralReads("4294967295", U64_MAX);
  }

  lemma ValueOf255()
    ensures IsUnsignedNumeral("255") && FoldDecimal(0, DigitsOf("255")) == 255
  {
    assert "255"[1..] == "55" && "55"[1..] == "5" && "5"[1..] == "";
  }

  /** A numeral in two halves, so that each half is read on its own. */
  lemma NumeralValue(hi: string, lo: string, h: nat, v: nat)
    requires AllAsciiDigits(hi) && AllAsciiDigits(lo) && |hi| > 0 && hi[0] != '+'
    requires FoldDecimal(0, hi) == h && FoldDecimal(h, lo) == v
    ensures IsUnsignedNumeral(hi + lo) && FoldDecimal(0, DigitsOf(hi + lo)) == v
  {
    FoldDecimalAppend(0, hi, lo);
    assert (hi + lo)[0] == hi[0];
    assert DigitsOf(hi + lo) == hi + lo;
  }

  lemma ValueOf4294967295()
    ensures IsUnsignedNumeral("4294967295") && FoldDecimal(0, DigitsOf("4294967295")) == 4294967295
  {
    assert FoldDecimal(0, "42949") == 42949;
    assert FoldDecimal(42949, "67295") == 4294967295;
    NumeralValue("42949", "67295", 42949, 4294967295);
    assert "42949" + "67295" == "4294967295";
  }

  lemma ValueOf4294967296()
    ensures IsUnsignedNumeral("4294967296") && FoldDecimal(0, DigitsOf("4294967296")) == 4294967296
  {
    assert FoldDecimal(0, "42949") == 42949;
    assert FoldDecimal(42949, "67296") == 4294967296;
    NumeralValue("42949", "67296", 42949, 4294967296);
    assert "42949" + "67296" == "4294967296";
  }

  /** `seq_in_index` is u32: "4294967295" is its largest value and
      "4294967296" is refused. */
  lemma U32ReaderExamples()
    ensures ReadOptionalUnsigned(JString("4294967295"), U32_MAX) == Success(Some(4294967295))
    ensures ReadOptionalUnsigned(JString("4294967296"), U32_MAX) == Failure(BadInteger(PosOverflow))
  {
    ValueOf4294967295();
    NumeralReads("4294967295", U32_MAX);
    ValueOf4294967296();
    NumeralReads("4294967296", U32_MAX);
  }

  /** `non_unique` is u8: 256 matches neither variant, and a string of
      letters is not a number. */
  lemma U8ReaderExamples()
    ensures ReadOptionalUnsigned(JNumber(0), U8_MAX) == Success(Some(0))
    ensures ReadOptionalUnsigned(JNumber(256), U8_MAX) == Failure(NoMatchingVariant)
    ensures ReadOptionalUnsigned(JString("abc"), U8_MAX) == Failure(BadInteger(InvalidDigit))
  {
    assert !IsAsciiDigit("abc"[0]);
  }
}
