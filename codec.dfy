/** The Debezium field decoders of the ODS sink (`convert_debezium_date`,
    `convert_debezium_timestamp`, `convert_debezium_decimal`). A Python
    exception that escapes a decoder is `Raises`. */
module Codec {
  import opened Wrappers
  import opened Json
  import opened Calendar
  import opened Bytes
  import Base64

  /** A fixed-point number: `unscaled` divided by 10 to the power `scale`. */
  datatype Decimal = Decimal(unscaled: int, scale: nat)

  function Pow10(n: nat): (p: nat)
    ensures p >= 1
  {
    if n == 0 then 1 else 10 * Pow10(n - 1)
  }

  /** The exact number a decimal stands for. */
  function DecimalValue(d: Decimal): real {
    d.unscaled as real / Pow10(d.scale) as real
  }

  /** A number that Python arithmetic accepts as an integer: an int, or a bool
      (False is 0 and True is 1). */
  predicate IsPythonInt(v: JSON) {
    v.Int? || v.Bool?
  }

  function PythonInt(v: JSON): int
    requires IsPythonInt(v)
  {
    if v.Int? then v.i else if v.b then 1 else 0
  }

  /** `convert_debezium_date`: None stays None; otherwise the date `epoch_days`
      days after 1970-01-01, computed as `datetime(1970, 1, 1) + timedelta(days=...)`,
      which raises for a non-number and for a date outside years 1 .. 9999. */
  function ConvertDate(v: JSON): (r: Result<Option<Date>>)
    ensures v == Null ==> r == Ok(None)
    ensures r.Ok? && r.value.Some? ==>
              IsPythonInt(v) && Valid(r.value.value) && EpochDay(r.value.value) == PythonInt(v)
    ensures IsPythonInt(v) ==> (r.Ok? <==> MinEpochDay <= PythonInt(v) <= MaxEpochDay)
    ensures IsPythonInt(v) ==> r != Ok(None)
    ensures (v.Str? || v.Arr? || v.Obj?) ==> r == Raises
  {
    if v == Null then Ok(None)
    else if IsPythonInt(v) then
      var n := PythonInt(v);
      var d := DateOfEpochDay(n);
      DateOfEpochDayCorrect(n);
      SupportedRange(n);
      if MinYear <= d.year <= MaxYear then Ok(Some(d)) else Raises
    else Raises
  }

  /** `convert_debezium_timestamp`: None stays None; an integer number of
      milliseconds is kept as such (the conversion to a local datetime is not
      modelled); any other value makes the division `ts_ms / 1000.0` raise. */
  function ConvertTimestamp(v: JSON): (r: Result<Option<int>>)
    ensures v == Null ==> r == Ok(None)
    ensures IsPythonInt(v) ==> r == Ok(Some(PythonInt(v)))
    ensures (v.Str? || v.Arr? || v.Obj?) ==> r == Raises
  {
    if v == Null then Ok(None)
    else if IsPythonInt(v) then Ok(Some(PythonInt(v)))
    else Raises
  }

  /** The widest encoding the sink decodes: 8 bytes, a 64-bit integer. */
  const MaxDecimalBytes: nat := 8

  /** `convert_debezium_decimal`: Base64 text of a big-endian two's-complement
      unscaled value. None, text that is not Base64, text that decodes to no
      bytes and text that decodes to more than 8 bytes all give None. A list
      gives None too (the decoder's TypeError is caught and the warning can
      slice a list); any other non-text value raises, because the warning in
      the handler slices the value. */
  function ConvertDecimal(v: JSON, scale: nat): (r: Result<Option<Decimal>>)
    ensures v == Null ==> r == Ok(None)
    ensures v.Str? || v.Arr? ==> r.Ok?
    ensures v.Str? && Base64.Decode(v.s).None? ==> r == Ok(None)
    ensures v.Str? && Base64.Decode(v.s).Some? ==>
              var bs := Base64.Decode(v.s).value;
              (|bs| == 0 || |bs| > MaxDecimalBytes ==> r == Ok(None)) &&
              (1 <= |bs| <= MaxDecimalBytes ==> r == Ok(Some(Decimal(Signed(bs), scale))))
    ensures r.Ok? && r.value.Some? ==>
              v.Str? && Base64.Decode(v.s).Some? &&
              var n := |Base64.Decode(v.s).value|;
              1 <= n <= MaxDecimalBytes && -Half(n) <= r.value.value.unscaled < Half(n) &&
              r.value.value.scale == scale
    ensures r.Raises? <==> v.Int? || v.Bool? || v.Obj?
  {
    match v
    case Null => Ok(None)
    case Str(s) =>
      (match Base64.Decode(s)
       case None => Ok(None)
       case Some(bs) =>
         if |bs| < 1 then Ok(None)
         else if |bs| <= MaxDecimalBytes then Ok(Some(Decimal(Signed(bs), scale)))
         else Ok(None))
    case Arr(_) => Ok(None)
    case _ => Raises
  }

  /** Every integer that fits in n bytes (1 <= n <= 8) comes back from the
      Base64 text of its n-byte two's-complement encoding. */
  lemma DecimalRoundTrip(v: int, n: nat, scale: nat)
    requires 1 <= n <= MaxDecimalBytes && -Half(n) <= v < Half(n)
    ensures ConvertDecimal(Str(Base64.Encode(ToSigned(v, n))), scale) == Ok(Some(Decimal(v, scale)))
  {
    Base64.DecodeEncode(ToSigned(v, n));
  }

  /** The income 5000.00 with scale 2 is the unscaled value 500000, which
      needs three bytes (07 A1 20), Base64 "B6Eg". */
  lemma MonthlyIncomeExample()
    ensures ConvertDecimal(Str("B6Eg"), 2) == Ok(Some(Decimal(500000, 2)))
    ensures DecimalValue(Decimal(500000, 2)) == 5000.0
  {
    var text := "B6Eg";
    assert text[..4] == text && text[4..] == "";
    assert Base64.ValueOf('B') == Some(1) && Base64.ValueOf('6') == Some(58);
    assert Base64.ValueOf('E') == Some(4) && Base64.ValueOf('g') == Some(32);
    assert Base64.DecodeGroup(text, true) == Some([7, 161, 32]);
    assert Base64.Decode(text) == Some([7, 161, 32] + []);
    var bs: seq<Byte> := [7, 161, 32];
    assert bs[..2] == [7, 161] && bs[..2][..1] == [7] && bs[..2][..1][..0] == [];
    assert Unsigned(bs) == 500000;
    assert [7, 161, 32] + [] == bs;
    assert Base64.Decode(text) == Some(bs);
    assert Signed(bs) == 500000;
  }

  /** Epoch day 0 is 1970-01-01. */
  lemma ConvertDateZero()
    ensures ConvertDate(Int(0)) == Ok(Some(Date(1970, 1, 1)))
  {
    DateOfEpochDayZero();
  }

  /** Date decoding is strictly increasing, hence one-to-one, on its domain. */
  lemma ConvertDateMonotone(a: int, b: int)
    requires a < b
    requires ConvertDate(Int(a)).Ok? && ConvertDate(Int(b)).Ok?
    ensures Before(ConvertDate(Int(a)).value.value, ConvertDate(Int(b)).value.value)
  {
    DateOfEpochDayMonotone(a, b);
  }
}
