/**
 * The decoder test fixture: a configuration structure with one field of
 * every supported type and a pointer to each, the two inputs (native values
 * and their text) that must decode to the same expected structure without
 * error, and the input with a bad value in every scalar field, which must
 * give one error line per such field, 32 in all.
 *
 * The theorems hold for any choice of distinct single-line keys; TestKeys
 * are the keys the structure's tags spell.
 */
module ConfigFixture {
  import opened Wrappers
  import opened Decimal
  import Rfc3339
  import Durations
  import SelfDecoding
  import opened Config
  import opened ConfigLaws

  /** The reference instant, 2021-01-02 15:04:05 at UTC-7, and its RFC 3339 text. */
  const ReferenceText: string := "2021-01-02T15:04:05-07:00"
  const ReferenceTime: Rfc3339.Timestamp := Rfc3339.Timestamp(2021, 1, 2, 15, 4, 5, 0, Rfc3339.Offset(-420))

  const FiveSeconds: int := 5 * Durations.Second

  /** The nested structure: an int64 "integer" and a string "string". */
  const NestedTable: seq<Field> := [Field("integer", TSigned(Int64)), Field("string", TString)]

  const NestedNumbers: map<string, Source> := map["integer" := SInt(1234), "string" := SInt(5678)]
  const NestedTexts: map<string, Source> := map["integer" := SString("1234"), "string" := SString("5678")]
  const NestedExpected: map<string, Value> := Build(NestedTable, [VInt(1234), VString("5678")])

  const FieldCount: nat := 36

  /** The keys of the configuration structure, in declaration order. */
  const TestKeys: seq<string> := [
      "int", "intPtr", "int64", "int64Ptr", "int32", "int32Ptr",
      "int16", "int16Ptr", "int8", "int8Ptr", "uint", "uintPtr",
      "uint64", "uint64Ptr", "uint32", "uint32Ptr", "uint16", "uint16Ptr",
      "byte", "bytePtr", "float64", "float64Ptr", "float32", "float32Ptr",
      "bool", "boolPtr", "duration", "durationPtr", "time", "timePtr",
      "string", "stringPtr", "decoded", "decodedPtr", "nested", "nestedPtr"
    ]

  /** The declared type of field i. */
  function TypeAt(i: nat): FieldType
    requires i < FieldCount
  {
    match i
    case 0 => TSigned(Int)
    case 1 => TPtr(TSigned(Int))
    case 2 => TSigned(Int64)
    case 3 => TPtr(TSigned(Int64))
    case 4 => TSigned(Int32)
    case 5 => TPtr(TSigned(Int32))
    case 6 => TSigned(Int16)
    case 7 => TPtr(TSigned(Int16))
    case 8 => TSigned(Int8)
    case 9 => TPtr(TSigned(Int8))
    case 10 => TUnsigned(Uint)
    case 11 => TPtr(TUnsigned(Uint))
    case 12 => TUnsigned(Uint64)
    case 13 => TPtr(TUnsigned(Uint64))
    case 14 => TUnsigned(Uint32)
    case 15 => TPtr(TUnsigned(Uint32))
    case 16 => TUnsigned(Uint16)
    case 17 => TPtr(TUnsigned(Uint16))
    case 18 => TUnsigned(Uint8)
    case 19 => TPtr(TUnsigned(Uint8))
    case 20 => TFloat(Float64)
    case 21 => TPtr(TFloat(Float64))
    case 22 => TFloat(Float32)
    case 23 => TPtr(TFloat(Float32))
    case 24 => TBool
    case 25 => TPtr(TBool)
    case 26 => TDuration
    case 27 => TPtr(TDuration)
    case 28 => TTime
    case 29 => TPtr(TTime)
    case 30 => TString
    case 31 => TPtr(TString)
    case 32 => TDecoded
    case 33 => TPtr(TDecoded)
    case 34 => TNested(NestedTable)
    case _ => TPtr(TNested(NestedTable))
  }

  /** What the native input holds for field i. */
  function NativeAt(i: nat): Source
    requires i < FieldCount
  {
    match i
    case 0 => SInt(-9999)
    case 1 => SPtr(SInt(-9999))
    case 2 => SInt(-1234)
    case 3 => SPtr(SInt(-12345))
    case 4 => SInt(-5678)
    case 5 => SPtr(SInt(-5678))
    case 6 => SInt(-9012)
    case 7 => SPtr(SInt(-9012))
    case 8 => SInt(-128)
    case 9 => SPtr(SInt(-128))
    case 10 => SInt(9999)
    case 11 => SPtr(SInt(9999))
    case 12 => SInt(1234)
    case 13 => SPtr(SInt(1234))
    case 14 => SInt(5678)
    case 15 => SPtr(SInt(5678))
    case 16 => SInt(9012)
    case 17 => SPtr(SInt(9012))
    case 18 => SInt(255)
    case 19 => SPtr(SInt(255))
    case 20 => SFloat("1234.5")
    case 21 => SPtr(SFloat("1234.5"))
    case 22 => SFloat("6789.5")
    case 23 => SPtr(SFloat("6789.5"))
    case 24 => SBool(true)
    case 25 => SPtr(SBool(true))
    case 26 => SDuration(FiveSeconds)
    case 27 => SPtr(SDuration(FiveSeconds))
    case 28 => STime(ReferenceTime)
    case 29 => SPtr(STime(ReferenceTime))
    case 30 => SInt(1234)
    case 31 => SPtr(SString("1234"))
    case 32 => SString("unlimited")
    case 33 => SString("unlimited")
    case 34 => SMap(NestedNumbers)
    case _ => SMap(NestedNumbers)
  }

  /** What the text input holds for field i. */
  function TextAt(i: nat): Source
    requires i < FieldCount
  {
    match i
    case 0 => SString("-9999")
    case 1 => SString("-9999")
    case 2 => SString("-1234")
    case 3 => SString("-12345")
    case 4 => SString("-5678")
    case 5 => SString("-5678")
    case 6 => SString("-9012")
    case 7 => SString("-9012")
    case 8 => SString("-128")
    case 9 => SString("-128")
    case 10 => SString("9999")
    case 11 => SString("9999")
    case 12 => SString("1234")
    case 13 => SString("1234")
    case 14 => SString("5678")
    case 15 => SString("5678")
    case 16 => SString("9012")
    case 17 => SString("9012")
    case 18 => SString("255")
    case 19 => SString("255")
    case 20 => SString("1234.5")
    case 21 => SString("1234.5")
    case 22 => SString("6789.5")
    case 23 => SString("6789.5")
    case 24 => SString("true")
    case 25 => SString("true")
    case 26 => SString("5000")
    case 27 => SString("5s")
    case 28 => SString(ReferenceText)
    case 29 => SString(ReferenceText)
    case 30 => SString("1234")
    case 31 => SString("1234")
    case 32 => SString("unlimited")
    case 33 => SString("unlimited")
    case 34 => SMap(NestedTexts)
    case _ => SMap(NestedTexts)
  }

  /** What the bad input holds for field i, if anything. */
  function BadAt(i: nat): Option<Source>
    requires i < FieldCount
  {
    match i
    case 0 => Some(SString("-badval"))
    case 1 => Some(SString("-badval"))
    case 2 => Some(SString("-badval"))
    case 3 => Some(SString("-badval"))
    case 4 => Some(SString("-badval"))
    case 5 => Some(SString("-badval"))
    case 6 => Some(SString("-badval"))
    case 7 => Some(SString("-badval"))
    case 8 => Some(SString("-badval"))
    case 9 => Some(SString("-badval"))
    case 10 => Some(SString("-9999"))
    case 11 => Some(SString("-9999"))
    case 12 => Some(SString("-1234"))
    case 13 => Some(SString("-1234"))
    case 14 => Some(SString("-5678"))
    case 15 => Some(SString("-5678"))
    case 16 => Some(SString("-9012"))
    case 17 => Some(SString("-9012"))
    case 18 => Some(SString("-1"))
    case 19 => Some(SString("-1"))
    case 20 => Some(SString("badval.5"))
    case 21 => Some(SString("badval.5"))
    case 22 => Some(SString("badval.5"))
    case 23 => Some(SString("badval.5"))
    case 24 => Some(SString("badval"))
    case 25 => Some(SString("badval"))
    case 26 => Some(SString("badval"))
    case 27 => Some(SString("badval"))
    case 28 => Some(SString("badval"))
    case 29 => Some(SString("badval"))
    case 30 => Some(SInt(1234))
    case 31 => Some(SInt(1234))
    case 32 => Some(SString("badval"))
    case 33 => Some(SString("badval"))
    case 34 => None
    case _ => None
  }

  /** What field i holds after decoding either good input. */
  function ExpectedAt(i: nat): Value
    requires i < FieldCount
  {
    match i
    case 0 => VInt(-9999)
    case 1 => VPtr(VInt(-9999))
    case 2 => VInt(-1234)
    case 3 => VPtr(VInt(-12345))
    case 4 => VInt(-5678)
    case 5 => VPtr(VInt(-5678))
    case 6 => VInt(-9012)
    case 7 => VPtr(VInt(-9012))
    case 8 => VInt(-128)
    case 9 => VPtr(VInt(-128))
    case 10 => VUint(9999)
    case 11 => VPtr(VUint(9999))
    case 12 => VUint(1234)
    case 13 => VPtr(VUint(1234))
    case 14 => VUint(5678)
    case 15 => VPtr(VUint(5678))
    case 16 => VUint(9012)
    case 17 => VPtr(VUint(9012))
    case 18 => VUint(255)
    case 19 => VPtr(VUint(255))
    case 20 => VFloat("1234.5")
    case 21 => VPtr(VFloat("1234.5"))
    case 22 => VFloat("6789.5")
    case 23 => VPtr(VFloat("6789.5"))
    case 24 => VBool(true)
    case 25 => VPtr(VBool(true))
    case 26 => VDuration(FiveSeconds)
    case 27 => VPtr(VDuration(FiveSeconds))
    case 28 => VTime(ReferenceTime)
    case 29 => VPtr(VTime(ReferenceTime))
    case 30 => VString("1234")
    case 31 => VPtr(VString("1234"))
    case 32 => VDecoded(-1)
    case 33 => VPtr(VDecoded(-1))
    case 34 => VStruct(NestedExpected)
    case _ => VPtr(VStruct(NestedExpected))
  }

  /** The error entry field i gives for the bad input, without its key. */
  datatype Failure = Failure(typeName: string, raw: string, cause: Option<NumError>)

  function FailureAt(i: nat): Option<Failure>
    requires i < FieldCount
  {
    match i
    case 0 => Some(Failure("int", "-badval", None))
    case 1 => Some(Failure("int", "-badval", None))
    case 2 => Some(Failure("int64", "-badval", None))
    case 3 => Some(Failure("int64", "-badval", None))
    case 4 => Some(Failure("int32", "-badval", None))
    case 5 => Some(Failure("int32", "-badval", None))
    case 6 => Some(Failure("int16", "-badval", None))
    case 7 => Some(Failure("int16", "-badval", None))
    case 8 => Some(Failure("int8", "-badval", None))
    case 9 => Some(Failure("int8", "-badval", None))
    case 10 => Some(Failure("uint", "-9999", None))
    case 11 => Some(Failure("uint", "-9999", None))
    case 12 => Some(Failure("uint64", "-1234", None))
    case 13 => Some(Failure("uint64", "-1234", None))
    case 14 => Some(Failure("uint32", "-5678", None))
    case 15 => Some(Failure("uint32", "-5678", None))
    case 16 => Some(Failure("uint16", "-9012", None))
    case 17 => Some(Failure("uint16", "-9012", None))
    case 18 => Some(Failure("uint8", "-1", None))
    case 19 => Some(Failure("uint8", "-1", None))
    case 20 => Some(Failure("float64", "badval.5", None))
    case 21 => Some(Failure("float64", "badval.5", None))
    case 22 => Some(Failure("float32", "badval.5", None))
    case 23 => Some(Failure("float32", "badval.5", None))
    case 24 => Some(Failure("bool", "badval", None))
    case 25 => Some(Failure("bool", "badval", None))
    case 26 => Some(Failure("duration", "badval", None))
    case 27 => Some(Failure("duration", "badval", None))
    case 28 => Some(Failure("time", "badval", None))
    case 29 => Some(Failure("time", "badval", None))
    case 30 => None
    case 31 => None
    case 32 => Some(Failure("Decoded", "badval", Some(Syntax)))
    case 33 => Some(Failure("Decoded", "badval", Some(Syntax)))
    case 34 => None
    case _ => None
  }

  function ErrorsFor(key: string, i: nat): seq<FieldError>
    requires i < FieldCount
  {
    match FailureAt(i)
    case None => []
    case Some(f) => [Invalid(key, f.typeName, f.raw, f.cause)]
  }

  // -------------------------------------------------------------- the inputs

  predicate GoodKeys(ks: seq<string>)
  {
    |ks| == FieldCount && Distinct(ks) && forall i | 0 <= i < |ks| :: '\n' !in ks[i]
  }

  function TableOf(ks: seq<string>): seq<Field>
    requires |ks| == FieldCount
  {
    seq(FieldCount, i requires 0 <= i < FieldCount => Field(ks[i], TypeAt(i)))
  }

  const ExpectedValues: seq<Value> := seq(FieldCount, i requires 0 <= i < FieldCount => ExpectedAt(i))

  function NativeInput(ks: seq<string>): map<string, Source>
    requires |ks| == FieldCount
  {
    MapOf(ks, seq(FieldCount, i requires 0 <= i < FieldCount => Some(NativeAt(i))))
  }

  function TextInput(ks: seq<string>): map<string, Source>
    requires |ks| == FieldCount
  {
    MapOf(ks, seq(FieldCount, i requires 0 <= i < FieldCount => Some(TextAt(i))))
  }

  function BadInput(ks: seq<string>): map<string, Source>
    requires |ks| == FieldCount
  {
    MapOf(ks, seq(FieldCount, i requires 0 <= i < FieldCount => BadAt(i)))
  }

  function BadErrors(ks: seq<string>): seq<seq<FieldError>>
    requires |ks| == FieldCount
  {
    seq(FieldCount, i requires 0 <= i < FieldCount => ErrorsFor(ks[i], i))
  }

  // ------------------------------------------------------------ basic facts

  lemma Shift(n: nat)
    requires n >= 10
    ensures NatDigits(n) == NatDigits(n / 10) + [DigitChar(n % 10)]
  {
  }

  lemma Single(n: nat)
    requires n < 10
    ensures NatDigits(n) == [DigitChar(n)]
  {
  }

  lemma Digits9999()
    ensures Itoa(9999) == "9999" && Itoa(-9999) == "-9999"
  {
    Single(9); Shift(99); Shift(999); Shift(9999);
    assert DigitChar(9) == '9';
  }

  lemma Digits1234()
    ensures Itoa(1234) == "1234" && Itoa(-1234) == "-1234"
  {
    Single(1); Shift(12); Shift(123); Shift(1234);
    assert DigitChar(1) == '1' && DigitChar(2) == '2' && DigitChar(3) == '3' && DigitChar(4) == '4';
  }

  lemma Digits12345()
    ensures Itoa(-12345) == "-12345"
  {
    Single(1); Shift(12); Shift(123); Shift(1234); Shift(12345);
    assert DigitChar(1) == '1' && DigitChar(2) == '2' && DigitChar(3) == '3' && DigitChar(4) == '4' && DigitChar(5) == '5';
  }

  lemma Digits5678()
    ensures Itoa(5678) == "5678" && Itoa(-5678) == "-5678"
  {
    Single(5); Shift(56); Shift(567); Shift(5678);
    assert DigitChar(5) == '5' && DigitChar(6) == '6' && DigitChar(7) == '7' && DigitChar(8) == '8';
  }

  lemma Digits9012()
    ensures Itoa(9012) == "9012" && Itoa(-9012) == "-9012"
  {
    Single(9); Shift(90); Shift(901); Shift(9012);
    assert DigitChar(9) == '9' && DigitChar(0) == '0' && DigitChar(1) == '1' && DigitChar(2) == '2';
  }

  /** Digits, a point and digits are float syntax. */
  lemma PointNumber(d: string, f: string)
    requires |d| > 0 && AllDigits(d) && |f| > 0 && AllDigits(f)
    ensures FloatSyntax(d + "." + f)
  {
    var s := d + "." + f;
    assert SplitSign(s).body == s;
    DigitRunOfDigits(d, "." + f);
    assert s[|d|..] == "." + f;
    DigitRunOfDigits(f, []);
    assert f + [] == f;
    assert ("." + f)[1..] == f;
    assert f[|f|..] == [];
  }

  lemma FloatText(s: string)
    requires s == "1234.5" || s == "6789.5"
    ensures FloatSyntax(s)
  {
    if s == "1234.5" {
      assert s == "1234" + "." + "5";
      PointNumber("1234", "5");
    } else {
      assert s == "6789" + "." + "5";
      PointNumber("6789", "5");
    }
  }

  lemma FloatTexts()
    ensures FloatSyntax("1234.5") && FloatSyntax("6789.5")
  {
    FloatText("1234.5");
    FloatText("6789.5");
  }

  lemma FloatRejectsWord(s: string)
    requires s == "badval.5"
    ensures !FloatSyntax(s)
  {
    assert SplitSign(s).body == s;
    assert DigitRun(s) == 0;
    assert s[0] != '.';
  }

  /** A two-field table whose fields both decode without error gives those values and no error. */
  lemma TwoRows(fs: seq<Field>, m: map<string, Source>, vs: seq<Value>)
    requires |fs| == 2 && |vs| == 2
    requires fs[0].key in m && DecodeValue(fs[0].key, fs[0].ty, m[fs[0].key]) == Outcome(vs[0], [])
    requires fs[1].key in m && DecodeValue(fs[1].key, fs[1].ty, m[fs[1].key]) == Outcome(vs[1], [])
    ensures DecodeFields(fs, m) == StructOutcome(Build(fs, vs), [])
  {
    var es: seq<seq<FieldError>> := [[], []];
    DecodeByRows(fs, m, vs, es);
    FlattenEmpty(es);
  }

  lemma Int64Of1234(key: string, ty: FieldType, src: Source, v: Value)
    requires ty == TSigned(Int64) && (src == SInt(1234) || src == SString("1234")) && v == VInt(1234)
    ensures DecodeValue(key, ty, src) == Outcome(v, [])
  {
    if src.SString? {
      Digits1234();
      SignedText(key, Int64, 1234);
    } else {
      ScalarField(key, ty, src);
      assert Coerce(key, ty, src) == Ok(v);
    }
  }

  lemma StringOf5678(key: string, ty: FieldType, src: Source, v: Value)
    requires ty == TString && (src == SInt(5678) || src == SString("5678")) && v == VString("5678")
    ensures DecodeValue(key, ty, src) == Outcome(v, [])
  {
    Digits5678();
    StringAcceptsScalars(key, src);
  }

  /** The nested structure from native numbers: the string field takes the number's text. */
  lemma NestedFromNumbers(fs: seq<Field>, m: map<string, Source>, vs: seq<Value>)
    requires fs == NestedTable && m == NestedNumbers && vs == [VInt(1234), VString("5678")]
    ensures DecodeFields(fs, m) == StructOutcome(Build(fs, vs), [])
  {
    var k0, k1 := fs[0].key, fs[1].key;
    assert k0 != k1 by {
      assert |k0| == 7 && |k1| == 6;
    }
    assert m[k0] == SInt(1234) && m[k1] == SInt(5678);
    Int64Of1234(k0, fs[0].ty, m[k0], vs[0]);
    StringOf5678(k1, fs[1].ty, m[k1], vs[1]);
    TwoRows(fs, m, vs);
  }

  /** The nested structure from text: the same values. */
  lemma NestedFromTexts(fs: seq<Field>, m: map<string, Source>, vs: seq<Value>)
    requires fs == NestedTable && m == NestedTexts && vs == [VInt(1234), VString("5678")]
    ensures DecodeFields(fs, m) == StructOutcome(Build(fs, vs), [])
  {
    var k0, k1 := fs[0].key, fs[1].key;
    assert k0 != k1 by {
      assert |k0| == 7 && |k1| == 6;
    }
    assert m[k0] == SString("1234") && m[k1] == SString("5678");
    Int64Of1234(k0, fs[0].ty, m[k0], vs[0]);
    StringOf5678(k1, fs[1].ty, m[k1], vs[1]);
    TwoRows(fs, m, vs);
  }

  // ------------------------------------------------------------ field rows

  lemma IntNative(key: string, ty: FieldType, src: Source, v: Value)
    requires ty == TSigned(Int) && src == SInt(-9999) && v == VInt(-9999)
    ensures DecodeValue(key, ty, src) == Outcome(v, [])
  {
  }

  lemma IntText(key: string, ty: FieldType, src: Source, v: Value)
    requires ty == TSigned(Int) && src == SString("-9999") && v == VInt(-9999)
    ensures DecodeValue(key, ty, src) == Outcome(v, [])
  {
    Digits9999();
    SignedText(key, Int, -9999);
  }

  lemma IntBad(key: string, ty: FieldType, src: Source, errs: seq<FieldError>)
    requires ty == TSigned(Int) && src == SString("-badval") && errs == [Invalid(key, "int", "-badval", None)]
    ensures DecodeValue(key, ty, src).errors == errs
  {
    SignedRejectsWord(key, Int, src.s);
  }

  lemma IntPtrNative(key: string, ty: FieldType, src: Source, v: Value)
    requires ty == TPtr(TSigned(Int)) && src == SPtr(SInt(-9999)) && v == VPtr(VInt(-9999))
    ensures DecodeValue(key, ty, src) == Outcome(v, [])
  {
    IntNative(key, ty.elem, src.target, v.target);
    PointerSource(key, ty.elem, src.target);
    PointerField(key, ty.elem, src);
  }

  lemma IntPtrText(key: string, ty: FieldType, src: Source, v: Value)
    requires ty == TPtr(TSigned(Int)) && src == SString("-9999") && v == VPtr(VInt(-9999))
    ensures DecodeValue(key, ty, src) == Outcome(v, [])
  {
    IntText(key, ty.elem, src, v.target);
    PointerField(key, ty.elem, src);
  }

  lemma IntPtrBad(key: string, ty: FieldType, src: Source, errs: seq<FieldError>)
    requires ty == TPtr(TSigned(Int)) && src == SString("-badval") && errs == [Invalid(key, "int", "-badval", None)]
    ensures DecodeValue(key, ty, src).errors == errs
  {
    IntBad(key, ty.elem, src, [Invalid(key, "int", "-badval", None)]);
    PointerField(key, ty.elem, src);
  }

  lemma Int64Native(key: string, ty: FieldType, src: Source, v: Value)
    requires ty == TSigned(Int64) && src == SInt(-1234) && v == VInt(-1234)
    ensures DecodeValue(key, ty, src) == Outcome(v, [])
  {
  }

  lemma Int64Text(key: string, ty: FieldType, src: Source, v: Value)
    requires ty == TSigned(Int64) && src == SString("-1234") && v == VInt(-1234)
    ensures DecodeValue(key, ty, src) == Outcome(v, [])
  {
    Digits1234();
    SignedText(key, Int64, -1234);
  }

  lemma Int64Bad(key: string, ty: FieldType, src: Source, errs: seq<FieldError>)
    requires ty == TSigned(Int64) && src == SString("-badval") && errs == [Invalid(key, "int64", "-badval", None)]
    ensures DecodeValue(key, ty, src).errors == errs
  {
    SignedRejectsWord(key, Int64, src.s);
  }

  lemma Int64PtrElemNative(key: string, ty: FieldType, src: Source, v: Value)
    requires ty == TSigned(Int64) && src == SPtr(SInt(-12345)) && v == VInt(-12345)
    ensures DecodeValue(key, ty, src) == Outcome(v, [])
  {
  }

  lemma Int64PtrNative(key: string, ty: FieldType, src: Source, v: Value)
    requires ty == TPtr(TSigned(Int64)) && src == SPtr(SInt(-12345)) && v == VPtr(VInt(-12345))
    ensures DecodeValue(key, ty, src) == Outcome(v, [])
  {
    Int64PtrElemNative(key, ty.elem, src, v.target);
    PointerField(key, ty.elem, src);
  }

  lemma Int64PtrElemText(key: string, ty: FieldType, src: Source, v: Value)
    requires ty == TSigned(Int64) && src == SString("-12345") && v == VInt(-12345)
    ensures DecodeValue(key, ty, src) == Outcome(v, [])
  {
    Digits12345();
    SignedText(key, Int64, -12345);
  }

  lemma Int64PtrText(key: string, ty: FieldType, src: Source, v: Value)
    requires ty == TPtr(TSigned(Int64)) && src == SString("-12345") && v == VPtr(VInt(-12345))
    ensures DecodeValue(key, ty, src) == Outcome(v, [])
  {
    Int64PtrElemText(key, ty.elem, src, v.target);
    PointerField(key, ty.elem, src);
  }

  lemma Int64PtrBad(key: string, ty: FieldType, src: Source, errs: seq<FieldError>)
    requires ty == TPtr(TSigned(Int64)) && src == SString("-badval") && errs == [Invalid(key, "int64", "-badval", None)]
    ensures DecodeValue(key, ty, src).errors == errs
  {
    Int64Bad(key, ty.elem, src, [Invalid(key, "int64", "-badval", None)]);
    PointerField(key, ty.elem, src);
  }

  lemma Int32Native(key: string, ty: FieldType, src: Source, v: Value)
    requires ty == TSigned(Int32) && src == SInt(-5678) && v == VInt(-5678)
    ensures DecodeValue(key, ty, src) == Outcome(v, [])
  {
  }

  lemma Int32Text(key: string, ty: FieldType, src: Source, v: Value)
    requires ty == TSigned(Int32) && src == SString("-5678") && v == VInt(-5678)
    ensures DecodeValue(key, ty, src) == Outcome(v, [])
  {
    Digits5678();
    SignedText(key, Int32, -5678);
  }

  lemma Int32Bad(key: string, ty: FieldType, src: Source, errs: seq<FieldError>)
    requires ty == TSigned(Int32) && src == SString("-badval") && errs == [Invalid(key, "int32", "-badval", None)]
    ensures DecodeValue(key, ty, src).errors == errs
  {
    SignedRejectsWord(key, Int32, src.s);
  }

  lemma Int32PtrNative(key: string, ty: FieldType, src: Source, v: Value)
    requires ty == TPtr(TSigned(Int32)) && src == SPtr(SInt(-5678)) && v == VPtr(VInt(-5678))
    ensures DecodeValue(key, ty, src) == Outcome(v, [])
  {
    Int32Native(key, ty.elem, src.target, v.target);
    PointerSource(key, ty.elem, src.target);
    PointerField(key, ty.elem, src);
  }

  lemma Int32PtrText(key: string, ty: FieldType, src: Source, v: Value)
    requires ty == TPtr(TSigned(Int32)) && src == SString("-5678") && v == VPtr(VInt(-5678))
    ensures DecodeValue(key, ty, src) == Outcome(v, [])
  {
    Int32Text(key, ty.elem, src, v.target);
    PointerField(key, ty.elem, src);
  }

  lemma Int32PtrBad(key: string, ty: FieldType, src: Source, errs: seq<FieldError>)
    requires ty == TPtr(TSigned(Int32)) && src == SString("-badval") && errs == [Invalid(key, "int32", "-badval", None)]
    ensures DecodeValue(key, ty, src).errors == errs
  {
    Int32Bad(key, ty.elem, src, [Invalid(key, "int32", "-badval", None)]);
    PointerField(key, ty.elem, src);
  }

  lemma Int16Native(key: string, ty: FieldType, src: Source, v: Value)
    requires ty == TSigned(Int16) && src == SInt(-9012) && v == VInt(-9012)
    ensures DecodeValue(key, ty, src) == Outcome(v, [])
  {
  }

  lemma Int16Text(key: string, ty: FieldType, src: Source, v: Value)
    requires ty == TSigned(Int16) && src == SString("-9012") && v == VInt(-9012)
    ensures DecodeValue(key, ty, src) == Outcome(v, [])
  {
    Digits9012();
    SignedText(key, Int16, -9012);
  }

  lemma Int16Bad(key: string, ty: FieldType, src: Source, errs: seq<FieldError>)
    requires ty == TSigned(Int16) && src == SString("-badval") && errs == [Invalid(key, "int16", "-badval", None)]
    ensures DecodeValue(key, ty, src).errors == errs
  {
    SignedRejectsWord(key, Int16, src.s);
  }

  lemma Int16PtrNative(key: string, ty: FieldType, src: Source, v: Value)
    requires ty == TPtr(TSigned(Int16)) && src == SPtr(SInt(-9012)) && v == VPtr(VInt(-9012))
    ensures DecodeValue(key, ty, src) == Outcome(v, [])
  {
    Int16Native(key, ty.elem, src.target, v.target);
    PointerSource(key, ty.elem, src.target);
    PointerField(key, ty.elem, src);
  }

  lemma Int16PtrText(key: string, ty: FieldType, src: Source, v: Value)
    requires ty == TPtr(TSigned(Int16)) && src == SString("-9012") && v == VPtr(VInt(-9012))
    ensures DecodeValue(key, ty, src) == Outcome(v, [])
  {
    Int16Text(key, ty.elem, src, v.target);
    PointerField(key, ty.elem, src);
  }

  lemma Int16PtrBad(key: string, ty: FieldType, src: Source, errs: seq<FieldError>)
    requires ty == TPtr(TSigned(Int16)) && src == SString("-badval") && errs == [Invalid(key, "int16", "-badval", None)]
    ensures DecodeValue(key, ty, src).errors == errs
  {
    Int16Bad(key, ty.elem, src, [Invalid(key, "int16", "-badval", None)]);
    PointerField(key, ty.elem, src);
  }

  lemma Int8Native(key: string, ty: FieldType, src: Source, v: Value)
    requires ty == TSigned(Int8) && src == SInt(-128) && v == VInt(-128)
    ensures DecodeValue(key, ty, src) == Outcome(v, [])
  {
  }

  lemma Int8Text(key: string, ty: FieldType, src: Source, v: Value)
    requires ty == TSigned(Int8) && src == SString("-128") && v == VInt(-128)
    ensures DecodeValue(key, ty, src) == Outcome(v, [])
  {
    Digits128();
    SignedText(key, Int8, -128);
  }

  lemma Int8Bad(key: string, ty: FieldType, src: Source, errs: seq<FieldError>)
    requires ty == TSigned(Int8) && src == SString("-badval") && errs == [Invalid(key, "int8", "-badval", None)]
    ensures DecodeValue(key, ty, src).errors == errs
  {
    SignedRejectsWord(key, Int8, src.s);
  }

  lemma Int8PtrNative(key: string, ty: FieldType, src: Source, v: Value)
    requires ty == TPtr(TSigned(Int8)) && src == SPtr(SInt(-128)) && v == VPtr(VInt(-128))
    ensures DecodeValue(key, ty, src) == Outcome(v, [])
  {
    Int8Native(key, ty.elem, src.target, v.target);
    PointerSource(key, ty.elem, src.target);
    PointerField(key, ty.elem, src);
  }

  lemma Int8PtrText(key: string, ty: FieldType, src: Source, v: Value)
    requires ty == TPtr(TSigned(Int8)) && src == SString("-128") && v == VPtr(VInt(-128))
    ensures DecodeValue(key, ty, src) == Outcome(v, [])
  {
    Int8Text(key, ty.elem, src, v.target);
    PointerField(key, ty.elem, src);
  }

  lemma Int8PtrBad(key: string, ty: FieldType, src: Source, errs: seq<FieldError>)
    requires ty == TPtr(TSigned(Int8)) && src == SString("-badval") && errs == [Invalid(key, "int8", "-badval", None)]
    ensures DecodeValue(key, ty, src).errors == errs
  {
    Int8Bad(key, ty.elem, src, [Invalid(key, "int8", "-badval", None)]);
    PointerField(key, ty.elem, src);
  }

  lemma UintNative(key: string, ty: FieldType, src: Source, v: Value)
    requires ty == TUnsigned(Uint) && src == SInt(9999) && v == VUint(9999)
    ensures DecodeValue(key, ty, src) == Outcome(v, [])
  {
  }

  lemma UintText(key: string, ty: FieldType, src: Source, v: Value)
    requires ty == TUnsigned(Uint) && src == SString("9999") && v == VUint(9999)
    ensures DecodeValue(key, ty, src) == Outcome(v, [])
  {
    Digits9999();
    UnsignedText(key, Uint, 9999);
  }

  lemma UintBad(key: string, ty: FieldType, src: Source, errs: seq<FieldError>)
    requires ty == TUnsigned(Uint) && src == SString("-9999") && errs == [Invalid(key, "uint", "-9999", None)]
    ensures DecodeValue(key, ty, src).errors == errs
  {
    UnsignedRejectsMinus(key, Uint, src.s);
  }

  lemma UintPtrNative(key: string, ty: FieldType, src: Source, v: Value)
    requires ty == TPtr(TUnsigned(Uint)) && src == SPtr(SInt(9999)) && v == VPtr(VUint(9999))
    ensures DecodeValue(key, ty, src) == Outcome(v, [])
  {
    UintNative(key, ty.elem, src.target, v.target);
    PointerSource(key, ty.elem, src.target);
    PointerField(key, ty.elem, src);
  }

  lemma UintPtrText(key: string, ty: FieldType, src: Source, v: Value)
    requires ty == TPtr(TUnsigned(Uint)) && src == SString("9999") && v == VPtr(VUint(9999))
    ensures DecodeValue(key, ty, src) == Outcome(v, [])
  {
    UintText(key, ty.elem, src, v.target);
    PointerField(key, ty.elem, src);
  }

  lemma UintPtrBad(key: string, ty: FieldType, src: Source, errs: seq<FieldError>)
    requires ty == TPtr(TUnsigned(Uint)) && src == SString("-9999") && errs == [Invalid(key, "uint", "-9999", None)]
    ensures DecodeValue(key, ty, src).errors == errs
  {
    UintBad(key, ty.elem, src, [Invalid(key, "uint", "-9999", None)]);
    PointerField(key, ty.elem, src);
  }

  lemma Uint64Native(key: string, ty: FieldType, src: Source, v: Value)
    requires ty == TUnsigned(Uint64) && src == SInt(1234) && v == VUint(1234)
    ensures DecodeValue(key, ty, src) == Outcome(v, [])
  {
  }

  lemma Uint64Text(key: string, ty: FieldType, src: Source, v: Value)
    requires ty == TUnsigned(Uint64) && src == SString("1234") && v == VUint(1234)
    ensures DecodeValue(key, ty, src) == Outcome(v, [])
  {
    Digits1234();
    UnsignedText(key, Uint64, 1234);
  }

  lemma Uint64Bad(key: string, ty: FieldType, src: Source, errs: seq<FieldError>)
    requires ty == TUnsigned(Uint64) && src == SString("-1234") && errs == [Invalid(key, "uint64", "-1234", None)]
    ensures DecodeValue(key, ty, src).errors == errs
  {
    UnsignedRejectsMinus(key, Uint64, src.s);
  }

  lemma Uint64PtrNative(key: string, ty: FieldType, src: Source, v: Value)
    requires ty == TPtr(TUnsigned(Uint64)) && src == SPtr(SInt(1234)) && v == VPtr(VUint(1234))
    ensures DecodeValue(key, ty, src) == Outcome(v, [])
  {
    Uint64Native(key, ty.elem, src.target, v.target);
    PointerSource(key, ty.elem, src.target);
    PointerField(key, ty.elem, src);
  }

  lemma Uint64PtrText(key: string, ty: FieldType, src: Source, v: Value)
    requires ty == TPtr(TUnsigned(Uint64)) && src == SString("1234") && v == VPtr(VUint(1234))
    ensures DecodeValue(key, ty, src) == Outcome(v, [])
  {
    Uint64Text(key, ty.elem, src, v.target);
    PointerField(key, ty.elem, src);
  }

  lemma Uint64PtrBad(key: string, ty: FieldType, src: Source, errs: seq<FieldError>)
    requires ty == TPtr(TUnsigned(Uint64)) && src == SString("-1234") && errs == [Invalid(key, "uint64", "-1234", None)]
    ensures DecodeValue(key, ty, src).errors == errs
  {
    Uint64Bad(key, ty.elem, src, [Invalid(key, "uint64", "-1234", None)]);
    PointerField(key, ty.elem, src);
  }

  lemma Uint32Native(key: string, ty: FieldType, src: Source, v: Value)
    requires ty == TUnsigned(Uint32) && src == SInt(5678) && v == VUint(5678)
    ensures DecodeValue(key, ty, src) == Outcome(v, [])
  {
  }

  lemma Uint32Text(key: string, ty: FieldType, src: Source, v: Value)
    requires ty == TUnsigned(Uint32) && src == SString("5678") && v == VUint(5678)
    ensures DecodeValue(key, ty, src) == Outcome(v, [])
  {
    Digits5678();
    UnsignedText(key, Uint32, 5678);
  }

  lemma Uint32Bad(key: string, ty: FieldType, src: Source, errs: seq<FieldError>)
    requires ty == TUnsigned(Uint32) && src == SString("-5678") && errs == [Invalid(key, "uint32", "-5678", None)]
    ensures DecodeValue(key, ty, src).errors == errs
  {
    UnsignedRejectsMinus(key, Uint32, src.s);
  }

  lemma Uint32PtrNative(key: string, ty: FieldType, src: Source, v: Value)
    requires ty == TPtr(TUnsigned(Uint32)) && src == SPtr(SInt(5678)) && v == VPtr(VUint(5678))
    ensures DecodeValue(key, ty, src) == Outcome(v, [])
  {
    Uint32Native(key, ty.elem, src.target, v.target);
    PointerSource(key, ty.elem, src.target);
    PointerField(key, ty.elem, src);
  }

  lemma Uint32PtrText(key: string, ty: FieldType, src: Source, v: Value)
    requires ty == TPtr(TUnsigned(Uint32)) && src == SString("5678") && v == VPtr(VUint(5678))
    ensures DecodeValue(key, ty, src) == Outcome(v, [])
  {
    Uint32Text(key, ty.elem, src, v.target);
    PointerField(key, ty.elem, src);
  }

  lemma Uint32PtrBad(key: string, ty: FieldType, src: Source, errs: seq<FieldError>)
    requires ty == TPtr(TUnsigned(Uint32)) && src == SString("-5678") && errs == [Invalid(key, "uint32", "-5678", None)]
    ensures DecodeValue(key, ty, src).errors == errs
  {
    Uint32Bad(key, ty.elem, src, [Invalid(key, "uint32", "-5678", None)]);
    PointerField(key, ty.elem, src);
  }

  lemma Uint16Native(key: string, ty: FieldType, src: Source, v: Value)
    requires ty == TUnsigned(Uint16) && src == SInt(9012) && v == VUint(9012)
    ensures DecodeValue(key, ty, src) == Outcome(v, [])
  {
  }

  lemma Uint16Text(key: string, ty: FieldType, src: Source, v: Value)
    requires ty == TUnsigned(Uint16) && src == SString("9012") && v == VUint(9012)
    ensures DecodeValue(key, ty, src) == Outcome(v, [])
  {
    Digits9012();
    UnsignedText(key, Uint16, 9012);
  }

  lemma Uint16Bad(key: string, ty: FieldType, src: Source, errs: seq<FieldError>)
    requires ty == TUnsigned(Uint16) && src == SString("-9012") && errs == [Invalid(key, "uint16", "-9012", None)]
    ensures DecodeValue(key, ty, src).errors == errs
  {
    UnsignedRejectsMinus(key, Uint16, src.s);
  }

  lemma Uint16PtrNative(key: string, ty: FieldType, src: Source, v: Value)
    requires ty == TPtr(TUnsigned(Uint16)) && src == SPtr(SInt(9012)) && v == VPtr(VUint(9012))
    ensures DecodeValue(key, ty, src) == Outcome(v, [])
  {
    Uint16Native(key, ty.elem, src.target, v.target);
    PointerSource(key, ty.elem, src.target);
    PointerField(key, ty.elem, src);
  }

  lemma Uint16PtrText(key: string, ty: FieldType, src: Source, v: Value)
    requires ty == TPtr(TUnsigned(Uint16)) && src == SString("9012") && v == VPtr(VUint(9012))
    ensures DecodeValue(key, ty, src) == Outcome(v, [])
  {
    Uint16Text(key, ty.elem, src, v.target);
    PointerField(key, ty.elem, src);
  }

  lemma Uint16PtrBad(key: string, ty: FieldType, src: Source, errs: seq<FieldError>)
    requires ty == TPtr(TUnsigned(Uint16)) && src == SString("-9012") && errs == [Invalid(key, "uint16", "-9012", None)]
    ensures DecodeValue(key, ty, src).errors == errs
  {
    Uint16Bad(key, ty.elem, src, [Invalid(key, "uint16", "-9012", None)]);
    PointerField(key, ty.elem, src);
  }

  lemma ByteNative(key: string, ty: FieldType, src: Source, v: Value)
    requires ty == TUnsigned(Uint8) && src == SInt(255) && v == VUint(255)
    ensures DecodeValue(key, ty, src) == Outcome(v, [])
  {
  }

  lemma ByteText(key: string, ty: FieldType, src: Source, v: Value)
    requires ty == TUnsigned(Uint8) && src == SString("255") && v == VUint(255)
    ensures DecodeValue(key, ty, src) == Outcome(v, [])
  {
    Digits255();
    UnsignedText(key, Uint8, 255);
  }

  lemma ByteBad(key: string, ty: FieldType, src: Source, errs: seq<FieldError>)
    requires ty == TUnsigned(Uint8) && src == SString("-1") && errs == [Invalid(key, "uint8", "-1", None)]
    ensures DecodeValue(key, ty, src).errors == errs
  {
    UnsignedRejectsMinus(key, Uint8, src.s);
  }

  lemma BytePtrNative(key: string, ty: FieldType, src: Source, v: Value)
    requires ty == TPtr(TUnsigned(Uint8)) && src == SPtr(SInt(255)) && v == VPtr(VUint(255))
    ensures DecodeValue(key, ty, src) == Outcome(v, [])
  {
    ByteNative(key, ty.elem, src.target, v.target);
    PointerSource(key, ty.elem, src.target);
    PointerField(key, ty.elem, src);
  }

  lemma BytePtrText(key: string, ty: FieldType, src: Source, v: Value)
    requires ty == TPtr(TUnsigned(Uint8)) && src == SString("255") && v == VPtr(VUint(255))
    ensures DecodeValue(key, ty, src) == Outcome(v, [])
  {
    ByteText(key, ty.elem, src, v.target);
    PointerField(key, ty.elem, src);
  }

  lemma BytePtrBad(key: string, ty: FieldType, src: Source, errs: seq<FieldError>)
    requires ty == TPtr(TUnsigned(Uint8)) && src == SString("-1") && errs == [Invalid(key, "uint8", "-1", None)]
    ensures DecodeValue(key, ty, src).errors == errs
  {
    ByteBad(key, ty.elem, src, [Invalid(key, "uint8", "-1", None)]);
    PointerField(key, ty.elem, src);
  }

  lemma Float64Native(key: string, ty: FieldType, src: Source, v: Value)
    requires ty == TFloat(Float64) && src == SFloat("1234.5") && v == VFloat("1234.5")
    ensures DecodeValue(key, ty, src) == Outcome(v, [])
  {
  }

  lemma Float64Text(key: string, ty: FieldType, src: Source, v: Value)
    requires ty == TFloat(Float64) && src == SString("1234.5") && v == VFloat("1234.5")
    ensures DecodeValue(key, ty, src) == Outcome(v, [])
  {
    FloatText(src.s);
  }

  lemma Float64Bad(key: string, ty: FieldType, src: Source, errs: seq<FieldError>)
    requires ty == TFloat(Float64) && src == SString("badval.5") && errs == [Invalid(key, "float64", "badval.5", None)]
    ensures DecodeValue(key, ty, src).errors == errs
  {
    FloatRejectsWord(src.s);
  }

  lemma Float64PtrNative(key: string, ty: FieldType, src: Source, v: Value)
    requires ty == TPtr(TFloat(Float64)) && src == SPtr(SFloat("1234.5")) && v == VPtr(VFloat("1234.5"))
    ensures DecodeValue(key, ty, src) == Outcome(v, [])
  {
    Float64Native(key, ty.elem, src.target, v.target);
    PointerSource(key, ty.elem, src.target);
    PointerField(key, ty.elem, src);
  }

  lemma Float64PtrText(key: string, ty: FieldType, src: Source, v: Value)
    requires ty == TPtr(TFloat(Float64)) && src == SString("1234.5") && v == VPtr(VFloat("1234.5"))
    ensures DecodeValue(key, ty, src) == Outcome(v, [])
  {
    Float64Text(key, ty.elem, src, v.target);
    PointerField(key, ty.elem, src);
  }

  lemma Float64PtrBad(key: string, ty: FieldType, src: Source, errs: seq<FieldError>)
    requires ty == TPtr(TFloat(Float64)) && src == SString("badval.5") && errs == [Invalid(key, "float64", "badval.5", None)]
    ensures DecodeValue(key, ty, src).errors == errs
  {
    Float64Bad(key, ty.elem, src, [Invalid(key, "float64", "badval.5", None)]);
    PointerField(key, ty.elem, src);
  }

  lemma Float32Native(key: string, ty: FieldType, src: Source, v: Value)
    requires ty == TFloat(Float32) && src == SFloat("6789.5") && v == VFloat("6789.5")
    ensures DecodeValue(key, ty, src) == Outcome(v, [])
  {
  }

  lemma Float32Text(key: string, ty: FieldType, src: Source, v: Value)
    requires ty == TFloat(Float32) && src == SString("6789.5") && v == VFloat("6789.5")
    ensures DecodeValue(key, ty, src) == Outcome(v, [])
  {
    FloatText(src.s);
  }

  lemma Float32Bad(key: string, ty: FieldType, src: Source, errs: seq<FieldError>)
    requires ty == TFloat(Float32) && src == SString("badval.5") && errs == [Invalid(key, "float32", "badval.5", None)]
    ensures DecodeValue(key, ty, src).errors == errs
  {
    FloatRejectsWord(src.s);
  }

  lemma Float32PtrNative(key: string, ty: FieldType, src: Source, v: Value)
    requires ty == TPtr(TFloat(Float32)) && src == SPtr(SFloat("6789.5")) && v == VPtr(VFloat("6789.5"))
    ensures DecodeValue(key, ty, src) == Outcome(v, [])
  {
    Float32Native(key, ty.elem, src.target, v.target);
    PointerSource(key, ty.elem, src.target);
    PointerField(key, ty.elem, src);
  }

  lemma Float32PtrText(key: string, ty: FieldType, src: Source, v: Value)
    requires ty == TPtr(TFloat(Float32)) && src == SString("6789.5") && v == VPtr(VFloat("6789.5"))
    ensures DecodeValue(key, ty, src) == Outcome(v, [])
  {
    Float32Text(key, ty.elem, src, v.target);
    PointerField(key, ty.elem, src);
  }

  lemma Float32PtrBad(key: string, ty: FieldType, src: Source, errs: seq<FieldError>)
    requires ty == TPtr(TFloat(Float32)) && src == SString("badval.5") && errs == [Invalid(key, "float32", "badval.5", None)]
    ensures DecodeValue(key, ty, src).errors == errs
  {
    Float32Bad(key, ty.elem, src, [Invalid(key, "float32", "badval.5", None)]);
    PointerField(key, ty.elem, src);
  }

  lemma BoolNative(key: string, ty: FieldType, src: Source, v: Value)
    requires ty == TBool && src == SBool(true) && v == VBool(true)
    ensures DecodeValue(key, ty, src) == Outcome(v, [])
  {
  }

  lemma BoolText(key: string, ty: FieldType, src: Source, v: Value)
    requires ty == TBool && src == SString("true") && v == VBool(true)
    ensures DecodeValue(key, ty, src) == Outcome(v, [])
  {
  }

  lemma BoolBad(key: string, ty: FieldType, src: Source, errs: seq<FieldError>)
    requires ty == TBool && src == SString("badval") && errs == [Invalid(key, "bool", "badval", None)]
    ensures DecodeValue(key, ty, src).errors == errs
  {
  }

  lemma BoolPtrNative(key: string, ty: FieldType, src: Source, v: Value)
    requires ty == TPtr(TBool) && src == SPtr(SBool(true)) && v == VPtr(VBool(true))
    ensures DecodeValue(key, ty, src) == Outcome(v, [])
  {
    BoolNative(key, ty.elem, src.target, v.target);
    PointerSource(key, ty.elem, src.target);
    PointerField(key, ty.elem, src);
  }

  lemma BoolPtrText(key: string, ty: FieldType, src: Source, v: Value)
    requires ty == TPtr(TBool) && src == SString("true") && v == VPtr(VBool(true))
    ensures DecodeValue(key, ty, src) == Outcome(v, [])
  {
    BoolText(key, ty.elem, src, v.target);
    PointerField(key, ty.elem, src);
  }

  lemma BoolPtrBad(key: string, ty: FieldType, src: Source, errs: seq<FieldError>)
    requires ty == TPtr(TBool) && src == SString("badval") && errs == [Invalid(key, "bool", "badval", None)]
    ensures DecodeValue(key, ty, src).errors == errs
  {
    BoolBad(key, ty.elem, src, [Invalid(key, "bool", "badval", None)]);
    PointerField(key, ty.elem, src);
  }

  lemma DurationNative(key: string, ty: FieldType, src: Source, v: Value)
    requires ty == TDuration && src == SDuration(FiveSeconds) && v == VDuration(FiveSeconds)
    ensures DecodeValue(key, ty, src) == Outcome(v, [])
  {
  }

  lemma DurationText(key: string, ty: FieldType, src: Source, v: Value)
    requires ty == TDuration && src == SString("5000") && v == VDuration(FiveSeconds)
    ensures DecodeValue(key, ty, src) == Outcome(v, [])
  {
    Durations.FiveSeconds(src.s, "5s");
  }

  lemma DurationBad(key: string, ty: FieldType, src: Source, errs: seq<FieldError>)
    requires ty == TDuration && src == SString("badval") && errs == [Invalid(key, "duration", "badval", None)]
    ensures DecodeValue(key, ty, src).errors == errs
  {
    Durations.RejectsLetters(src.s);
  }

  lemma DurationPtrNative(key: string, ty: FieldType, src: Source, v: Value)
    requires ty == TPtr(TDuration) && src == SPtr(SDuration(FiveSeconds)) && v == VPtr(VDuration(FiveSeconds))
    ensures DecodeValue(key, ty, src) == Outcome(v, [])
  {
    DurationNative(key, ty.elem, src.target, v.target);
    PointerSource(key, ty.elem, src.target);
    PointerField(key, ty.elem, src);
  }

  lemma DurationPtrElemText(key: string, ty: FieldType, src: Source, v: Value)
    requires ty == TDuration && src == SString("5s") && v == VDuration(FiveSeconds)
    ensures DecodeValue(key, ty, src) == Outcome(v, [])
  {
    Durations.FiveSeconds("5000", src.s);
    ScalarField(key, ty, src);
  }

  lemma DurationPtrText(key: string, ty: FieldType, src: Source, v: Value)
    requires ty == TPtr(TDuration) && src == SString("5s") && v == VPtr(VDuration(FiveSeconds))
    ensures DecodeValue(key, ty, src) == Outcome(v, [])
  {
    DurationPtrElemText(key, ty.elem, src, v.target);
    PointerField(key, ty.elem, src);
  }

  lemma DurationPtrBad(key: string, ty: FieldType, src: Source, errs: seq<FieldError>)
    requires ty == TPtr(TDuration) && src == SString("badval") && errs == [Invalid(key, "duration", "badval", None)]
    ensures DecodeValue(key, ty, src).errors == errs
  {
    DurationBad(key, ty.elem, src, [Invalid(key, "duration", "badval", None)]);
    PointerField(key, ty.elem, src);
  }

  lemma TimeNative(key: string, ty: FieldType, src: Source, v: Value)
    requires ty == TTime && src == STime(ReferenceTime) && v == VTime(ReferenceTime)
    ensures DecodeValue(key, ty, src) == Outcome(v, [])
  {
  }

  lemma TimeText(key: string, ty: FieldType, src: Source, v: Value)
    requires ty == TTime && src == SString(ReferenceText) && v == VTime(ReferenceTime)
    ensures DecodeValue(key, ty, src) == Outcome(v, [])
  {
    Rfc3339.ParseReferenceTime(src.s);
    TimeField(key, src.s);
  }

  lemma TimeBad(key: string, ty: FieldType, src: Source, errs: seq<FieldError>)
    requires ty == TTime && src == SString("badval") && errs == [Invalid(key, "time", "badval", None)]
    ensures DecodeValue(key, ty, src).errors == errs
  {
  }

  lemma TimePtrNative(key: string, ty: FieldType, src: Source, v: Value)
    requires ty == TPtr(TTime) && src == SPtr(STime(ReferenceTime)) && v == VPtr(VTime(ReferenceTime))
    ensures DecodeValue(key, ty, src) == Outcome(v, [])
  {
    TimeNative(key, ty.elem, src.target, v.target);
    PointerSource(key, ty.elem, src.target);
    PointerField(key, ty.elem, src);
  }

  lemma TimePtrText(key: string, ty: FieldType, src: Source, v: Value)
    requires ty == TPtr(TTime) && src == SString(ReferenceText) && v == VPtr(VTime(ReferenceTime))
    ensures DecodeValue(key, ty, src) == Outcome(v, [])
  {
    TimeText(key, ty.elem, src, v.target);
    PointerField(key, ty.elem, src);
  }

  lemma TimePtrBad(key: string, ty: FieldType, src: Source, errs: seq<FieldError>)
    requires ty == TPtr(TTime) && src == SString("badval") && errs == [Invalid(key, "time", "badval", None)]
    ensures DecodeValue(key, ty, src).errors == errs
  {
    TimeBad(key, ty.elem, src, [Invalid(key, "time", "badval", None)]);
    PointerField(key, ty.elem, src);
  }

  lemma StringNative(key: string, ty: FieldType, src: Source, v: Value)
    requires ty == TString && src == SInt(1234) && v == VString("1234")
    ensures DecodeValue(key, ty, src) == Outcome(v, [])
  {
    Digits1234();
    StringAcceptsScalars(key, src);
  }

  lemma StringText(key: string, ty: FieldType, src: Source, v: Value)
    requires ty == TString && src == SString("1234") && v == VString("1234")
    ensures DecodeValue(key, ty, src) == Outcome(v, [])
  {
    StringAcceptsScalars(key, src);
  }

  lemma StringBad(key: string, ty: FieldType, src: Source, errs: seq<FieldError>)
    requires ty == TString && src == SInt(1234) && errs == []
    ensures DecodeValue(key, ty, src).errors == errs
  {
    StringAcceptsScalars(key, src);
  }

  lemma StringPtrElemNative(key: string, ty: FieldType, src: Source, v: Value)
    requires ty == TString && src == SPtr(SString("1234")) && v == VString("1234")
    ensures DecodeValue(key, ty, src) == Outcome(v, [])
  {
    Digits1234();
    StringAcceptsScalars(key, src);
  }

  lemma StringPtrNative(key: string, ty: FieldType, src: Source, v: Value)
    requires ty == TPtr(TString) && src == SPtr(SString("1234")) && v == VPtr(VString("1234"))
    ensures DecodeValue(key, ty, src) == Outcome(v, [])
  {
    StringPtrElemNative(key, ty.elem, src, v.target);
    PointerField(key, ty.elem, src);
  }

  lemma StringPtrText(key: string, ty: FieldType, src: Source, v: Value)
    requires ty == TPtr(TString) && src == SString("1234") && v == VPtr(VString("1234"))
    ensures DecodeValue(key, ty, src) == Outcome(v, [])
  {
    StringText(key, ty.elem, src, v.target);
    PointerField(key, ty.elem, src);
  }

  lemma StringPtrBad(key: string, ty: FieldType, src: Source, errs: seq<FieldError>)
    requires ty == TPtr(TString) && src == SInt(1234) && errs == []
    ensures DecodeValue(key, ty, src).errors == errs
  {
    StringBad(key, ty.elem, src, errs);
    PointerField(key, ty.elem, src);
  }

  lemma DecodedNative(key: string, ty: FieldType, src: Source, v: Value)
    requires ty == TDecoded && src == SString("unlimited") && v == VDecoded(-1)
    ensures DecodeValue(key, ty, src) == Outcome(v, [])
  {
    SelfDecoding.DecodeUnlimited();
  }

  lemma DecodedText(key: string, ty: FieldType, src: Source, v: Value)
    requires ty == TDecoded && src == SString("unlimited") && v == VDecoded(-1)
    ensures DecodeValue(key, ty, src) == Outcome(v, [])
  {
    SelfDecoding.DecodeUnlimited();
  }

  lemma DecodedBad(key: string, ty: FieldType, src: Source, errs: seq<FieldError>)
    requires ty == TDecoded && src == SString("badval") && errs == [Invalid(key, "Decoded", "badval", Some(Syntax))]
    ensures DecodeValue(key, ty, src).errors == errs
  {
    var t := src.s;
    assert t != SelfDecoding.Unlimited by {
      assert |t| == 6;
    }
    assert !IsDigit(SplitSign(t).body[0]);
    SelfDecoding.DecodeRejectsWord(t);
    DecodedField(key, t);
  }

  lemma DecodedPtrNative(key: string, ty: FieldType, src: Source, v: Value)
    requires ty == TPtr(TDecoded) && src == SString("unlimited") && v == VPtr(VDecoded(-1))
    ensures DecodeValue(key, ty, src) == Outcome(v, [])
  {
    DecodedNative(key, ty.elem, src, v.target);
    PointerField(key, ty.elem, src);
  }

  lemma DecodedPtrText(key: string, ty: FieldType, src: Source, v: Value)
    requires ty == TPtr(TDecoded) && src == SString("unlimited") && v == VPtr(VDecoded(-1))
    ensures DecodeValue(key, ty, src) == Outcome(v, [])
  {
    DecodedText(key, ty.elem, src, v.target);
    PointerField(key, ty.elem, src);
  }

  lemma DecodedPtrBad(key: string, ty: FieldType, src: Source, errs: seq<FieldError>)
    requires ty == TPtr(TDecoded) && src == SString("badval") && errs == [Invalid(key, "Decoded", "badval", Some(Syntax))]
    ensures DecodeValue(key, ty, src).errors == errs
  {
    DecodedBad(key, ty.elem, src, [Invalid(key, "Decoded", "badval", Some(Syntax))]);
    PointerField(key, ty.elem, src);
  }

  lemma NestedNative(key: string, ty: FieldType, src: Source, v: Value)
    requires ty == TNested(NestedTable) && src == SMap(NestedNumbers) && v == VStruct(NestedExpected)
    ensures DecodeValue(key, ty, src) == Outcome(v, [])
  {
    NestedFromNumbers(ty.fields, src.entries, [VInt(1234), VString("5678")]);
  }

  lemma NestedText(key: string, ty: FieldType, src: Source, v: Value)
    requires ty == TNested(NestedTable) && src == SMap(NestedTexts) && v == VStruct(NestedExpected)
    ensures DecodeValue(key, ty, src) == Outcome(v, [])
  {
    NestedFromTexts(ty.fields, src.entries, [VInt(1234), VString("5678")]);
  }

  lemma NestedPtrNative(key: string, ty: FieldType, src: Source, v: Value)
    requires ty == TPtr(TNested(NestedTable)) && src == SMap(NestedNumbers) && v == VPtr(VStruct(NestedExpected))
    ensures DecodeValue(key, ty, src) == Outcome(v, [])
  {
    NestedNative(key, ty.elem, src, v.target);
    PointerField(key, ty.elem, src);
  }

  lemma NestedPtrText(key: string, ty: FieldType, src: Source, v: Value)
    requires ty == TPtr(TNested(NestedTable)) && src == SMap(NestedTexts) && v == VPtr(VStruct(NestedExpected))
    ensures DecodeValue(key, ty, src) == Outcome(v, [])
  {
    NestedText(key, ty.elem, src, v.target);
    PointerField(key, ty.elem, src);
  }

  // ------------------------------------------------------------------- rows

  lemma NativeLow(key: string, i: nat)
    requires i < 18
    ensures DecodeValue(key, TypeAt(i), NativeAt(i)) == Outcome(ExpectedAt(i), [])
  {
    if i == 0 { IntNative(key, TypeAt(i), NativeAt(i), ExpectedAt(i)); }
    else if i == 1 { IntPtrNative(key, TypeAt(i), NativeAt(i), ExpectedAt(i)); }
    else if i == 2 { Int64Native(key, TypeAt(i), NativeAt(i), ExpectedAt(i)); }
    else if i == 3 { Int64PtrNative(key, TypeAt(i), NativeAt(i), ExpectedAt(i)); }
    else if i == 4 { Int32Native(key, TypeAt(i), NativeAt(i), ExpectedAt(i)); }
    else if i == 5 { Int32PtrNative(key, TypeAt(i), NativeAt(i), ExpectedAt(i)); }
    else if i == 6 { Int16Native(key, TypeAt(i), NativeAt(i), ExpectedAt(i)); }
    else if i == 7 { Int16PtrNative(key, TypeAt(i), NativeAt(i), ExpectedAt(i)); }
    else if i == 8 { Int8Native(key, TypeAt(i), NativeAt(i), ExpectedAt(i)); }
    else if i == 9 { Int8PtrNative(key, TypeAt(i), NativeAt(i), ExpectedAt(i)); }
    else if i == 10 { UintNative(key, TypeAt(i), NativeAt(i), ExpectedAt(i)); }
    else if i == 11 { UintPtrNative(key, TypeAt(i), NativeAt(i), ExpectedAt(i)); }
    else if i == 12 { Uint64Native(key, TypeAt(i), NativeAt(i), ExpectedAt(i)); }
    else if i == 13 { Uint64PtrNative(key, TypeAt(i), NativeAt(i), ExpectedAt(i)); }
    else if i == 14 { Uint32Native(key, TypeAt(i), NativeAt(i), ExpectedAt(i)); }
    else if i == 15 { Uint32PtrNative(key, TypeAt(i), NativeAt(i), ExpectedAt(i)); }
    else if i == 16 { Uint16Native(key, TypeAt(i), NativeAt(i), ExpectedAt(i)); }
    else { Uint16PtrNative(key, TypeAt(i), NativeAt(i), ExpectedAt(i)); }
  }

  lemma NativeHigh(key: string, i: nat)
    requires 18 <= i < FieldCount
    ensures DecodeValue(key, TypeAt(i), NativeAt(i)) == Outcome(ExpectedAt(i), [])
  {
    if i == 18 { ByteNative(key, TypeAt(i), NativeAt(i), ExpectedAt(i)); }
    else if i == 19 { BytePtrNative(key, TypeAt(i), NativeAt(i), ExpectedAt(i)); }
    else if i == 20 { Float64Native(key, TypeAt(i), NativeAt(i), ExpectedAt(i)); }
    else if i == 21 { Float64PtrNative(key, TypeAt(i), NativeAt(i), ExpectedAt(i)); }
    else if i == 22 { Float32Native(key, TypeAt(i), NativeAt(i), ExpectedAt(i)); }
    else if i == 23 { Float32PtrNative(key, TypeAt(i), NativeAt(i), ExpectedAt(i)); }
    else if i == 24 { BoolNative(key, TypeAt(i), NativeAt(i), ExpectedAt(i)); }
    else if i == 25 { BoolPtrNative(key, TypeAt(i), NativeAt(i), ExpectedAt(i)); }
    else if i == 26 { DurationNative(key, TypeAt(i), NativeAt(i), ExpectedAt(i)); }
    else if i == 27 { DurationPtrNative(key, TypeAt(i), NativeAt(i), ExpectedAt(i)); }
    else if i == 28 { TimeNative(key, TypeAt(i), NativeAt(i), ExpectedAt(i)); }
    else if i == 29 { TimePtrNative(key, TypeAt(i), NativeAt(i), ExpectedAt(i)); }
    else if i == 30 { StringNative(key, TypeAt(i), NativeAt(i), ExpectedAt(i)); }
    else if i == 31 { StringPtrNative(key, TypeAt(i), NativeAt(i), ExpectedAt(i)); }
    else if i == 32 { DecodedNative(key, TypeAt(i), NativeAt(i), ExpectedAt(i)); }
    else if i == 33 { DecodedPtrNative(key, TypeAt(i), NativeAt(i), ExpectedAt(i)); }
    else if i == 34 { NestedNative(key, TypeAt(i), NativeAt(i), ExpectedAt(i)); }
    else { NestedPtrNative(key, TypeAt(i), NativeAt(i), ExpectedAt(i)); }
  }

  lemma TextLow(key: string, i: nat)
    requires i < 18
    ensures DecodeValue(key, TypeAt(i), TextAt(i)) == Outcome(ExpectedAt(i), [])
  {
    if i == 0 { IntText(key, TypeAt(i), TextAt(i), ExpectedAt(i)); }
    else if i == 1 { IntPtrText(key, TypeAt(i), TextAt(i), ExpectedAt(i)); }
    else if i == 2 { Int64Text(key, TypeAt(i), TextAt(i), ExpectedAt(i)); }
    else if i == 3 { Int64PtrText(key, TypeAt(i), TextAt(i), ExpectedAt(i)); }
    else if i == 4 { Int32Text(key, TypeAt(i), TextAt(i), ExpectedAt(i)); }
    else if i == 5 { Int32PtrText(key, TypeAt(i), TextAt(i), ExpectedAt(i)); }
    else if i == 6 { Int16Text(key, TypeAt(i), TextAt(i), ExpectedAt(i)); }
    else if i == 7 { Int16PtrText(key, TypeAt(i), TextAt(i), ExpectedAt(i)); }
    else if i == 8 { Int8Text(key, TypeAt(i), TextAt(i), ExpectedAt(i)); }
    else if i == 9 { Int8PtrText(key, TypeAt(i), TextAt(i), ExpectedAt(i)); }
    else if i == 10 { UintText(key, TypeAt(i), TextAt(i), ExpectedAt(i)); }
    else if i == 11 { UintPtrText(key, TypeAt(i), TextAt(i), ExpectedAt(i)); }
    else if i == 12 { Uint64Text(key, TypeAt(i), TextAt(i), ExpectedAt(i)); }
    else if i == 13 { Uint64PtrText(key, TypeAt(i), TextAt(i), ExpectedAt(i)); }
    else if i == 14 { Uint32Text(key, TypeAt(i), TextAt(i), ExpectedAt(i)); }
    else if i == 15 { Uint32PtrText(key, TypeAt(i), TextAt(i), ExpectedAt(i)); }
    else if i == 16 { Uint16Text(key, TypeAt(i), TextAt(i), ExpectedAt(i)); }
    else { Uint16PtrText(key, TypeAt(i), TextAt(i), ExpectedAt(i)); }
  }

  lemma TextHigh(key: string, i: nat)
    requires 18 <= i < FieldCount
    ensures DecodeValue(key, TypeAt(i), TextAt(i)) == Outcome(ExpectedAt(i), [])
  {
    if i == 18 { ByteText(key, TypeAt(i), TextAt(i), ExpectedAt(i)); }
    else if i == 19 { BytePtrText(key, TypeAt(i), TextAt(i), ExpectedAt(i)); }
    else if i == 20 { Float64Text(key, TypeAt(i), TextAt(i), ExpectedAt(i)); }
    else if i == 21 { Float64PtrText(key, TypeAt(i), TextAt(i), ExpectedAt(i)); }
    else if i == 22 { Float32Text(key, TypeAt(i), TextAt(i), ExpectedAt(i)); }
    else if i == 23 { Float32PtrText(key, TypeAt(i), TextAt(i), ExpectedAt(i)); }
    else if i == 24 { BoolText(key, TypeAt(i), TextAt(i), ExpectedAt(i)); }
    else if i == 25 { BoolPtrText(key, TypeAt(i), TextAt(i), ExpectedAt(i)); }
    else if i == 26 { DurationText(key, TypeAt(i), TextAt(i), ExpectedAt(i)); }
    else if i == 27 { DurationPtrText(key, TypeAt(i), TextAt(i), ExpectedAt(i)); }
    else if i == 28 { TimeText(key, TypeAt(i), TextAt(i), ExpectedAt(i)); }
    else if i == 29 { TimePtrText(key, TypeAt(i), TextAt(i), ExpectedAt(i)); }
    else if i == 30 { StringText(key, TypeAt(i), TextAt(i), ExpectedAt(i)); }
    else if i == 31 { StringPtrText(key, TypeAt(i), TextAt(i), ExpectedAt(i)); }
    else if i == 32 { DecodedText(key, TypeAt(i), TextAt(i), ExpectedAt(i)); }
    else if i == 33 { DecodedPtrText(key, TypeAt(i), TextAt(i), ExpectedAt(i)); }
    else if i == 34 { NestedText(key, TypeAt(i), TextAt(i), ExpectedAt(i)); }
    else { NestedPtrText(key, TypeAt(i), TextAt(i), ExpectedAt(i)); }
  }

  lemma BadA(key: string, i: nat)
    requires i < 9
    ensures BadAt(i).Some? && DecodeValue(key, TypeAt(i), BadAt(i).value).errors == ErrorsFor(key, i)
    ensures IsLeaf(TypeAt(i)) && (FailureAt(i).Some? ==> FailureAt(i).value.typeName == TypeName(TypeAt(i)))
  {
    if i == 0 { IntBad(key, TypeAt(i), BadAt(i).value, ErrorsFor(key, i)); }
    else if i == 1 { IntPtrBad(key, TypeAt(i), BadAt(i).value, ErrorsFor(key, i)); }
    else if i == 2 { Int64Bad(key, TypeAt(i), BadAt(i).value, ErrorsFor(key, i)); }
    else if i == 3 { Int64PtrBad(key, TypeAt(i), BadAt(i).value, ErrorsFor(key, i)); }
    else if i == 4 { Int32Bad(key, TypeAt(i), BadAt(i).value, ErrorsFor(key, i)); }
    else if i == 5 { Int32PtrBad(key, TypeAt(i), BadAt(i).value, ErrorsFor(key, i)); }
    else if i == 6 { Int16Bad(key, TypeAt(i), BadAt(i).value, ErrorsFor(key, i)); }
    else if i == 7 { Int16PtrBad(key, TypeAt(i), BadAt(i).value, ErrorsFor(key, i)); }
    else { Int8Bad(key, TypeAt(i), BadAt(i).value, ErrorsFor(key, i)); }
  }

  lemma BadB(key: string, i: nat)
    requires 9 <= i < 18
    ensures BadAt(i).Some? && DecodeValue(key, TypeAt(i), BadAt(i).value).errors == ErrorsFor(key, i)
    ensures IsLeaf(TypeAt(i)) && (FailureAt(i).Some? ==> FailureAt(i).value.typeName == TypeName(TypeAt(i)))
  {
    if i == 9 { Int8PtrBad(key, TypeAt(i), BadAt(i).value, ErrorsFor(key, i)); }
    else if i == 10 { UintBad(key, TypeAt(i), BadAt(i).value, ErrorsFor(key, i)); }
    else if i == 11 { UintPtrBad(key, TypeAt(i), BadAt(i).value, ErrorsFor(key, i)); }
    else if i == 12 { Uint64Bad(key, TypeAt(i), BadAt(i).value, ErrorsFor(key, i)); }
    else if i == 13 { Uint64PtrBad(key, TypeAt(i), BadAt(i).value, ErrorsFor(key, i)); }
    else if i == 14 { Uint32Bad(key, TypeAt(i), BadAt(i).value, ErrorsFor(key, i)); }
    else if i == 15 { Uint32PtrBad(key, TypeAt(i), BadAt(i).value, ErrorsFor(key, i)); }
    else if i == 16 { Uint16Bad(key, TypeAt(i), BadAt(i).value, ErrorsFor(key, i)); }
    else { Uint16PtrBad(key, TypeAt(i), BadAt(i).value, ErrorsFor(key, i)); }
  }

  lemma BadC(key: string, i: nat)
    requires 18 <= i < 26
    ensures BadAt(i).Some? && DecodeValue(key, TypeAt(i), BadAt(i).value).errors == ErrorsFor(key, i)
    ensures IsLeaf(TypeAt(i)) && (FailureAt(i).Some? ==> FailureAt(i).value.typeName == TypeName(TypeAt(i)))
  {
    if i == 18 { ByteBad(key, TypeAt(i), BadAt(i).value, ErrorsFor(key, i)); }
    else if i == 19 { BytePtrBad(key, TypeAt(i), BadAt(i).value, ErrorsFor(key, i)); }
    else if i == 20 { Float64Bad(key, TypeAt(i), BadAt(i).value, ErrorsFor(key, i)); }
    else if i == 21 { Float64PtrBad(key, TypeAt(i), BadAt(i).value, ErrorsFor(key, i)); }
    else if i == 22 { Float32Bad(key, TypeAt(i), BadAt(i).value, ErrorsFor(key, i)); }
    else if i == 23 { Float32PtrBad(key, TypeAt(i), BadAt(i).value, ErrorsFor(key, i)); }
    else if i == 24 { BoolBad(key, TypeAt(i), BadAt(i).value, ErrorsFor(key, i)); }
    else { BoolPtrBad(key, TypeAt(i), BadAt(i).value, ErrorsFor(key, i)); }
  }

  lemma BadD(key: string, i: nat)
    requires 26 <= i < 34
    ensures BadAt(i).Some? && DecodeValue(key, TypeAt(i), BadAt(i).value).errors == ErrorsFor(key, i)
    ensures IsLeaf(TypeAt(i)) && (FailureAt(i).Some? ==> FailureAt(i).value.typeName == TypeName(TypeAt(i)))
  {
    if i == 26 { DurationBad(key, TypeAt(i), BadAt(i).value, ErrorsFor(key, i)); }
    else if i == 27 { DurationPtrBad(key, TypeAt(i), BadAt(i).value, ErrorsFor(key, i)); }
    else if i == 28 { TimeBad(key, TypeAt(i), BadAt(i).value, ErrorsFor(key, i)); }
    else if i == 29 { TimePtrBad(key, TypeAt(i), BadAt(i).value, ErrorsFor(key, i)); }
    else if i == 30 { StringBad(key, TypeAt(i), BadAt(i).value, ErrorsFor(key, i)); }
    else if i == 31 { StringPtrBad(key, TypeAt(i), BadAt(i).value, ErrorsFor(key, i)); }
    else if i == 32 { DecodedBad(key, TypeAt(i), BadAt(i).value, ErrorsFor(key, i)); }
    else { DecodedPtrBad(key, TypeAt(i), BadAt(i).value, ErrorsFor(key, i)); }
  }

  lemma NativeRow(key: string, i: nat)
    requires i < FieldCount
    ensures DecodeValue(key, TypeAt(i), NativeAt(i)) == Outcome(ExpectedAt(i), [])
  {
    if i < 18 { NativeLow(key, i); } else { NativeHigh(key, i); }
  }

  lemma TextRow(key: string, i: nat)
    requires i < FieldCount
    ensures DecodeValue(key, TypeAt(i), TextAt(i)) == Outcome(ExpectedAt(i), [])
  {
    if i < 18 { TextLow(key, i); } else { TextHigh(key, i); }
  }

  /**
   * Field i of the bad input: a field with a bad value gives exactly its
   * expected entries, naming the field's underlying type; a field absent
   * from the bad input (the nested ones) expects none.
   */
  lemma BadRow(key: string, i: nat)
    requires i < FieldCount
    ensures BadAt(i).Some? ==> DecodeValue(key, TypeAt(i), BadAt(i).value).errors == ErrorsFor(key, i)
    ensures BadAt(i).Some? ==> IsLeaf(TypeAt(i))
    ensures BadAt(i).None? ==> FailureAt(i).None?
    ensures FailureAt(i).Some? ==> FailureAt(i).value.typeName == TypeName(TypeAt(i))
  {
    if i < 18 {
      if i < 9 { BadA(key, i); } else { BadB(key, i); }
    } else if i < 34 {
      if i < 26 { BadC(key, i); } else { BadD(key, i); }
    } else {
      NestedAbsent(i);
    }
  }

  /** The two nested fields have no entry in the bad input and expect no error. */
  lemma NestedAbsent(i: nat)
    requires 34 <= i < FieldCount
    ensures BadAt(i).None? && FailureAt(i).None?
  {
    if i == 34 {
    } else {
      assert i == 35;
    }
  }

  // --------------------------------------------------------------- assembly

  lemma TableKeys(ks: seq<string>)
    requires |ks| == FieldCount
    ensures Keys(TableOf(ks)) == ks
  {
    assert forall i | 0 <= i < FieldCount :: Keys(TableOf(ks))[i] == ks[i];
  }

  /** A table whose every field decodes, without error, to its expected value. */
  lemma AllExpected(ks: seq<string>, srcs: seq<Option<Source>>)
    requires GoodKeys(ks) && |srcs| == FieldCount
    requires forall i | 0 <= i < FieldCount ::
      srcs[i].Some? && DecodeValue(ks[i], TypeAt(i), srcs[i].value) == Outcome(ExpectedAt(i), [])
    ensures DecodeInput(TableOf(ks), SMap(MapOf(ks, srcs))) == StructOutcome(Build(TableOf(ks), ExpectedValues), [])
  {
    var fs, m := TableOf(ks), MapOf(ks, srcs);
    var es: seq<seq<FieldError>> := seq(FieldCount, i => []);
    forall i | 0 <= i < FieldCount ensures DecodeField(fs[i], m) == Outcome(ExpectedValues[i], es[i]) {
      MapOfLookup(ks, srcs, i);
    }
    DecodeByRows(fs, m, ExpectedValues, es);
    FlattenEmpty(es);
  }

  /**
   * The two good inputs (native values, and their text) decode to the same
   * expected structure, field by field, without error.
   */
  lemma GoodInputsDecode(ks: seq<string>)
    requires GoodKeys(ks)
    ensures DecodeInput(TableOf(ks), SMap(NativeInput(ks))) == StructOutcome(Build(TableOf(ks), ExpectedValues), [])
    ensures DecodeInput(TableOf(ks), SMap(TextInput(ks))) == StructOutcome(Build(TableOf(ks), ExpectedValues), [])
  {
    var natives := seq(FieldCount, i requires 0 <= i < FieldCount => Some(NativeAt(i)));
    forall i | 0 <= i < FieldCount
      ensures DecodeValue(ks[i], TypeAt(i), natives[i].value) == Outcome(ExpectedAt(i), [])
    {
      NativeRow(ks[i], i);
    }
    AllExpected(ks, natives);
    var texts := seq(FieldCount, i requires 0 <= i < FieldCount => Some(TextAt(i)));
    forall i | 0 <= i < FieldCount
      ensures DecodeValue(ks[i], TypeAt(i), texts[i].value) == Outcome(ExpectedAt(i), [])
    {
      TextRow(ks[i], i);
    }
    AllExpected(ks, texts);
  }

  /** An entry of a flattened list comes from one of its parts. */
  lemma {:induction false} FlattenMembership(es: seq<seq<FieldError>>, e: FieldError)
    requires e in Flatten(es)
    ensures exists i | 0 <= i < |es| :: e in es[i]
    decreases |es|
  {
    if e !in es[0] {
      FlattenMembership(es[1..], e);
      var i :| 0 <= i < |es| - 1 && e in es[1..][i];
      assert e in es[i + 1];
    }
  }

  /** The number of fields from index `from` on that the bad input makes fail. */
  function FailureCount(from: nat): nat
    requires from <= FieldCount
    decreases FieldCount - from
  {
    if from == FieldCount then 0 else (if FailureAt(from).Some? then 1 else 0) + FailureCount(from + 1)
  }

  lemma {:induction false} FlattenCount(ks: seq<string>, from: nat)
    requires |ks| == FieldCount && from <= FieldCount
    ensures |Flatten(BadErrors(ks)[from..])| == FailureCount(from)
    decreases FieldCount - from
  {
    if from < FieldCount {
      var es := BadErrors(ks)[from..];
      assert es[1..] == BadErrors(ks)[from + 1..];
      FlattenCount(ks, from + 1);
    }
  }

  lemma FailuresFrom27()
    ensures FailureCount(27) == 5
  {
    assert FailureCount(35) == 0;
    assert FailureCount(34) == 0;
    assert FailureCount(33) == 1;
    assert FailureCount(32) == 2;
    assert FailureCount(31) == 2;
    assert FailureCount(30) == 2;
    assert FailureCount(29) == 3;
    assert FailureCount(28) == 4;
    assert FailureCount(27) == 5;
  }

  lemma FailuresFrom18()
    ensures FailureCount(18) == 14
  {
    FailuresFrom27();
    assert FailureCount(26) == 6;
    assert FailureCount(25) == 7;
    assert FailureCount(24) == 8;
    assert FailureCount(23) == 9;
    assert FailureCount(22) == 10;
    assert FailureCount(21) == 11;
    assert FailureCount(20) == 12;
    assert FailureCount(19) == 13;
    assert FailureCount(18) == 14;
  }

  lemma FailuresFrom9()
    ensures FailureCount(9) == 23
  {
    FailuresFrom18();
    assert FailureCount(17) == 15;
    assert FailureCount(16) == 16;
    assert FailureCount(15) == 17;
    assert FailureCount(14) == 18;
    assert FailureCount(13) == 19;
    assert FailureCount(12) == 20;
    assert FailureCount(11) == 21;
    assert FailureCount(10) == 22;
    assert FailureCount(9) == 23;
  }

  /** Every field but the two strings and the two nested structures fails. */
  lemma ThirtyTwoFailures()
    ensures FailureCount(0) == 32
  {
    FailuresFrom9();
    assert FailureCount(8) == 24;
    assert FailureCount(7) == 25;
    assert FailureCount(6) == 26;
    assert FailureCount(5) == 27;
    assert FailureCount(4) == 28;
    assert FailureCount(3) == 29;
    assert FailureCount(2) == 30;
    assert FailureCount(1) == 31;
    assert FailureCount(0) == 32;
  }

  /** The bad input's entries are its rows' entries in table order; only leaf fields are present in it. */
  lemma BadRows(ks: seq<string>)
    requires GoodKeys(ks)
    ensures DecodeInput(TableOf(ks), SMap(BadInput(ks))).errors == Flatten(BadErrors(ks))
    ensures LeavesOnly(TableOf(ks), BadInput(ks))
    ensures forall i | 0 <= i < FieldCount :: DecodeField(TableOf(ks)[i], BadInput(ks)).errors == ErrorsFor(ks[i], i)
  {
    var fs, srcs := TableOf(ks), seq(FieldCount, i requires 0 <= i < FieldCount => BadAt(i));
    var m := MapOf(ks, srcs);
    var bad := BadErrors(ks);
    forall i | 0 <= i < FieldCount
      ensures DecodeField(fs[i], m).errors == bad[i]
      ensures IsLeaf(fs[i].ty) || fs[i].key !in m
    {
      MapOfLookup(ks, srcs, i);
      BadRow(ks[i], i);
    }
    ErrorsByRows(fs, m, bad);
  }

  lemma BadCount(ks: seq<string>)
    requires |ks| == FieldCount
    ensures |Flatten(BadErrors(ks))| == 32
  {
    FlattenCount(ks, 0);
    assert BadErrors(ks)[0..] == BadErrors(ks);
    ThirtyTwoFailures();
  }

  lemma BadEntriesSingleLine(ks: seq<string>)
    requires GoodKeys(ks)
    ensures forall e | e in Flatten(BadErrors(ks)) :: SingleLine(e)
  {
    var bad := BadErrors(ks);
    forall e | e in Flatten(bad) ensures SingleLine(e) {
      FlattenMembership(bad, e);
      var i :| 0 <= i < FieldCount && e in bad[i];
      BadRow(ks[i], i);
      TypeNameSingleLine(TypeAt(i));
    }
  }

  /**
   * The bad input gives 32 error entries: the entries each field's row
   * expects, in table order; one entry per failing field and none for any
   * other, so no key is named twice; every entry fits on one line.
   */
  lemma BadInputErrors(ks: seq<string>)
    requires GoodKeys(ks)
    ensures var errs := DecodeInput(TableOf(ks), SMap(BadInput(ks))).errors;
      && errs == Flatten(BadErrors(ks))
      && |errs| == 32
      && Distinct(ErrorKeys(errs))
      && (forall i | 0 <= i < FieldCount :: ks[i] in ErrorKeys(errs) <==> FailureAt(i).Some?)
      && (forall e | e in errs :: SingleLine(e))
  {
    var fs, m := TableOf(ks), BadInput(ks);
    BadRows(ks);
    BadCount(ks);
    BadEntriesSingleLine(ks);
    TableKeys(ks);
    ExactlyOneLinePerFailure(fs, m);
  }

  /**
   * The bad input's aggregate error: the text starts "32 error(s) decoding:"
   * and the rest, trimmed and split on newlines, is one line per entry.
   */
  lemma BadInputMessage(ks: seq<string>)
    requires GoodKeys(ks)
    ensures var errs := DecodeInput(TableOf(ks), SMap(BadInput(ks))).errors;
      && Report(errs) == Some(ErrorMessage(errs))
      && var m, head := ErrorMessage(errs), "32" + Heading;
      && |head| <= |m| && m[..|head|] == head
      && Split(TrimSpace(m[|head|..])) == Lines(errs)
  {
    var errs := DecodeInput(TableOf(ks), SMap(BadInput(ks))).errors;
    BadInputErrors(ks);
    ReadBack(errs);
    Digits32();
  }

  lemma Digits32()
    ensures Itoa(32) == "32"
  {
    Single(3); Shift(32);
    assert DigitChar(3) == '3' && DigitChar(2) == '2';
  }
}
