/**
 * The typed-configuration decoder: a loosely typed source value (a map of
 * string keys to numbers, text, booleans, durations, timestamps, nested maps
 * and pointers) is decoded into a target structure described by a table of
 * fields, each with its mapping key and declared type. Every field is
 * attempted; every failure becomes one error entry, and the entries are
 * rendered together as "<N> error(s) decoding:" followed by one line each.
 */
module Config {
  import opened Wrappers
  import opened Decimal
  import Rfc3339
  import Durations
  import SelfDecoding

  // ------------------------------------------------------------ field types

  datatype SignedKind = Int | Int8 | Int16 | Int32 | Int64
  {
    function Name(): string
    {
      match this
      case Int => "int"
      case Int8 => "int8"
      case Int16 => "int16"
      case Int32 => "int32"
      case Int64 => "int64"
    }

    /** The smallest value of the width; `int` is 64 bits wide. */
    function Lo(): int
    {
      match this
      case Int8 => -0x80
      case Int16 => -0x8000
      case Int32 => -0x8000_0000
      case _ => MinInt64
    }

    function Hi(): int
    {
      match this
      case Int8 => 0x7f
      case Int16 => 0x7fff
      case Int32 => 0x7fff_ffff
      case _ => MaxInt64
    }
  }

  /** Unsigned widths; Go's `byte` is Uint8 and is reported as "uint8". */
  datatype UnsignedKind = Uint | Uint8 | Uint16 | Uint32 | Uint64
  {
    function Name(): string
    {
      match this
      case Uint => "uint"
      case Uint8 => "uint8"
      case Uint16 => "uint16"
      case Uint32 => "uint32"
      case Uint64 => "uint64"
    }

    /** The largest value of the width; `uint` is 64 bits wide. */
    function Hi(): nat
    {
      match this
      case Uint8 => 0xff
      case Uint16 => 0xffff
      case Uint32 => 0xffff_ffff
      case _ => MaxUint64
    }
  }

  datatype FloatKind = Float32 | Float64
  {
    function Name(): string
    {
      match this
      case Float32 => "float32"
      case Float64 => "float64"
    }
  }

  /** The declared type of a field. */
  datatype FieldType =
    | TSigned(signed: SignedKind)
    | TUnsigned(unsigned: UnsignedKind)
    | TFloat(float: FloatKind)
    | TBool
    | TString
    | TDuration
    | TTime
    | TDecoded                      // the self-decoding integer type
    | TNested(fields: seq<Field>)   // a nested structure and its own field table
    | TPtr(elem: FieldType)         // a nullable pointer to a value of elem

  /** One row of a field table: the mapping key and the declared type. */
  datatype Field = Field(key: string, ty: FieldType)

  /** The name an error entry gives a type; a pointer is named after what it points to. */
  function TypeName(ty: FieldType): string
  {
    match ty
    case TSigned(k) => k.Name()
    case TUnsigned(k) => k.Name()
    case TFloat(k) => k.Name()
    case TBool => "bool"
    case TString => "string"
    case TDuration => "duration"
    case TTime => "time"
    case TDecoded => "Decoded"
    case TNested(_) => "struct"
    case TPtr(e) => TypeName(e)
  }

  /** A type decoded by a single coercion (no structure, no pointer). */
  predicate IsScalar(ty: FieldType)
  {
    !ty.TNested? && !ty.TPtr?
  }

  /** A scalar, or a pointer (to a pointer ...) to a scalar: a field that yields at most one error. */
  predicate IsLeaf(ty: FieldType)
  {
    match ty
    case TNested(_) => false
    case TPtr(e) => IsLeaf(e)
    case _ => true
  }

  // ---------------------------------------------------------- source values

  /** The loosely typed source: what a field's key maps to. SFloat carries the float's decimal text. */
  datatype Source =
    | SInt(i: int)
    | SFloat(text: string)
    | SBool(b: bool)
    | SString(s: string)
    | SDuration(nanos: int)
    | STime(t: Rfc3339.Timestamp)
    | SMap(entries: map<string, Source>)
    | SPtr(target: Source)
    | SNil

  /** A source seen through any pointers. */
  function Deref(s: Source): (r: Source)
    ensures !r.SPtr?
    ensures !s.SPtr? ==> r == s
  {
    if s.SPtr? then Deref(s.target) else s
  }

  /** The Go type name of a source value, for the unconvertible-type error. */
  function KindName(s: Source): string
  {
    match s
    case SInt(_) => "int"
    case SFloat(_) => "float64"
    case SBool(_) => "bool"
    case SString(_) => "string"
    case SDuration(_) => "time.Duration"
    case STime(_) => "time.Time"
    case SMap(_) => "map[string]interface {}"
    case SPtr(_) => "ptr"
    case SNil => "nil"
  }

  /** The natural text of a scalar source: decimal for integers, "true"/"false" for booleans. */
  function Text(s: Source): (r: Option<string>)
    ensures r.Some? <==> s.SInt? || s.SFloat? || s.SBool? || s.SString?
  {
    match s
    case SInt(i) => Some(Itoa(i))
    case SFloat(t) => Some(t)
    case SBool(b) => Some(FormatBool(b))
    case SString(t) => Some(t)
    case _ => None
  }

  // ---------------------------------------------------------- target values

  /** A decoded field. VFloat keeps the float's decimal text. */
  datatype Value =
    | VInt(i: int)
    | VUint(n: nat)
    | VFloat(text: string)
    | VBool(b: bool)
    | VString(s: string)
    | VDuration(nanos: int)
    | VTime(t: Rfc3339.Timestamp)
    | VDecoded(d: int)
    | VStruct(fields: map<string, Value>)
    | VNil                          // an unset pointer
    | VPtr(target: Value)

  /** The time.Time zero value, January 1 of year 1, 00:00:00 UTC. */
  const ZeroTime: Rfc3339.Timestamp := Rfc3339.Timestamp(1, 1, 1, 0, 0, 0, 0, Rfc3339.Utc)

  /** The value a field of each type holds before anything is decoded into it. */
  function Zero(ty: FieldType): Value
  {
    match ty
    case TSigned(_) => VInt(0)
    case TUnsigned(_) => VUint(0)
    case TFloat(_) => VFloat("0")
    case TBool => VBool(false)
    case TString => VString("")
    case TDuration => VDuration(0)
    case TTime => VTime(ZeroTime)
    case TDecoded => VDecoded(0)
    case TNested(fs) => VStruct(ZeroFields(fs))
    case TPtr(_) => VNil
  }

  function ZeroFields(fs: seq<Field>): map<string, Value>
  {
    if fs == [] then map[] else ZeroFields(fs[1..])[fs[0].key := Zero(fs[0].ty)]
  }

  /** The keys of a field table, in order. */
  function Keys(fs: seq<Field>): (r: seq<string>)
    ensures |r| == |fs| && forall i | 0 <= i < |fs| :: r[i] == fs[i].key
  {
    if fs == [] then [] else [fs[0].key] + Keys(fs[1..])
  }

  predicate Distinct(ks: seq<string>)
  {
    forall i, j | 0 <= i < j < |ks| :: ks[i] != ks[j]
  }

  /** A field table, and every nested table in it, has distinct keys. */
  predicate WellFormed(ty: FieldType)
  {
    match ty
    case TNested(fs) => WellFormedFields(fs)
    case TPtr(e) => WellFormed(e)
    case _ => true
  }

  predicate WellFormedFields(fs: seq<Field>)
  {
    Distinct(Keys(fs)) && forall i | 0 <= i < |fs| :: WellFormed(fs[i].ty)
  }

  /** A value of the declared type, and within its width: what a field of that type can hold. */
  predicate Fits(ty: FieldType, v: Value)
  {
    match ty
    case TSigned(k) => v.VInt? && k.Lo() <= v.i <= k.Hi()
    case TUnsigned(k) => v.VUint? && v.n <= k.Hi()
    case TFloat(_) => v.VFloat?
    case TBool => v.VBool?
    case TString => v.VString?
    case TDuration => v.VDuration? && MinInt64 <= v.nanos <= MaxInt64
    case TTime => v.VTime?
    case TDecoded => v.VDecoded? && MinInt64 <= v.d <= MaxInt64
    case TNested(fs) => v.VStruct? && FitsFields(fs, v.fields)
    case TPtr(e) => v.VNil? || (v.VPtr? && Fits(e, v.target))
  }

  predicate FitsFields(fs: seq<Field>, m: map<string, Value>)
  {
    forall i | 0 <= i < |fs| :: fs[i].key in m && Fits(fs[i].ty, m[fs[i].key])
  }

  // ----------------------------------------------------------------- errors

  /**
   * One error entry. Invalid names the key, the declared type and the
   * offending text; only the self-decoding type adds a cause, its Atoi
   * error. Unconvertible is a source of a kind the type does not accept.
   */
  datatype FieldError =
    | Invalid(key: string, typeName: string, raw: string, cause: Option<NumError>)
    | Unconvertible(key: string, typeName: string, kind: string)

  /** The line of the aggregate message that reports one error. */
  function Line(e: FieldError): string
  {
    match e
    case Invalid(k, t, raw, cause) =>
      "* error decoding '" + k + "': invalid " + t + " " + Quote(raw)
        + (match cause case None => "" case Some(c) => ": " + AtoiMessage(raw, c))
    case Unconvertible(k, t, kind) =>
      "* '" + k + "' expected type '" + t + "', got unconvertible type '" + kind + "'"
  }

  function Lines(errs: seq<FieldError>): (r: seq<string>)
    ensures |r| == |errs| && forall i | 0 <= i < |errs| :: r[i] == Line(errs[i])
  {
    if errs == [] then [] else [Line(errs[0])] + Lines(errs[1..])
  }

  /** strings.Join(lines, "\n"). */
  function Join(lines: seq<string>): string
  {
    if lines == [] then ""
    else if |lines| == 1 then lines[0]
    else lines[0] + "\n" + Join(lines[1..])
  }

  const Heading: string := " error(s) decoding:"

  /** The aggregate error's text: the count, the heading, a blank line, then one line per entry. */
  function ErrorMessage(errs: seq<FieldError>): string
  {
    Itoa(|errs|) + Heading + "\n\n" + Join(Lines(errs))
  }

  /** What Decode returns: nothing when every field decoded, else the aggregate message. */
  function Report(errs: seq<FieldError>): (r: Option<string>)
    ensures r.None? <==> errs == []
  {
    if errs == [] then None else Some(ErrorMessage(errs))
  }

  // --------------------------------------------------------------- coercion

  /** strconv.FormatBool: the text a boolean source value has, which ParseBool reads back. */
  function FormatBool(b: bool): (r: string)
    ensures ParseBool(r) == Some(b)
    ensures b ==> r in {"1", "t", "T", "TRUE", "true", "True"}
    ensures !b ==> r in {"0", "f", "F", "FALSE", "false", "False"}
  {
    if b then "true" else "false"
  }

  /** strconv.ParseBool. */
  function ParseBool(s: string): (r: Option<bool>)
    ensures r == Some(true) <==> s in {"1", "t", "T", "TRUE", "true", "True"}
    ensures r == Some(false) <==> s in {"0", "f", "F", "FALSE", "false", "False"}
  {
    if s == "1" || s == "t" || s == "T" || s == "TRUE" || s == "true" || s == "True" then Some(true)
    else if s == "0" || s == "f" || s == "F" || s == "FALSE" || s == "false" || s == "False" then Some(false)
    else None
  }

  /** An optional exponent: nothing, or 'e'/'E', an optional sign and digits. */
  predicate Exponent(s: string)
  {
    s == [] || (s[0] in {'e', 'E'} && var b := SplitSign(s[1..]).body; b != [] && AllDigits(b))
  }

  /**
   * Decimal floating-point text: an optional sign, digits with at most one
   * '.', at least one digit, and an optional exponent. This is the decimal
   * part of what strconv.ParseFloat accepts.
   */
  predicate FloatSyntax(s: string)
  {
    var b := SplitSign(s).body;
    var k := DigitRun(b);
    var rest := b[k..];
    if rest != [] && rest[0] == '.' then
      var f := DigitRun(rest[1..]);
      (k > 0 || f > 0) && Exponent(rest[1..][f..])
    else k > 0 && Exponent(rest)
  }

  /**
   * One scalar field from one scalar source. Numbers are range-checked
   * against the width and decimal text is parsed for it; text goes through
   * the parser of the declared type; strings accept any scalar's text; the
   * self-decoding type gets the source's text.
   */
  function Coerce(key: string, ty: FieldType, s: Source): (r: Result<Value, FieldError>)
    requires IsScalar(ty) && !s.SPtr? && !s.SNil?
    ensures r.Ok? ==> Fits(ty, r.value)
    ensures r.Err? ==> r.error.key == key && r.error.typeName == TypeName(ty)
  {
    match ty
    case TSigned(k) =>
      (match s
       case SInt(i) => if k.Lo() <= i <= k.Hi() then Ok(VInt(i)) else Err(Invalid(key, k.Name(), Itoa(i), None))
       case SString(t) =>
         (match ParseInt(t, k.Lo(), k.Hi())
          case Some(v) => Ok(VInt(v))
          case None => Err(Invalid(key, k.Name(), t, None)))
       case _ => Err(Unconvertible(key, k.Name(), KindName(s))))
    case TUnsigned(k) =>
      (match s
       case SInt(i) => if 0 <= i <= k.Hi() then Ok(VUint(i)) else Err(Invalid(key, k.Name(), Itoa(i), None))
       case SString(t) =>
         (match ParseUint(t, k.Hi())
          case Some(v) => Ok(VUint(v))
          case None => Err(Invalid(key, k.Name(), t, None)))
       case _ => Err(Unconvertible(key, k.Name(), KindName(s))))
    case TFloat(k) =>
      (match s
       case SFloat(t) => Ok(VFloat(t))
       case SInt(i) => Ok(VFloat(Itoa(i)))
       case SString(t) => if FloatSyntax(t) then Ok(VFloat(t)) else Err(Invalid(key, k.Name(), t, None))
       case _ => Err(Unconvertible(key, k.Name(), KindName(s))))
    case TBool =>
      (match s
       case SBool(b) => Ok(VBool(b))
       case SString(t) =>
         (match ParseBool(t)
          case Some(b) => Ok(VBool(b))
          case None => Err(Invalid(key, "bool", t, None)))
       case _ => Err(Unconvertible(key, "bool", KindName(s))))
    case TString =>
      (match Text(s)
       case Some(t) => Ok(VString(t))
       case None => Err(Unconvertible(key, "string", KindName(s))))
    case TDuration =>
      (match s
       case SDuration(d) =>
         if MinInt64 <= d <= MaxInt64 then Ok(VDuration(d)) else Err(Invalid(key, "duration", Itoa(d), None))
       case SInt(i) =>
         if MinInt64 <= i <= MaxInt64 then Ok(VDuration(i)) else Err(Invalid(key, "duration", Itoa(i), None))
       case SString(t) =>
         (match Durations.DurationText(t)
          case Some(d) => Ok(VDuration(d))
          case None => Err(Invalid(key, "duration", t, None)))
       case _ => Err(Unconvertible(key, "duration", KindName(s))))
    case TTime =>
      (match s
       case STime(t) => Ok(VTime(t))
       case SString(t) =>
         (match Rfc3339.Parse(t)
          case Some(v) => Ok(VTime(v))
          case None => Err(Invalid(key, "time", t, None)))
       case _ => Err(Unconvertible(key, "time", KindName(s))))
    case TDecoded =>
      (match Text(s)
       case Some(t) =>
         (match SelfDecoding.DecodeText(t)
          case Ok(v) => Ok(VDecoded(v))
          case Err(e) => Err(Invalid(key, "Decoded", t, Some(e))))
       case None => Err(Unconvertible(key, "Decoded", KindName(s))))
  }

  // --------------------------------------------------------------- decoding

  /** The decoded value of one field and the error entries it produced. */
  datatype Outcome = Outcome(value: Value, errors: seq<FieldError>)

  /** The decoded fields of one structure and all error entries from its walk. */
  datatype StructOutcome = StructOutcome(values: map<string, Value>, errors: seq<FieldError>)

  /**
   * The number of leaf fields under a type: the most errors decoding it can
   * give. A structure without fields can still give one, for a source that
   * is not a map.
   */
  function LeafCount(ty: FieldType): (n: nat)
    ensures n >= 1
    ensures IsLeaf(ty) ==> n == 1
  {
    match ty
    case TNested(fs) => if fs == [] then 1 else LeafCountFields(fs)
    case TPtr(e) => LeafCount(e)
    case _ => 1
  }

  function LeafCountFields(fs: seq<Field>): (n: nat)
    ensures n >= |fs|
  {
    if fs == [] then 0 else LeafCount(fs[0].ty) + LeafCountFields(fs[1..])
  }

  /** Every key that occurs in a table or in any table nested in it. */
  function AllKeys(ty: FieldType): set<string>
  {
    match ty
    case TNested(fs) => AllKeysFields(fs)
    case TPtr(e) => AllKeys(e)
    case _ => {}
  }

  function AllKeysFields(fs: seq<Field>): set<string>
  {
    if fs == [] then {} else {fs[0].key} + AllKeys(fs[0].ty) + AllKeysFields(fs[1..])
  }

  /**
   * One field decoded from the source value under its key. A nil or absent
   * value leaves the zero value; a pointer is decoded as what it points to;
   * a pointer field is decoded as its element and then wrapped, or stays
   * unset on failure; a structure field recurses into a map source. On
   * failure a field keeps its zero value. The errors of a leaf field name
   * its own key and are at most one; a structure's errors name keys from its
   * own tables.
   */
  function DecodeValue(key: string, ty: FieldType, src: Source): (r: Outcome)
    ensures WellFormed(ty) ==> Fits(ty, r.value)
    ensures |r.errors| <= LeafCount(ty)
    ensures IsLeaf(ty) ==> forall e | e in r.errors :: e.key == key && e.typeName == TypeName(ty)
    ensures IsLeaf(ty) && r.errors != [] ==> r.value == Zero(ty)
    ensures !IsLeaf(ty) ==> forall e | e in r.errors :: e.key == key || e.key in AllKeys(ty)
    ensures ty.TNested? ==> r.value.VStruct? && r.value.fields.Keys == set i | 0 <= i < |ty.fields| :: ty.fields[i].key
    decreases ty
  {
    var s := Deref(src);
    if s.SNil? then
      ZeroFits(ty);
      Outcome(Zero(ty), [])
    else
      match ty
      case TPtr(e) =>
        var o := DecodeValue(key, e, s);
        if o.errors == [] then Outcome(VPtr(o.value), []) else Outcome(VNil, o.errors)
      case TNested(fs) =>
        if s.SMap? then
          var r := DecodeFields(fs, s.entries);
          Outcome(VStruct(r.values), r.errors)
        else
          ZeroFits(ty);
          Outcome(Zero(ty), [Unconvertible(key, "struct", KindName(s))])
      case _ =>
        match Coerce(key, ty, s)
        case Ok(v) => Outcome(v, [])
        case Err(e) => ZeroFits(ty); Outcome(Zero(ty), [e])
  }

  /** A field looked up in its structure's source map; an absent key leaves the zero value. */
  function DecodeField(f: Field, m: map<string, Source>): (r: Outcome)
    ensures WellFormed(f.ty) ==> Fits(f.ty, r.value)
    ensures |r.errors| <= LeafCount(f.ty)
    ensures forall e | e in r.errors :: e.key == f.key || e.key in AllKeys(f.ty)
    ensures f.key !in m ==> r == Outcome(Zero(f.ty), [])
    decreases f
  {
    if f.key in m then DecodeValue(f.key, f.ty, m[f.key])
    else
      ZeroFits(f.ty);
      Outcome(Zero(f.ty), [])
  }

  /**
   * Every field of a table, in order, never stopping at a failure: each key
   * of the table gets a value, and the errors of all fields are collected
   * into one flat list.
   */
  function DecodeFields(fs: seq<Field>, m: map<string, Source>): (r: StructOutcome)
    ensures r.values.Keys == set i | 0 <= i < |fs| :: fs[i].key
    ensures WellFormedFields(fs) ==> FitsFields(fs, r.values)
    ensures |r.errors| <= LeafCountFields(fs)
    ensures forall e | e in r.errors :: e.key in AllKeysFields(fs)
    decreases fs
  {
    if fs == [] then StructOutcome(map[], [])
    else
      var first := DecodeField(fs[0], m);
      var rest := DecodeFields(fs[1..], m);
      ConsKeys(fs, first.value, rest.values);
      if WellFormedFields(fs) then
        DistinctTail(fs);
        ConsFits(fs, first.value, rest.values);
        StructOutcome(rest.values[fs[0].key := first.value], first.errors + rest.errors)
      else
        StructOutcome(rest.values[fs[0].key := first.value], first.errors + rest.errors)
  }

  lemma ConsKeys(fs: seq<Field>, v: Value, rest: map<string, Value>)
    requires fs != [] && rest.Keys == set i | 0 <= i < |fs| - 1 :: fs[1..][i].key
    ensures rest[fs[0].key := v].Keys == set i | 0 <= i < |fs| :: fs[i].key
  {
    forall i | 1 <= i < |fs| ensures fs[i].key in rest {
      assert fs[i] == fs[1..][i - 1];
    }
  }

  lemma ConsFits(fs: seq<Field>, v: Value, rest: map<string, Value>)
    requires fs != [] && WellFormedFields(fs) && Fits(fs[0].ty, v) && FitsFields(fs[1..], rest)
    ensures FitsFields(fs, rest[fs[0].key := v])
  {
    forall i | 0 <= i < |fs|
      ensures fs[i].key in rest[fs[0].key := v] && Fits(fs[i].ty, rest[fs[0].key := v][fs[i].key])
    {
      if i > 0 {
        assert fs[i] == fs[1..][i - 1];
        assert Keys(fs)[0] != Keys(fs)[i];
      }
    }
  }

  /** A well-formed table's tail is well formed. */
  lemma DistinctTail(fs: seq<Field>)
    requires fs != [] && WellFormedFields(fs)
    ensures WellFormedFields(fs[1..])
  {
    forall i, j | 0 <= i < j < |fs| - 1
      ensures Keys(fs[1..])[i] != Keys(fs[1..])[j]
    {
      assert Keys(fs)[i + 1] != Keys(fs)[j + 1];
    }
    forall i | 0 <= i < |fs| - 1
      ensures WellFormed(fs[1..][i].ty)
    {
      assert fs[1..][i] == fs[i + 1];
    }
  }

  /** Zero values fit their types. */
  lemma {:induction false} ZeroFits(ty: FieldType)
    ensures WellFormed(ty) ==> Fits(ty, Zero(ty))
    ensures ty.TNested? ==> Zero(ty).fields.Keys == set i | 0 <= i < |ty.fields| :: ty.fields[i].key
    decreases ty
  {
    match ty
    case TNested(fs) =>
      ZeroFieldsKeys(fs);
      if WellFormed(ty) {
        ZeroFieldsFit(fs);
      }
    case _ =>
  }

  lemma {:induction false} ZeroFieldsFit(fs: seq<Field>)
    requires WellFormedFields(fs)
    ensures FitsFields(fs, ZeroFields(fs))
    decreases fs
  {
    if fs != [] {
      DistinctTail(fs);
      ZeroFieldsFit(fs[1..]);
      ZeroFits(fs[0].ty);
      ConsFits(fs, Zero(fs[0].ty), ZeroFields(fs[1..]));
    }
  }

  /** Decoding a whole input into a target described by a field table. */
  function DecodeInput(shape: seq<Field>, input: Source): (r: StructOutcome)
    ensures r.values.Keys == set i | 0 <= i < |shape| :: shape[i].key
    ensures WellFormedFields(shape) ==> FitsFields(shape, r.values)
    ensures |r.errors| <= LeafCount(TNested(shape))
  {
    var o := DecodeValue("", TNested(shape), input);
    StructOutcome(o.value.fields, o.errors)
  }

  lemma {:induction false} ZeroFieldsKeys(fs: seq<Field>)
    ensures ZeroFields(fs).Keys == set i | 0 <= i < |fs| :: fs[i].key
    decreases fs
  {
    if fs != [] {
      ZeroFieldsKeys(fs[1..]);
      var tail := set i | 0 <= i < |fs| - 1 :: fs[1..][i].key;
      assert (set i | 0 <= i < |fs| :: fs[i].key) == {fs[0].key} + tail by {
        forall i | 1 <= i < |fs| ensures fs[i].key in tail {
          assert fs[i] == fs[1..][i - 1];
        }
      }
    }
  }

  /**
   * The caller's target structure, which Decode fills in place. Decode
   * writes every field of the table as decoding from a zeroed target would,
   * and returns the aggregate error when any field failed.
   */
  class Target {
    const shape: seq<Field>
    var fields: map<string, Value>

    constructor(shape: seq<Field>)
      ensures this.shape == shape && fields == ZeroFields(shape)
    {
      this.shape := shape;
      fields := ZeroFields(shape);
    }

    method Decode(input: Source) returns (err: Option<string>)
      modifies this
      ensures fields == DecodeInput(shape, input).values
      ensures err == Report(DecodeInput(shape, input).errors)
      ensures WellFormedFields(shape) ==> FitsFields(shape, fields)
    {
      var r := DecodeInput(shape, input);
      fields := r.values;
      err := Report(r.errors);
    }
  }
}
