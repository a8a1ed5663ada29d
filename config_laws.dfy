/**
 * Properties of the decoder: native numbers and their decimal text decode
 * alike, widths bound what is accepted, strings accept every scalar,
 * pointers wrap what their element decodes to, absent keys leave zero
 * values, and the aggregate error holds exactly one line per failing field,
 * which a reader splitting the message on newlines gets back unchanged.
 */
module ConfigLaws {
  import opened Wrappers
  import opened Decimal
  import Durations
  import Rfc3339
  import SelfDecoding
  import opened Config

  // ------------------------------------------------- numbers and their text

  /** The decimal text of any integer is valid float syntax. */
  lemma FloatSyntaxItoa(i: int)
    ensures FloatSyntax(Itoa(i))
  {
    var n: nat := if i < 0 then -i else i;
    var d := NatDigits(n);
    NatDigitsParse(n);
    assert SplitSign(Itoa(i)).body == d;
    DigitRunOfDigits(d, []);
    assert d + [] == d;
    assert d[|d|..] == [];
  }

  /** The types for which a native integer and its decimal text are the same input. */
  predicate IntegerLike(ty: FieldType)
  {
    match ty
    case TSigned(_) => true
    case TUnsigned(_) => true
    case TFloat(_) => true
    case TString => true
    case TDecoded => true
    case TPtr(e) => IntegerLike(e)
    case _ => false
  }

  /**
   * For every integer and every integer-like field, possibly behind
   * pointers, the native number and its decimal text decode to the same
   * value and the same error entries.
   */
  lemma {:induction false} NativeMatchesText(key: string, ty: FieldType, i: int)
    requires IntegerLike(ty)
    ensures DecodeValue(key, ty, SInt(i)) == DecodeValue(key, ty, SString(Itoa(i)))
    decreases ty
  {
    match ty
    case TPtr(e) =>
      NativeMatchesText(key, e, i);
      assert DecodeValue(key, e, SInt(i)) == DecodeValue(key, e, SString(Itoa(i)));
    case TSigned(k) => SignedMatches(key, k, i);
    case TUnsigned(k) => UnsignedMatches(key, k, i);
    case TFloat(k) => FloatMatches(key, k, i);
    case TString => TextMatches(key, ty, i);
    case TDecoded => TextMatches(key, ty, i);
  }

  lemma SignedMatches(key: string, k: SignedKind, i: int)
    ensures DecodeValue(key, TSigned(k), SInt(i)) == DecodeValue(key, TSigned(k), SString(Itoa(i)))
  {
    ParseIntItoa(i, k.Lo(), k.Hi());
  }

  lemma UnsignedMatches(key: string, k: UnsignedKind, i: int)
    ensures DecodeValue(key, TUnsigned(k), SInt(i)) == DecodeValue(key, TUnsigned(k), SString(Itoa(i)))
  {
    ParseUintItoa(i, k.Hi());
  }

  lemma FloatMatches(key: string, k: FloatKind, i: int)
    ensures DecodeValue(key, TFloat(k), SInt(i)) == DecodeValue(key, TFloat(k), SString(Itoa(i)))
  {
    FloatSyntaxItoa(i);
  }

  lemma TextMatches(key: string, ty: FieldType, i: int)
    requires ty == TString || ty == TDecoded
    ensures DecodeValue(key, ty, SInt(i)) == DecodeValue(key, ty, SString(Itoa(i)))
  {
    assert Text(SInt(i)) == Text(SString(Itoa(i)));
    assert Coerce(key, ty, SInt(i)) == Coerce(key, ty, SString(Itoa(i)));
    ScalarField(key, ty, SInt(i));
    ScalarField(key, ty, SString(Itoa(i)));
  }

  /** The types for which a native boolean and its text are the same input. */
  predicate BoolLike(ty: FieldType)
  {
    match ty
    case TBool => true
    case TString => true
    case TDecoded => true
    case TPtr(e) => BoolLike(e)
    case _ => false
  }

  /**
   * For every boolean and every bool, string or Decoded field, possibly
   * behind pointers, the native boolean and its text "true" or "false"
   * decode to the same value and the same error entries.
   */
  lemma {:induction false} BoolNativeMatchesText(key: string, ty: FieldType, b: bool)
    requires BoolLike(ty)
    ensures DecodeValue(key, ty, SBool(b)) == DecodeValue(key, ty, SString(FormatBool(b)))
    decreases ty
  {
    match ty
    case TPtr(e) =>
      BoolNativeMatchesText(key, e, b);
      assert DecodeValue(key, e, SBool(b)) == DecodeValue(key, e, SString(FormatBool(b)));
    case TBool => BoolTextMatches(key, ty, b);
    case TString => BoolTextMatches(key, ty, b);
    case TDecoded => BoolTextMatches(key, ty, b);
  }

  lemma BoolTextMatches(key: string, ty: FieldType, b: bool)
    requires ty == TBool || ty == TString || ty == TDecoded
    ensures DecodeValue(key, ty, SBool(b)) == DecodeValue(key, ty, SString(FormatBool(b)))
  {
    assert Text(SBool(b)) == Text(SString(FormatBool(b)));
    assert Coerce(key, ty, SBool(b)) == Coerce(key, ty, SString(FormatBool(b)));
    ScalarField(key, ty, SBool(b));
    ScalarField(key, ty, SString(FormatBool(b)));
  }

  /** Decimal text into a signed field of any width: accepted exactly when the number fits the width. */
  lemma SignedText(key: string, k: SignedKind, i: int)
    ensures DecodeValue(key, TSigned(k), SString(Itoa(i))) ==
      if k.Lo() <= i <= k.Hi() then Outcome(VInt(i), [])
      else Outcome(VInt(0), [Invalid(key, k.Name(), Itoa(i), None)])
  {
    ParseIntItoa(i, k.Lo(), k.Hi());
  }

  /** Decimal text into an unsigned field of any width: accepted exactly when the number is 0..max. */
  lemma UnsignedText(key: string, k: UnsignedKind, i: int)
    ensures DecodeValue(key, TUnsigned(k), SString(Itoa(i))) ==
      if 0 <= i <= k.Hi() then Outcome(VUint(i), [])
      else Outcome(VUint(0), [Invalid(key, k.Name(), Itoa(i), None)])
  {
    ParseUintItoa(i, k.Hi());
  }

  /** Any text with a leading '-' fails in an unsigned field, and the entry names the width ("uint8" for a byte). */
  lemma UnsignedRejectsMinus(key: string, k: UnsignedKind, s: string)
    requires |s| > 0 && s[0] == '-'
    ensures DecodeValue(key, TUnsigned(k), SString(s)) == Outcome(VUint(0), [Invalid(key, k.Name(), s, None)])
  {
    ParseUintRejectsMinus(s, k.Hi());
  }

  /** Text with no digit after its sign fails in a signed field of any width, which keeps zero. */
  lemma SignedRejectsWord(key: string, k: SignedKind, s: string)
    requires var b := SplitSign(s).body; b == [] || !IsDigit(b[0])
    ensures DecodeValue(key, TSigned(k), SString(s)) == Outcome(VInt(0), [Invalid(key, k.Name(), s, None)])
  {
    var b := SplitSign(s).body;
    assert b == [] || !AllDigits(b);
  }

  lemma Digits128()
    ensures Itoa(-128) == "-128" && Itoa(-129) == "-129"
  {
    assert NatDigits(1) == "1";
    assert NatDigits(12) == "12";
    assert NatDigits(128) == "128";
    assert NatDigits(129) == "129";
  }

  lemma Digits255()
    ensures Itoa(255) == "255" && Itoa(256) == "256"
  {
    assert NatDigits(2) == "2";
    assert NatDigits(25) == "25";
    assert NatDigits(255) == "255";
    assert NatDigits(256) == "256";
  }

  /** "-128" is the least int8 and "-129" is rejected. */
  lemma Int8Edge(key: string)
    ensures DecodeValue(key, TSigned(Int8), SString("-128")) == Outcome(VInt(-128), [])
    ensures DecodeValue(key, TSigned(Int8), SString("-129")) == Outcome(VInt(0), [Invalid(key, "int8", "-129", None)])
  {
    Digits128();
    SignedText(key, Int8, -128);
    SignedText(key, Int8, -129);
  }

  /** "255" is the largest byte and "256" is rejected, reported as uint8. */
  lemma ByteEdge(key: string)
    ensures DecodeValue(key, TUnsigned(Uint8), SString("255")) == Outcome(VUint(255), [])
    ensures DecodeValue(key, TUnsigned(Uint8), SString("256")) == Outcome(VUint(0), [Invalid(key, "uint8", "256", None)])
  {
    Digits255();
    UnsignedText(key, Uint8, 255);
    UnsignedText(key, Uint8, 256);
  }

  /**
   * A native integer in a duration field counts nanoseconds; its decimal
   * text counts milliseconds.
   */
  lemma DurationNativeAndText(key: string, n: int)
    requires MinInt64 <= n * Durations.Millisecond <= MaxInt64
    ensures DecodeValue(key, TDuration, SInt(n)) == Outcome(VDuration(n), [])
    ensures DecodeValue(key, TDuration, SString(Itoa(n))) == Outcome(VDuration(n * Durations.Millisecond), [])
  {
    assert Coerce(key, TDuration, SInt(n)) == Ok(VDuration(n));
    var t := Itoa(n);
    Durations.MillisecondsText(n);
    assert Coerce(key, TDuration, SString(t)) == Ok(VDuration(n * Durations.Millisecond));
  }

  // ------------------------------------------------------ strings, pointers

  /** A string field accepts every scalar source and holds its text; it never reports an error. */
  lemma StringAcceptsScalars(key: string, src: Source)
    requires var s := Deref(src); s.SInt? || s.SFloat? || s.SBool? || s.SString?
    ensures DecodeValue(key, TString, src) == Outcome(VString(Text(Deref(src)).value), [])
  {
  }

  /** The number 1234 in a string field is the text "1234". */
  lemma StringOfNumber(key: string)
    ensures DecodeValue(key, TString, SInt(1234)) == Outcome(VString("1234"), [])
  {
    assert NatDigits(1) == "1";
    assert NatDigits(12) == "12";
    assert NatDigits(123) == "123";
    assert NatDigits(1234) == "1234";
  }

  /** A pointer in the source is decoded as what it points to. */
  lemma PointerSource(key: string, ty: FieldType, src: Source)
    ensures DecodeValue(key, ty, SPtr(src)) == DecodeValue(key, ty, src)
  {
  }

  /** A scalar field holds what its coercion gives, or its zero value with the coercion's one error. */
  lemma ScalarField(key: string, ty: FieldType, src: Source)
    requires IsScalar(ty) && !src.SPtr? && !src.SNil?
    ensures DecodeValue(key, ty, src) ==
      match Coerce(key, ty, src)
      case Ok(v) => Outcome(v, [])
      case Err(e) => Outcome(Zero(ty), [e])
  {
  }

  /** A time field accepts exactly the RFC 3339 date-time texts, with the instant they denote. */
  lemma TimeField(key: string, t: string)
    ensures DecodeValue(key, TTime, SString(t)) ==
      match Rfc3339.Parse(t)
      case Some(v) => Outcome(VTime(v), [])
      case None => Outcome(VTime(ZeroTime), [Invalid(key, "time", t, None)])
  {
    ScalarField(key, TTime, SString(t));
  }

  /** A self-decoding field holds what DecodeString stores, or reports its Atoi error as the cause. */
  lemma DecodedField(key: string, t: string)
    ensures var r := SelfDecoding.DecodeText(t);
      DecodeValue(key, TDecoded, SString(t)) ==
        if r.Ok? then Outcome(VDecoded(r.value), [])
        else Outcome(VDecoded(0), [Invalid(key, "Decoded", t, Some(r.error))])
  {
    ScalarField(key, TDecoded, SString(t));
  }

  /**
   * A pointer field is unset for a nil or absent value; otherwise it holds
   * what a field of its element type decodes to, or stays unset with that
   * field's errors.
   */
  lemma PointerField(key: string, e: FieldType, src: Source)
    ensures var o := DecodeValue(key, e, src);
      DecodeValue(key, TPtr(e), src) ==
        if Deref(src).SNil? then Outcome(VNil, [])
        else if o.errors == [] then Outcome(VPtr(o.value), [])
        else Outcome(VNil, o.errors)
  {
  }

  /** A nested structure's errors keep the keys of its own table: nothing is prefixed by the parent key. */
  lemma NestedErrorsUnqualified(key: string, fs: seq<Field>, m: map<string, Source>)
    ensures DecodeValue(key, TNested(fs), SMap(m)).errors == DecodeFields(fs, m).errors
  {
  }

  // ------------------------------------------------------------ absent keys

  /** An empty source leaves every field, nested ones included, at its zero value with no error. */
  lemma {:induction false} EmptySource(fs: seq<Field>)
    ensures DecodeFields(fs, map[]) == StructOutcome(ZeroFields(fs), [])
    decreases fs
  {
    if fs != [] {
      EmptySource(fs[1..]);
    }
  }

  // ------------------------------------------------------------ row by row

  /** The structure whose fields, key by key in table order, hold the given values. */
  function Build(fs: seq<Field>, vs: seq<Value>): map<string, Value>
    requires |vs| == |fs|
  {
    if fs == [] then map[] else Build(fs[1..], vs[1..])[fs[0].key := vs[0]]
  }

  function Flatten(es: seq<seq<FieldError>>): seq<FieldError>
  {
    if es == [] then [] else es[0] + Flatten(es[1..])
  }

  /**
   * A table decodes field by field: when each field gives its own value and
   * errors, the structure holds those values and the errors are theirs, in
   * table order.
   */
  lemma {:induction false} DecodeByRows(fs: seq<Field>, m: map<string, Source>, vs: seq<Value>, es: seq<seq<FieldError>>)
    requires |vs| == |fs| && |es| == |fs|
    requires forall i | 0 <= i < |fs| :: DecodeField(fs[i], m) == Outcome(vs[i], es[i])
    ensures DecodeFields(fs, m) == StructOutcome(Build(fs, vs), Flatten(es))
    decreases fs
  {
    if fs != [] {
      assert DecodeField(fs[0], m) == Outcome(vs[0], es[0]);
      forall i | 0 <= i < |fs| - 1 ensures DecodeField(fs[1..][i], m) == Outcome(vs[1..][i], es[1..][i]) {
        assert fs[1..][i] == fs[i + 1];
      }
      DecodeByRows(fs[1..], m, vs[1..], es[1..]);
    }
  }

  /** A source map written key by key; a key whose entry is None is left out of the map. */
  function MapOf(ks: seq<string>, srcs: seq<Option<Source>>): map<string, Source>
    requires |srcs| == |ks|
  {
    if ks == [] then map[]
    else
      var rest := MapOf(ks[1..], srcs[1..]);
      match srcs[0]
      case Some(s) => rest[ks[0] := s]
      case None => rest
  }

  lemma {:induction false} MapOfKeys(ks: seq<string>, srcs: seq<Option<Source>>)
    requires |srcs| == |ks|
    ensures forall k | k in MapOf(ks, srcs) :: k in ks
    decreases |ks|
  {
    if ks != [] {
      MapOfKeys(ks[1..], srcs[1..]);
    }
  }

  /** With distinct keys, every key finds its own entry, and a left-out key is absent. */
  lemma {:induction false} MapOfLookup(ks: seq<string>, srcs: seq<Option<Source>>, i: nat)
    requires |srcs| == |ks| && Distinct(ks) && i < |ks|
    ensures ks[i] in MapOf(ks, srcs) <==> srcs[i].Some?
    ensures srcs[i].Some? ==> MapOf(ks, srcs)[ks[i]] == srcs[i].value
    decreases |ks|
  {
    var rest := MapOf(ks[1..], srcs[1..]);
    assert Distinct(ks[1..]) by {
      forall a, b | 0 <= a < b < |ks| - 1 ensures ks[1..][a] != ks[1..][b] {
        assert ks[1..][a] == ks[a + 1] && ks[1..][b] == ks[b + 1];
      }
    }
    if i == 0 {
      MapOfKeys(ks[1..], srcs[1..]);
      assert ks[0] !in ks[1..] by {
        forall j | 0 <= j < |ks| - 1 ensures ks[1..][j] != ks[0] {
          assert ks[1..][j] == ks[j + 1];
        }
      }
    } else {
      MapOfLookup(ks[1..], srcs[1..], i - 1);
      assert ks[1..][i - 1] == ks[i] && srcs[1..][i - 1] == srcs[i];
    }
  }

  /** The errors of a table are its fields' errors, in table order, whatever the values. */
  lemma {:induction false} ErrorsByRows(fs: seq<Field>, m: map<string, Source>, es: seq<seq<FieldError>>)
    requires |es| == |fs|
    requires forall i | 0 <= i < |fs| :: DecodeField(fs[i], m).errors == es[i]
    ensures DecodeFields(fs, m).errors == Flatten(es)
    decreases fs
  {
    if fs != [] {
      assert DecodeField(fs[0], m).errors == es[0];
      forall i | 0 <= i < |fs| - 1 ensures DecodeField(fs[1..][i], m).errors == es[1..][i] {
        assert fs[1..][i] == fs[i + 1];
      }
      ErrorsByRows(fs[1..], m, es[1..]);
    }
  }

  lemma {:induction false} FlattenEmpty(es: seq<seq<FieldError>>)
    requires forall i | 0 <= i < |es| :: es[i] == []
    ensures Flatten(es) == []
    decreases |es|
  {
    if es != [] {
      FlattenEmpty(es[1..]);
    }
  }

  // ------------------------------------------------------------ aggregation

  /** The key each entry names, in order. */
  function ErrorKeys(errs: seq<FieldError>): (r: seq<string>)
    ensures |r| == |errs| && forall i | 0 <= i < |errs| :: r[i] == errs[i].key
  {
    seq(|errs|, i requires 0 <= i < |errs| => errs[i].key)
  }

  /** The keys of the fields that fail, in table order: an independent account of which fields fail. */
  function FailingKeys(fs: seq<Field>, m: map<string, Source>): seq<string>
  {
    if fs == [] then []
    else (if DecodeField(fs[0], m).errors != [] then [fs[0].key] else []) + FailingKeys(fs[1..], m)
  }

  /** A table whose nested fields (if any) are absent from the source: every field is decoded as a leaf. */
  predicate LeavesOnly(fs: seq<Field>, m: map<string, Source>)
  {
    forall i | 0 <= i < |fs| :: IsLeaf(fs[i].ty) || fs[i].key !in m
  }

  lemma ErrorKeysAppend(a: seq<FieldError>, b: seq<FieldError>)
    ensures ErrorKeys(a + b) == ErrorKeys(a) + ErrorKeys(b)
  {
  }

  /** No type name spans lines. */
  lemma TypeNameSingleLine(ty: FieldType)
    ensures '\n' !in TypeName(ty)
    decreases ty
  {
    if ty.TPtr? {
      TypeNameSingleLine(ty.elem);
    }
  }

  /** Printable ASCII other than a quote or a backslash: text that Quote leaves as it is. */
  predicate Plain(s: string)
  {
    forall i | 0 <= i < |s| :: 0x20 <= s[i] as int < 0x7f && s[i] != '"' && s[i] != '\\'
  }

  /**
   * The line of an entry for plain raw text: the key in single quotes, the
   * type name, the raw text in double quotes and, for a self-decoding field
   * that Atoi rejected, Atoi's own message.
   */
  lemma InvalidLine(key: string, t: string, raw: string, cause: Option<NumError>)
    requires Plain(raw)
    ensures cause.None? ==>
      Line(Invalid(key, t, raw, cause)) == "* error decoding '" + key + "': invalid " + t + " " + "\"" + raw + "\""
    ensures cause == Some(Syntax) ==>
      Line(Invalid(key, t, raw, cause)) ==
        "* error decoding '" + key + "': invalid " + t + " " + "\"" + raw + "\"" + ": " + "strconv.Atoi: parsing " + "\"" + raw + "\"" + ": " + "invalid syntax"
  {
    if cause.None? {
      InvalidLineBare(key, t, raw);
    } else if cause == Some(Syntax) {
      InvalidLineSyntax(key, t, raw);
    }
  }

  lemma InvalidLineBare(key: string, t: string, raw: string)
    requires Plain(raw)
    ensures Line(Invalid(key, t, raw, None)) == "* error decoding '" + key + "': invalid " + t + " " + "\"" + raw + "\""
  {
    QuotePlain(raw);
    var head := "* error decoding '" + key + "': invalid " + t + " ";
    assert head + ("\"" + raw + "\"") == head + "\"" + raw + "\"";
  }

  lemma InvalidLineSyntax(key: string, t: string, raw: string)
    requires Plain(raw)
    ensures Line(Invalid(key, t, raw, Some(Syntax))) ==
      "* error decoding '" + key + "': invalid " + t + " " + "\"" + raw + "\"" + ": " + "strconv.Atoi: parsing " + "\"" + raw + "\"" + ": " + "invalid syntax"
  {
    QuotePlain(raw);
    var head := "* error decoding '" + key + "': invalid " + t + " ";
    assert AtoiMessage(raw, Syntax) == "strconv.Atoi: parsing " + ("\"" + raw + "\"") + ": " + "invalid syntax";
    Regroup(head, "\"", raw, ": ", "strconv.Atoi: parsing ", "invalid syntax");
  }

  /** Regrouping of the concatenation a line with a cause is made of. */
  lemma Regroup(a: string, x: string, r: string, c: string, p: string, e: string)
    ensures a + (x + r + x) + (c + (p + (x + r + x) + c + e)) == a + x + r + x + c + p + x + r + x + c + e
  {
    var q := x + r + x;
    assert p + q + c + e == p + x + r + x + c + e;
    assert c + (p + q + c + e) == c + p + x + r + x + c + e;
  }

  /** A leaf field, or a field absent from the source, gives its own key once when it fails and nothing otherwise. */
  lemma LeafFieldKeys(f: Field, m: map<string, Source>)
    requires IsLeaf(f.ty) || f.key !in m
    ensures ErrorKeys(DecodeField(f, m).errors) == if DecodeField(f, m).errors != [] then [f.key] else []
  {
    var errs := DecodeField(f, m).errors;
    if errs != [] {
      assert f.key in m;
      assert |errs| == 1;
      assert errs[0] in errs;
    }
  }

  lemma TailKeys(fs: seq<Field>)
    requires fs != [] && Distinct(Keys(fs))
    ensures Distinct(Keys(fs[1..]))
    ensures fs[0].key !in Keys(fs[1..])
  {
    forall i, j | 0 <= i < j < |fs| - 1 ensures Keys(fs[1..])[i] != Keys(fs[1..])[j] {
      assert Keys(fs)[i + 1] != Keys(fs)[j + 1];
    }
    forall j | 0 <= j < |fs| - 1 ensures Keys(fs[1..])[j] != fs[0].key {
      assert Keys(fs)[j + 1] != Keys(fs)[0];
    }
  }

  /**
   * The walk never stops early and never duplicates: the error entries name
   * exactly the failing fields, one entry each, in table order.
   */
  lemma {:induction false} OneEntryPerFailingField(fs: seq<Field>, m: map<string, Source>)
    requires LeavesOnly(fs, m)
    ensures ErrorKeys(DecodeFields(fs, m).errors) == FailingKeys(fs, m)
    decreases fs
  {
    if fs != [] {
      assert LeavesOnly(fs[1..], m) by {
        forall i | 0 <= i < |fs| - 1 ensures IsLeaf(fs[1..][i].ty) || fs[1..][i].key !in m {
          assert fs[1..][i] == fs[i + 1];
        }
      }
      OneEntryPerFailingField(fs[1..], m);
      LeafFieldKeys(fs[0], m);
      ErrorKeysAppend(DecodeField(fs[0], m).errors, DecodeFields(fs[1..], m).errors);
    }
  }

  /** FailingKeys picks out table keys, in order, so distinct table keys give distinct failing keys. */
  lemma {:induction false} FailingKeysDistinct(fs: seq<Field>, m: map<string, Source>)
    requires Distinct(Keys(fs))
    ensures Distinct(FailingKeys(fs, m))
    ensures forall k | k in FailingKeys(fs, m) :: k in Keys(fs)
    decreases fs
  {
    if fs != [] {
      TailKeys(fs);
      FailingKeysDistinct(fs[1..], m);
      var tail := FailingKeys(fs[1..], m);
      assert fs[0].key !in tail;
      forall k | k in tail ensures k in Keys(fs) {
        var j :| 0 <= j < |fs| - 1 && Keys(fs[1..])[j] == k;
        assert Keys(fs)[j + 1] == k;
      }
      assert Keys(fs)[0] == fs[0].key;
    }
  }

  /** A field's key is among the failing keys exactly when that field reports an error. */
  lemma {:induction false} FailingKeysMembership(fs: seq<Field>, m: map<string, Source>, i: nat)
    requires Distinct(Keys(fs)) && i < |fs|
    ensures fs[i].key in FailingKeys(fs, m) <==> DecodeField(fs[i], m).errors != []
    decreases fs
  {
    TailKeys(fs);
    FailingKeysDistinct(fs[1..], m);
    if i > 0 {
      assert fs[1..][i - 1] == fs[i];
      FailingKeysMembership(fs[1..], m, i - 1);
      assert Keys(fs)[0] != Keys(fs)[i];
    }
  }

  /**
   * For a table with distinct keys whose decoded fields are all leaves: a
   * field fails exactly when one entry names its key, entries never repeat a
   * key, and every entry names a field of the table.
   */
  lemma ExactlyOneLinePerFailure(fs: seq<Field>, m: map<string, Source>)
    requires Distinct(Keys(fs)) && LeavesOnly(fs, m)
    ensures var ks := ErrorKeys(DecodeFields(fs, m).errors);
      && Distinct(ks)
      && (forall k | k in ks :: k in Keys(fs))
      && (forall i | 0 <= i < |fs| :: fs[i].key in ks <==> DecodeField(fs[i], m).errors != [])
  {
    OneEntryPerFailingField(fs, m);
    FailingKeysDistinct(fs, m);
    forall i | 0 <= i < |fs|
      ensures fs[i].key in FailingKeys(fs, m) <==> DecodeField(fs[i], m).errors != []
    {
      FailingKeysMembership(fs, m, i);
    }
  }

  /**
   * The keys of the failing leaves under one value, found without the
   * decoder's error lists: a scalar whose coercion fails, or a structure
   * given something other than a map, contributes its key once; a structure
   * given a map contributes the failing leaves of its own table; a nil
   * source contributes nothing.
   */
  function FailingLeaves(key: string, ty: FieldType, src: Source): seq<string>
    decreases ty
  {
    var s := Deref(src);
    if s.SNil? then []
    else
      match ty
      case TPtr(e) => FailingLeaves(key, e, s)
      case TNested(fs) => if s.SMap? then FailingLeafKeys(fs, s.entries) else [key]
      case _ => if Coerce(key, ty, s).Err? then [key] else []
  }

  function FailingLeafField(f: Field, m: map<string, Source>): seq<string>
    decreases f
  {
    if f.key in m then FailingLeaves(f.key, f.ty, m[f.key]) else []
  }

  /** The keys of the failing leaves of a whole table, in table order, nested tables in place. */
  function FailingLeafKeys(fs: seq<Field>, m: map<string, Source>): seq<string>
    decreases fs
  {
    if fs == [] then [] else FailingLeafField(fs[0], m) + FailingLeafKeys(fs[1..], m)
  }

  /**
   * For every table and every source, nested structures included: the
   * entries name exactly the failing leaves, one entry each, in table order.
   */
  lemma {:induction false} EntryPerFailingLeaf(fs: seq<Field>, m: map<string, Source>)
    ensures ErrorKeys(DecodeFields(fs, m).errors) == FailingLeafKeys(fs, m)
    decreases fs
  {
    if fs != [] {
      FieldEntries(fs[0], m);
      EntryPerFailingLeaf(fs[1..], m);
      ErrorKeysAppend(DecodeField(fs[0], m).errors, DecodeFields(fs[1..], m).errors);
    }
  }

  lemma {:induction false} FieldEntries(f: Field, m: map<string, Source>)
    ensures ErrorKeys(DecodeField(f, m).errors) == FailingLeafField(f, m)
    decreases f
  {
    if f.key in m {
      ValueEntries(f.key, f.ty, m[f.key]);
    }
  }

  lemma {:induction false} ValueEntries(key: string, ty: FieldType, src: Source)
    ensures ErrorKeys(DecodeValue(key, ty, src).errors) == FailingLeaves(key, ty, src)
    decreases ty
  {
    var s := Deref(src);
    if !s.SNil? {
      match ty
      case TPtr(e) => ValueEntries(key, e, s);
      case TNested(fs) =>
        if s.SMap? {
          EntryPerFailingLeaf(fs, s.entries);
        }
      case _ =>
    }
  }

  // ------------------------------------------------------- reading the text

  /** strings.Split(s, "\n"). */
  function Split(s: string): (r: seq<string>)
    ensures |r| >= 1
    decreases |s|
  {
    if s == [] then [""]
    else
      var t := Split(s[1..]);
      if s[0] == '\n' then [""] + t else [[s[0]] + t[0]] + t[1..]
  }

  /** unicode.IsSpace. */
  predicate IsSpace(c: char)
  {
    c in {'\t', '\n', '\r', ' '} || c as int in {0x0b, 0x0c, 0x85, 0xa0, 0x1680, 0x2028, 0x2029, 0x202f, 0x205f, 0x3000}
      || 0x2000 <= c as int <= 0x200a
  }

  function TrimLeft(s: string): string
  {
    if s != [] && IsSpace(s[0]) then TrimLeft(s[1..]) else s
  }

  function TrimRight(s: string): string
  {
    if s != [] && IsSpace(s[|s| - 1]) then TrimRight(s[..|s| - 1]) else s
  }

  /** strings.TrimSpace. */
  function TrimSpace(s: string): string
  {
    TrimRight(TrimLeft(s))
  }

  lemma {:induction false} SplitPlain(a: string)
    requires '\n' !in a
    ensures Split(a) == [a]
    decreases |a|
  {
    if a != [] {
      SplitPlain(a[1..]);
      assert [a[0]] + a[1..] == a;
    }
  }

  lemma {:induction false} SplitCons(a: string, rest: string)
    requires '\n' !in a
    ensures Split(a + "\n" + rest) == [a] + Split(rest)
    decreases |a|
  {
    var s := a + "\n" + rest;
    if a == [] {
      assert s == "\n" + rest;
      assert s[1..] == rest;
    } else {
      assert s[1..] == a[1..] + "\n" + rest;
      SplitCons(a[1..], rest);
      assert [a[0]] + a[1..] == a;
    }
  }

  /** Splitting joined lines on newlines gives the lines back, when none of them holds a newline. */
  lemma {:induction false} SplitJoin(lines: seq<string>)
    requires lines != [] && forall i | 0 <= i < |lines| :: '\n' !in lines[i]
    ensures Split(Join(lines)) == lines
    decreases |lines|
  {
    if |lines| == 1 {
      SplitPlain(lines[0]);
    } else {
      SplitCons(lines[0], Join(lines[1..]));
      SplitJoin(lines[1..]);
    }
  }

  /** An entry whose key, type name and kind name hold no newline. */
  predicate SingleLine(e: FieldError)
  {
    '\n' !in e.key && '\n' !in e.typeName && (e.Unconvertible? ==> '\n' !in e.kind)
  }

  /** Every line starts with '*', holds no newline and does not end in a space. */
  lemma LineShape(e: FieldError)
    requires SingleLine(e)
    ensures var l := Line(e); |l| > 0 && l[0] == '*' && '\n' !in l && !IsSpace(l[|l| - 1])
  {
    match e
    case Invalid(k, t, raw, cause) =>
      var head := "* error decoding '" + k + "': invalid " + t + " " + Quote(raw);
      var tail := match cause case None => "" case Some(c) => ": " + AtoiMessage(raw, c);
      HeadShape(k, t, raw);
      TailShape(raw, cause);
      ConcatShape(head, tail);
    case Unconvertible(k, t, kind) =>
      var l := "* '" + k + "' expected type '" + t + "', got unconvertible type '" + kind + "'";
      assert l[0] == '*' && l[|l| - 1] == '\'';
  }

  lemma HeadShape(k: string, t: string, raw: string)
    requires '\n' !in k && '\n' !in t
    ensures var h := "* error decoding '" + k + "': invalid " + t + " " + Quote(raw);
      |h| > 0 && h[0] == '*' && '\n' !in h && h[|h| - 1] == '"'
  {
    QuoteHasNoNewline(raw);
  }

  lemma TailShape(raw: string, cause: Option<NumError>)
    ensures var tail := match cause case None => "" case Some(c) => ": " + AtoiMessage(raw, c);
      '\n' !in tail && (tail != [] ==> !IsSpace(tail[|tail| - 1]))
  {
    QuoteHasNoNewline(raw);
    if cause.Some? {
      var end := if cause.value == Syntax then "invalid syntax" else "value out of range";
      var m := "strconv.Atoi: parsing " + Quote(raw) + ": " + end;
      assert m[|m| - 1] == end[|end| - 1];
    }
  }

  lemma ConcatShape(a: string, b: string)
    requires |a| > 0 && a[0] == '*' && '\n' !in a && '\n' !in b
    requires !IsSpace(if b == [] then a[|a| - 1] else b[|b| - 1])
    ensures var l := a + b; |l| > 0 && l[0] == '*' && '\n' !in l && !IsSpace(l[|l| - 1])
  {
    var l := a + b;
    if b != [] {
      assert l[|l| - 1] == b[|b| - 1];
    }
  }

  lemma {:induction false} JoinEnds(lines: seq<string>)
    requires lines != [] && forall i | 0 <= i < |lines| :: |lines[i]| > 0
    ensures var j := Join(lines); |j| > 0 && j[0] == lines[0][0] && j[|j| - 1] == lines[|lines| - 1][|lines[|lines| - 1]| - 1]
    decreases |lines|
  {
    if |lines| > 1 {
      JoinEnds(lines[1..]);
    }
  }

  lemma {:induction false} TrimLeftPlain(s: string)
    requires s != [] && !IsSpace(s[0])
    ensures TrimLeft(s) == s
  {
  }

  lemma {:induction false} TrimRightPlain(s: string)
    requires s != [] && !IsSpace(s[|s| - 1])
    ensures TrimRight(s) == s
  {
  }

  lemma TrimBody(j: string)
    requires j != [] && !IsSpace(j[0]) && !IsSpace(j[|j| - 1])
    ensures TrimSpace("\n\n" + j) == j
  {
    var s := "\n\n" + j;
    assert s[0] == '\n' && s[1..] == "\n" + j;
    assert ("\n" + j)[0] == '\n' && ("\n" + j)[1..] == j;
    TrimLeftPlain(j);
    assert TrimLeft(s) == TrimLeft("\n" + j) == j;
    TrimRightPlain(j);
  }

  lemma MessageParts(errs: seq<FieldError>)
    ensures var m := ErrorMessage(errs);
      var head := Itoa(|errs|) + Heading;
      |head| <= |m| && m[..|head|] == head && m[|head|..] == "\n\n" + Join(Lines(errs))
  {
    var head := Itoa(|errs|) + Heading;
    var m := ErrorMessage(errs);
    assert m == head + ("\n\n" + Join(Lines(errs)));
  }

  /** A line as the decoder writes it: it starts with '*', holds no newline and does not end in a space. */
  predicate LineOk(l: string)
  {
    |l| > 0 && l[0] == '*' && '\n' !in l && !IsSpace(l[|l| - 1])
  }

  lemma LinesOk(errs: seq<FieldError>)
    requires forall i | 0 <= i < |errs| :: SingleLine(errs[i])
    ensures forall i | 0 <= i < |errs| :: LineOk(Lines(errs)[i])
  {
    forall i | 0 <= i < |errs| ensures LineOk(Lines(errs)[i]) {
      LineShape(errs[i]);
    }
  }

  lemma JoinOk(ls: seq<string>)
    requires ls != [] && forall i | 0 <= i < |ls| :: LineOk(ls[i])
    ensures var j := Join(ls); j != [] && !IsSpace(j[0]) && !IsSpace(j[|j| - 1])
  {
    JoinEnds(ls);
    var last := ls[|ls| - 1];
    assert LineOk(last);
    assert LineOk(ls[0]);
  }

  /**
   * What a reader of the aggregate error gets back: the text opens with the
   * count and " error(s) decoding:", and the rest, trimmed and split on
   * newlines, is exactly one line per error entry, in order.
   */
  lemma ReadBack(errs: seq<FieldError>)
    requires errs != [] && forall i | 0 <= i < |errs| :: SingleLine(errs[i])
    ensures var m := ErrorMessage(errs);
      var head := Itoa(|errs|) + Heading;
      |head| <= |m| && m[..|head|] == head && Split(TrimSpace(m[|head|..])) == Lines(errs)
  {
    var ls := Lines(errs);
    MessageParts(errs);
    LinesOk(errs);
    JoinOk(ls);
    TrimBody(Join(ls));
    assert forall i | 0 <= i < |ls| :: '\n' !in ls[i] by {
      forall i | 0 <= i < |ls| ensures '\n' !in ls[i] {
        assert LineOk(ls[i]);
      }
    }
    SplitJoin(ls);
  }
}
