/**
 * The configuration structure's own keys, as its tags spell them, are
 * distinct and single-line, so the fixture theorems hold for them.
 */
module FixtureKeys {
  import opened Wrappers
  import opened Config
  import opened ConfigLaws
  import opened ConfigFixture

  /** No later key repeats key k. */
  predicate UniqueAt(ks: seq<string>, k: nat)
    requires k < |ks|
  {
    forall j | k < j < |ks| :: ks[j] != ks[k]
  }

  lemma UniqueInt(ks: seq<string>)
    requires ks == TestKeys
    ensures UniqueAt(ks, 0)
  {
  }

  lemma UniqueIntPtr(ks: seq<string>)
    requires ks == TestKeys
    ensures UniqueAt(ks, 1)
  {
  }

  lemma UniqueInt64(ks: seq<string>)
    requires ks == TestKeys
    ensures UniqueAt(ks, 2)
  {
  }

  lemma UniqueInt64Ptr(ks: seq<string>)
    requires ks == TestKeys
    ensures UniqueAt(ks, 3)
  {
  }

  lemma UniqueInt32(ks: seq<string>)
    requires ks == TestKeys
    ensures UniqueAt(ks, 4)
  {
  }

  lemma UniqueInt32Ptr(ks: seq<string>)
    requires ks == TestKeys
    ensures UniqueAt(ks, 5)
  {
  }

  lemma UniqueInt16(ks: seq<string>)
    requires ks == TestKeys
    ensures UniqueAt(ks, 6)
  {
  }

  lemma UniqueInt16Ptr(ks: seq<string>)
    requires ks == TestKeys
    ensures UniqueAt(ks, 7)
  {
  }

  lemma UniqueInt8(ks: seq<string>)
    requires ks == TestKeys
    ensures UniqueAt(ks, 8)
  {
  }

  lemma UniqueInt8Ptr(ks: seq<string>)
    requires ks == TestKeys
    ensures UniqueAt(ks, 9)
  {
  }

  lemma UniqueUint(ks: seq<string>)
    requires ks == TestKeys
    ensures UniqueAt(ks, 10)
  {
  }

  lemma UniqueUintPtr(ks: seq<string>)
    requires ks == TestKeys
    ensures UniqueAt(ks, 11)
  {
  }

  lemma UniqueUint64(ks: seq<string>)
    requires ks == TestKeys
    ensures UniqueAt(ks, 12)
  {
  }

  lemma UniqueUint64Ptr(ks: seq<string>)
    requires ks == TestKeys
    ensures UniqueAt(ks, 13)
  {
  }

  lemma UniqueUint32(ks: seq<string>)
    requires ks == TestKeys
    ensures UniqueAt(ks, 14)
  {
  }

  lemma UniqueUint32Ptr(ks: seq<string>)
    requires ks == TestKeys
    ensures UniqueAt(ks, 15)
  {
  }

  lemma UniqueUint16(ks: seq<string>)
    requires ks == TestKeys
    ensures UniqueAt(ks, 16)
  {
  }

  lemma UniqueUint16Ptr(ks: seq<string>)
    requires ks == TestKeys
    ensures UniqueAt(ks, 17)
  {
  }

  lemma UniqueByte(ks: seq<string>)
    requires ks == TestKeys
    ensures UniqueAt(ks, 18)
  {
  }

  lemma UniqueBytePtr(ks: seq<string>)
    requires ks == TestKeys
    ensures UniqueAt(ks, 19)
  {
  }

  lemma UniqueFloat64(ks: seq<string>)
    requires ks == TestKeys
    ensures UniqueAt(ks, 20)
  {
  }

  lemma UniqueFloat64Ptr(ks: seq<string>)
    requires ks == TestKeys
    ensures UniqueAt(ks, 21)
  {
  }

  lemma UniqueFloat32(ks: seq<string>)
    requires ks == TestKeys
    ensures UniqueAt(ks, 22)
  {
  }

  lemma UniqueFloat32Ptr(ks: seq<string>)
    requires ks == TestKeys
    ensures UniqueAt(ks, 23)
  {
  }

  lemma UniqueBool(ks: seq<string>)
    requires ks == TestKeys
    ensures UniqueAt(ks, 24)
  {
  }

  lemma UniqueBoolPtr(ks: seq<string>)
    requires ks == TestKeys
    ensures UniqueAt(ks, 25)
  {
  }

  lemma UniqueDuration(ks: seq<string>)
    requires ks == TestKeys
    ensures UniqueAt(ks, 26)
  {
  }

  lemma UniqueDurationPtr(ks: seq<string>)
    requires ks == TestKeys
    ensures UniqueAt(ks, 27)
  {
  }

  lemma UniqueTime(ks: seq<string>)
    requires ks == TestKeys
    ensures UniqueAt(ks, 28)
  {
  }

  lemma UniqueTimePtr(ks: seq<string>)
    requires ks == TestKeys
    ensures UniqueAt(ks, 29)
  {
  }

  lemma UniqueString(ks: seq<string>)
    requires ks == TestKeys
    ensures UniqueAt(ks, 30)
  {
  }

  lemma UniqueStringPtr(ks: seq<string>)
    requires ks == TestKeys
    ensures UniqueAt(ks, 31)
  {
  }

  lemma UniqueDecoded(ks: seq<string>)
    requires ks == TestKeys
    ensures UniqueAt(ks, 32)
  {
  }

  lemma UniqueDecodedPtr(ks: seq<string>)
    requires ks == TestKeys
    ensures UniqueAt(ks, 33)
  {
  }

  lemma UniqueNested(ks: seq<string>)
    requires ks == TestKeys
    ensures UniqueAt(ks, 34)
  {
  }

  lemma UniqueLow(ks: seq<string>, k: nat)
    requires ks == TestKeys && 0 <= k < 18
    ensures UniqueAt(ks, k)
  {
    if k == 0 { UniqueInt(ks); }
    else if k == 1 { UniqueIntPtr(ks); }
    else if k == 2 { UniqueInt64(ks); }
    else if k == 3 { UniqueInt64Ptr(ks); }
    else if k == 4 { UniqueInt32(ks); }
    else if k == 5 { UniqueInt32Ptr(ks); }
    else if k == 6 { UniqueInt16(ks); }
    else if k == 7 { UniqueInt16Ptr(ks); }
    else if k == 8 { UniqueInt8(ks); }
    else if k == 9 { UniqueInt8Ptr(ks); }
    else if k == 10 { UniqueUint(ks); }
    else if k == 11 { UniqueUintPtr(ks); }
    else if k == 12 { UniqueUint64(ks); }
    else if k == 13 { UniqueUint64Ptr(ks); }
    else if k == 14 { UniqueUint32(ks); }
    else if k == 15 { UniqueUint32Ptr(ks); }
    else if k == 16 { UniqueUint16(ks); }
    else { UniqueUint16Ptr(ks); }
  }

  lemma UniqueHigh(ks: seq<string>, k: nat)
    requires ks == TestKeys && 18 <= k < 35
    ensures UniqueAt(ks, k)
  {
    if k == 18 { UniqueByte(ks); }
    else if k == 19 { UniqueBytePtr(ks); }
    else if k == 20 { UniqueFloat64(ks); }
    else if k == 21 { UniqueFloat64Ptr(ks); }
    else if k == 22 { UniqueFloat32(ks); }
    else if k == 23 { UniqueFloat32Ptr(ks); }
    else if k == 24 { UniqueBool(ks); }
    else if k == 25 { UniqueBoolPtr(ks); }
    else if k == 26 { UniqueDuration(ks); }
    else if k == 27 { UniqueDurationPtr(ks); }
    else if k == 28 { UniqueTime(ks); }
    else if k == 29 { UniqueTimePtr(ks); }
    else if k == 30 { UniqueString(ks); }
    else if k == 31 { UniqueStringPtr(ks); }
    else if k == 32 { UniqueDecoded(ks); }
    else if k == 33 { UniqueDecodedPtr(ks); }
    else { UniqueNested(ks); }
  }

  lemma TestKeysGood(ks: seq<string>)
    requires ks == TestKeys
    ensures GoodKeys(ks)
  {
    forall i, j | 0 <= i < j < |ks| ensures ks[i] != ks[j] {
      if i < 18 { UniqueLow(ks, i); } else { UniqueHigh(ks, i); }
    }
    assert forall i | 0 <= i < |ks| :: '\n' !in ks[i];
  }

  /**
   * The structure under its own keys: both good inputs decode to the
   * expected structure without error; the bad input gives 32 entries, one
   * per failing field, and the message heading "32 error(s) decoding:".
   */
  lemma TestStructure()
    ensures DecodeInput(TableOf(TestKeys), SMap(NativeInput(TestKeys))) == StructOutcome(Build(TableOf(TestKeys), ExpectedValues), [])
    ensures DecodeInput(TableOf(TestKeys), SMap(TextInput(TestKeys))) == StructOutcome(Build(TableOf(TestKeys), ExpectedValues), [])
    ensures var errs := DecodeInput(TableOf(TestKeys), SMap(BadInput(TestKeys))).errors;
      && |errs| == 32
      && Distinct(ErrorKeys(errs))
      && (forall i | 0 <= i < FieldCount :: TestKeys[i] in ErrorKeys(errs) <==> FailureAt(i).Some?)
      && var m, head := ErrorMessage(errs), "32" + Heading;
      && |head| <= |m| && m[..|head|] == head
      && Split(TrimSpace(m[|head|..])) == Lines(errs)
  {
    TestKeysGood(TestKeys);
    GoodInputsDecode(TestKeys);
    BadInputErrors(TestKeys);
    BadInputMessage(TestKeys);
  }
}
