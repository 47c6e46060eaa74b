/** State storage: one persisted record per user, under a key derived from the user id. The store
    is an abstract key-to-record map; encoding and expiry are not modelled. */
module Storage {
  import opened Wrappers
  import opened Extractors
  import opened Fields

  const CommandStatePrefix := "command.state.user."
  const NoActiveWizardTr := "wizard.active.not.set"

  /** The persisted part of a field: extractors and descriptors are never stored. */
  datatype StoredField = StoredField(name: string, data: FieldValue, wasRequested: bool, fieldType: FieldType)

  /** The persisted part of a form. */
  datatype FormRecord = FormRecord(fields: seq<StoredField>, index: nat, wizardType: string)

  /** Errors of a lookup: the store's "no such key" (which callers read as "no form"), or any other
      failure of the store. */
  datatype StorageError = NotFound | Failed(message: string)

  function Store(f: Field): StoredField {
    StoredField(f.name, f.data, f.wasRequested, f.fieldType)
  }

  function Load(s: StoredField): Field {
    Field(s.name, s.data, s.wasRequested, s.fieldType, None)
  }

  function StoreAll(fs: seq<Field>): (r: seq<StoredField>)
    ensures |r| == |fs| && forall i :: 0 <= i < |fs| ==> r[i] == Store(fs[i])
  {
    seq(|fs|, i requires 0 <= i < |fs| => Store(fs[i]))
  }

  function LoadAll(ss: seq<StoredField>): (r: seq<Field>)
    ensures |r| == |ss| && forall i :: 0 <= i < |ss| ==> r[i] == Load(ss[i])
  {
    seq(|ss|, i requires 0 <= i < |ss| => Load(ss[i]))
  }

  /** Saving and loading fields keeps name, value, requested flag and type, and drops only the
      extractor; loading then saving gives back the stored fields. */
  lemma FieldsRoundTrip(fs: seq<Field>, ss: seq<StoredField>)
    ensures |LoadAll(StoreAll(fs))| == |fs|
    ensures forall i :: 0 <= i < |fs| ==> LoadAll(StoreAll(fs))[i] == fs[i].(extractor := None)
    ensures StoreAll(LoadAll(ss)) == ss
  {
  }

  // Decimal rendering of a user id, as strconv.FormatInt(uid, 10) does it.

  predicate IsDigit(c: char) {
    '0' <= c <= '9'
  }

  function DigitChar(d: nat): (c: char)
    requires d < 10
    ensures IsDigit(c)
  {
    ('0' as int + d) as char
  }

  function DigitValue(c: char): nat
    requires IsDigit(c)
  {
    c as int - '0' as int
  }

  predicate AllDigits(s: string) {
    forall i :: 0 <= i < |s| ==> IsDigit(s[i])
  }

  /** The decimal digits of `n`, without leading zeros. */
  function FormatNat(n: nat): (s: string)
    ensures |s| > 0 && AllDigits(s)
  {
    if n < 10 then [DigitChar(n)] else FormatNat(n / 10) + [DigitChar(n % 10)]
  }

  /** The decimal rendering of `n`, with a leading minus sign when negative. */
  function FormatInt(n: int): (s: string)
    ensures |s| > 0
    ensures n >= 0 ==> AllDigits(s) && ParseNat(s) == n
    ensures n < 0 ==> s[0] == '-' && AllDigits(s[1..]) && ParseNat(s[1..]) == -n
  {
    if n < 0 then
      ParseFormatNat(-n);
      var s := "-" + FormatNat(-n);
      assert s[1..] == FormatNat(-n);
      s
    else
      ParseFormatNat(n);
      FormatNat(n)
  }

  /** The value of a string of decimal digits. */
  function ParseNat(s: string): nat
    requires AllDigits(s)
  {
    if s == [] then 0 else ParseNat(s[..|s| - 1]) * 10 + DigitValue(s[|s| - 1])
  }

  lemma {:induction false} ParseFormatNat(n: nat)
    ensures ParseNat(FormatNat(n)) == n
  {
    if n >= 10 {
      var s := FormatNat(n);
      assert s[..|s| - 1] == FormatNat(n / 10);
      ParseFormatNat(n / 10);
    }
  }

  /** A rendering starts with a minus sign exactly when the number is negative. */
  lemma SignOfFormatInt(n: int)
    ensures |FormatInt(n)| > 0 && (FormatInt(n)[0] == '-' <==> n < 0)
  {
    if n >= 0 {
      assert IsDigit(FormatNat(n)[0]);
    }
  }

  /** Distinct numbers have distinct decimal renderings. */
  lemma FormatIntInjective(a: int, b: int)
    requires FormatInt(a) == FormatInt(b)
    ensures a == b
  {
    SignOfFormatInt(a);
    SignOfFormatInt(b);
    if a < 0 && b < 0 {
      assert FormatNat(-a) == FormatInt(a)[1..];
      assert FormatNat(-b) == FormatInt(b)[1..];
      ParseFormatNat(-a);
      ParseFormatNat(-b);
    } else if a >= 0 && b >= 0 {
      ParseFormatNat(a);
      ParseFormatNat(b);
    }
  }

  /** The storage key of a user. */
  function StateKey(uid: int): (k: string)
    ensures |k| > |CommandStatePrefix| && k[..|CommandStatePrefix|] == CommandStatePrefix
    ensures k[|CommandStatePrefix|..] == FormatInt(uid)
  {
    CommandStatePrefix + FormatInt(uid)
  }

  /** Distinct users have distinct keys, so each user has a record of their own. */
  lemma StateKeyInjective(a: int, b: int)
    requires a != b
    ensures StateKey(a) != StateKey(b)
  {
    if StateKey(a) == StateKey(b) {
      var n := |CommandStatePrefix|;
      assert StateKey(a)[n..] == FormatInt(a);
      assert StateKey(b)[n..] == FormatInt(b);
      FormatIntInjective(a, b);
    }
  }

  /** The store: at most one record per key. */
  class StateStorage {
    var records: map<string, FormRecord>

    /** An empty abstract store; the connection to an existing database is not modelled. */
    constructor ()
      ensures records == map[]
    {
      records := map[];
    }

    /** The user's current record, or NotFound when there is none. */
    method GetCurrentState(uid: int) returns (r: Result<FormRecord, StorageError>)
      ensures StateKey(uid) in records ==> r == Success(records[StateKey(uid)])
      ensures StateKey(uid) !in records ==> r == Failure(NotFound)
    {
      var key := StateKey(uid);
      if key in records {
        r := Success(records[key]);
      } else {
        r := Failure(NotFound);
      }
    }

    /** Store the user's record, replacing the previous one. */
    method SaveState(uid: int, rec: FormRecord)
      modifies this
      ensures records == old(records)[StateKey(uid) := rec]
    {
      records := records[StateKey(uid) := rec];
    }

    /** Delete the user's record; deleting a missing one reports that no wizard is active. */
    method DeleteState(uid: int) returns (err: Option<string>)
      modifies this
      ensures err.None? <==> StateKey(uid) in old(records)
      ensures err.Some? ==> err.value == NoActiveWizardTr
      ensures records == old(records) - {StateKey(uid)}
    {
      var key := StateKey(uid);
      if key in records {
        records := records - {key};
        err := None;
      } else {
        err := Some(NoActiveWizardTr);
      }
    }
  }

  /** Save, then get, gives back what was saved; another user's save does not disturb it. */
  method SaveThenGet(s: StateStorage, uid: int, other: int, rec: FormRecord, otherRec: FormRecord)
    returns (r: Result<FormRecord, StorageError>)
    requires uid != other
    modifies s
    ensures r == Success(rec)
  {
    s.SaveState(uid, rec);
    s.SaveState(other, otherRec);
    StateKeyInjective(uid, other);
    r := s.GetCurrentState(uid);
  }
}
