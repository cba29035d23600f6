/** The field normaliser of the reconciliation report: turning a record line
    into a dict, and the bank-code and account-type lookups. */
module Normalizer {
  import opened Values
  import opened FlatJson

  /** The one key whose 'None' sentinel becomes an empty string. */
  const RfcCurp := "rfc_curp_beneficiario"

  /** The sentinel the report writes for a missing value. */
  const NoneText := Str("None")

  function Normalized(key: string, v: Value): Value
  {
    if v == NoneText then (if key == RfcCurp then Str("") else Null) else v
  }

  /** What `serialize(line)` returns: the line with its single quotes made
      double, decoded, and every 'None' replaced. */
  function Serialized(line: string): Result<Dict>
  {
    match Decode(Requote(line))
    case Err(e) => Err(e)
    case Ok(d) => Ok(map k | k in d :: Normalized(k, d[k]))
  }

  /** `serialize`: the dict is decoded and then updated value by value. */
  method Serialize(line: string) returns (r: Result<Dict>)
    ensures r == Serialized(line)
    ensures r.Ok? <==> Decode(Requote(line)).Ok?
    ensures r.Err? ==> r.error == Decode(Requote(line)).error
    ensures r.Ok? ==> var d := Decode(Requote(line)).value;
      && r.value.Keys == d.Keys
      && (forall k :: k in d && d[k] != Str("None") ==> r.value[k] == d[k])
      && (forall k :: k in d && d[k] == Str("None") && k == "rfc_curp_beneficiario" ==> r.value[k] == Str(""))
      && (forall k :: k in d && d[k] == Str("None") && k != "rfc_curp_beneficiario" ==> r.value[k] == Null)
  {
    var decoded := Decode(Requote(line));
    if decoded.Err? {
      return Err(decoded.error);
    }
    var data := decoded.value;
    var pending := data.Keys;
    while pending != {}
      invariant pending <= data.Keys == decoded.value.Keys
      invariant forall k :: k in data ==>
        data[k] == if k in pending then decoded.value[k] else Normalized(k, decoded.value[k])
      decreases pending
    {
      var key :| key in pending;
      if data[key] == NoneText {
        if key == RfcCurp {
          data := data[key := Str("")];
        } else {
          data := data[key := Null];
        }
      }
      pending := pending - {key};
    }
    assert data == map k | k in decoded.value :: Normalized(k, decoded.value[k]);
    return Ok(data);
  }

  /** `stp_to_spei_bank_code`: the table's entry for the code, None for a
      code the table lacks; it cannot raise. */
  function BankCode(banks: map<string, string>, code: string): (r: Option<string>)
    ensures r.Some? <==> code in banks
    ensures r.Some? ==> r.value == banks[code]
  {
    if code in banks then Some(banks[code]) else None
  }

  /** `get_account_type`: the first two characters of the bank code of the
      account's first three characters; None for an empty account. Slicing a
      truthy value that is not a string raises TypeError. */
  function AccountType(banks: map<string, string>, account: Value): (r: Result<Option<string>>)
    ensures !Truthy(account) ==> r == Ok(None)
    ensures r.Err? <==> Truthy(account) && !account.Str?
    ensures r.Ok? && r.value.Some? ==>
      && account.Str? && Slice(account.s, 3) in banks
      && r.value.value == Slice(banks[Slice(account.s, 3)], 2)
      && |r.value.value| <= 2
    ensures account.Str? && account.s != [] ==>
      r.Ok? && (r.value.Some? <==> Slice(account.s, 3) in banks)
  {
    if !Truthy(account) then Ok(None)
    else if !account.Str? then Err(TypeError)
    else
      var code := BankCode(banks, Slice(account.s, 3));
      if code.Some? && Truthy(Str(code.value)) then Ok(Some(Slice(code.value, 2)))
      else Ok(code)
  }

  /** A record line of the report decodes to its fields, every 'None'
      replaced. */
  lemma SerializeRendered(fs: seq<Field>)
    requires RenderableFields(fs)
    ensures Serialized(ObjectText('\'', fs)) == Ok(map k | k in ToDict(fs) :: Normalized(k, ToDict(fs)[k]))
  {
    RequoteObject(fs);
    DecodeRound(fs);
  }
}
