/** The pure part of `signISCNTx`: choosing between a create and an update
    message, building it around the formatted record, and estimating its gas.
    Wallet, client, signing and broadcasting are outside this model; the
    signer's address and the message serialiser are parameters. */
module TxMessage {
  import opened JsValues
  import opened PayloadFormatter
  import opened GasEstimator
  import opened Decimal

  const CreateTypeUrl: string := "/likechain.iscn.MsgCreateIscnRecord"
  const UpdateTypeUrl: string := "/likechain.iscn.MsgUpdateIscnRecord"

  /** The message `value`: `{ from, record }`, with an `iscnId` property only
      on an update. */
  datatype MsgValue = MsgValue(from: string, record: Record, iscnId: Option<Value>)

  datatype Message = Message(typeUrl: string, value: MsgValue)

  /** What `signISCNTx` hands to `client.sign` besides the address and memo. */
  datatype SignRequest = SignRequest(message: Message, fee: GasEstimate)

  /** `const { iscnId, ...payload } = inputPayload` followed by the message
      literal: an update exactly when `iscnId` is truthy. The record is always
      formatted with the default version 1. */
  function BuildMessage(input: map<string, Value>, address: string): (m: Message)
    ensures m.value.from == address
    ensures m.typeUrl == UpdateTypeUrl <==> Truthy(Lookup(input, "iscnId"))
    ensures m.typeUrl == CreateTypeUrl <==> !Truthy(Lookup(input, "iscnId"))
    ensures m.value.iscnId.Some? <==> Truthy(Lookup(input, "iscnId"))
    ensures m.value.iscnId.Some? ==> m.value.iscnId.value == input["iscnId"]
    ensures m.value.record == FormatPayload(input - {"iscnId"}, 1)
  {
    var iscnId := Lookup(input, "iscnId");
    var isUpdate := Truthy(iscnId);
    var record := FormatPayload(Rest(input, {"iscnId"}), 1);
    var value := MsgValue(address, record, if isUpdate then Some(iscnId) else None);
    Message(if isUpdate then UpdateTypeUrl else CreateTypeUrl, value)
  }

  /** The message and the gas estimate over its stable serialisation, whose
      byte length `serialisedLength` stands for
      `Buffer.from(jsonStringify(message)).length`. */
  function BuildSignRequest(input: map<string, Value>, address: string, serialisedLength: Message -> nat): (r: SignRequest)
    ensures r.message == BuildMessage(input, address)
    ensures |r.fee.amount| == 1 && r.fee.amount[0].denom == FeeDenom
    ensures Canonical(r.fee.gas) && Canonical(r.fee.amount[0].amount)
    ensures ParseDecimal(r.fee.gas) == GasUnits(serialisedLength(r.message)) >= 149444
    ensures ParseDecimal(r.fee.amount[0].amount) == FeeUnits(serialisedLength(r.message))
  {
    var message := BuildMessage(input, address);
    GasLowerBound(serialisedLength(message));
    SignRequest(message, EstimateGas(serialisedLength(message)))
  }

  /** The record never carries the `iscnId` of the input: it is taken off the
      payload before formatting, so it cannot leak into the metadata. */
  lemma IscnIdNotInRecord(input: map<string, Value>, address: string)
    ensures "iscnId" !in BuildMessage(input, address).value.record.contentMetadata
  {
  }

  /** Create and update messages for the same content carry the same record;
      only the type URL and the `iscnId` property differ. */
  lemma UpdateCarriesSameRecord(input: map<string, Value>, address: string, id: Value)
    requires Truthy(id)
    ensures var create := BuildMessage(input - {"iscnId"}, address);
            var update := BuildMessage(input["iscnId" := id], address);
            && create.typeUrl == CreateTypeUrl && create.value.iscnId == None
            && update.typeUrl == UpdateTypeUrl && update.value.iscnId == Some(id)
            && create.value.record == update.value.record
  {
    assert (input - {"iscnId"}) - {"iscnId"} == input["iscnId" := id] - {"iscnId"};
  }
}
