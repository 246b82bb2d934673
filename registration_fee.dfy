/** The byte arithmetic of `estimateISCNTxFee`: the registration fee quoted
    before a record is sent. A representative ISCN envelope is built around
    the formatted record, and the fee is the rate per byte times the size of
    the envelope's JSON plus the stakeholder and metadata bytes. The rate
    (from the fee oracle), the timestamp (from the clock) and the serialised
    lengths (JSON plus UTF-8) are parameters. */
module RegistrationFee {
  import opened JsValues
  import opened PayloadFormatter

  const RegistryName: string := "likecoin-chain"
  const PlaceholderId: string := "iscn://" + RegistryName + "/btC7CJvMm4WLj9Tau9LAPTfGK7sfymTJW7ORcFdruCU/1"
  const PlaceholderParent: string := "bahuaierav3bfvm4ytx7gvn4yqeu4piiocuvtvdpyyb5f6moxniwemae4tjyq"

  /** The envelope's varying fields. Its `@context` and `@type: 'Record'` are
      the same for every call and are part of what `envelopeLength` measures. */
  datatype Envelope = Envelope(
    id: string,
    recordTimestamp: string,
    recordVersion: int,
    recordNotes: string,
    contentFingerprints: Value,
    recordParentIPLD: map<string, string>)

  /** The envelope literal, with the parent link replaced by the placeholder
      for a version above 1. */
  function BuildEnvelope(record: Record, version: int, timestamp: string): (e: Envelope)
    ensures e.id == PlaceholderId && e.recordTimestamp == timestamp && e.recordVersion == version
    ensures e.recordNotes == record.recordNotes && e.contentFingerprints == record.contentFingerprints
    ensures version <= 1 ==> e.recordParentIPLD == map[]
    ensures version > 1 ==> e.recordParentIPLD == map["/" := PlaceholderParent]
  {
    var parent := if version > 1 then map["/" := PlaceholderParent] else map[];
    Envelope(PlaceholderId, timestamp, version, record.recordNotes, record.contentFingerprints, parent)
  }

  /** `stakeholders.reduce((acc, s) => acc + s.length, 0)`: no bytes for no
      stakeholders, the one blob's length for one, and never less than any
      single blob. */
  function SumLengths(stakeholders: seq<Stakeholder>, length: Stakeholder -> nat): (total: nat)
    ensures |stakeholders| == 0 ==> total == 0
    ensures |stakeholders| == 1 ==> total == length(stakeholders[0])
    ensures forall i :: 0 <= i < |stakeholders| ==> length(stakeholders[i]) <= total
  {
    if |stakeholders| == 0 then 0
    else SumLengths(stakeholders[..|stakeholders| - 1], length) + length(stakeholders[|stakeholders| - 1])
  }

  /** The bytes of the author stakeholder blob, or none when `author` is
      falsy and no stakeholder is pushed. */
  function AuthorBytes(payload: map<string, Value>, stakeholderLength: Stakeholder -> nat): nat {
    var author := Lookup(payload, "author");
    if Truthy(author) then stakeholderLength(Stakeholders(author)[0]) else 0
  }

  /** `byteSize` of `estimateISCNTxFee`: the envelope, built with the requested
      version around a record formatted with version 1, plus the author
      stakeholder when there is one, plus the metadata of that record. */
  function ByteSize(
    payload: map<string, Value>, version: int, timestamp: string,
    envelopeLength: Envelope -> nat, stakeholderLength: Stakeholder -> nat,
    metadataLength: map<string, Value> -> nat): (size: nat)
    ensures size == envelopeLength(BuildEnvelope(FormatPayload(payload, 1), version, timestamp))
      + AuthorBytes(payload, stakeholderLength)
      + metadataLength(FormatPayload(payload, 1).contentMetadata)
  {
    var record := FormatPayload(payload, 1);
    assert SumLengths(record.stakeholders, stakeholderLength) == AuthorBytes(payload, stakeholderLength);
    envelopeLength(BuildEnvelope(record, version, timestamp))
      + SumLengths(record.stakeholders, stakeholderLength)
      + metadataLength(record.contentMetadata)
  }

  /** `estimateISCNTxFee(payload, { version })` with the oracle's rate: the
      rate times the envelope, author stakeholder and metadata bytes. */
  function EstimateFee(
    payload: map<string, Value>, version: int, feePerByte: nat, timestamp: string,
    envelopeLength: Envelope -> nat, stakeholderLength: Stakeholder -> nat,
    metadataLength: map<string, Value> -> nat): (fee: nat)
    ensures fee == (envelopeLength(BuildEnvelope(FormatPayload(payload, 1), version, timestamp))
      + AuthorBytes(payload, stakeholderLength)
      + metadataLength(FormatPayload(payload, 1).contentMetadata)) * feePerByte
  {
    ByteSize(payload, version, timestamp, envelopeLength, stakeholderLength, metadataLength) * feePerByte
  }

  /** The fee is linear in the rate per byte: quoting at the sum of two rates
      gives the sum of the two quotes, and doubling the rate doubles the fee. */
  lemma FeeLinearInRate(
    payload: map<string, Value>, version: int, rate1: nat, rate2: nat, timestamp: string,
    envelopeLength: Envelope -> nat, stakeholderLength: Stakeholder -> nat,
    metadataLength: map<string, Value> -> nat)
    ensures EstimateFee(payload, version, rate1 + rate2, timestamp, envelopeLength, stakeholderLength, metadataLength)
      == EstimateFee(payload, version, rate1, timestamp, envelopeLength, stakeholderLength, metadataLength)
       + EstimateFee(payload, version, rate2, timestamp, envelopeLength, stakeholderLength, metadataLength)
    ensures EstimateFee(payload, version, 2 * rate1, timestamp, envelopeLength, stakeholderLength, metadataLength)
      == 2 * EstimateFee(payload, version, rate1, timestamp, envelopeLength, stakeholderLength, metadataLength)
  {
    var size := ByteSize(payload, version, timestamp, envelopeLength, stakeholderLength, metadataLength);
    assert size * (rate1 + rate2) == size * rate1 + size * rate2;
    assert size * (2 * rate1) == 2 * (size * rate1);
  }

  /** Versions 1 and below measure an empty parent link; every version above
      1 measures the same placeholder link, so the quote does not depend on
      which higher version is asked for except through `recordVersion`. */
  lemma ParentLinkByVersion(record: Record, v1: int, v2: int, timestamp: string)
    requires v1 > 1 && v2 > 1
    ensures BuildEnvelope(record, v1, timestamp).recordParentIPLD == BuildEnvelope(record, v2, timestamp).recordParentIPLD
    ensures BuildEnvelope(record, 1, timestamp).recordParentIPLD != BuildEnvelope(record, v1, timestamp).recordParentIPLD
  {
    assert "/" in BuildEnvelope(record, v1, timestamp).recordParentIPLD;
  }
}
