# ISCN transaction construction, modelled in Dafny

This project models how the ISCN batch uploader builds a transaction. The
transaction registers or updates an ISCN content-provenance record on
LikeCoin chain. The model covers five parts of `util/iscn.js`, all as pure
functions with their proofs:

- **Gas and fee estimator** (`estimateISCNTxGas`). Gas is a linear fit over
  the byte length `n` of the stable JSON of the message:
  `n * 3.58 + 99443.87 + 50000`. The fee is ten times the *unrounded* gas.
  Both are rounded with bignumber.js rounding mode 0 (ROUND_UP, away from
  zero) and rendered as decimal strings. The model works in hundredths, so it
  is exact: gas = ⌈(358n + 14944387)/100⌉ and fee = ⌈(358n + 14944387)/10⌉.
- **Payload formatter** (`formatISCNPayload`). It maps a payload object to the
  record's fingerprints, at most one author stakeholder, and a JSON-LD
  metadata object. Passthrough fields go into the metadata, but the fixed
  keys override them. JavaScript truthiness decides `hashes || [hash]`,
  `if (author)` and `type || 'CreativeWork'`.
- **Message builder** (the pure part of `signISCNTx`). It builds
  `MsgUpdateIscnRecord` with `value.iscnId` exactly when `iscnId` is truthy,
  and `MsgCreateIscnRecord` without it otherwise. It then estimates gas over
  the message's serialised length.
- **Receipt parser** (`parseISCNTxInfoFromTxSuccess`). It copies the
  transaction hash. The record id is the first attribute's `value` of the
  first `iscn_record` event in the first log entry. Where the code throws,
  the model returns a `Failure` result.
- **Registration fee** (`estimateISCNTxFee`). The fee is
  (envelope JSON length + stakeholder bytes + metadata bytes) × rate. The
  envelope carries a placeholder parent link for versions above 1. The
  record inside is always formatted with version 1.

JavaScript values are a datatype (`JsValues.Value`) with explicit truthiness,
property reads, `||` and object rest. Some things are parameters rather than
code: JSON serialisation and UTF-8 lengths are length functions, `JSON.parse`
is a function to `Option<Value>`, and the clock, the fee oracle's rate and the
signer's address are plain inputs.

Three facts about the code that a reader might not expect:

- Gas and fee are rounded up (bignumber.js rounding mode 0), not truncated.
  For a 1000-byte message, 1000 × 3.58 + 99443.87 + 50000 is 153023.87, so
  gas is 153024 and the fee is 1530239 (`GasEstimator.Examples`).
- The fee is computed from the unrounded gas. It can therefore be up to 9
  below the rounded gas times 10 (`GasEstimator.FeeVersusRoundedGas`,
  `GasEstimator.FeeNotRoundedGasTimesPrice`).
- The receipt parser throws in five cases: malformed JSON, a parsed log
  that is not iterable, a first entry without an `events` array, a null
  event reached before a match, and a matched event without a first
  attribute. Each of these is a `TxReceipt.ParseError`.

## Model

| member | source | states |
|---|---|---|
| `Decimal.ToDecimal` | util/iscn.js:65-66 | the rendered amount is a canonical digit string (digits only, no leading zero), and "0" exactly for zero |
| `Decimal.ParseToDecimal` | util/iscn.js:65-66 | reading the rendered decimal string back gives the number |
| `Decimal.ToDecimalInjective` | util/iscn.js:65-66 | distinct amounts render as distinct strings |
| `GasEstimator.RoundUp` | util/iscn.js:65-66 | rounding mode 0 gives the least integer not below num/den |
| `GasEstimator.GasUnits` | util/iscn.js:58-62 | the gas limit is the ceiling of n·3.58 + 99443.87 + 50000 |
| `GasEstimator.FeeUnits` | util/iscn.js:63-65 | the fee is the ceiling of 10 × the unrounded gas |
| `GasEstimator.EstimateGas` | util/iscn.js:57-68 | exactly one coin, denominated `nanolike`; the amount and gas strings are canonical decimals whose values are the ceilings above |
| `GasEstimator.RoundUpMonotone` | util/iscn.js:65-66 | rounding up is monotone in the numerator |
| `GasEstimator.GasLowerBound` | util/iscn.js:59-62 | gas is at least 149444 for every message |
| `GasEstimator.GasMonotone` | util/iscn.js:58-62 | gas does not decrease as the message grows |
| `GasEstimator.FeeMonotone` | util/iscn.js:63-65 | the fee does not decrease as the message grows |
| `GasEstimator.FeeVersusRoundedGas` | util/iscn.js:63-66 | fee ≤ 10 × rounded gas ≤ fee + 9 |
| `GasEstimator.Examples` | util/iscn.js:57-68 | 1000 bytes give gas 153024 and fee 1530239; 0 bytes give 149444 and 1494439 |
| `GasEstimator.FeeNotRoundedGasTimesPrice` | util/iscn.js:63-66 | some message length has a fee different from 10 × rounded gas |
| `PayloadFormatter.FormatPayload` | util/iscn.js:70-110 | fingerprints are `hashes` when truthy, else `[hash]`; the stakeholder list has at most one entry, present iff `author` is truthy, with id = name = author, proportion 1 and the schema.org author contribution type; notes are empty; the metadata keys are exactly the passthrough keys plus the fixed keys; passthrough values are kept unless a fixed key overrides them; `hash`, `hashes` and `type` never appear; `@context` is fixed; `@type` is `type` or `CreativeWork`; version, title, author, description and url come from the inputs |
| `PayloadFormatter.MetadataCongruence` | util/iscn.js:71-103 | the metadata depends only on the passthrough fields outside the fixed keys and on the destructured fields |
| `PayloadFormatter.OverriddenPassthroughIgnored` | util/iscn.js:94-103 | with or without a payload field named `@context`, `@type` or `version`, the formatted record and its metadata object are the same (the position of the key in the serialised metadata aside) |
| `TxMessage.BuildMessage` | util/iscn.js:176-189 | update type URL and `value.iscnId` present iff `iscnId` is truthy, create type URL otherwise; `from` is the address; the record is the payload without `iscnId`, formatted with version 1 |
| `TxMessage.BuildSignRequest` | util/iscn.js:186-190 | the fee is the gas estimate of the built message's serialised length: one `nanolike` coin, gas ≥ 149444 |
| `TxMessage.IscnIdNotInRecord` | util/iscn.js:176-178 | the input's `iscnId` never reaches the record metadata |
| `TxMessage.UpdateCarriesSameRecord` | util/iscn.js:176-189 | create and update messages for the same content carry the same record and differ only in type URL and `iscnId` |
| `TxReceipt.FindIscnEvent` | util/iscn.js:47 | `find` returns the index of the first `iscn_record` event, or none when no event matches; it fails exactly when a null event comes before any match |
| `TxReceipt.FirstOfIterable` | util/iscn.js:45 | destructuring succeeds only on arrays and strings; for an array it yields the first element or undefined |
| `TxReceipt.ParseTxInfo` | util/iscn.js:41-55 | the hash is copied verbatim; no or empty raw log gives an undefined id; an empty log array or an empty parsed string gives an undefined id; malformed JSON and a non-iterable log are errors; a truthy first entry of any kind (object, number, string, array) without an `events` array is an error, and so is a log that parses to a non-empty string |
| `TxReceipt.IscnIdFromLog` | util/iscn.js:46-48 | a falsy first entry gives an undefined id; `events` that is not an array throws; a null event before a match throws; no match gives an undefined id; on a match, missing `attributes` throws; for any other `attributes` (array, object, string, number), a missing or null `attributes[0]` throws, and otherwise the id is the `value` of `attributes[0]` |
| `TxReceipt.OutcomeFromFirstEntry` | util/iscn.js:44-53 | once the raw log parses to a non-empty array, the result is exactly the id or the error that reading its first entry gives, with the hash copied |
| `TxReceipt.FirstIscnEventWins` | util/iscn.js:44-48 | when event i is the first `iscn_record` event and every earlier event is non-null, the id is the `value` of event i's first attribute, whatever follows it |
| `TxReceipt.NoIscnEventNoId` | util/iscn.js:44-53 | a first log entry whose events are all non-null and none is `iscn_record` gives an undefined id |
| `TxReceipt.FalsyFirstEntryNoId` | util/iscn.js:44-53 | a falsy first log entry gives an undefined id |
| `TxReceipt.NullEventBeforeMatchThrows` | util/iscn.js:47 | a null event before the first `iscn_record` event is an error |
| `TxReceipt.MissingAttributeThrows` | util/iscn.js:48 | the matched event with no `attributes` is an error, and so is one with an empty `attributes` array |
| `TxReceipt.ObjectAttributesExample` | util/iscn.js:48 | an `attributes` object with a property "0" is indexed like an array and yields that property's `value` |
| `TxReceipt.SingleRecordExample` | util/iscn.js:41-55 | a receipt `ABC123` whose log holds one `iscn_record` event yields that event's id |
| `RegistrationFee.BuildEnvelope` | util/iscn.js:124-155 | the envelope carries the placeholder id, the timestamp, the version, and the record's notes and fingerprints; the parent link is empty for version ≤ 1 and the fixed placeholder link above 1 |
| `RegistrationFee.SumLengths` | util/iscn.js:157 | the fold is 0 for no stakeholders, the blob's length for one, and never less than any single blob |
| `RegistrationFee.ByteSize` | util/iscn.js:156-158 | byte size = envelope length (requested version, version-1 record) + author stakeholder length when the author is truthy + metadata length of the version-1 record |
| `RegistrationFee.EstimateFee` | util/iscn.js:112-161 | fee = (envelope length + author stakeholder length when the author is truthy + metadata length of the version-1 record) × rate |
| `RegistrationFee.FeeLinearInRate` | util/iscn.js:156-159 | the fee is additive in the rate, and doubling the rate doubles the fee |
| `RegistrationFee.ParentLinkByVersion` | util/iscn.js:149-155 | all versions above 1 use the same parent link, which differs from the version-1 link |

## Left out

- `getWallet`, `getSigningClient`: process-wide lazy singletons for mnemonic wallet derivation and the RPC connection. They are asynchronous I/O, so they are not modelled; the signer's address is a parameter of `TxMessage.BuildMessage`.
- `getSequence`, `getSignerData`: thin RPC wrappers.
- `client.sign`, `TxRaw.encode`, `broadcastTx`, `assertIsBroadcastTxSuccess` and the message-type `Registry`: the model stops at the built message and fee. `explicitSignerData` only passes through to `client.sign`, so it is not modelled.
- `queryFeePerByte` and `new Date().toISOString()`: the rate and the timestamp are parameters. The rate is a natural number, so the floating-point product of a fractional rate is not modelled.
- JSON serialisation (`JSON.stringify`, `fast-json-stable-stringify`) and UTF-8 byte lengths: they are length-function parameters. Key order, and the fact that `JSON.stringify` drops properties whose value is `undefined`, therefore only affect those lengths. The metadata and stakeholder blobs are kept as the objects that get serialised.
- `JSON.parse` of the raw log: it is a parameter from the text to `Option<Value>`.
- `console.log`: it is output only.
- `JsValues.Value`: numbers are exact reals, so NaN is not represented. Only plain objects carry named properties, so built-in properties of strings and arrays are not modelled. A `char` is a Unicode scalar value, so indexing a string (`attributes[0]` on a string attribute list) yields its first code point where JavaScript yields its first UTF-16 code unit; the record id is `undefined` either way, since a string has no `value` property.
