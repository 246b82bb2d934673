/** `parseISCNTxInfoFromTxSuccess`: the transaction hash and the new record
    id from a successful broadcast. The raw log is JSON text; `JSON.parse` is
    a parameter that yields the parsed value or `None` for malformed text.
    Where the code throws, the model returns `Failure`. */
module TxReceipt {
  import opened JsValues

  const IscnRecordEvent: string := "iscn_record"

  /** The exceptions the code can raise while reading the log. */
  datatype ParseError =
    | MalformedJson    // JSON.parse throws a SyntaxError
    | LogNotIterable   // `const [log] = ...` on a value that is not an array or string
    | EventsNotArray   // `log.events.find` where `events` is not an array
    | NullishEvent     // `e.type` on a null event reached before a match
    | NullishAttributes // `ev.attributes[0]` with no `attributes`
    | NullishAttribute  // `.value` on a missing first attribute

  datatype Result<T> = Success(value: T) | Failure(error: ParseError)

  /** The broadcast response: `transactionHash`, and `rawLog`, which may be
      absent. */
  datatype Receipt = Receipt(transactionHash: string, rawLog: Option<string>)

  /** The returned `{ txHash, iscnId }`; `iscnId` may be `undefined`. */
  datatype TxInfo = TxInfo(txHash: string, iscnId: Value)

  /** The predicate passed to `find`, for an event it does not throw on. */
  predicate IsIscnEvent(e: Value)
    requires !Nullish(e)
  {
    Prop(e, "type") == Str(IscnRecordEvent)
  }

  /** `events.find((e) => e.type === 'iscn_record')`, as an index: elements are
      tested in order, the first match wins, and a null or undefined element
      reached before any match throws. */
  function FindIscnEvent(events: seq<Value>): (r: Result<Option<nat>>)
    ensures r.Success? && r.value.Some? ==>
      && r.value.value < |events|
      && !Nullish(events[r.value.value]) && IsIscnEvent(events[r.value.value])
      && forall j :: 0 <= j < r.value.value ==> !Nullish(events[j]) && !IsIscnEvent(events[j])
    ensures r.Success? && r.value.None? ==>
      forall j :: 0 <= j < |events| ==> !Nullish(events[j]) && !IsIscnEvent(events[j])
    ensures r.Failure? ==> r.error == NullishEvent && exists i :: (
      && 0 <= i < |events| && Nullish(events[i])
      && forall j :: 0 <= j < i ==> !Nullish(events[j]) && !IsIscnEvent(events[j]))
  {
    if |events| == 0 then Success(None)
    else if Nullish(events[0]) then Failure(NullishEvent)
    else if IsIscnEvent(events[0]) then Success(Some(0))
    else
      match FindIscnEvent(events[1..])
      case Failure(e) =>
        ghost var i :| 0 <= i < |events| - 1 && Nullish(events[1..][i])
          && forall j :: 0 <= j < i ==> !Nullish(events[1..][j]) && !IsIscnEvent(events[1..][j]);
        assert forall j :: 0 <= j < i + 1 ==> !Nullish(events[j]) && !IsIscnEvent(events[j]) by {
          forall j | 0 <= j < i + 1
            ensures !Nullish(events[j]) && !IsIscnEvent(events[j])
          {
            if j > 0 { assert events[j] == events[1..][j - 1]; }
          }
        }
        Failure(e)
      case Success(None) => Success(None)
      case Success(Some(i)) => Success(Some(i + 1))
  }

  /** `const [log] = parsed`: the first element of an iterable. */
  function FirstOfIterable(parsed: Value): (r: Result<Value>)
    ensures r.Success? <==> parsed.Arr? || parsed.Str?
    ensures r.Success? && parsed.Arr? ==>
      r.value == if |parsed.items| > 0 then parsed.items[0] else Undefined
  {
    match parsed
    case Arr(items) => Success(if |items| > 0 then items[0] else Undefined)
    case Str(s) => Success(if |s| > 0 then Str([s[0]]) else Undefined)
    case _ => Failure(LogNotIterable)
  }

  /** The record id carried by the first log entry, or `undefined`. */
  function IscnIdFromLog(log: Value): (r: Result<Value>)
    // a falsy first entry carries no record id
    ensures !Truthy(log) ==> r == Success(Undefined)
    // `log.events.find` throws unless `events` is an array
    ensures Truthy(log) && !Prop(log, "events").Arr? ==> r == Failure(EventsNotArray)
    ensures Truthy(log) && Prop(log, "events").Arr? ==>
      var events := Prop(log, "events").items;
      var found := FindIscnEvent(events);
      && (found.Failure? ==> r == Failure(NullishEvent))
      && (found == Success(None) ==> r == Success(Undefined))
      && (found.Success? && found.value.Some? ==>
        var attributes := Prop(events[found.value.value], "attributes");
        && (Nullish(attributes) ==> r == Failure(NullishAttributes))
        && (!Nullish(attributes) && Nullish(First(attributes)) ==> r == Failure(NullishAttribute))
        && (!Nullish(attributes) && !Nullish(First(attributes)) ==>
              r == Success(Prop(First(attributes), "value"))))
  {
    if !Truthy(log) then Success(Undefined)
    else
      var events := Prop(log, "events");
      if !events.Arr? then Failure(EventsNotArray)
      else match FindIscnEvent(events.items)
        case Failure(e) => Failure(e)
        case Success(None) => Success(Undefined)
        case Success(Some(i)) =>
          var attributes := Prop(events.items[i], "attributes");
          if Nullish(attributes) then Failure(NullishAttributes)
          else
            var first := First(attributes);
            if Nullish(first) then Failure(NullishAttribute)
            else Success(Prop(first, "value"))
  }

  /** `parseISCNTxInfoFromTxSuccess(tx)` */
  function ParseTxInfo(receipt: Receipt, parseJson: string -> Option<Value>): (r: Result<TxInfo>)
    // the hash is copied verbatim
    ensures r.Success? ==> r.value.txHash == receipt.transactionHash
    // no log text: no record id, and nothing can throw
    ensures receipt.rawLog == None || receipt.rawLog == Some("") ==>
      r == Success(TxInfo(receipt.transactionHash, Undefined))
    // text that is not JSON throws
    ensures receipt.rawLog.Some? && receipt.rawLog.value != "" && parseJson(receipt.rawLog.value).None? ==>
      r == Failure(MalformedJson)
    // an empty log array: no record id
    ensures receipt.rawLog.Some? && receipt.rawLog.value != "" && parseJson(receipt.rawLog.value) == Some(Arr([])) ==>
      r == Success(TxInfo(receipt.transactionHash, Undefined))
    // parsed JSON that is neither an array nor a string cannot be destructured
    ensures (receipt.rawLog.Some? && receipt.rawLog.value != "" && parseJson(receipt.rawLog.value).Some?
      && !parseJson(receipt.rawLog.value).value.Arr? && !parseJson(receipt.rawLog.value).value.Str?) ==>
      r == Failure(LogNotIterable)
    // a truthy first log entry without an `events` array throws, whether it
    // is an object, a number, a string or an array
    ensures (receipt.rawLog.Some? && receipt.rawLog.value != "" && parseJson(receipt.rawLog.value).Some?
      && parseJson(receipt.rawLog.value).value.Arr? && |parseJson(receipt.rawLog.value).value.items| > 0
      && Truthy(parseJson(receipt.rawLog.value).value.items[0])
      && !Prop(parseJson(receipt.rawLog.value).value.items[0], "events").Arr?) ==>
      r == Failure(EventsNotArray)
    // a log that parses to a string: its first character is destructured and
    // has no `events`, so a non-empty string throws and an empty one gives no id
    ensures (receipt.rawLog.Some? && receipt.rawLog.value != "" && parseJson(receipt.rawLog.value).Some?
      && parseJson(receipt.rawLog.value).value.Str?) ==>
      r == if parseJson(receipt.rawLog.value).value.s == "" then Success(TxInfo(receipt.transactionHash, Undefined))
           else Failure(EventsNotArray)
  {
    match receipt.rawLog
    case None => Success(TxInfo(receipt.transactionHash, Undefined))
    case Some(text) =>
      if text == "" then Success(TxInfo(receipt.transactionHash, Undefined))
      else match parseJson(text)
        case None => Failure(MalformedJson)
        case Some(parsed) =>
          match FirstOfIterable(parsed)
          case Failure(e) => Failure(e)
          case Success(log) =>
            match IscnIdFromLog(log)
            case Failure(e) => Failure(e)
            case Success(id) => Success(TxInfo(receipt.transactionHash, id))
  }

  /** `log` is the first element of the array the raw log parses to. */
  predicate FirstLogEntry(receipt: Receipt, parseJson: string -> Option<Value>, log: Value) {
    && receipt.rawLog.Some? && receipt.rawLog.value != ""
    && parseJson(receipt.rawLog.value).Some? && parseJson(receipt.rawLog.value).value.Arr?
    && |parseJson(receipt.rawLog.value).value.items| > 0
    && parseJson(receipt.rawLog.value).value.items[0] == log
  }

  /** Once the raw log has parsed to an array, the outcome is decided by its
      first entry alone: the record id read from it, or the exception that
      reading it raises, and the other entries play no part. */
  lemma OutcomeFromFirstEntry(receipt: Receipt, parseJson: string -> Option<Value>, log: Value)
    requires FirstLogEntry(receipt, parseJson, log)
    ensures IscnIdFromLog(log).Success? ==>
      ParseTxInfo(receipt, parseJson) == Success(TxInfo(receipt.transactionHash, IscnIdFromLog(log).value))
    ensures IscnIdFromLog(log).Failure? ==>
      ParseTxInfo(receipt, parseJson) == Failure(IscnIdFromLog(log).error)
  {
  }

  /** The record id is the first attribute's `value` of the FIRST
      `iscn_record` event of the first log entry, however many such events
      follow it and whatever the later events hold. */
  lemma FirstIscnEventWins(
    receipt: Receipt, parseJson: string -> Option<Value>,
    log: Value, events: seq<Value>, i: nat, attributes: seq<Value>)
    requires FirstLogEntry(receipt, parseJson, log) && Truthy(log)
    requires Prop(log, "events") == Arr(events)
    requires i < |events| && !Nullish(events[i]) && IsIscnEvent(events[i])
    requires forall j :: 0 <= j < i ==> !Nullish(events[j]) && !IsIscnEvent(events[j])
    requires Prop(events[i], "attributes") == Arr(attributes)
    requires |attributes| > 0 && !Nullish(attributes[0])
    ensures ParseTxInfo(receipt, parseJson) == Success(TxInfo(receipt.transactionHash, Prop(attributes[0], "value")))
  {
  }

  /** A first log entry with no `iscn_record` event yields no record id. */
  lemma NoIscnEventNoId(receipt: Receipt, parseJson: string -> Option<Value>, log: Value, events: seq<Value>)
    requires FirstLogEntry(receipt, parseJson, log) && Truthy(log)
    requires Prop(log, "events") == Arr(events)
    requires forall j :: 0 <= j < |events| ==> !Nullish(events[j]) && !IsIscnEvent(events[j])
    ensures ParseTxInfo(receipt, parseJson) == Success(TxInfo(receipt.transactionHash, Undefined))
  {
  }

  /** A falsy first log entry (`[null]`, `[0]`, `[""]`) yields no record id. */
  lemma FalsyFirstEntryNoId(receipt: Receipt, parseJson: string -> Option<Value>, log: Value)
    requires FirstLogEntry(receipt, parseJson, log) && !Truthy(log)
    ensures ParseTxInfo(receipt, parseJson) == Success(TxInfo(receipt.transactionHash, Undefined))
  {
  }

  /** A null or undefined event reached before any `iscn_record` event makes
      `e.type` throw. */
  lemma NullEventBeforeMatchThrows(
    receipt: Receipt, parseJson: string -> Option<Value>, log: Value, events: seq<Value>, k: nat)
    requires FirstLogEntry(receipt, parseJson, log) && Truthy(log)
    requires Prop(log, "events") == Arr(events)
    requires k < |events| && Nullish(events[k])
    requires forall j :: 0 <= j < k ==> !Nullish(events[j]) && !IsIscnEvent(events[j])
    ensures ParseTxInfo(receipt, parseJson) == Failure(NullishEvent)
  {
  }

  /** The matched event without `attributes` makes `ev.attributes[0]` throw;
      with an empty `attributes` array, `.value` of its missing first element
      throws. */
  lemma MissingAttributeThrows(
    receipt: Receipt, parseJson: string -> Option<Value>, log: Value, events: seq<Value>, i: nat)
    requires FirstLogEntry(receipt, parseJson, log) && Truthy(log)
    requires Prop(log, "events") == Arr(events)
    requires i < |events| && !Nullish(events[i]) && IsIscnEvent(events[i])
    requires forall j :: 0 <= j < i ==> !Nullish(events[j]) && !IsIscnEvent(events[j])
    ensures Nullish(Prop(events[i], "attributes")) ==> ParseTxInfo(receipt, parseJson) == Failure(NullishAttributes)
    ensures Prop(events[i], "attributes") == Arr([]) ==> ParseTxInfo(receipt, parseJson) == Failure(NullishAttribute)
  {
  }

  /** `ev.attributes[0]` reads the property named "0" when `attributes` is an
      object rather than an array, so such an event still yields an id. */
  lemma ObjectAttributesExample(log: Value)
    requires log == Obj(map["events" := Arr([
      Obj(map["type" := Str("iscn_record"), "attributes" := Obj(map["0" := Obj(map["value" := Str("iscn://likecoin-chain/abc/2")])])])])])
    ensures IscnIdFromLog(log) == Success(Str("iscn://likecoin-chain/abc/2"))
  {
    var events := [Obj(map["type" := Str("iscn_record"), "attributes" := Obj(map["0" := Obj(map["value" := Str("iscn://likecoin-chain/abc/2")])])])];
    assert FindIscnEvent(events) == Success(Some(0));
  }

  /** A receipt whose single log entry holds one `iscn_record` event. */
  lemma SingleRecordExample(parseJson: string -> Option<Value>, text: string)
    requires text != ""
    requires parseJson(text) == Some(Arr([Obj(map["events" := Arr([
      Obj(map["type" := Str("message")]),
      Obj(map["type" := Str("iscn_record"), "attributes" := Arr([Obj(map["value" := Str("iscn://likecoin-chain/xyz/1")])])])])])]))
    ensures ParseTxInfo(Receipt("ABC123", Some(text)), parseJson)
      == Success(TxInfo("ABC123", Str("iscn://likecoin-chain/xyz/1")))
  {
    var events := [
      Obj(map["type" := Str("message")]),
      Obj(map["type" := Str("iscn_record"), "attributes" := Arr([Obj(map["value" := Str("iscn://likecoin-chain/xyz/1")])])])];
    assert FindIscnEvent(events) == Success(Some(1));
  }
}
