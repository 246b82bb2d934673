/** `formatISCNPayload`: maps a content payload (a plain object) to the three
    fields of an ISCN record: the content fingerprints, at most one author
    stakeholder, and a JSON-LD metadata object. The stakeholder and the
    metadata are kept here as the objects that get serialised; their bytes
    are not modelled. */
module PayloadFormatter {
  import opened JsValues

  /** The payload keys the formatter destructures by name; every other key
      passes through into the metadata. */
  const Distinguished: set<string> := {"hash", "hashes", "title", "description", "url", "author", "type"}

  /** The metadata keys the formatter writes after spreading the passthrough
      fields, so that they win over any passthrough field of the same name. */
  const Fixed: set<string> := {"@context", "@type", "title", "author", "description", "version", "url"}

  const SchemaContext: string := "http://schema.org/"
  const DefaultType: string := "CreativeWork"
  const AuthorContribution: string := "http://schema.org/author"

  /** The stakeholder object `{ entity: { id, name }, rewardProportion,
      contributionType }`. */
  datatype Stakeholder = Stakeholder(entityId: Value, entityName: Value, rewardProportion: int, contributionType: string)

  /** The record passed to the chain. `contentMetadata` is the object that is
      JSON-stringified into the record's metadata bytes. */
  datatype Record = Record(
    recordNotes: string,
    contentFingerprints: Value,
    stakeholders: seq<Stakeholder>,
    contentMetadata: map<string, Value>)

  /** `hashes || [hash]` */
  function Fingerprints(payload: map<string, Value>): Value {
    Or(Lookup(payload, "hashes"), Arr([Lookup(payload, "hash")]))
  }

  /** The author stakeholder, pushed only when `author` is truthy. */
  function Stakeholders(author: Value): seq<Stakeholder> {
    if Truthy(author) then [Stakeholder(author, author, 1, AuthorContribution)] else []
  }

  /** `{ ...fields, '@context', '@type', title, author, description, version, url }` */
  function Metadata(payload: map<string, Value>, version: int): map<string, Value> {
    Rest(payload, Distinguished)
      ["@context" := Str(SchemaContext)]
      ["@type" := Or(Lookup(payload, "type"), Str(DefaultType))]
      ["title" := Lookup(payload, "title")]
      ["author" := Lookup(payload, "author")]
      ["description" := Lookup(payload, "description")]
      ["version" := Num(version as real)]
      ["url" := Lookup(payload, "url")]
  }

  /** `formatISCNPayload(payload, version)` */
  function FormatPayload(payload: map<string, Value>, version: int): (r: Record)
    // fingerprints: `hashes` whenever it is truthy, else the one-element `[hash]`
    ensures Truthy(Lookup(payload, "hashes")) ==> r.contentFingerprints == payload["hashes"]
    ensures !Truthy(Lookup(payload, "hashes")) ==> r.contentFingerprints == Arr([Lookup(payload, "hash")])
    // at most one stakeholder, present exactly when the author is truthy
    ensures |r.stakeholders| <= 1
    ensures |r.stakeholders| == 1 <==> Truthy(Lookup(payload, "author"))
    ensures forall s :: s in r.stakeholders ==>
      s.entityId == s.entityName == payload["author"]
      && s.rewardProportion == 1 && s.contributionType == AuthorContribution
    ensures r.recordNotes == ""
    // metadata: the passthrough keys plus the fixed keys, and nothing else
    ensures r.contentMetadata.Keys == (payload.Keys - Distinguished) + Fixed
    ensures forall k :: k in payload && k !in Distinguished && k !in Fixed ==>
      r.contentMetadata[k] == payload[k]
    ensures "hash" !in r.contentMetadata && "hashes" !in r.contentMetadata && "type" !in r.contentMetadata
    ensures r.contentMetadata["@context"] == Str(SchemaContext)
    ensures Truthy(Lookup(payload, "type")) ==> r.contentMetadata["@type"] == payload["type"]
    ensures !Truthy(Lookup(payload, "type")) ==> r.contentMetadata["@type"] == Str(DefaultType)
    ensures r.contentMetadata["version"] == Num(version as real)
    ensures forall k :: k in {"title", "author", "description", "url"} ==>
      r.contentMetadata[k] == Lookup(payload, k)
  {
    Record("", Fingerprints(payload), Stakeholders(Lookup(payload, "author")), Metadata(payload, version))
  }

  /** The metadata is determined by the passthrough fields that survive the
      override and by the destructured fields. */
  lemma MetadataCongruence(p1: map<string, Value>, p0: map<string, Value>, version: int)
    requires p1 - (Distinguished + Fixed) == p0 - (Distinguished + Fixed)
    requires forall k :: k in Distinguished ==> Lookup(p1, k) == Lookup(p0, k)
    ensures Metadata(p1, version) == Metadata(p0, version)
  {
    var m1, m0 := Metadata(p1, version), Metadata(p0, version);
    forall key | key in m1
      ensures key in m0 && m1[key] == m0[key]
    {
      if key !in Fixed {
        assert key in p1 - (Distinguished + Fixed);
      }
    }
    forall key | key in m0
      ensures key in m1
    {
      if key !in Fixed {
        assert key in p0 - (Distinguished + Fixed);
      }
    }
  }

  /** A payload field named `@context`, `@type` or `version` is spread into
      the metadata and then overwritten: whatever its value, the formatted
      record, metadata object included, is the same as without it. Only the
      key's position in the serialised metadata can differ, and key order is
      not part of this model. */
  lemma OverriddenPassthroughIgnored(payload: map<string, Value>, k: string, v: Value, version: int)
    requires k == "@context" || k == "@type" || k == "version"
    ensures FormatPayload(payload[k := v], version) == FormatPayload(payload - {k}, version)
  {
    var p1, p0 := payload[k := v], payload - {k};
    assert p1 - (Distinguished + Fixed) == p0 - (Distinguished + Fixed);
    forall d | d in Distinguished
      ensures Lookup(p1, d) == Lookup(p0, d)
    {
    }
    MetadataCongruence(p1, p0, version);
  }
}
