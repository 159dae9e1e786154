/** The encoder as the daemon drives it: fields are appended to a hash context one after another. */
module FingerprintEncoder {
  import opened Wrappers
  import opened BigEndian
  import opened Domains
  import opened Fingerprints

  datatype EncoderError = FingerprintSize

  /** The context is what was hashed so far; `fields` says what that means. */
  class Encoder {
    var context: Bytes
    ghost var prefix: Bytes
    ghost var fields: seq<Field>

    ghost predicate Valid()
      reads this
    {
      |fields| < 255 && context == prefix + EncodeFrom(fields, 0)
    }

    constructor (domain: Bytes)
      ensures Valid() && prefix == domain && fields == []
    {
      this.context := domain;
      this.prefix := domain;
      this.fields := [];
    }

    ghost predicate Expects(tag: U8)
      reads this
    {
      Valid() && tag == |fields| + 1 < 255
    }

    /** The common end of every field: the context grew by its encoding. */
    ghost method Record(tag: U8, f: Field, before: Bytes)
      requires tag == |fields| + 1 < 255
      requires before == prefix + EncodeFrom(fields, 0) && context == before + EncodeField(tag, f)
      modifies this`fields
      ensures Valid() && fields == old(fields) + [f]
    {
      EncodeMore(fields, f, 0);
      ConcatIsAssociative(prefix, EncodeFrom(fields, 0), EncodeField(tag, f));
      fields := fields + [f];
    }

    method Boolean(tag: U8, value: bool)
      requires Expects(tag)
      modifies this
      ensures Valid() && prefix == old(prefix) && fields == old(fields) + [Small(Bit(value))]
    {
      Byte(tag, Bit(value));
    }

    method Byte(tag: U8, value: U8)
      requires Expects(tag)
      modifies this
      ensures Valid() && prefix == old(prefix) && fields == old(fields) + [Small(value)]
    {
      ghost var before := context;
      context := context + [tag, value];
      assert [tag, value] == EncodeField(tag, Small(value));
      Record(tag, Small(value), before);
    }

    method TwoBytes(tag: U8, value: U16)
      requires Expects(tag)
      modifies this
      ensures Valid() && prefix == old(prefix) && fields == old(fields) + [Short(value)]
    {
      ghost var before := context;
      context := context + [tag] + ToBytes(value, 2);
      Record(tag, Short(value), before);
    }

    method EightBytes(tag: U8, value: U64)
      requires Expects(tag)
      modifies this
      ensures Valid() && prefix == old(prefix) && fields == old(fields) + [Long(value)]
    {
      ghost var before := context;
      context := context + [tag] + U64Bytes(value);
      Record(tag, Long(value), before);
    }

    method Duration(tag: U8, value: Span)
      requires Expects(tag)
      modifies this
      ensures Valid() && prefix == old(prefix) && fields == old(fields) + [Time(value)]
    {
      ghost var before := context;
      context := context + [tag] + U64Bytes(value.secs) + ToBytes(value.nanos, 4);
      AppendThree(before, [tag], U64Bytes(value.secs), ToBytes(value.nanos, 4));
      Record(tag, Time(value), before);
    }

    /** Refuses a value whose length does not fit 32 bits, before it touches the context. */
    method SizedBytes(tag: U8, value: Bytes) returns (r: Result<(), EncoderError>)
      requires Expects(tag)
      modifies this
      ensures prefix == old(prefix)
      ensures r.Ok? <==> Fits(Text(value))
      ensures r.Ok? ==> Valid() && fields == old(fields) + [Text(value)]
      ensures r.Err? ==> context == old(context) && fields == old(fields)
    {
      if |value| > MAX_U32 {
        return Err(FingerprintSize);
      }
      ghost var before := context;
      context := context + [tag] + ToBytes(|value|, 4) + value;
      AppendThree(before, [tag], ToBytes(|value|, 4), value);
      Record(tag, Text(value), before);
      return Ok(());
    }

    method FixedBytes(tag: U8, value: Bytes)
      requires Expects(tag)
      modifies this
      ensures Valid() && prefix == old(prefix) && fields == old(fields) + [Fixed(value)]
    {
      ghost var before := context;
      context := context + [tag] + value;
      Record(tag, Fixed(value), before);
    }

    method OptionalBytes(tag: U8, value: Option<Bytes>) returns (r: Result<(), EncoderError>)
      requires Expects(tag)
      modifies this
      ensures prefix == old(prefix)
      ensures r.Ok? <==> Fits(MaybeText(value))
      ensures r.Ok? ==> Valid() && fields == old(fields) + [MaybeText(value)]
    {
      ghost var before := context;
      match value {
        case Some(b) =>
          context := context + [tag, 1];
          if |b| > MAX_U32 {
            return Err(FingerprintSize);
          }
          context := context + ToBytes(|b|, 4) + b;
        case None =>
          context := context + [tag, 0];
      }
      assert context == before + EncodeField(tag, MaybeText(value));
      Record(tag, MaybeText(value), before);
      return Ok(());
    }

    /** The digest of a configured certificate; hashing it is injective. */
    method OptionalDigest(tag: U8, digest: Option<Bytes>)
      requires Expects(tag)
      modifies this
      ensures Valid() && prefix == old(prefix) && fields == old(fields) + [MaybeDigest(digest)]
    {
      ghost var before := context;
      match digest {
        case Some(b) => context := context + [tag, 1] + b;
        case None => context := context + [tag, 0];
      }
      assert context == before + EncodeField(tag, MaybeDigest(digest));
      Record(tag, MaybeDigest(digest), before);
    }
  }

  // ---- groups of fields -----------------------------------------------------------------------

  /** The fields that name a source, which batch and rising lineages share. */
  method AddSource(e: Encoder, first: U8, host: Bytes, port: U16, database: Bytes, username: Bytes, query: Bytes)
    returns (r: Result<(), EncoderError>)
    requires e.Expects(first) && first < 200
    modifies e
    ensures e.prefix == old(e.prefix)
    ensures r.Ok? <==> EachFits(SourceFields(host, port, database, username, query))
    ensures r.Ok? ==> e.Valid() && e.fields == old(e.fields) + SourceFields(host, port, database, username, query)
  {
    ghost var group := SourceFields(host, port, database, username, query);
    assert group[0] == Text(host) && group[2] == Text(database) && group[3] == Text(username);
    var _ :- e.SizedBytes(first, host);
    e.TwoBytes(first + 1, port);
    var _ :- e.SizedBytes(first + 2, database);
    var _ :- e.SizedBytes(first + 3, username);
    e.FixedBytes(first + 4, query);
    assert e.fields == old(e.fields) + group;
    return Ok(());
  }

  method AddAccess(e: Encoder, first: U8, input: InputSettings) returns (r: Result<(), EncoderError>)
    requires e.Expects(first) && first < 200
    requires input.tlsCa.Some? ==> |input.tlsCa.value| == 32
    modifies e
    ensures e.prefix == old(e.prefix)
    ensures r.Ok? <==> EachFits(AccessFields(input))
    ensures r.Ok? ==> e.Valid() && e.fields == old(e.fields) + AccessFields(input)
  {
    ghost var group := AccessFields(input);
    assert group[0] == Text(input.secretRef) && group[2] == MaybeText(input.tlsServerName);
    var _ :- e.SizedBytes(first, input.secretRef);
    e.Byte(first + 1, TlsModeTag(input.tlsMode));
    var _ :- e.OptionalBytes(first + 2, input.tlsServerName);
    e.OptionalDigest(first + 3, input.tlsCa);
    assert e.fields == old(e.fields) + group;
    return Ok(());
  }

  method AddTimes(e: Encoder, first: U8, input: InputSettings)
    requires e.Expects(first) && first < 200
    modifies e
    ensures e.prefix == old(e.prefix)
    ensures e.Valid() && e.fields == old(e.fields) + TimeFields(input)
    ensures EachFits(TimeFields(input))
  {
    e.Duration(first, input.connectTimeout);
    e.Duration(first + 1, input.probeTimeout);
    e.Duration(first + 2, input.queryTimeout);
    e.Duration(first + 3, input.interval);
    assert e.fields == old(e.fields) + TimeFields(input);
  }

  method AddLimits(e: Encoder, first: U8, input: InputSettings) returns (r: Result<(), EncoderError>)
    requires e.Expects(first) && first < 200
    modifies e
    ensures e.prefix == old(e.prefix)
    ensures r.Ok? <==> EachFits(LimitFields(input))
    ensures r.Ok? ==> e.Valid() && e.fields == old(e.fields) + LimitFields(input)
  {
    ghost var group := LimitFields(input);
    assert group[3] == Text(input.index) && group[4] == Text(input.sourcetype) && group[5] == Text(input.source);
    e.Boolean(first, input.disabled);
    e.EightBytes(first + 1, input.maxRows);
    e.EightBytes(first + 2, input.maxBytes);
    var _ :- e.SizedBytes(first + 3, input.index);
    var _ :- e.SizedBytes(first + 4, input.sourcetype);
    var _ :- e.SizedBytes(first + 5, input.source);
    assert e.fields == old(e.fields) + group;
    return Ok(());
  }

  method AddListener(e: Encoder, first: U8, hec: HecSettings) returns (r: Result<(), EncoderError>)
    requires e.Expects(first) && first < 200
    modifies e
    ensures e.prefix == old(e.prefix)
    ensures r.Ok? <==> EachFits(ListenerFields(hec))
    ensures r.Ok? ==> e.Valid() && e.fields == old(e.fields) + ListenerFields(hec)
  {
    ghost var group := ListenerFields(hec);
    assert group[1] == Text(hec.url) && group[3] == Text(hec.inputName) && group[5] == Text(hec.acceptFrom);
    e.Byte(first, Bit(hec.enabled));
    var _ :- e.SizedBytes(first + 1, hec.url);
    e.Byte(first + 2, Bit(hec.managed));
    var _ :- e.SizedBytes(first + 3, hec.inputName);
    e.TwoBytes(first + 4, hec.listenPort);
    var _ :- e.SizedBytes(first + 5, hec.acceptFrom);
    assert e.fields == old(e.fields) + group;
    return Ok(());
  }

  method AddDelivery(e: Encoder, first: U8, hec: HecSettings)
    requires e.Expects(first) && first < 200
    modifies e
    ensures e.prefix == old(e.prefix)
    ensures e.Valid() && e.fields == old(e.fields) + DeliveryFields(hec)
    ensures EachFits(DeliveryFields(hec))
  {
    e.Byte(first, Bit(hec.fullVerification));
    e.Duration(first + 1, hec.timeout);
    e.EightBytes(first + 2, hec.batchMaxEvents);
    e.EightBytes(first + 3, hec.batchMaxBytes);
    e.EightBytes(first + 4, hec.maxEventBytes);
    e.Byte(first + 5, Bit(hec.acknowledged));
    assert e.fields == old(e.fields) + DeliveryFields(hec);
  }

  // ---- the fingerprint functions --------------------------------------------------------------

  method BatchInputIdPreimage(name: Bytes) returns (r: Result<Bytes, EncoderError>)
    ensures r.Ok? <==> AllFit(FieldsOf(InputName(name)))
    ensures r.Ok? ==> r.value == Preimage(InputName(name))
  {
    assert FieldsOf(InputName(name))[0] == Text(name);
    var e := new Encoder(Prefix(Domain.BatchInputId));
    var _ :- e.SizedBytes(1, name);
    assert e.fields == FieldsOf(InputName(name));
    return Ok(e.context);
  }

  method RisingInputKeyPreimage(stateInputId: Bytes) returns (r: Bytes)
    requires |stateInputId| == 16
    ensures r == Preimage(InputKey(stateInputId))
  {
    var e := new Encoder(Prefix(Domain.RisingInputKey));
    e.TwoBytes(1, PREPARED_FINGERPRINT_VERSION);
    e.FixedBytes(2, stateInputId);
    assert e.fields == FieldsOf(InputKey(stateInputId));
    return e.context;
  }

  method QueryPreimage(connector: Bytes, query: Bytes) returns (r: Result<Bytes, EncoderError>)
    ensures r.Ok? <==> AllFit(FieldsOf(Query(connector, query)))
    ensures r.Ok? ==> r.value == Preimage(Query(connector, query))
  {
    ghost var covered := FieldsOf(Query(connector, query));
    assert covered[1] == Text(connector) && covered[4] == Text(query);
    var e := new Encoder(Prefix(QueryFingerprint));
    e.TwoBytes(1, PREPARED_FINGERPRINT_VERSION);
    var _ :- e.SizedBytes(2, connector);
    e.TwoBytes(3, CONTRACT_MAJOR);
    e.TwoBytes(4, CONTRACT_MINOR);
    var _ :- e.SizedBytes(5, query);
    assert e.fields == covered;
    return Ok(e.context);
  }

  method BatchLineagePreimage(inputId: Bytes, host: Bytes, port: U16, database: Bytes, username: Bytes, query: Bytes)
    returns (r: Result<Bytes, EncoderError>)
    requires |inputId| == |query| == 32
    ensures r.Ok? <==> AllFit(FieldsOf(BatchLineage(inputId, host, port, database, username, query)))
    ensures r.Ok? ==> r.value == Preimage(BatchLineage(inputId, host, port, database, username, query))
  {
    ghost var opening: seq<Field> := [Short(PREPARED_FINGERPRINT_VERSION), Fixed(inputId)];
    EachFitsJoin(opening, SourceFields(host, port, database, username, query));
    var e := new Encoder(Prefix(LineageFingerprint));
    e.TwoBytes(1, PREPARED_FINGERPRINT_VERSION);
    e.FixedBytes(2, inputId);
    assert e.fields == opening;
    var _ :- AddSource(e, 3, host, port, database, username, query);
    return Ok(e.context);
  }

  method RisingLineagePreimage(
      stateInputId: Bytes, connector: Bytes, host: Bytes, port: U16, database: Bytes, username: Bytes, query: Bytes)
    returns (r: Result<Bytes, EncoderError>)
    requires |stateInputId| == 16 && |query| == 32
    ensures r.Ok? <==> AllFit(FieldsOf(RisingSource(stateInputId, connector, host, port, database, username, query)))
    ensures r.Ok? ==> r.value == Preimage(RisingSource(stateInputId, connector, host, port, database, username, query))
  {
    ghost var opening: seq<Field> :=
      [ Short(PREPARED_FINGERPRINT_VERSION), Fixed(stateInputId), Text(connector), Short(CONTRACT_MAJOR),
        Short(CONTRACT_MINOR) ];
    assert opening[2] == Text(connector);
    EachFitsJoin(opening, SourceFields(host, port, database, username, query));
    var e := new Encoder(Prefix(Domain.RisingLineage));
    e.TwoBytes(1, PREPARED_FINGERPRINT_VERSION);
    e.FixedBytes(2, stateInputId);
    var _ :- e.SizedBytes(3, connector);
    e.TwoBytes(4, CONTRACT_MAJOR);
    e.TwoBytes(5, CONTRACT_MINOR);
    assert e.fields == opening;
    var _ :- AddSource(e, 6, host, port, database, username, query);
    return Ok(e.context);
  }

  method CursorIdentityPreimage(timestampField: Bytes, idField: Bytes) returns (r: Result<Bytes, EncoderError>)
    ensures r.Ok? <==> AllFit(FieldsOf(CursorFields(timestampField, idField)))
    ensures r.Ok? ==> r.value == Preimage(CursorFields(timestampField, idField))
  {
    ghost var opening: seq<Field> :=
      [Short(PREPARED_FINGERPRINT_VERSION), Short(CONTRACT_MAJOR), Short(CONTRACT_MINOR), Short(CURSOR_FORMAT)];
    EachFitsJoin(opening, CursorNameFields(timestampField, idField));
    var e := new Encoder(Prefix(RisingCursor));
    e.TwoBytes(1, PREPARED_FINGERPRINT_VERSION);
    e.TwoBytes(2, CONTRACT_MAJOR);
    e.TwoBytes(3, CONTRACT_MINOR);
    e.TwoBytes(4, CURSOR_FORMAT);
    assert e.fields == opening;
    var _ :- AddCursorNames(e, 5, timestampField, idField);
    return Ok(e.context);
  }

  method AddCursorNames(e: Encoder, first: U8, timestampField: Bytes, idField: Bytes)
    returns (r: Result<(), EncoderError>)
    requires e.Expects(first) && first < 200
    modifies e
    ensures e.prefix == old(e.prefix)
    ensures r.Ok? <==> EachFits(CursorNameFields(timestampField, idField))
    ensures r.Ok? ==> e.Valid() && e.fields == old(e.fields) + CursorNameFields(timestampField, idField)
  {
    ghost var group := CursorNameFields(timestampField, idField);
    assert group[0] == Text(timestampField) && group[1] == Text(idField);
    var _ :- e.SizedBytes(first, timestampField);
    var _ :- e.SizedBytes(first + 1, idField);
    e.Byte(first + 2, 0);
    assert e.fields == old(e.fields) + group;
    return Ok(());
  }

  method RisingRevisionPreimage(operational: Bytes, cursorIdentity: Bytes, overlap: Span) returns (r: Bytes)
    requires |operational| == |cursorIdentity| == 32
    ensures r == Preimage(RisingSettings(operational, cursorIdentity, overlap))
  {
    var e := new Encoder(Prefix(Domain.RisingRevision));
    e.TwoBytes(1, PREPARED_FINGERPRINT_VERSION);
    e.FixedBytes(2, operational);
    e.Byte(3, 1);
    e.FixedBytes(4, cursorIdentity);
    e.Duration(5, overlap);
    assert e.fields == FieldsOf(RisingSettings(operational, cursorIdentity, overlap));
    return e.context;
  }

  lemma SettingsFit(lineage: Bytes, input: InputSettings, hec: HecSettings)
    requires EachFits(TimeFields(input)) && EachFits(DeliveryFields(hec))
    ensures EachFits(SettingsFields(lineage, input, hec)) <==>
              EachFits(AccessFields(input)) && EachFits(LimitFields(input)) && EachFits(ListenerFields(hec))
  {
    var opening: seq<Field> := [Short(PREPARED_FINGERPRINT_VERSION), Fixed(lineage)];
    var x := opening + AccessFields(input);
    EachFitsJoin(opening, AccessFields(input));
    EachFitsJoin(x, TimeFields(input));
    EachFitsJoin(x + TimeFields(input), LimitFields(input));
    EachFitsJoin(x + TimeFields(input) + LimitFields(input), ListenerFields(hec));
    EachFitsJoin(x + TimeFields(input) + LimitFields(input) + ListenerFields(hec), DeliveryFields(hec));
  }

  method RevisionPreimage(lineage: Bytes, input: InputSettings, hec: HecSettings) returns (r: Result<Bytes, EncoderError>)
    requires |lineage| == 32 && (input.tlsCa.Some? ==> |input.tlsCa.value| == 32)
    ensures r.Ok? <==> AllFit(FieldsOf(Settings(lineage, input, hec)))
    ensures r.Ok? ==> r.value == Preimage(Settings(lineage, input, hec))
  {
    assert EachFits(TimeFields(input)) && EachFits(DeliveryFields(hec));
    SettingsFit(lineage, input, hec);
    var e := new Encoder(Prefix(RevisionFingerprint));
    var _ :- AddSettings(e, lineage, input, hec);
    return Ok(e.context);
  }

  method AddSettings(e: Encoder, lineage: Bytes, input: InputSettings, hec: HecSettings)
    returns (r: Result<(), EncoderError>)
    requires e.Valid() && e.fields == []
    requires |lineage| == 32 && (input.tlsCa.Some? ==> |input.tlsCa.value| == 32)
    modifies e
    ensures e.prefix == old(e.prefix)
    ensures r.Ok? <==> EachFits(AccessFields(input)) && EachFits(LimitFields(input)) && EachFits(ListenerFields(hec))
    ensures r.Ok? ==> e.Valid() && e.fields == SettingsFields(lineage, input, hec)
  {
    e.TwoBytes(1, PREPARED_FINGERPRINT_VERSION);
    e.FixedBytes(2, lineage);
    assert e.fields == [Short(PREPARED_FINGERPRINT_VERSION), Fixed(lineage)];
    var _ :- AddAccess(e, 3, input);
    AddTimes(e, 7, input);
    var _ :- AddLimits(e, 11, input);
    var _ :- AddListener(e, 17, hec);
    AddDelivery(e, 23, hec);
    return Ok(());
  }
}
