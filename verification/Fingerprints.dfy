/** The tagged encoder behind the configuration fingerprints, and what each fingerprint covers. */
module Fingerprints {
  import opened Wrappers
  import opened BigEndian
  import opened Domains

  const PREPARED_FINGERPRINT_VERSION: nat := 1
  const CONTRACT_MAJOR: nat := 1
  const CONTRACT_MINOR: nat := 2
  const CURSOR_FORMAT: nat := 1
  const MAX_U32: nat := 0xFFFF_FFFF

  type U16 = x: int | 0 <= x < 0x1_0000
  type U32 = x: int | 0 <= x <= MAX_U32

  datatype Span = Span(secs: U64, nanos: U32)

  // ---- fields ---------------------------------------------------------------------------------

  datatype Field =
    | Small(byte: U8)
    | Short(short: U16)
    | Long(long: U64)
    | Time(span: Span)
    | Text(text: Bytes)
    | Fixed(digest: Bytes)
    | MaybeText(optional: Option<Bytes>)
    | MaybeDigest(digested: Option<Bytes>)

  /** What the encoder can write: lengths fit 32 bits, digests have 32 bytes. */
  predicate Fits(f: Field) {
    match f
    case Text(b) => |b| <= MAX_U32
    case MaybeText(b) => b.Some? ==> |b.value| <= MAX_U32
    case MaybeDigest(b) => b.Some? ==> |b.value| == 32
    case _ => true
  }

  predicate SameShape(f: Field, g: Field) {
    match (f, g)
    case (Small(_), Small(_)) => true
    case (Short(_), Short(_)) => true
    case (Long(_), Long(_)) => true
    case (Time(_), Time(_)) => true
    case (Text(_), Text(_)) => true
    case (Fixed(a), Fixed(b)) => |a| == |b|
    case (MaybeText(_), MaybeText(_)) => true
    case (MaybeDigest(_), MaybeDigest(_)) => true
    case _ => false
  }

  function Sized(b: Bytes): Bytes {
    ToBytes(|b|, 4) + b
  }

  function Body(f: Field): Bytes {
    match f
    case Small(v) => [v]
    case Short(v) => ToBytes(v, 2)
    case Long(v) => U64Bytes(v)
    case Time(d) => U64Bytes(d.secs) + ToBytes(d.nanos, 4)
    case Text(b) => Sized(b)
    case Fixed(b) => b
    case MaybeText(b) => if b.Some? then [1] + Sized(b.value) else [0]
    case MaybeDigest(b) => if b.Some? then [1] + b.value else [0]
  }

  function EncodeField(tag: U8, f: Field): Bytes {
    [tag] + Body(f)
  }

  /** Fields from index `i` on; the tag of a field is its position, counted from one. */
  function EncodeFrom(fields: seq<Field>, i: nat): Bytes
    requires i <= |fields| < 256
    decreases |fields| - i
  {
    if i == |fields| then [] else EncodeField(i + 1, fields[i]) + EncodeFrom(fields, i + 1)
  }

  lemma SizedIsReadable(a: Bytes, b: Bytes, x: Bytes, y: Bytes)
    requires |a| <= MAX_U32 && |b| <= MAX_U32
    requires Sized(a) + x == Sized(b) + y
    ensures a == b && x == y
  {
    ConcatIsAssociative(ToBytes(|a|, 4), a, x);
    ConcatIsAssociative(ToBytes(|b|, 4), b, y);
    SameLengthSplits(ToBytes(|a|, 4), ToBytes(|b|, 4), a + x, b + y);
    Widths();
    BytesAreInjective(|a|, |b|, 4);
    SameLengthSplits(a, b, x, y);
  }

  /** An optional field: the presence byte decides how the rest is read. */
  lemma PresenceIsReadable(p: bool, q: bool, a: Bytes, b: Bytes, x: Bytes, y: Bytes)
    requires (if p then [1] + a else [0]) + x == (if q then [1] + b else [0]) + y
    ensures p == q
    ensures if p then a + x == b + y else x == y
  {
    var u, v := (if p then [1] + a else [0]) + x, (if q then [1] + b else [0]) + y;
    assert u[0] == (if p then 1 else 0) && v[0] == (if q then 1 else 0);
    assert u[1..] == (if p then a + x else x);
    assert v[1..] == (if q then b + y else y);
  }

  lemma OptionalIsReadable(f: Field, g: Field, x: Bytes, y: Bytes)
    requires SameShape(f, g) && Fits(f) && Fits(g) && (f.MaybeText? || f.MaybeDigest?)
    requires Body(f) + x == Body(g) + y
    ensures f == g && x == y
  {
    if f.MaybeText? {
      var a, b := f.optional, g.optional;
      PresenceIsReadable(
        a.Some?, b.Some?, if a.Some? then Sized(a.value) else [], if b.Some? then Sized(b.value) else [], x, y);
      if a.Some? {
        SizedIsReadable(a.value, b.value, x, y);
      }
    } else {
      var a, b := f.digested, g.digested;
      PresenceIsReadable(a.Some?, b.Some?, if a.Some? then a.value else [], if b.Some? then b.value else [], x, y);
      if a.Some? {
        SameLengthSplits(a.value, b.value, x, y);
      }
    }
  }

  /** Fields of one shape: the encoding says where the field ends and what it holds. */
  lemma BodyIsReadable(f: Field, g: Field, x: Bytes, y: Bytes)
    requires SameShape(f, g) && Fits(f) && Fits(g)
    requires Body(f) + x == Body(g) + y
    ensures f == g && x == y
  {
    Widths();
    match f {
      case Text(a) => SizedIsReadable(a, g.text, x, y);
      case MaybeText(_) => OptionalIsReadable(f, g, x, y);
      case MaybeDigest(_) => OptionalIsReadable(f, g, x, y);
      case Small(_) => SameLengthSplits(Body(f), Body(g), x, y);
      case Short(a) =>
        SameLengthSplits(Body(f), Body(g), x, y);
        BytesAreInjective(a, g.short, 2);
      case Long(a) =>
        SameLengthSplits(Body(f), Body(g), x, y);
        BytesAreInjective(a, g.long, 8);
      case Time(a) =>
        SameLengthSplits(Body(f), Body(g), x, y);
        SameLengthSplits(U64Bytes(a.secs), U64Bytes(g.span.secs), ToBytes(a.nanos, 4), ToBytes(g.span.nanos, 4));
        BytesAreInjective(a.secs, g.span.secs, 8);
        BytesAreInjective(a.nanos, g.span.nanos, 4);
      case Fixed(_) => SameLengthSplits(Body(f), Body(g), x, y);
    }
  }

  predicate SameSchema(a: seq<Field>, b: seq<Field>) {
    |a| == |b| && forall i :: 0 <= i < |a| ==> SameShape(a[i], b[i])
  }

  predicate EachFits(fields: seq<Field>) {
    forall i :: 0 <= i < |fields| ==> Fits(fields[i])
  }

  predicate AllFit(fields: seq<Field>) {
    |fields| < 256 && EachFits(fields)
  }

  lemma EachFitsJoin(a: seq<Field>, b: seq<Field>)
    ensures EachFits(a + b) <==> EachFits(a) && EachFits(b)
  {
    var c := a + b;
    assert forall i :: 0 <= i < |a| ==> c[i] == a[i];
    assert forall i :: 0 <= i < |b| ==> c[|a| + i] == b[i];
  }

  lemma TailJoins(s: seq<Field>, i: nat)
    requires i < |s|
    ensures s[i..] == [s[i]] + s[i + 1..]
  {
  }

  /** Equal encodings of one schema hold equal fields. */
  lemma {:induction false} FieldsAreInjective(a: seq<Field>, b: seq<Field>, i: nat)
    requires SameSchema(a, b) && AllFit(a) && AllFit(b) && i <= |a|
    requires EncodeFrom(a, i) == EncodeFrom(b, i)
    ensures a[i..] == b[i..]
    decreases |a| - i
  {
    if i < |a| {
      var x, y := EncodeFrom(a, i + 1), EncodeFrom(b, i + 1);
      ConcatIsAssociative([i + 1], Body(a[i]), x);
      ConcatIsAssociative([i + 1], Body(b[i]), y);
      SameLengthSplits([i + 1], [i + 1], Body(a[i]) + x, Body(b[i]) + y);
      BodyIsReadable(a[i], b[i], x, y);
      FieldsAreInjective(a, b, i + 1);
      assert a[i] == b[i] && a[i + 1..] == b[i + 1..];
      TailJoins(a, i);
      TailJoins(b, i);
    }
  }

  lemma {:induction false} EncodeMore(fields: seq<Field>, f: Field, i: nat)
    requires i <= |fields| < 255
    ensures EncodeFrom(fields + [f], i) == EncodeFrom(fields, i) + EncodeField(|fields| + 1, f)
    decreases |fields| - i
  {
    var more, last := fields + [f], EncodeField(|fields| + 1, f);
    if i == |fields| {
      assert EncodeFrom(more, i + 1) == [];
      assert more[i] == f;
      assert EncodeFrom(more, i) == last + [] == last;
    } else {
      EncodeMore(fields, f, i + 1);
      assert more[i] == fields[i];
      ConcatIsAssociative(EncodeField(i + 1, fields[i]), EncodeFrom(fields, i + 1), last);
    }
  }

  // ---- what each fingerprint covers -----------------------------------------------------------

  datatype TlsMode = Disable | Require | VerifyCa | VerifyFull

  function TlsModeTag(mode: TlsMode): U8 {
    match mode
    case Disable => 0
    case Require => 1
    case VerifyCa => 2
    case VerifyFull => 3
  }

  function Bit(b: bool): U8 {
    if b then 1 else 0
  }

  datatype InputSettings = InputSettings(
    secretRef: Bytes,
    tlsMode: TlsMode,
    tlsServerName: Option<Bytes>,
    tlsCa: Option<Bytes>,
    connectTimeout: Span,
    probeTimeout: Span,
    queryTimeout: Span,
    interval: Span,
    disabled: bool,
    maxRows: U64,
    maxBytes: U64,
    index: Bytes,
    sourcetype: Bytes,
    source: Bytes)

  datatype HecSettings = HecSettings(
    enabled: bool,
    url: Bytes,
    managed: bool,
    inputName: Bytes,
    listenPort: U16,
    acceptFrom: Bytes,
    fullVerification: bool,
    timeout: Span,
    batchMaxEvents: U64,
    batchMaxBytes: U64,
    maxEventBytes: U64,
    acknowledged: bool)

  datatype Covered =
    | InputName(name: Bytes)
    | InputKey(stateInputId: Bytes)
    | Query(connector: Bytes, query: Bytes)
    | BatchLineage(inputId: Bytes, host: Bytes, port: U16, database: Bytes, username: Bytes, query32: Bytes)
    | RisingSource(
        stateInputId: Bytes, connector: Bytes, host: Bytes, port: U16, database: Bytes, username: Bytes, query32: Bytes)
    | CursorFields(timestampField: Bytes, idField: Bytes)
    | RisingSettings(operational: Bytes, cursorIdentity: Bytes, overlap: Span)
    | Settings(lineage: Bytes, input: InputSettings, hec: HecSettings)

  function DomainOf(c: Covered): Domain {
    match c
    case InputName(_) => BatchInputId
    case InputKey(_) => RisingInputKey
    case Query(_, _) => QueryFingerprint
    case BatchLineage(_, _, _, _, _, _) => LineageFingerprint
    case RisingSource(_, _, _, _, _, _, _) => Domain.RisingLineage
    case CursorFields(_, _) => RisingCursor
    case RisingSettings(_, _, _) => RisingRevision
    case Settings(_, _, _) => RevisionFingerprint
  }

  function AccessFields(input: InputSettings): (fields: seq<Field>)
    ensures |fields| == 4
  {
    [Text(input.secretRef), Small(TlsModeTag(input.tlsMode)), MaybeText(input.tlsServerName), MaybeDigest(input.tlsCa)]
  }

  function TimeFields(input: InputSettings): (fields: seq<Field>)
    ensures |fields| == 4
  {
    [Time(input.connectTimeout), Time(input.probeTimeout), Time(input.queryTimeout), Time(input.interval)]
  }

  function LimitFields(input: InputSettings): (fields: seq<Field>)
    ensures |fields| == 6
  {
    [ Small(Bit(input.disabled)), Long(input.maxRows), Long(input.maxBytes),
      Text(input.index), Text(input.sourcetype), Text(input.source) ]
  }

  function ListenerFields(hec: HecSettings): (fields: seq<Field>)
    ensures |fields| == 6
  {
    [ Small(Bit(hec.enabled)), Text(hec.url), Small(Bit(hec.managed)), Text(hec.inputName), Short(hec.listenPort),
      Text(hec.acceptFrom) ]
  }

  function DeliveryFields(hec: HecSettings): (fields: seq<Field>)
    ensures |fields| == 6
  {
    [ Small(Bit(hec.fullVerification)), Time(hec.timeout), Long(hec.batchMaxEvents),
      Long(hec.batchMaxBytes), Long(hec.maxEventBytes), Small(Bit(hec.acknowledged)) ]
  }

  function SourceFields(host: Bytes, port: U16, database: Bytes, username: Bytes, query: Bytes): (fields: seq<Field>)
    ensures |fields| == 5
  {
    [Text(host), Short(port), Text(database), Text(username), Fixed(query)]
  }

  // The last field is the null policy, of which there is one.
  function CursorNameFields(timestampField: Bytes, idField: Bytes): (fields: seq<Field>)
    ensures |fields| == 3
  {
    [Text(timestampField), Text(idField), Small(0)]
  }

  function SettingsFields(lineage: Bytes, input: InputSettings, hec: HecSettings): (fields: seq<Field>)
    ensures |fields| == 28
  {
    [Short(PREPARED_FINGERPRINT_VERSION), Fixed(lineage)]
    + AccessFields(input) + TimeFields(input) + LimitFields(input) + ListenerFields(hec) + DeliveryFields(hec)
  }

  /** The fields of a fingerprint, in tag order. */
  function FieldsOf(c: Covered): (fields: seq<Field>)
    ensures |fields| <= 28
  {
    match c
    case InputName(name) => [Text(name)]
    case InputKey(id) => [Short(PREPARED_FINGERPRINT_VERSION), Fixed(id)]
    case Query(connector, query) =>
      [Short(PREPARED_FINGERPRINT_VERSION), Text(connector), Short(CONTRACT_MAJOR), Short(CONTRACT_MINOR), Text(query)]
    case BatchLineage(inputId, host, port, database, username, query) =>
      [Short(PREPARED_FINGERPRINT_VERSION), Fixed(inputId)] + SourceFields(host, port, database, username, query)
    case RisingSource(id, connector, host, port, database, username, query) =>
      [Short(PREPARED_FINGERPRINT_VERSION), Fixed(id), Text(connector), Short(CONTRACT_MAJOR), Short(CONTRACT_MINOR)]
      + SourceFields(host, port, database, username, query)
    case CursorFields(timestampField, idField) =>
      [Short(PREPARED_FINGERPRINT_VERSION), Short(CONTRACT_MAJOR), Short(CONTRACT_MINOR), Short(CURSOR_FORMAT)]
      + CursorNameFields(timestampField, idField)
    case RisingSettings(operational, cursorIdentity, overlap) =>
      [Short(PREPARED_FINGERPRINT_VERSION), Fixed(operational), Small(1), Fixed(cursorIdentity), Time(overlap)]
    case Settings(lineage, input, hec) =>
      SettingsFields(lineage, input, hec)
  }

  /** The digests handed in have their fixed sizes. */
  predicate WellSized(c: Covered) {
    match c
    case InputName(_) => true
    case InputKey(id) => |id| == 16
    case Query(_, _) => true
    case BatchLineage(inputId, _, _, _, _, query) => |inputId| == |query| == 32
    case RisingSource(id, _, _, _, _, _, query) => |id| == 16 && |query| == 32
    case CursorFields(_, _) => true
    case RisingSettings(operational, cursorIdentity, _) => |operational| == |cursorIdentity| == 32
    case Settings(lineage, input, _) => |lineage| == 32 && (input.tlsCa.Some? ==> |input.tlsCa.value| == 32)
  }

  function Preimage(c: Covered): Bytes {
    Prefix(DomainOf(c)) + EncodeFrom(FieldsOf(c), 0)
  }

  lemma InputSchema(i: InputSettings, j: InputSettings)
    ensures SameSchema(AccessFields(i), AccessFields(j)) && SameSchema(TimeFields(i), TimeFields(j))
    ensures SameSchema(LimitFields(i), LimitFields(j))
  {
  }

  lemma HecSchema(h: HecSettings, k: HecSettings)
    ensures SameSchema(ListenerFields(h), ListenerFields(k)) && SameSchema(DeliveryFields(h), DeliveryFields(k))
  {
  }

  lemma SchemasJoin(a: seq<Field>, b: seq<Field>, c: seq<Field>, d: seq<Field>)
    requires SameSchema(a, b) && SameSchema(c, d)
    ensures SameSchema(a + c, b + d)
  {
  }

  lemma SettingsSchema(l: Bytes, i: InputSettings, h: HecSettings, m: Bytes, j: InputSettings, k: HecSettings)
    requires |l| == |m|
    ensures SameSchema(SettingsFields(l, i, h), SettingsFields(m, j, k))
  {
    var x: seq<Field> := [Short(PREPARED_FINGERPRINT_VERSION), Fixed(l)];
    var y: seq<Field> := [Short(PREPARED_FINGERPRINT_VERSION), Fixed(m)];
    InputSchema(i, j);
    HecSchema(h, k);
    SchemasJoin(x, y, AccessFields(i), AccessFields(j));
    var x0, y0 := x + AccessFields(i), y + AccessFields(j);
    SchemasJoin(x0, y0, TimeFields(i), TimeFields(j));
    var x1, y1 := x0 + TimeFields(i), y0 + TimeFields(j);
    SchemasJoin(x1, y1, LimitFields(i), LimitFields(j));
    var x2, y2 := x1 + LimitFields(i), y1 + LimitFields(j);
    SchemasJoin(x2, y2, ListenerFields(h), ListenerFields(k));
    SchemasJoin(x2 + ListenerFields(h), y2 + ListenerFields(k), DeliveryFields(h), DeliveryFields(k));
  }

  lemma LongSchema(c: Covered, d: Covered)
    requires WellSized(c) && WellSized(d) && DomainOf(c) == DomainOf(d)
    requires c.CursorFields? || c.BatchLineage? || c.RisingSource?
    ensures SameSchema(FieldsOf(c), FieldsOf(d))
  {
  }

  lemma OneSchemaPerKind(c: Covered, d: Covered)
    requires WellSized(c) && WellSized(d) && DomainOf(c) == DomainOf(d)
    ensures SameSchema(FieldsOf(c), FieldsOf(d))
  {
    if c.Settings? {
      SettingsSchema(c.lineage, c.input, c.hec, d.lineage, d.input, d.hec);
    } else if c.CursorFields? || c.BatchLineage? || c.RisingSource? {
      LongSchema(c, d);
    }
  }

  lemma InputIsRead(i: InputSettings, j: InputSettings)
    requires AccessFields(i) == AccessFields(j) && TimeFields(i) == TimeFields(j) && LimitFields(i) == LimitFields(j)
    ensures i == j
  {
    var a, b := AccessFields(i), AccessFields(j);
    assert a[0] == b[0] && a[1] == b[1] && a[2] == b[2] && a[3] == b[3];
    var c, d := TimeFields(i), TimeFields(j);
    assert c[0] == d[0] && c[1] == d[1] && c[2] == d[2] && c[3] == d[3];
    var x, y := LimitFields(i), LimitFields(j);
    assert x[0] == y[0] && x[1] == y[1] && x[2] == y[2] && x[3] == y[3] && x[4] == y[4] && x[5] == y[5];
  }

  lemma HecIsRead(h: HecSettings, k: HecSettings)
    requires ListenerFields(h) == ListenerFields(k) && DeliveryFields(h) == DeliveryFields(k)
    ensures h == k
  {
    var a, b := ListenerFields(h), ListenerFields(k);
    assert a[0] == b[0] && a[1] == b[1] && a[2] == b[2] && a[3] == b[3] && a[4] == b[4] && a[5] == b[5];
    var x, y := DeliveryFields(h), DeliveryFields(k);
    assert x[0] == y[0] && x[1] == y[1] && x[2] == y[2] && x[3] == y[3] && x[4] == y[4] && x[5] == y[5];
  }

  lemma SettingsAreRead(l: Bytes, i: InputSettings, h: HecSettings, m: Bytes, j: InputSettings, k: HecSettings)
    requires SettingsFields(l, i, h) == SettingsFields(m, j, k)
    ensures l == m && i == j && h == k
  {
    var x: seq<Field> := [Short(PREPARED_FINGERPRINT_VERSION), Fixed(l)];
    var y: seq<Field> := [Short(PREPARED_FINGERPRINT_VERSION), Fixed(m)];
    var x0, y0 := x + AccessFields(i), y + AccessFields(j);
    var x1, y1 := x0 + TimeFields(i), y0 + TimeFields(j);
    var x2, y2 := x1 + LimitFields(i), y1 + LimitFields(j);
    SameLengthSplits(x2 + ListenerFields(h), y2 + ListenerFields(k), DeliveryFields(h), DeliveryFields(k));
    SameLengthSplits(x2, y2, ListenerFields(h), ListenerFields(k));
    SameLengthSplits(x1, y1, LimitFields(i), LimitFields(j));
    SameLengthSplits(x0, y0, TimeFields(i), TimeFields(j));
    SameLengthSplits(x, y, AccessFields(i), AccessFields(j));
    assert x[1] == y[1];
    InputIsRead(i, j);
    HecIsRead(h, k);
  }

  /** The field list determines what was fingerprinted. */
  lemma FieldsDetermineCovered(c: Covered, d: Covered)
    requires DomainOf(c) == DomainOf(d) && FieldsOf(c) == FieldsOf(d)
    ensures c == d
  {
    if c.Settings? {
      SettingsAreRead(c.lineage, c.input, c.hec, d.lineage, d.input, d.hec);
    } else {
      OtherFieldsAreRead(c, d);
    }
  }

  lemma OtherFieldsAreRead(c: Covered, d: Covered)
    requires !c.Settings? && DomainOf(c) == DomainOf(d) && FieldsOf(c) == FieldsOf(d)
    ensures c == d
  {
    var a, b := FieldsOf(c), FieldsOf(d);
    if c.BatchLineage? {
      assert a[1] == b[1] && a[2] == b[2] && a[3] == b[3] && a[4] == b[4] && a[5] == b[5] && a[6] == b[6];
    } else if c.RisingSource? {
      assert a[1] == b[1] && a[2] == b[2];
      assert a[5] == b[5] && a[6] == b[6] && a[7] == b[7] && a[8] == b[8] && a[9] == b[9];
    } else if c.CursorFields? {
      assert a[4] == b[4] && a[5] == b[5];
    } else {
      assert forall n :: 0 <= n < |a| ==> a[n] == b[n];
    }
  }

  /**
   The fingerprint preimages are injective: across all kinds, whatever the strings, durations and
   optional fields, equal byte streams come from equal values of one kind.
   */
  lemma PreimagesAreInjective(c: Covered, d: Covered)
    requires WellSized(c) && WellSized(d) && AllFit(FieldsOf(c)) && AllFit(FieldsOf(d))
    requires Preimage(c) == Preimage(d)
    ensures c == d
  {
    DomainsSeparate(DomainOf(c), DomainOf(d), EncodeFrom(FieldsOf(c), 0), EncodeFrom(FieldsOf(d), 0));
    OneSchemaPerKind(c, d);
    FieldsAreInjective(FieldsOf(c), FieldsOf(d), 0);
    assert FieldsOf(c)[0..] == FieldsOf(c) && FieldsOf(d)[0..] == FieldsOf(d);
    FieldsDetermineCovered(c, d);
  }

  // ---- the format, byte by byte ---------------------------------------------------------------

  lemma ZeroBytes()
    ensures ToBytes(0, 1) == [0] && ToBytes(0, 2) == [0, 0] && ToBytes(0, 3) == [0, 0, 0]
    ensures ToBytes(0, 7) == [0, 0, 0, 0, 0, 0, 0]
  {
    assert ToBytes(0, 1) == [0] && ToBytes(0, 2) == [0, 0] && ToBytes(0, 3) == [0, 0, 0];
    assert ToBytes(0, 4) == [0, 0, 0, 0] && ToBytes(0, 5) == [0, 0, 0, 0, 0] && ToBytes(0, 6) == [0, 0, 0, 0, 0, 0];
  }

  lemma SmallNumber(n: U8)
    ensures ToBytes(n, 2) == [0, n] && ToBytes(n, 4) == [0, 0, 0, n] && U64Bytes(n) == [0, 0, 0, 0, 0, 0, 0, n]
  {
    ZeroBytes();
    assert n / 256 == 0 && n % 256 == n;
  }

  /** How a number follows its tag: from the high byte. */
  lemma NumberFormat(tag: U8, b: U8)
    ensures EncodeField(tag, Small(b)) == [tag, b] && EncodeField(tag, Short(b)) == [tag, 0, b]
    ensures EncodeField(tag, Long(b)) == [tag, 0, 0, 0, 0, 0, 0, 0, b]
  {
    SmallNumber(b);
  }

  lemma SizedFormat(text: Bytes)
    requires |text| < 256
    ensures Sized(text) == [0, 0, 0, |text|] + text
  {
    SmallNumber(|text|);
  }

  /** How a text follows its tag: behind a 32-bit length; a digest has none. */
  lemma TextFormat(tag: U8, text: Bytes)
    requires |text| < 256
    ensures EncodeField(tag, Text(text)) == [tag, 0, 0, 0, |text|] + text
    ensures EncodeField(tag, Fixed(text)) == [tag] + text
  {
    SizedFormat(text);
  }

  /** An option has a presence byte. */
  lemma OptionFormat(tag: U8, digest: Bytes)
    ensures EncodeField(tag, MaybeText(None)) == EncodeField(tag, MaybeDigest(None)) == [tag, 0]
    ensures EncodeField(tag, MaybeDigest(Some(digest))) == [tag, 1] + digest
  {
  }

  lemma OptionalTextFormat(tag: U8, text: Bytes)
    requires |text| < 256
    ensures EncodeField(tag, MaybeText(Some(text))) == [tag, 1, 0, 0, 0, |text|] + text
  {
    SizedFormat(text);
    assert [tag] + ([1] + ([0, 0, 0, |text|] + text)) == [tag, 1, 0, 0, 0, |text|] + text;
  }

  /** A duration is its seconds and then its nanoseconds. */
  lemma DurationFormat(tag: U8, secs: U8, nanos: U8)
    ensures EncodeField(tag, Time(Span(secs, nanos))) == [tag, 0, 0, 0, 0, 0, 0, 0, secs, 0, 0, 0, nanos]
  {
    SmallNumber(secs);
    SmallNumber(nanos);
  }

  /** The settings that are numbers in a fingerprint. */
  lemma SettingNumbers()
    ensures TlsModeTag(Disable) == 0 && TlsModeTag(Require) == 1 && TlsModeTag(VerifyCa) == 2 && TlsModeTag(VerifyFull) == 3
    ensures Bit(false) == 0 && Bit(true) == 1
  {
  }

  /** Field by field, tagged from one on. */
  lemma TagsCountUp(fields: seq<Field>, i: nat)
    requires i < |fields| < 256
    ensures EncodeFrom(fields, i) == [i + 1] + Body(fields[i]) + EncodeFrom(fields, i + 1)
    ensures EncodeFrom(fields, |fields|) == []
  {
  }

  /** The versions that a fingerprint is bound to. */
  lemma BoundVersions(first: Bytes, second: Bytes)
    ensures FieldsOf(Query(first, second)) == [Short(1), Text(first), Short(1), Short(2), Text(second)]
    ensures FieldsOf(CursorFields(first, second)) ==
              [Short(1), Short(1), Short(2), Short(1), Text(first), Text(second), Small(0)]
  {
  }
}
