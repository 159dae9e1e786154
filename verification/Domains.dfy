/** The hash domains. Each is a name closed by a NUL, so no two kinds of preimage can meet. */
module Domains {
  import opened Wrappers

  datatype Domain =
    | BatchInputId
    | QueryFingerprint
    | LineageFingerprint
    | RevisionFingerprint
    | RisingInputKey
    | RisingLineage
    | RisingCursor
    | RisingRevision
    | RisingRequest
    | BatchEvent
    | RisingEvent

  function Name(domain: Domain): string {
    match domain
    case BatchInputId => "dbx-rs/batch-input-id/v1"
    case QueryFingerprint => "dbx-rs/query-fingerprint/v1"
    case LineageFingerprint => "dbx-rs/lineage-fingerprint/v1"
    case RevisionFingerprint => "dbx-rs/revision-fingerprint/v1"
    case RisingInputKey => "dbx-rs/rising-input-key/v1"
    case RisingLineage => "dbx-rs/rising-source-lineage-fingerprint/v1"
    case RisingCursor => "dbx-rs/rising-cursor-identity-fingerprint/v1"
    case RisingRevision => "dbx-rs/rising-revision-fingerprint/v1"
    case RisingRequest => "dbx-rs/rising-request-fingerprint/v1"
    case BatchEvent => "dbx-rs/hec-event-id/v1"
    case RisingEvent => "dbx-rs/hec-rising-event-id/v1"
  }

  predicate Printable(s: string) {
    forall i :: 0 <= i < |s| ==> 0 < s[i] as int < 128
  }

  lemma FingerprintNamesArePrintable(domain: Domain)
    requires domain.QueryFingerprint? || domain.LineageFingerprint? || domain.RevisionFingerprint? || domain.BatchInputId?
    ensures Printable(Name(domain))
  {
  }

  lemma EventNamesArePrintable(domain: Domain)
    requires domain.BatchEvent? || domain.RisingEvent? || domain.RisingInputKey?
    ensures Printable(Name(domain))
  {
  }

  lemma RisingNamesArePrintable(domain: Domain)
    requires domain.RisingLineage? || domain.RisingCursor?
    ensures Printable(Name(domain))
  {
  }

  lemma RequestNamesArePrintable(domain: Domain)
    requires domain.RisingRevision? || domain.RisingRequest?
    ensures Printable(Name(domain))
  {
  }

  lemma NamesArePrintable(domain: Domain)
    ensures Printable(Name(domain))
  {
    if domain.RisingLineage? || domain.RisingCursor? {
      RisingNamesArePrintable(domain);
    } else if domain.RisingRevision? || domain.RisingRequest? {
      RequestNamesArePrintable(domain);
    } else if domain.BatchEvent? || domain.RisingEvent? || domain.RisingInputKey? {
      EventNamesArePrintable(domain);
    } else {
      FingerprintNamesArePrintable(domain);
    }
  }

  lemma NamesDiffer(a: Domain, b: Domain)
    ensures Name(a) == Name(b) ==> a == b
  {
    assert Name(LineageFingerprint)[7] == 'l' && Name(RisingEvent)[7] == 'h';
    assert |Name(LineageFingerprint)| == |Name(RisingEvent)| == 29;
  }

  function Ascii(s: string): (b: Bytes)
    requires Printable(s)
    ensures |b| == |s| && forall i :: 0 <= i < |s| ==> b[i] == s[i] as int
  {
    seq(|s|, i requires 0 <= i < |s| => s[i] as int)
  }

  function Prefix(domain: Domain): Bytes {
    NamesArePrintable(domain);
    Ascii(Name(domain)) + [0]
  }

  /** The first NUL ends the name, wherever the rest goes on. */
  lemma NulSeparates(a: Bytes, b: Bytes, x: Bytes, y: Bytes)
    requires forall i :: 0 <= i < |a| ==> a[i] != 0
    requires forall i :: 0 <= i < |b| ==> b[i] != 0
    requires a + [0] + x == b + [0] + y
    ensures a == b && x == y
  {
    var whole := a + [0] + x;
    assert whole == b + [0] + y;
    assert whole[|a|] == 0 && whole[|b|] == 0;
    assert forall i :: 0 <= i < |a| ==> whole[i] == a[i];
    assert forall i :: 0 <= i < |b| ==> whole[i] == b[i];
    assert |a| == |b|;
    assert a == whole[..|a|] == b;
    assert x == whole[|a| + 1..] == y;
  }

  /** Domain separation: equal preimages have one domain and one content. */
  lemma DomainsSeparate(a: Domain, b: Domain, x: Bytes, y: Bytes)
    requires Prefix(a) + x == Prefix(b) + y
    ensures a == b && x == y
  {
    NamesArePrintable(a);
    NamesArePrintable(b);
    NulSeparates(Ascii(Name(a)), Ascii(Name(b)), x, y);
    AsciiIsInjective(Name(a), Name(b));
    NamesDiffer(a, b);
  }

  lemma AsciiIsInjective(s: string, t: string)
    requires Printable(s) && Printable(t) && Ascii(s) == Ascii(t)
    ensures s == t
  {
    forall i | 0 <= i < |s|
      ensures s[i] == t[i]
    {
      assert Ascii(s)[i] == Ascii(t)[i];
    }
  }
}
