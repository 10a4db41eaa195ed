/** Where identity certificates are bound, and the properties that decide it. */
module CertPaths {
  import opened Wrappers
  import opened Substrate
  import opened Cbor

  datatype PublishMode = Internal | Public | PerRelationship | Embedded

  const INTERNAL_CERTS := "system/identity/internal/cert"
  const PUBLIC_CERTS := "system/identity/public/cert"
  const RELATIONSHIPS := "system/identity/relationships"

  function PathInternalCert(att: Hash): Path {
    INTERNAL_CERTS + "/" + HexSegment(att)
  }

  function PathPublicCert(att: Hash): Path {
    PUBLIC_CERTS + "/" + HexSegment(att)
  }

  function PathRelationshipCert(contact: Hash, att: Hash): Path {
    RELATIONSHIPS + "/" + HexSegment(contact) + "/cert" + "/" + HexSegment(att)
  }

  /** `canonical_cert_path`. */
  function CanonicalCertPath(mode: PublishMode, contact: Option<Hash>, att: Hash): Option<Path> {
    match mode
    case Internal => Some(PathInternalCert(att))
    case Public => Some(PathPublicCert(att))
    case PerRelationship => if contact.Some? then Some(PathRelationshipCert(contact.value, att)) else None
    case Embedded => None
  }

  /** The directory a canonical path lies in. */
  function CertDirectory(mode: PublishMode, contact: Option<Hash>): (d: Path)
    requires mode != Embedded && (mode == PerRelationship ==> contact.Some?)
  {
    match mode
    case Internal => INTERNAL_CERTS
    case Public => PUBLIC_CERTS
    case PerRelationship => RELATIONSHIPS + "/" + HexSegment(contact.value) + "/cert"
  }

  lemma CertDirectoryInjective(m: PublishMode, c: Option<Hash>, n: PublishMode, d: Option<Hash>)
    requires m != Embedded && (m == PerRelationship ==> c.Some?)
    requires n != Embedded && (n == PerRelationship ==> d.Some?)
    requires CertDirectory(m, c) == CertDirectory(n, d)
    ensures m == n && (m == PerRelationship ==> c == d)
  {
    assert CertDirectory(m, c)[16] == (if m == Internal then 'i' else if m == Public then 'p' else 'r');
    assert CertDirectory(n, d)[16] == (if n == Internal then 'i' else if n == Public then 'p' else 'r');
    if m == PerRelationship {
      var tail := "/cert";
      var x, y := RELATIONSHIPS + "/" + HexSegment(c.value), RELATIONSHIPS + "/" + HexSegment(d.value);
      assert CertDirectory(m, c) == x + tail && CertDirectory(n, d) == y + tail;
      assert (x + tail)[..|x + tail| - |tail|] == x && (y + tail)[..|y + tail| - |tail|] == y;
      SlashFreeTail(RELATIONSHIPS, RELATIONSHIPS, HexSegment(c.value), HexSegment(d.value));
      HexSegmentInjective(c.value, d.value);
    }
  }

  /** A canonical certificate path determines the certificate, its mode and, where it has one, its contact. */
  lemma CanonicalCertPathInjective(m: PublishMode, c: Option<Hash>, g: Hash, n: PublishMode, d: Option<Hash>, h: Hash)
    requires CanonicalCertPath(m, c, g).Some? && CanonicalCertPath(m, c, g) == CanonicalCertPath(n, d, h)
    ensures g == h && m == n && (m == PerRelationship ==> c == d)
  {
    assert CanonicalCertPath(m, c, g).value == CertDirectory(m, c) + "/" + HexSegment(g);
    assert CanonicalCertPath(n, d, h).value == CertDirectory(n, d) + "/" + HexSegment(h);
    SlashFreeTail(CertDirectory(m, c), CertDirectory(n, d), HexSegment(g), HexSegment(h));
    HexSegmentInjective(g, h);
    CertDirectoryInjective(m, c, n, d);
  }

  // ---------- reading properties ----------

  function ModeOf(s: string): Option<PublishMode> {
    if s == "internal" then Some(Internal)
    else if s == "public" then Some(Public)
    else if s == "per-relationship" then Some(PerRelationship)
    else if s == "embedded" then Some(Embedded)
    else None
  }

  /** The value under the first entry with this key. */
  function FirstValue(properties: seq<Entry>, key: string): Option<Value> {
    if properties == [] then None
    else if properties[0].key == Text(key) then Some(properties[0].value)
    else FirstValue(properties[1..], key)
  }

  /** `read_mode_from_properties`: the first `mode` entry decides, whatever it holds. */
  function ReadMode(properties: seq<Entry>): Option<PublishMode> {
    match FirstValue(properties, "mode")
    case Some(Text(s)) => ModeOf(s)
    case _ => None
  }

  /** The first entry with this key that holds a byte string decides. */
  function FirstHash(entries: seq<Entry>, key: string): Option<Hash> {
    if entries == [] then None
    else if entries[0].key == Text(key) && entries[0].value.ByteString? then FromBytes(entries[0].value.data)
    else FirstHash(entries[1..], key)
  }

  /** `read_contact_id_from_properties`. */
  function ReadContactId(properties: seq<Entry>): Option<Hash> {
    FirstHash(properties, "contact_id")
  }

  /** `extract_function`. */
  function ReadFunction(properties: seq<Entry>): Option<string> {
    match FirstValue(properties, "function")
    case Some(Text(s)) => Some(s)
    case _ => None
  }

  /** A key that occurs once is found wherever it stands. */
  lemma {:induction false} FirstValueAt(properties: seq<Entry>, key: string, k: nat)
    requires k < |properties| && properties[k].key == Text(key)
    requires forall i :: 0 <= i < |properties| && i != k ==> properties[i].key != Text(key)
    ensures FirstValue(properties, key) == Some(properties[k].value)
    decreases |properties|
  {
    if k > 0 {
      assert properties[1..][k - 1] == properties[k];
      FirstValueAt(properties[1..], key, k - 1);
    }
  }

  /** And a hash under it. */
  lemma {:induction false} FirstHashAt(entries: seq<Entry>, key: string, k: nat)
    requires k < |entries| && entries[k].key == Text(key) && entries[k].value.ByteString?
    requires forall i :: 0 <= i < |entries| && i != k ==> entries[i].key != Text(key)
    ensures FirstHash(entries, key) == FromBytes(entries[k].value.data)
    decreases |entries|
  {
    if k > 0 {
      assert entries[1..][k - 1] == entries[k];
      FirstHashAt(entries[1..], key, k - 1);
    }
  }

  /** Text is left as it is. */
  lemma TextEntryKept(u: Value, j: int, e: Entry)
    requires u.Map? && EntryReordered(u, j, e) && u.entries[j].key.Text?
    ensures e.key == u.entries[j].key
    ensures u.entries[j].value.Text? ==> e.value == u.entries[j].value
    ensures u.entries[j].value.Map? ==> Reordered(u.entries[j].value, e.value)
  {}

  /** Where the entry `k` of a map with text keys has gone, and that its key occurs nowhere else. */
  lemma EntryAfterReordering(u: Value, w: Value, k: nat) returns (j: nat)
    requires u.Map? && Reordered(u, w) && k < |u.entries|
    requires forall i :: 0 <= i < |u.entries| ==> u.entries[i].key.Text?
    requires forall i :: 0 <= i < |u.entries| && i != k ==> u.entries[i].key != u.entries[k].key
    ensures w.Map? && j < |w.entries| && EntryReordered(u, k, w.entries[j])
    ensures w.entries[j].key == u.entries[k].key
    ensures forall i :: 0 <= i < |w.entries| && i != j ==> w.entries[i].key != u.entries[k].key
  {
    var n := |u.entries|;
    var perm :| IsPermutation(perm, n) && forall i :: 0 <= i < n ==> EntryReordered(u, perm[i], w.entries[i]);
    assert k in perm;
    j :| 0 <= j < n && perm[j] == k;
    forall i | 0 <= i < n ensures w.entries[i].key == u.entries[perm[i]].key {
      TextEntryKept(u, perm[i], w.entries[i]);
    }
    forall i | 0 <= i < n && i != j ensures perm[i] != k {}
  }

  /** Reordering the entries of a map does not change what is found under a key that occurs once. */
  lemma FirstValueReordered(u: Value, w: Value, key: string, k: nat)
    requires u.Map? && Reordered(u, w) && k < |u.entries| && u.entries[k].key == Text(key)
    requires forall i :: 0 <= i < |u.entries| ==> u.entries[i].key.Text?
    requires forall i :: 0 <= i < |u.entries| && i != k ==> u.entries[i].key != Text(key)
    ensures w.Map? && FirstValue(w.entries, key).Some? && Reordered(u.entries[k].value, FirstValue(w.entries, key).value)
  {
    var j := EntryAfterReordering(u, w, k);
    FirstValueAt(w.entries, key, j);
  }
}
