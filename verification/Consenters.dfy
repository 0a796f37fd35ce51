/**
 Raft consenters and the check that a consenter list is admissible
 (internal/channelconfig/raft.go, validateRaftConsenters).

 DNS, PEM and X.509 parsing, SHA-256 and the JSON struct codec are library calls; they are
 fields of `Library`, so that everything proved here holds for any behaviour of theirs.
 */
module Consenters {
  import opened Wrappers
  import opened Json

  datatype Consenter = Consenter(host: string, port: nat, clientCert: string, serverCert: string)

  /** What pem.Decode, x509.ParseCertificate and the CA flag say about one certificate field. */
  datatype CertCheck = NotOnePublicPem | Unparsable | Authority | Leaf(digest: string)

  datatype Library = Library(
    lower: string -> string,
    validHost: string -> bool,
    certificate: string -> CertCheck,
    decode: Json -> Option<Consenter>,
    encode: Consenter -> Json)

  /** Decoding what was encoded gives the same consenter back. */
  ghost predicate RoundTrips(lib: Library) {
    forall c: Consenter :: WellFormed(lib, c) ==> lib.decode(lib.encode(c)) == Some(c)
  }

  /** host:port after normalisation; the printed form is injective in both parts. */
  datatype Endpoint = Endpoint(host: string, port: nat)

  /** What identifies a consenter when two lists are compared. */
  datatype Key = Key(endpoint: Endpoint, client: string, server: string)

  function TrimDot(s: string): string {
    if s != "" && s[|s| - 1] == '.' then s[..|s| - 1] else s
  }

  function HostOf(lib: Library, c: Consenter): string {
    lib.lower(TrimDot(c.host))
  }

  function EndpointOf(lib: Library, c: Consenter): Endpoint {
    Endpoint(HostOf(lib, c), c.port)
  }

  predicate WellFormed(lib: Library, c: Consenter) {
    lib.validHost(HostOf(lib, c)) && 0 < c.port <= 65535 &&
    lib.certificate(c.clientCert).Leaf? && lib.certificate(c.serverCert).Leaf?
  }

  function Digest(lib: Library, pem: string): string {
    match lib.certificate(pem)
    case Leaf(digest) => digest
    case _ => ""
  }

  function Digests(lib: Library, c: Consenter): set<string> {
    {Digest(lib, c.clientCert), Digest(lib, c.serverCert)}
  }

  function KeyOf(lib: Library, c: Consenter): Key {
    Key(EndpointOf(lib, c), Digest(lib, c.clientCert), Digest(lib, c.serverCert))
  }

  /** Two consenters can stand in one set: other endpoint, and no certificate in common. */
  predicate Compatible(lib: Library, c: Consenter, d: Consenter) {
    EndpointOf(lib, c) != EndpointOf(lib, d) && Digests(lib, c) !! Digests(lib, d)
  }

  /** Every entry is well formed and every two entries are compatible. */
  predicate Consistent(lib: Library, cs: seq<Consenter>) {
    (forall i :: 0 <= i < |cs| ==> WellFormed(lib, cs[i])) &&
    (forall i, j :: 0 <= i < j < |cs| ==> Compatible(lib, cs[i], cs[j]))
  }

  /** An admissible consenter list. */
  predicate ValidSet(lib: Library, cs: seq<Consenter>) {
    cs != [] && Consistent(lib, cs)
  }

  /** Whatever the names above abbreviate: what one admissible entry is. */
  ghost predicate SoundEntry(lib: Library, c: Consenter) {
    lib.validHost(lib.lower(TrimDot(c.host))) && 1 <= c.port <= 65535 &&
    lib.certificate(c.clientCert).Leaf? && lib.certificate(c.serverCert).Leaf?
  }

  /** Other host or port, and four certificates of which only the two of one entry may be the same. */
  ghost predicate Apart(lib: Library, c: Consenter, d: Consenter)
    requires SoundEntry(lib, c) && SoundEntry(lib, d)
  {
    (lib.lower(TrimDot(c.host)) != lib.lower(TrimDot(d.host)) || c.port != d.port) &&
    lib.certificate(c.clientCert).digest != lib.certificate(d.clientCert).digest &&
    lib.certificate(c.clientCert).digest != lib.certificate(d.serverCert).digest &&
    lib.certificate(c.serverCert).digest != lib.certificate(d.clientCert).digest &&
    lib.certificate(c.serverCert).digest != lib.certificate(d.serverCert).digest
  }

  /** A list of at least one sound entry, every two of them apart. */
  ghost predicate SoundList(lib: Library, cs: seq<Consenter>) {
    cs != [] && (forall i :: 0 <= i < |cs| ==> SoundEntry(lib, cs[i])) &&
    forall i, j :: 0 <= i < j < |cs| ==> Apart(lib, cs[i], cs[j])
  }

  lemma AdmissibleExactly(lib: Library, cs: seq<Consenter>)
    ensures ValidSet(lib, cs) <==> SoundList(lib, cs)
  {
    forall i, j | 0 <= i < j < |cs| && SoundEntry(lib, cs[i]) && SoundEntry(lib, cs[j])
      ensures Apart(lib, cs[i], cs[j]) <==> Compatible(lib, cs[i], cs[j])
    {
      assert Digests(lib, cs[i]) * Digests(lib, cs[j]) == {} <==> Digests(lib, cs[i]) !! Digests(lib, cs[j]);
    }
  }

  /** Two sound entries count as the same consenter exactly if host, port and both certificates agree. */
  lemma SameKeyExactly(lib: Library, c: Consenter, d: Consenter)
    requires SoundEntry(lib, c) && SoundEntry(lib, d)
    ensures KeyOf(lib, c) == KeyOf(lib, d) <==>
      lib.lower(TrimDot(c.host)) == lib.lower(TrimDot(d.host)) && c.port == d.port &&
      lib.certificate(c.clientCert).digest == lib.certificate(d.clientCert).digest &&
      lib.certificate(c.serverCert).digest == lib.certificate(d.serverCert).digest
  {
  }

  function KeySet(lib: Library, cs: seq<Consenter>): set<Key> {
    set i | 0 <= i < |cs| :: KeyOf(lib, cs[i])
  }

  datatype Problem =
    | NoConsenter
    | InvalidHost(index: nat)
    | InvalidPort(index: nat)
    | DuplicateEndpoint(index: nat)
    | UnusableCertificate(index: nat, check: CertCheck)
    | ReusedCertificate(owner: nat, index: nat)

  /** The reported index is the first one whose entry cannot join the entries before it. */
  ghost predicate Explains(lib: Library, cs: seq<Consenter>, p: Problem) {
    if p.NoConsenter? then cs == []
    else
      p.index < |cs| && Consistent(lib, cs[..p.index]) &&
      var c := cs[p.index];
      match p
      case InvalidHost(_) => !lib.validHost(HostOf(lib, c))
      case InvalidPort(_) => c.port == 0 || c.port > 65535
      case DuplicateEndpoint(_) =>
        exists i :: 0 <= i < p.index && EndpointOf(lib, cs[i]) == EndpointOf(lib, c)
      case UnusableCertificate(_, check) =>
        !check.Leaf? && (lib.certificate(c.clientCert) == check || lib.certificate(c.serverCert) == check)
      case ReusedCertificate(owner, _) =>
        owner < p.index && Digests(lib, cs[owner]) * Digests(lib, c) != {}
  }

  lemma ConsistentAppend(lib: Library, cs: seq<Consenter>, c: Consenter)
    ensures Consistent(lib, cs + [c]) <==>
            Consistent(lib, cs) && WellFormed(lib, c) &&
            forall i :: 0 <= i < |cs| ==> Compatible(lib, cs[i], c)
  {
    var all := cs + [c];
    if Consistent(lib, all) {
      assert all[|cs|] == c;
      forall i | 0 <= i < |cs|
        ensures WellFormed(lib, cs[i]) && Compatible(lib, cs[i], c)
      {
        assert all[i] == cs[i];
        assert Compatible(lib, all[i], all[|cs|]);
      }
      forall i, j | 0 <= i < j < |cs|
        ensures Compatible(lib, cs[i], cs[j])
      {
        assert Compatible(lib, all[i], all[j]);
      }
    }
  }

  /** An entry that cannot join the entries before it spoils the whole list. */
  lemma SpoiltAt(lib: Library, cs: seq<Consenter>, n: nat)
    requires n < |cs|
    requires !WellFormed(lib, cs[n]) || exists i :: 0 <= i < n && !Compatible(lib, cs[i], cs[n])
    ensures !Consistent(lib, cs)
  {
  }

  ghost predicate Carries(lib: Library, c: Consenter, digest: string) {
    digest == Digest(lib, c.clientCert) || digest == Digest(lib, c.serverCert)
  }

  /** Bookkeeping of the validation loop: `certificates` maps every digest seen to its owner. */
  ghost predicate Owned(lib: Library, cs: seq<Consenter>, certificates: map<string, nat>) {
    (forall d <- certificates :: certificates[d] < |cs| && Carries(lib, cs[certificates[d]], d)) &&
    (forall i {:trigger Digests(lib, cs[i])} :: 0 <= i < |cs| ==> Digests(lib, cs[i]) <= certificates.Keys)
  }

  ghost predicate Indexed(lib: Library, cs: seq<Consenter>, keys: map<Key, nat>) {
    (forall i :: 0 <= i < |cs| ==> KeyOf(lib, cs[i]) in keys && keys[KeyOf(lib, cs[i])] == i) &&
    keys.Keys == KeySet(lib, cs)
  }

  lemma IndexedAppend(lib: Library, cs: seq<Consenter>, keys: map<Key, nat>, c: Consenter)
    requires Indexed(lib, cs, keys)
    requires forall i :: 0 <= i < |cs| ==> Compatible(lib, cs[i], c)
    ensures Indexed(lib, cs + [c], keys[KeyOf(lib, c) := |cs|])
  {
    var all, grown := cs + [c], keys[KeyOf(lib, c) := |cs|];
    assert all[|cs|] == c;
    forall i | 0 <= i < |cs|
      ensures KeyOf(lib, all[i]) in grown && grown[KeyOf(lib, all[i])] == i
      ensures KeyOf(lib, all[i]) in KeySet(lib, all)
    {
      assert all[i] == cs[i];
    }
    assert KeyOf(lib, all[|cs|]) in KeySet(lib, all);
    assert KeySet(lib, all) == KeySet(lib, cs) + {KeyOf(lib, c)} by { KeySetAppend(lib, cs, c); }
  }

  lemma KeySetAppend(lib: Library, cs: seq<Consenter>, c: Consenter)
    ensures KeySet(lib, cs + [c]) == KeySet(lib, cs) + {KeyOf(lib, c)}
  {
    var all := cs + [c];
    forall k | k in KeySet(lib, cs) + {KeyOf(lib, c)}
      ensures k in KeySet(lib, all)
    {
      if k == KeyOf(lib, c) {
        assert all[|cs|] == c;
      } else {
        var i :| 0 <= i < |cs| && KeyOf(lib, cs[i]) == k;
        assert all[i] == cs[i];
      }
    }
  }

  lemma OwnedAppend(lib: Library, cs: seq<Consenter>, certificates: map<string, nat>, c: Consenter)
    requires Owned(lib, cs, certificates) && Digests(lib, c) !! certificates.Keys
    ensures Owned(lib, cs + [c], certificates[Digest(lib, c.clientCert) := |cs|][Digest(lib, c.serverCert) := |cs|])
  {
    var all := cs + [c];
    var grown := certificates[Digest(lib, c.clientCert) := |cs|][Digest(lib, c.serverCert) := |cs|];
    forall d <- grown
      ensures grown[d] < |all| && Carries(lib, all[grown[d]], d)
    {
      if d in certificates {
        assert d !in Digests(lib, c) && all[grown[d]] == cs[certificates[d]];
      } else {
        assert d in Digests(lib, c) && all[grown[d]] == c;
      }
    }
    forall i | 0 <= i < |all|
      ensures Digests(lib, all[i]) <= grown.Keys
    {
      assert Digests(lib, all[i]) <= if i < |cs| then certificates.Keys else Digests(lib, c);
    }
  }

  lemma OwnersDisjoint(lib: Library, cs: seq<Consenter>, certificates: map<string, nat>, c: Consenter)
    requires Owned(lib, cs, certificates) && Digests(lib, c) !! certificates.Keys
    ensures forall i :: 0 <= i < |cs| ==> Digests(lib, cs[i]) !! Digests(lib, c)
  {
  }

  /** One round of the inner loop over the client and the server certificate. */
  method RecordCertificate(lib: Library, pem: string, index: nat, certificates: map<string, nat>)
    returns (r: Result<map<string, nat>, Problem>)
    ensures r.Ok? <==> lib.certificate(pem).Leaf? &&
                       (Digest(lib, pem) in certificates ==> certificates[Digest(lib, pem)] == index)
    ensures r.Ok? ==> r.value == certificates[Digest(lib, pem) := index]
    ensures r.Err? && lib.certificate(pem).Leaf? ==>
              r.error == ReusedCertificate(certificates[Digest(lib, pem)], index)
    ensures r.Err? && !lib.certificate(pem).Leaf? ==>
              r.error == UnusableCertificate(index, lib.certificate(pem))
  {
    var check := lib.certificate(pem);
    if !check.Leaf? {
      return Err(UnusableCertificate(index, check));
    }
    if check.digest in certificates && certificates[check.digest] != index {
      return Err(ReusedCertificate(certificates[check.digest], index));
    }
    return Ok(certificates[check.digest := index]);
  }

  lemma ReuseSpoils(lib: Library, cs: seq<Consenter>, certificates: map<string, nat>, c: Consenter, digest: string)
    requires Owned(lib, cs, certificates) && digest in certificates && digest in Digests(lib, c)
    ensures certificates[digest] < |cs|
    ensures Digests(lib, cs[certificates[digest]]) * Digests(lib, c) != {}
  {
    assert digest in Digests(lib, cs[certificates[digest]]) * Digests(lib, c);
  }

  /** Both certificates of the entry at `index`: unusable, owned by an earlier entry, or recorded. */
  method RecordCertificates(lib: Library, cs: seq<Consenter>, index: nat, certificates: map<string, nat>)
    returns (r: Result<map<string, nat>, Problem>)
    requires index < |cs| && Owned(lib, cs[..index], certificates)
    ensures r.Ok? ==> lib.certificate(cs[index].clientCert).Leaf? && lib.certificate(cs[index].serverCert).Leaf?
    ensures r.Ok? ==> forall i :: 0 <= i < index ==> Digests(lib, cs[i]) !! Digests(lib, cs[index])
    ensures r.Ok? ==> Owned(lib, cs[..index] + [cs[index]], r.value)
    ensures r.Err? ==> !r.error.NoConsenter? && r.error.index == index
    ensures r.Err? ==> r.error.UnusableCertificate? || r.error.ReusedCertificate?
    ensures r.Err? && r.error.UnusableCertificate? ==>
      !r.error.check.Leaf? &&
      (lib.certificate(cs[index].clientCert) == r.error.check || lib.certificate(cs[index].serverCert) == r.error.check)
    ensures r.Err? && r.error.ReusedCertificate? ==>
      r.error.owner < index && Digests(lib, cs[r.error.owner]) * Digests(lib, cs[index]) != {}
  {
    var c, before := cs[index], cs[..index];
    r := RecordCertificate(lib, c.clientCert, index, certificates);
    if r.Err? {
      if r.error.ReusedCertificate? {
        ReuseSpoils(lib, before, certificates, c, Digest(lib, c.clientCert));
      }
      return;
    }
    var client := r.value;
    r := RecordCertificate(lib, c.serverCert, index, client);
    if r.Err? {
      if r.error.ReusedCertificate? {
        ReuseSpoils(lib, before, certificates, c, Digest(lib, c.serverCert));
      }
      return;
    }
    assert forall d <- certificates :: certificates[d] < index;
    OwnedAppend(lib, before, certificates, c);
    OwnersDisjoint(lib, before, certificates, c);
    assert forall i :: 0 <= i < index ==> before[i] == cs[i];
  }

  /** The loop body for one entry: either it spoils the list, or it can join the entries before it. */
  method CheckEntry(lib: Library, cs: seq<Consenter>, index: nat, endpoints: set<Endpoint>, certificates: map<string, nat>)
    returns (r: Result<map<string, nat>, Problem>)
    requires index < |cs| && Consistent(lib, cs[..index]) && Owned(lib, cs[..index], certificates)
    requires endpoints == set i | 0 <= i < index :: EndpointOf(lib, cs[i])
    ensures r.Err? ==> !Consistent(lib, cs) && Explains(lib, cs, r.error)
    ensures r.Ok? ==> WellFormed(lib, cs[index]) && Owned(lib, cs[..index] + [cs[index]], r.value)
    ensures r.Ok? ==> forall i :: 0 <= i < index ==> Compatible(lib, cs[i], cs[index])
  {
    var c := cs[index];
    if !lib.validHost(HostOf(lib, c)) {
      SpoiltAt(lib, cs, index);
      return Err(InvalidHost(index));
    }
    if c.port == 0 || c.port > 65535 {
      SpoiltAt(lib, cs, index);
      return Err(InvalidPort(index));
    }
    if EndpointOf(lib, c) in endpoints {
      SpoiltAt(lib, cs, index);
      return Err(DuplicateEndpoint(index));
    }
    r := RecordCertificates(lib, cs, index, certificates);
    if r.Err? {
      assert r.error.ReusedCertificate? ==> !Compatible(lib, cs[r.error.owner], c);
      SpoiltAt(lib, cs, index);
    } else {
      assert forall i :: 0 <= i < index ==> EndpointOf(lib, cs[i]) in endpoints;
    }
  }

  /** validateRaftConsenters: accepts exactly the admissible lists and indexes their keys. */
  method ValidateConsenters(lib: Library, cs: seq<Consenter>) returns (r: Result<map<Key, nat>, Problem>)
    ensures r.Ok? <==> ValidSet(lib, cs)
    ensures r.Ok? ==> Indexed(lib, cs, r.value)
    ensures r.Err? ==> Explains(lib, cs, r.error)
  {
    if |cs| == 0 {
      return Err(NoConsenter);
    }
    var keys: map<Key, nat>, endpoints: set<Endpoint>, certificates: map<string, nat> := map[], {}, map[];
    for index := 0 to |cs|
      invariant Consistent(lib, cs[..index])
      invariant Indexed(lib, cs[..index], keys)
      invariant endpoints == set i | 0 <= i < index :: EndpointOf(lib, cs[i])
      invariant Owned(lib, cs[..index], certificates)
    {
      var checked := CheckEntry(lib, cs, index, endpoints, certificates);
      if checked.Err? {
        return Err(checked.error);
      }
      assert cs[..index + 1] == cs[..index] + [cs[index]];
      Joins(lib, cs[..index], keys, cs[index]);
      certificates := checked.value;
      endpoints := endpoints + {EndpointOf(lib, cs[index])};
      keys := keys[KeyOf(lib, cs[index]) := index];
    }
    assert cs[..|cs|] == cs;
    return Ok(keys);
  }

  lemma Joins(lib: Library, cs: seq<Consenter>, keys: map<Key, nat>, c: Consenter)
    requires Consistent(lib, cs) && Indexed(lib, cs, keys) && WellFormed(lib, c)
    requires forall i :: 0 <= i < |cs| ==> Compatible(lib, cs[i], c)
    ensures Consistent(lib, cs + [c]) && Indexed(lib, cs + [c], keys[KeyOf(lib, c) := |cs|])
  {
    ConsistentAppend(lib, cs, c);
    IndexedAppend(lib, cs, keys, c);
  }

  /** In an admissible list no two entries have the same key. */
  lemma KeysInjective(lib: Library, cs: seq<Consenter>)
    requires Consistent(lib, cs)
    ensures forall i, j :: 0 <= i < j < |cs| ==> KeyOf(lib, cs[i]) != KeyOf(lib, cs[j])
  {
    forall i, j | 0 <= i < j < |cs|
      ensures KeyOf(lib, cs[i]) != KeyOf(lib, cs[j])
    {
      assert Compatible(lib, cs[i], cs[j]);
    }
  }

  /** An admissible list has as many keys as entries. */
  lemma {:induction false} KeyCount(lib: Library, cs: seq<Consenter>)
    requires Consistent(lib, cs)
    ensures |KeySet(lib, cs)| == |cs|
  {
    if cs == [] {
      assert KeySet(lib, cs) == {};
    } else {
      var n := |cs| - 1;
      assert cs == cs[..n] + [cs[n]];
      KeyCount(lib, cs[..n]);
      KeySetAppend(lib, cs[..n], cs[n]);
      KeysInjective(lib, cs);
      assert forall i :: 0 <= i < n ==> cs[..n][i] == cs[i];
    }
  }
}
