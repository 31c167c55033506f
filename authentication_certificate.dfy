/**
 * The certificate registry: an administrator issues authenticity certificates
 * for items, may revoke them, and anyone may ask whether a certificate is
 * currently valid, which depends on the block height at the time of asking.
 */
module AuthenticationCertificate {
  import opened Clarity

  /** Blocks a certificate stays valid after issuance (about one year). */
  const CERTIFICATE_VALIDITY_PERIOD: int := 52560

  /** The block height of a freshly reset contract. */
  const INITIAL_BLOCK_HEIGHT: int := 100

  datatype Certificate = Certificate(
    itemId: int,
    issuer: Principal,
    issueTime: int,
    expirationTime: int,
    revoked: bool,
    certificateHash: Hash)

  /** The entry of the item-to-certificate table: the item's latest certificate. */
  datatype ItemCertificate = ItemCertificate(certificateId: int)

  /**
   * The whole state of the contract as a value. Its member functions are the
   * specification of the contract's public calls; `Contract` below performs
   * the same calls by updating its fields in place.
   */
  datatype Registry = Registry(
    certificates: map<int, Certificate>,
    itemCertificates: map<int, ItemCertificate>,
    lastCertificateId: nat,
    contractOwner: Principal,
    blockHeight: int,
    certificateValidityPeriod: int)
  {
    function GetCertificate(certificateId: int): Option<Certificate> {
      if certificateId in certificates then Some(certificates[certificateId]) else None
    }

    function GetItemCertificate(itemId: int): Option<ItemCertificate> {
      if itemId in itemCertificates then Some(itemCertificates[itemId]) else None
    }

    /** Recomputed on every call against the current block height. */
    predicate IsCertificateValid(certificateId: int) {
      && certificateId in certificates
      && !certificates[certificateId].revoked
      && blockHeight <= certificates[certificateId].expirationTime
    }

    function IssueCertificate(itemId: int, certificateHash: Hash, sender: Principal): (r: Step<int, Registry>)
      ensures sender != contractOwner ==> r == Step(Error(UNAUTHORIZED), this)
      ensures sender == contractOwner ==>
        && r.response == Value(lastCertificateId + 1)
        && r.state.lastCertificateId == lastCertificateId + 1
      ensures r.state.contractOwner == contractOwner && r.state.blockHeight == blockHeight
      ensures r.state.certificateValidityPeriod == certificateValidityPeriod
    {
      if sender != contractOwner then
        Step(Error(UNAUTHORIZED), this)
      else
        var newId := lastCertificateId + 1;
        var expiration := blockHeight + certificateValidityPeriod;
        var cert := Certificate(itemId, sender, blockHeight, expiration, false, certificateHash);
        Step(Value(newId), this.(lastCertificateId := newId,
                                 certificates := certificates[newId := cert],
                                 itemCertificates := itemCertificates[itemId := ItemCertificate(newId)]))
    }

    /** The existence check comes before the authorisation check. */
    function RevokeCertificate(certificateId: int, sender: Principal): (r: Step<bool, Registry>)
      ensures certificateId !in certificates ==> r == Step(Error(NOT_FOUND), this)
      ensures certificateId in certificates && sender != contractOwner ==> r == Step(Error(UNAUTHORIZED), this)
      ensures r.response.Value? ==>
        && r.response.value
        && certificateId in r.state.certificates
        && r.state.certificates[certificateId].revoked
        && !r.state.IsCertificateValid(certificateId)
    {
      if certificateId !in certificates then
        Step(Error(NOT_FOUND), this)
      else if sender != contractOwner then
        Step(Error(UNAUTHORIZED), this)
      else
        var cert := certificates[certificateId];
        Step(Value(true), this.(certificates := certificates[certificateId := cert.(revoked := true)]))
    }

    /** The test helper that simulates the passing of time. */
    function AdvanceBlockHeight(blocks: int): Registry {
      this.(blockHeight := blockHeight + blocks)
    }

    /**
     * What holds of every registry reachable from the reset state: the stored
     * ids are exactly 1..lastCertificateId, every certificate expires exactly one
     * validity period after issuance and was issued by the owner, and every
     * item pointer leads to a stored certificate for that item.
     */
    ghost predicate Valid() {
      && certificateValidityPeriod >= 0
      && (forall id :: id in certificates <==> 1 <= id <= lastCertificateId)
      && (forall id :: id in certificates ==>
            && certificates[id].expirationTime == certificates[id].issueTime + certificateValidityPeriod
            && certificates[id].issuer == contractOwner)
      && (forall item :: item in itemCertificates ==>
            && itemCertificates[item].certificateId in certificates
            && certificates[itemCertificates[item].certificateId].itemId == item)
    }
  }

  /** The state `beforeEach` resets the mock to. */
  function Reset(): (s: Registry)
    ensures s.Valid()
  {
    Registry(map[], map[], 0, MOCK_PRINCIPAL, INITIAL_BLOCK_HEIGHT, CERTIFICATE_VALIDITY_PERIOD)
  }

  /** Issuance by the owner stores exactly what was asked for and points the item at it. */
  lemma IssueRoundTrip(s: Registry, itemId: int, certificateHash: Hash)
    ensures var r := s.IssueCertificate(itemId, certificateHash, s.contractOwner);
      && r.response.Value?
      && r.state.GetCertificate(r.response.value)
         == Some(Certificate(itemId, s.contractOwner, s.blockHeight,
                             s.blockHeight + s.certificateValidityPeriod, false, certificateHash))
      && r.state.GetItemCertificate(itemId) == Some(ItemCertificate(r.response.value))
  {
  }

  /**
   * Issuance picks an id never used before, adds no certificate but that one,
   * leaves every stored certificate and every other item's pointer alone, keeps the invariant, and the new
   * certificate is valid at once.
   */
  lemma IssueKeepsExisting(s: Registry, itemId: int, certificateHash: Hash, sender: Principal)
    requires s.Valid()
    ensures var r := s.IssueCertificate(itemId, certificateHash, sender);
      && r.state.Valid()
      && (r.response.Value? ==>
            && r.response.value !in s.certificates
            && r.state.IsCertificateValid(r.response.value))
      && (forall id :: id in s.certificates ==> r.state.GetCertificate(id) == s.GetCertificate(id))
      && (r.response.Value? ==>
            forall id :: id != r.response.value ==> r.state.GetCertificate(id) == s.GetCertificate(id))
      && (forall item :: item != itemId ==> r.state.GetItemCertificate(item) == s.GetItemCertificate(item))
  {
  }

  /** A successful revocation changes the revoked flag of one certificate and nothing else. */
  lemma RevokeChangesOnlyFlag(s: Registry, certificateId: int)
    requires certificateId in s.certificates
    ensures var r := s.RevokeCertificate(certificateId, s.contractOwner);
      && r.response == Value(true)
      && r.state.GetCertificate(certificateId) == Some(s.certificates[certificateId].(revoked := true))
      && (forall id :: id != certificateId ==> r.state.GetCertificate(id) == s.GetCertificate(id))
      && r.state.itemCertificates == s.itemCertificates
      && r.state.lastCertificateId == s.lastCertificateId
      && r.state.blockHeight == s.blockHeight
      && r.state.contractOwner == s.contractOwner
      && r.state.certificateValidityPeriod == s.certificateValidityPeriod
  {
  }

  /** Revoking twice answers the same as revoking once, and the second call changes nothing. */
  lemma RevokeIdempotent(s: Registry, certificateId: int, sender: Principal)
    ensures var first := s.RevokeCertificate(certificateId, sender);
      first.state.RevokeCertificate(certificateId, sender) == Step(first.response, first.state)
  {
    var first := s.RevokeCertificate(certificateId, sender);
    if first.response.Value? {
      var m := first.state.certificates;
      assert m[certificateId := m[certificateId].(revoked := true)] == m;
    }
  }

  /** A certificate issued now is no longer valid once the clock passes its validity period. */
  lemma ExpiresAfterValidityPeriod(s: Registry, itemId: int, certificateHash: Hash)
    ensures var r := s.IssueCertificate(itemId, certificateHash, s.contractOwner);
      && r.response.Value?
      && !r.state.AdvanceBlockHeight(s.certificateValidityPeriod + 1).IsCertificateValid(r.response.value)
  {
  }

  /** Advancing the clock changes only the block height, and never revives a certificate. */
  lemma AdvanceNeverRevalidates(s: Registry, certificateId: int, blocks: int)
    requires blocks >= 0
    ensures var t := s.AdvanceBlockHeight(blocks);
      && t.certificates == s.certificates
      && t.itemCertificates == s.itemCertificates
      && t.lastCertificateId == s.lastCertificateId
      && t.contractOwner == s.contractOwner
      && t.certificateValidityPeriod == s.certificateValidityPeriod
    ensures s.AdvanceBlockHeight(blocks).IsCertificateValid(certificateId) ==> s.IsCertificateValid(certificateId)
  {
  }

  /** One public call that changes the registry. */
  datatype Call =
    | Issue(itemId: int, certificateHash: Hash, sender: Principal)
    | Revoke(certificateId: int, sender: Principal)
    | Advance(blocks: int)

  function Apply(s: Registry, c: Call): Registry {
    match c
    case Issue(itemId, certificateHash, sender) => s.IssueCertificate(itemId, certificateHash, sender).state
    case Revoke(certificateId, sender) => s.RevokeCertificate(certificateId, sender).state
    case Advance(blocks) => s.AdvanceBlockHeight(blocks)
  }

  /** The registry after performing `calls` in order. */
  function Run(s: Registry, calls: seq<Call>): Registry
    decreases |calls|
  {
    if calls == [] then s else Run(Apply(s, calls[0]), calls[1..])
  }

  /** No call in `calls` moves the clock backwards. */
  predicate ClockForward(calls: seq<Call>) {
    forall i :: 0 <= i < |calls| && calls[i].Advance? ==> calls[i].blocks >= 0
  }

  lemma ApplyPreservesValid(s: Registry, c: Call)
    requires s.Valid()
    ensures Apply(s, c).Valid()
    ensures forall id :: id in s.certificates ==>
      && id in Apply(s, c).certificates
      && Apply(s, c).certificates[id] == s.certificates[id].(revoked := Apply(s, c).certificates[id].revoked)
      && (s.certificates[id].revoked ==> Apply(s, c).certificates[id].revoked)
  {
  }

  /**
   * Over any run of calls from a valid registry: the invariant holds, no
   * certificate disappears, only the revoked flag of a certificate ever
   * changes, it never goes back to false, and (when the clock only moves
   * forward) a certificate that is not valid never becomes valid again.
   */
  lemma {:induction false} CertificatesAreNeverRevived(s: Registry, calls: seq<Call>, certificateId: int)
    requires s.Valid()
    requires ClockForward(calls)
    requires certificateId in s.certificates
    ensures Run(s, calls).Valid()
    ensures certificateId in Run(s, calls).certificates
    ensures var after := Run(s, calls).certificates[certificateId];
      && after == s.certificates[certificateId].(revoked := after.revoked)
      && (s.certificates[certificateId].revoked ==> after.revoked)
    ensures Run(s, calls).IsCertificateValid(certificateId) ==> s.IsCertificateValid(certificateId)
    decreases |calls|
  {
    if calls != [] {
      var next := Apply(s, calls[0]);
      ApplyPreservesValid(s, calls[0]);
      assert ClockForward(calls[1..]) by {
        forall i | 0 <= i < |calls[1..]| && calls[1..][i].Advance?
          ensures calls[1..][i].blocks >= 0
        {
          assert calls[1..][i] == calls[i + 1];
        }
      }
      assert calls[0].Advance? ==> calls[0].blocks >= 0;
      assert next.IsCertificateValid(certificateId) ==> s.IsCertificateValid(certificateId);
      CertificatesAreNeverRevived(next, calls[1..], certificateId);
    }
  }

  /** The mock object: the tables, the id counter and the clock it updates in place. */
  class Contract {
    var certificates: map<int, Certificate>
    var itemCertificates: map<int, ItemCertificate>
    var lastCertificateId: nat
    const contractOwner: Principal
    var blockHeight: int
    const certificateValidityPeriod: int

    function Snapshot(): Registry
      reads this
    {
      Registry(certificates, itemCertificates, lastCertificateId,
               contractOwner, blockHeight, certificateValidityPeriod)
    }

    ghost predicate Valid()
      reads this
    {
      Snapshot().Valid()
    }

    constructor ()
      ensures Snapshot() == Reset()
      ensures Valid()
    {
      certificates := map[];
      itemCertificates := map[];
      lastCertificateId := 0;
      contractOwner := MOCK_PRINCIPAL;
      blockHeight := INITIAL_BLOCK_HEIGHT;
      certificateValidityPeriod := CERTIFICATE_VALIDITY_PERIOD;
    }

    method IssueCertificate(itemId: int, certificateHash: Hash, sender: Principal) returns (r: Response<int>)
      requires Valid()
      modifies this
      ensures Valid()
      ensures Step(r, Snapshot()) == old(Snapshot()).IssueCertificate(itemId, certificateHash, sender)
    {
      IssueKeepsExisting(Snapshot(), itemId, certificateHash, sender);
      if sender != contractOwner {
        return Error(UNAUTHORIZED);
      }
      var newId := lastCertificateId + 1;
      lastCertificateId := newId;
      var expiration := blockHeight + certificateValidityPeriod;
      certificates := certificates[newId := Certificate(itemId, sender, blockHeight, expiration, false, certificateHash)];
      itemCertificates := itemCertificates[itemId := ItemCertificate(newId)];
      r := Value(newId);
    }

    method RevokeCertificate(certificateId: int, sender: Principal) returns (r: Response<bool>)
      requires Valid()
      modifies this
      ensures Valid()
      ensures Step(r, Snapshot()) == old(Snapshot()).RevokeCertificate(certificateId, sender)
    {
      if certificateId !in certificates {
        return Error(NOT_FOUND);
      }
      if sender != contractOwner {
        return Error(UNAUTHORIZED);
      }
      var cert := certificates[certificateId];
      certificates := certificates[certificateId := cert.(revoked := true)];
      r := Value(true);
    }

    method GetCertificate(certificateId: int) returns (r: Option<Certificate>)
      ensures r == Snapshot().GetCertificate(certificateId)
    {
      if certificateId in certificates {
        r := Some(certificates[certificateId]);
      } else {
        r := None;
      }
    }

    method GetItemCertificate(itemId: int) returns (r: Option<ItemCertificate>)
      ensures r == Snapshot().GetItemCertificate(itemId)
    {
      if itemId in itemCertificates {
        r := Some(itemCertificates[itemId]);
      } else {
        r := None;
      }
    }

    method IsCertificateValid(certificateId: int) returns (valid: bool)
      ensures valid == Snapshot().IsCertificateValid(certificateId)
    {
      if certificateId !in certificates {
        return false;
      }
      var cert := certificates[certificateId];
      valid := !cert.revoked && blockHeight <= cert.expirationTime;
    }

    method AdvanceBlockHeight(blocks: int)
      requires Valid()
      modifies this
      ensures Valid()
      ensures Snapshot() == old(Snapshot()).AdvanceBlockHeight(blocks)
    {
      blockHeight := blockHeight + blocks;
    }
  }
}
