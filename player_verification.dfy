/**
 * The player registry: the administrator registers players and records,
 * per (player, item), that the player's signature on the item is verified.
 * Authorisation is checked before existence.
 */
module PlayerVerification {
  import opened Clarity

  datatype Player = Player(
    name: string,
    sport: string,
    verified: bool,
    verifiedBy: Principal,
    verificationTime: int)

  datatype Signature = Signature(
    signatureHash: Hash,
    verified: bool,
    verificationTime: int)

  /**
   * The whole state of the contract as a value. Its member functions are the
   * specification of the contract's public calls; `Contract` below performs
   * the same calls by updating its tables in place.
   */
  datatype Registry = Registry(
    verifiedPlayers: map<string, Player>,
    playerSignatures: map<(string, int), Signature>,
    contractOwner: Principal)
  {
    function GetPlayer(playerId: string): Option<Player> {
      if playerId in verifiedPlayers then Some(verifiedPlayers[playerId]) else None
    }

    /** False when nothing is stored for the pair, the stored flag otherwise. */
    predicate IsSignatureVerified(playerId: string, itemId: int) {
      (playerId, itemId) in playerSignatures && playerSignatures[(playerId, itemId)].verified
    }

    /** Registration overwrites any earlier entry for the same player. */
    function RegisterPlayer(playerId: string, name: string, sport: string, sender: Principal): (r: Step<bool, Registry>)
      ensures sender != contractOwner ==> r == Step(Error(UNAUTHORIZED), this)
      ensures sender == contractOwner ==> r.response == Value(true)
      ensures r.state.contractOwner == contractOwner && r.state.playerSignatures == playerSignatures
    {
      if sender != contractOwner then
        Step(Error(UNAUTHORIZED), this)
      else
        var player := Player(name, sport, true, sender, MOCK_BLOCK_HEIGHT);
        Step(Value(true), this.(verifiedPlayers := verifiedPlayers[playerId := player]))
    }

    function VerifySignature(playerId: string, itemId: int, signatureHash: Hash, sender: Principal): (r: Step<bool, Registry>)
      ensures sender != contractOwner ==> r == Step(Error(UNAUTHORIZED), this)
      ensures sender == contractOwner && playerId !in verifiedPlayers ==> r == Step(Error(NOT_FOUND), this)
      ensures r.response.Value? ==>
        && r.response.value
        && playerId in verifiedPlayers
        && r.state.IsSignatureVerified(playerId, itemId)
      ensures r.state.contractOwner == contractOwner && r.state.verifiedPlayers == verifiedPlayers
    {
      if sender != contractOwner then
        Step(Error(UNAUTHORIZED), this)
      else if playerId !in verifiedPlayers then
        Step(Error(NOT_FOUND), this)
      else
        var signature := Signature(signatureHash, true, MOCK_BLOCK_HEIGHT);
        Step(Value(true), this.(playerSignatures := playerSignatures[(playerId, itemId) := signature]))
    }

    /**
     * What holds of every registry reachable from the reset state: a
     * signature is stored only for a registered player, and every stored
     * player and signature carries the verified flag.
     */
    ghost predicate Valid() {
      && (forall playerId :: playerId in verifiedPlayers ==> verifiedPlayers[playerId].verified)
      && (forall key :: key in playerSignatures ==> key.0 in verifiedPlayers && playerSignatures[key].verified)
    }
  }

  /** The state `beforeEach` resets the mock to. */
  function Reset(): (s: Registry)
    ensures s.Valid()
  {
    Registry(map[], map[], MOCK_PRINCIPAL)
  }

  /** Registration by the owner stores the player as verified by the caller and touches nothing else. */
  lemma RegisterPlayerRoundTrip(s: Registry, playerId: string, name: string, sport: string)
    ensures var r := s.RegisterPlayer(playerId, name, sport, s.contractOwner);
      && r.state.GetPlayer(playerId) == Some(Player(name, sport, true, s.contractOwner, MOCK_BLOCK_HEIGHT))
      && (forall other :: other != playerId ==> r.state.GetPlayer(other) == s.GetPlayer(other))
  {
  }

  /** Verification by the owner of a registered player stores the hash under the pair and touches nothing else. */
  lemma VerifySignatureStores(s: Registry, playerId: string, itemId: int, signatureHash: Hash)
    requires playerId in s.verifiedPlayers
    ensures var r := s.VerifySignature(playerId, itemId, signatureHash, s.contractOwner);
      && r.response == Value(true)
      && r.state.playerSignatures[(playerId, itemId)] == Signature(signatureHash, true, MOCK_BLOCK_HEIGHT)
      && (forall p, i :: (p, i) != (playerId, itemId) ==>
            r.state.IsSignatureVerified(p, i) == s.IsSignatureVerified(p, i))
  {
  }

  /** A failed verification stores nothing, so the pair's verified status is what it was. */
  lemma FailedVerifyStoresNothing(s: Registry, playerId: string, itemId: int, signatureHash: Hash, sender: Principal)
    requires s.VerifySignature(playerId, itemId, signatureHash, sender).response.Error?
    ensures var t := s.VerifySignature(playerId, itemId, signatureHash, sender).state;
      && t.playerSignatures == s.playerSignatures
      && t.IsSignatureVerified(playerId, itemId) == s.IsSignatureVerified(playerId, itemId)
  {
  }

  /** One public call that changes the registry. */
  datatype Call =
    | Register(playerId: string, name: string, sport: string, sender: Principal)
    | Verify(playerId: string, itemId: int, signatureHash: Hash, sender: Principal)

  function Apply(s: Registry, c: Call): Registry {
    match c
    case Register(playerId, name, sport, sender) => s.RegisterPlayer(playerId, name, sport, sender).state
    case Verify(playerId, itemId, signatureHash, sender) => s.VerifySignature(playerId, itemId, signatureHash, sender).state
  }

  /** The registry after performing `calls` in order. */
  function Run(s: Registry, calls: seq<Call>): Registry
    decreases |calls|
  {
    if calls == [] then s else Run(Apply(s, calls[0]), calls[1..])
  }

  lemma ApplyPreservesValid(s: Registry, c: Call)
    requires s.Valid()
    ensures Apply(s, c).Valid()
    ensures s.verifiedPlayers.Keys <= Apply(s, c).verifiedPlayers.Keys
    ensures s.playerSignatures.Keys <= Apply(s, c).playerSignatures.Keys
  {
  }

  /**
   * Over any run of calls from a valid registry: the invariant holds, no
   * player is ever unregistered, and a verified signature stays verified.
   */
  lemma {:induction false} VerifiedStaysVerified(s: Registry, calls: seq<Call>, playerId: string, itemId: int)
    requires s.Valid()
    ensures Run(s, calls).Valid()
    ensures s.verifiedPlayers.Keys <= Run(s, calls).verifiedPlayers.Keys
    ensures s.IsSignatureVerified(playerId, itemId) ==> Run(s, calls).IsSignatureVerified(playerId, itemId)
    decreases |calls|
  {
    if calls != [] {
      ApplyPreservesValid(s, calls[0]);
      VerifiedStaysVerified(Apply(s, calls[0]), calls[1..], playerId, itemId);
    }
  }

  /** In a valid registry a verified signature belongs to a registered player. */
  lemma VerifiedSignatureHasPlayer(s: Registry, playerId: string, itemId: int)
    requires s.Valid()
    requires s.IsSignatureVerified(playerId, itemId)
    ensures s.GetPlayer(playerId).Some? && s.GetPlayer(playerId).value.verified
  {
    assert (playerId, itemId).0 == playerId;
  }

  /** The mock object: the two tables it updates in place. */
  class Contract {
    var verifiedPlayers: map<string, Player>
    var playerSignatures: map<(string, int), Signature>
    const contractOwner: Principal

    function Snapshot(): Registry
      reads this
    {
      Registry(verifiedPlayers, playerSignatures, contractOwner)
    }

    ghost predicate Valid()
      reads this
    {
      Snapshot().Valid()
    }

    constructor ()
      ensures Snapshot() == Reset()
      ensures Valid()
    {
      verifiedPlayers := map[];
      playerSignatures := map[];
      contractOwner := MOCK_PRINCIPAL;
    }

    method RegisterPlayer(playerId: string, name: string, sport: string, sender: Principal) returns (r: Response<bool>)
      requires Valid()
      modifies this
      ensures Valid()
      ensures Step(r, Snapshot()) == old(Snapshot()).RegisterPlayer(playerId, name, sport, sender)
    {
      if sender != contractOwner {
        return Error(UNAUTHORIZED);
      }
      verifiedPlayers := verifiedPlayers[playerId := Player(name, sport, true, sender, MOCK_BLOCK_HEIGHT)];
      r := Value(true);
    }

    method VerifySignature(playerId: string, itemId: int, signatureHash: Hash, sender: Principal) returns (r: Response<bool>)
      requires Valid()
      modifies this
      ensures Valid()
      ensures Step(r, Snapshot()) == old(Snapshot()).VerifySignature(playerId, itemId, signatureHash, sender)
    {
      if sender != contractOwner {
        return Error(UNAUTHORIZED);
      }
      if playerId !in verifiedPlayers {
        return Error(NOT_FOUND);
      }
      playerSignatures := playerSignatures[(playerId, itemId) := Signature(signatureHash, true, MOCK_BLOCK_HEIGHT)];
      r := Value(true);
    }

    method IsSignatureVerified(playerId: string, itemId: int) returns (verified: bool)
      ensures verified == Snapshot().IsSignatureVerified(playerId, itemId)
    {
      var key := (playerId, itemId);
      verified := if key in playerSignatures then playerSignatures[key].verified else false;
    }

    method GetPlayer(playerId: string) returns (r: Option<Player>)
      ensures r == Snapshot().GetPlayer(playerId)
    {
      if playerId in verifiedPlayers {
        r := Some(verifiedPlayers[playerId]);
      } else {
        r := None;
      }
    }
  }
}
