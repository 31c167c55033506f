# Sports memorabilia authentication ledger: a Dafny model

The repository describes four Clarity smart contracts for authenticating
sports memorabilia. Their only executable logic is a set of in-memory mock
objects, one per contract. Each mock has `Map` tables, counters and methods
that return `{ value }` or `{ error: 403 | 404 }`. This project models those
four mocks:

- **Certificate registry** (`AuthenticationCertificate`). The contract owner
  issues certificates for items and may revoke them. Each certificate gets a
  fresh global id and expires one validity period (52560 blocks) after the
  block height at which it was issued. Anyone may ask whether a certificate is
  currently valid. The answer is recomputed against the current block height
  on every call.
- **Provenance ledger** (`Provenance`). This is a chain of custody per item:
  ownership records keyed by (item, sequence) and a pointer to the current
  owner. Only the current owner can transfer the item.
- **Player verification** (`PlayerVerification`). The contract owner registers
  players and marks a player's signature on an item as verified.
- **Item registration** (`ItemRegistration`). Each registration gets the next
  sequential id and its description is stored under that id.

Each module has two parts:

- **A state datatype** (`Registry`, `Ledger`, `Catalog`). Its member functions
  specify the mock's calls. State-changing calls return a `Step`: the response
  plus the state after the call.
- **A `Contract` class.** It has the mock's own fields and updates them in
  place. Each method is proved to do what the matching specification function
  says: `Step(r, Snapshot()) == old(Snapshot()).Call(...)`. Each query method
  (`GetCertificate`, `IsCertificateValid`, `GetOwnershipRecord`, …) returns
  exactly what the datatype's function of the same name gives. The
  `Contract` row of a query in the table below therefore also covers that
  specification function.

Lemmas about the specification functions state the properties: round-trips
through the lookups, freshness of ids, and "a failed call changes nothing".
They also state the invariants that every call keeps and what holds after any
run of calls. The shared module `Clarity` defines principals, opaque hashes,
`Option` for the mocks' `null`, and the `{ value } | { error }` response.

## Model

| member | source | states |
|---|---|---|
| `AuthenticationCertificate.Registry.IssueCertificate` | tests/authentication-certificate.test.ts:14-36 | a non-owner gets 403 and the state is unchanged; the owner gets `lastCertificateId + 1`, which becomes the new counter; owner, clock and validity period are untouched |
| `AuthenticationCertificate.Registry.RevokeCertificate` | tests/authentication-certificate.test.ts:38-53 | an unknown id gets 404 whoever asks (existence is checked before authorisation); a non-owner gets 403 for a known id; both leave the state unchanged; success returns true, and the certificate is then revoked and not valid |
| `AuthenticationCertificate.Reset` | tests/authentication-certificate.test.ts:7-12 | the reset state (no certificates, counter 0, block height 100, period 52560) satisfies the registry invariant: stored ids exactly 1..counter, expiration = issue time + period, issuer = owner, pointers lead to a certificate for their item |
| `AuthenticationCertificate.IssueRoundTrip` | tests/authentication-certificate.test.ts:19-33 | after issuance by the owner, `getCertificate(newId)` returns exactly the item, the issuer, issue time = block height, expiration = block height + period, not revoked, and the hash; `getItemCertificate(item)` points at the new id |
| `AuthenticationCertificate.IssueKeepsExisting` | tests/authentication-certificate.test.ts:19-33 | in a valid registry the new id was never used; every other id's entry (stored or absent) and every other item's pointer is unchanged; the invariant is kept; the new certificate is valid at once |
| `AuthenticationCertificate.RevokeChangesOnlyFlag` | tests/authentication-certificate.test.ts:49-52 | a successful revocation returns true and changes only the revoked flag of that one certificate: pointers, counter, clock, owner and period are unchanged |
| `AuthenticationCertificate.RevokeIdempotent` | tests/authentication-certificate.test.ts:38-53 | a second identical revocation gives the same response as the first and changes nothing |
| `AuthenticationCertificate.ExpiresAfterValidityPeriod` | tests/authentication-certificate.test.ts:63-76 | a certificate issued now is not valid once the clock has advanced by the validity period + 1 |
| `AuthenticationCertificate.AdvanceNeverRevalidates` | tests/authentication-certificate.test.ts:74-76 | advancing leaves certificates, pointers, counter, owner and period unchanged; with a non-negative advance, a certificate valid afterwards was valid before |
| `AuthenticationCertificate.ApplyPreservesValid` | tests/authentication-certificate.test.ts:14-76 | each state-changing call keeps the invariant, keeps every certificate, changes at most its revoked flag, and never un-revokes it |
| `AuthenticationCertificate.CertificatesAreNeverRevived` | tests/authentication-certificate.test.ts:14-76 | over any run of calls: the invariant holds; a certificate is never removed; only its revoked flag changes, and never back to false; if the clock never goes back, a certificate that is not valid never becomes valid again |
| `AuthenticationCertificate.Contract.constructor` | tests/authentication-certificate.test.ts:82-88 | the fresh object is the reset state |
| `AuthenticationCertificate.Contract.IssueCertificate` | tests/authentication-certificate.test.ts:14-36 | the in-place update of fields and maps produces the response and new state of the specification, and keeps the invariant |
| `AuthenticationCertificate.Contract.RevokeCertificate` | tests/authentication-certificate.test.ts:38-53 | the in-place update of the stored certificate produces the response and new state of the specification |
| `AuthenticationCertificate.Contract.GetCertificate` | tests/authentication-certificate.test.ts:55-57 | returns the stored certificate, or none (the mock's `null`) when the id is absent |
| `AuthenticationCertificate.Contract.GetItemCertificate` | tests/authentication-certificate.test.ts:59-61 | returns the item's pointer entry, or none when the item has none |
| `AuthenticationCertificate.Contract.IsCertificateValid` | tests/authentication-certificate.test.ts:63-71 | false for an absent id; otherwise not revoked and block height ≤ expiration |
| `AuthenticationCertificate.Contract.AdvanceBlockHeight` | tests/authentication-certificate.test.ts:74-76 | the block height grows by the given amount and nothing else changes |
| `Provenance.Ledger.RecordInitialOwnership` | tests/provenance.test.ts:10-28 | always returns sequence 1 and points the item at (sender, 1), whether or not the item already had a chain |
| `Provenance.Ledger.TransferOwnership` | tests/provenance.test.ts:30-59 | an item with no current owner gets 404; a caller who is not the current owner gets 403; both leave the state unchanged; success returns current sequence + 1 and points the item at (new owner, that sequence) |
| `Provenance.Reset` | tests/provenance.test.ts:74-78 | the empty ledger has every chain intact |
| `Provenance.InitialRecordRoundTrip` | tests/provenance.test.ts:10-28 | record (item, 1) is the sender as both owner and acquired-from, type "initial", the given notes; no other record and no other item's pointer changes |
| `Provenance.InitialRecordKeepsChains` | tests/provenance.test.ts:10-28 | recording the first owner of an item with no chain yet keeps every chain intact |
| `Provenance.RepeatInitialRecordOrphansHistory` | tests/provenance.test.ts:10-28 | the missing existence check: re-recording an item that changed hands resets its pointer to sequence 1; record 2 stays stored, so the chain is no longer intact |
| `Provenance.TransferAppendsRecord` | tests/provenance.test.ts:30-59 | a transfer by the current owner returns sequence + 1 and stores there the new owner, acquired from the sender, with the given type and notes; no other record and no other item's pointer changes |
| `Provenance.TransferKeepsChains` | tests/provenance.test.ts:30-59 | every transfer, successful or not, keeps every chain intact (records 1..N, first is "initial" and self-sourced, each later one acquired from the previous owner, last names the current owner); no stored record is altered |
| `Provenance.TransfersKeepChains` | tests/provenance.test.ts:30-59 | the same over any run of transfers |
| `Provenance.ChainFromReset` | tests/provenance.test.ts:10-59 | from the empty ledger, one initial recording followed by any transfers leaves every chain intact, with the initial record in place |
| `Provenance.Contract.constructor` | tests/provenance.test.ts:74-78 | the fresh object is the empty ledger |
| `Provenance.Contract.RecordInitialOwnership` | tests/provenance.test.ts:10-28 | the in-place writes produce the response and new state of the specification; chains stay intact when the item had no chain |
| `Provenance.Contract.TransferOwnership` | tests/provenance.test.ts:30-59 | the in-place writes produce the response and new state of the specification, and intact chains stay intact |
| `Provenance.Contract.GetCurrentOwner` | tests/provenance.test.ts:61-63 | returns the item's (owner, sequence), or none when absent |
| `Provenance.Contract.GetOwnershipRecord` | tests/provenance.test.ts:65-68 | returns the record at (item, sequence), or none when absent |
| `PlayerVerification.Registry.RegisterPlayer` | tests/player-verification.test.ts:11-25 | a non-owner gets 403 and the state is unchanged; the owner gets true; signatures are untouched |
| `PlayerVerification.Registry.VerifySignature` | tests/player-verification.test.ts:27-44 | a non-owner gets 403 even for an unknown player; the owner gets 404 for an unknown player; both leave the state unchanged; success returns true for a registered player, and the pair then reads as verified |
| `PlayerVerification.Reset` | tests/player-verification.test.ts:60-64 | the reset registry satisfies the invariant |
| `PlayerVerification.RegisterPlayerRoundTrip` | tests/player-verification.test.ts:16-24 | after registration by the owner, `getPlayer` returns the name and sport, verified, verified by the sender; other players are unchanged |
| `PlayerVerification.VerifySignatureStores` | tests/player-verification.test.ts:36-43 | for a registered player, the owner's call returns true and stores the hash, verified, under (player, item); no other pair's status changes |
| `PlayerVerification.FailedVerifyStoresNothing` | tests/player-verification.test.ts:28-34 | a failed verification stores no signature, so the pair's verified status is what it was |
| `PlayerVerification.ApplyPreservesValid` | tests/player-verification.test.ts:11-44 | each call keeps the invariant (signatures only for registered players, all flags verified) and removes no player or signature |
| `PlayerVerification.VerifiedStaysVerified` | tests/player-verification.test.ts:11-44 | over any run of calls, the invariant holds, no player is unregistered, and a verified pair stays verified |
| `PlayerVerification.VerifiedSignatureHasPlayer` | tests/player-verification.test.ts:32-43 | in a valid registry, a verified pair belongs to a registered, verified player |
| `PlayerVerification.Contract.constructor` | tests/player-verification.test.ts:60-64 | the fresh object is the reset registry |
| `PlayerVerification.Contract.RegisterPlayer` | tests/player-verification.test.ts:11-25 | the in-place write produces the response and new state of the specification |
| `PlayerVerification.Contract.VerifySignature` | tests/player-verification.test.ts:27-44 | the in-place write produces the response and new state of the specification |
| `PlayerVerification.Contract.IsSignatureVerified` | tests/player-verification.test.ts:46-50 | false when nothing is stored for the pair, the stored flag otherwise |
| `PlayerVerification.Contract.GetPlayer` | tests/player-verification.test.ts:52-54 | returns the stored player, or none when absent |
| `ItemRegistration.Catalog.RegisterItem` | tests/item-registration.test.ts:10-24 | registration always succeeds with `lastItemId + 1`, which becomes the new counter |
| `ItemRegistration.Reset` | tests/item-registration.test.ts:38-41 | the reset catalogue stores exactly the ids 1..0 |
| `ItemRegistration.RegisterItemRoundTrip` | tests/item-registration.test.ts:14-21 | `getItem(newId)` returns the given name, description, sport and year |
| `ItemRegistration.RegisterItemKeepsExisting` | tests/item-registration.test.ts:10-24 | in a valid catalogue the new id is fresh; no other id's entry changes; the stored ids remain exactly 1..lastItemId |
| `ItemRegistration.RegisterAllAppends` | tests/item-registration.test.ts:10-24 | registering a batch adds its length to the counter, numbers its items consecutively after the old counter in batch order, and keeps earlier items |
| `ItemRegistration.RegisterAllFromReset` | tests/item-registration.test.ts:77-92 | after k registrations from the reset state, `getLastItemId()` is k, exactly ids 1..k are stored, and item i+1 has the i-th name |
| `ItemRegistration.Contract.constructor` | tests/item-registration.test.ts:38-41 | the fresh object is the reset catalogue |
| `ItemRegistration.Contract.RegisterItem` | tests/item-registration.test.ts:10-24 | the counter increment and map write produce the response and new state of the specification, and keep the ids exactly 1..lastItemId |
| `ItemRegistration.Contract.GetItem` | tests/item-registration.test.ts:26-28 | returns the stored item, or none when absent |
| `ItemRegistration.Contract.GetLastItemId` | tests/item-registration.test.ts:30-32 | returns the counter |

## Left out

- The test harness around the mocks (`describe`, `it`, `expect`, `beforeEach`) is not modelled. The reset state of each `beforeEach` becomes the class constructor and the `Reset` function.
- The real Clarity contracts are not part of this model; only the behaviour of the mocks is modelled. In particular, a repeated `recordInitialOwnership` is not rejected, and `issueCertificate` does not check that the item exists.
- Hash contents: hashes are opaque byte sequences. Nothing computes or compares them, and the model does not require them to be 32 bytes long (the mocks do not check the length).
- Composite keys are tuples. The mocks build the strings `${itemId}-${sequence}` and `${playerId}-${itemId}` instead. The model assumes that encoding is injective. For the player table it is not: player "a-" with item 1 and player "a" with item -1 give the same key.
- Aliasing of stored records: the mocks hand out the stored objects themselves, so a caller holding a certificate from `getCertificate` sees a later revocation and could mutate the table through it. The model stores and returns records as values.
- JavaScript numbers are IEEE doubles; the model uses unbounded integers, so precision loss above 2^53 is not modelled.
- The fixed values the mocks stamp on records are constants of the model: transaction, verification and registration time 100, and the registering principal.
- The object invariants (`Valid`) of the certificate, player and item classes are preconditions of their mutating methods. Every object the constructor creates satisfies them. A mock whose fields were edited by hand into an inconsistent state is outside the model.
- Provenance.Contract.RecordInitialOwnership: promises intact chains afterwards only for an item without a chain, because the source's unconditional overwrite breaks the chain of an item that already changed hands (see `Provenance.RepeatInitialRecordOrphansHistory`).
