/**
 * The chain-of-custody ledger: for every item, a history of ownership
 * records keyed by (item, sequence) and a pointer to the current owner.
 * Only the current owner may hand an item on.
 */
module Provenance {
  import opened Clarity

  /** The sequence number of the first record of a chain. */
  const INITIAL_SEQUENCE: int := 1

  /** The transaction type of the first record of a chain. */
  const INITIAL_TRANSACTION_TYPE: string := "initial"

  datatype OwnershipRecord = OwnershipRecord(
    owner: Principal,
    acquiredFrom: Principal,
    transactionTime: int,
    transactionType: string,
    transactionNotes: string)

  /** The entry of the current-ownership table. */
  datatype CurrentOwner = CurrentOwner(owner: Principal, sequence: int)

  /**
   * The whole state of the contract as a value. Its member functions are the
   * specification of the contract's public calls; `Contract` below performs
   * the same calls by updating its tables in place.
   */
  datatype Ledger = Ledger(
    ownershipHistory: map<(int, int), OwnershipRecord>,
    currentOwnership: map<int, CurrentOwner>)
  {
    function GetCurrentOwner(itemId: int): Option<CurrentOwner> {
      if itemId in currentOwnership then Some(currentOwnership[itemId]) else None
    }

    function GetOwnershipRecord(itemId: int, sequence: int): Option<OwnershipRecord> {
      if (itemId, sequence) in ownershipHistory then Some(ownershipHistory[(itemId, sequence)]) else None
    }

    /**
     * Records the caller as the item's first owner. There is no check for an
     * existing chain: a repeated call overwrites record 1 and resets the
     * current pointer to sequence 1.
     */
    function RecordInitialOwnership(itemId: int, transactionNotes: string, sender: Principal): (r: Step<int, Ledger>)
      ensures r.response == Value(INITIAL_SEQUENCE)
      ensures r.state.GetCurrentOwner(itemId) == Some(CurrentOwner(sender, INITIAL_SEQUENCE))
    {
      var record := OwnershipRecord(sender, sender, MOCK_BLOCK_HEIGHT, INITIAL_TRANSACTION_TYPE, transactionNotes);
      Step(Value(INITIAL_SEQUENCE),
           Ledger(ownershipHistory[(itemId, INITIAL_SEQUENCE) := record],
                  currentOwnership[itemId := CurrentOwner(sender, INITIAL_SEQUENCE)]))
    }

    /** Existence is checked first, then that the caller is the current owner. */
    function TransferOwnership(itemId: int, newOwner: Principal, transactionType: string,
                               transactionNotes: string, sender: Principal): (r: Step<int, Ledger>)
      ensures itemId !in currentOwnership ==> r == Step(Error(NOT_FOUND), this)
      ensures itemId in currentOwnership && currentOwnership[itemId].owner != sender ==>
        r == Step(Error(UNAUTHORIZED), this)
      ensures r.response.Value? ==>
        && itemId in currentOwnership
        && currentOwnership[itemId].owner == sender
        && r.response.value == currentOwnership[itemId].sequence + 1
        && r.state.GetCurrentOwner(itemId) == Some(CurrentOwner(newOwner, r.response.value))
    {
      if itemId !in currentOwnership then
        Step(Error(NOT_FOUND), this)
      else if currentOwnership[itemId].owner != sender then
        Step(Error(UNAUTHORIZED), this)
      else
        var newSequence := currentOwnership[itemId].sequence + 1;
        var record := OwnershipRecord(newOwner, sender, MOCK_BLOCK_HEIGHT, transactionType, transactionNotes);
        Step(Value(newSequence),
             Ledger(ownershipHistory[(itemId, newSequence) := record],
                    currentOwnership[itemId := CurrentOwner(newOwner, newSequence)]))
    }

    /**
     * The chain of custody of one item is intact: its records are numbered
     * exactly 1..N where N is the current sequence, the first record is a
     * self-sourced "initial" one, every later record was acquired from the
     * owner of the record before it, and the last record names the current
     * owner. An item without a current owner has no records.
     */
    ghost predicate ChainIntact(itemId: int) {
      if itemId in currentOwnership then
        var head := currentOwnership[itemId];
        && head.sequence >= INITIAL_SEQUENCE
        && (forall n :: (itemId, n) in ownershipHistory <==> INITIAL_SEQUENCE <= n <= head.sequence)
        && ownershipHistory[(itemId, INITIAL_SEQUENCE)].transactionType == INITIAL_TRANSACTION_TYPE
        && ownershipHistory[(itemId, INITIAL_SEQUENCE)].acquiredFrom == ownershipHistory[(itemId, INITIAL_SEQUENCE)].owner
        && (forall n :: INITIAL_SEQUENCE < n <= head.sequence ==>
              ownershipHistory[(itemId, n)].acquiredFrom == ownershipHistory[(itemId, n - 1)].owner)
        && ownershipHistory[(itemId, head.sequence)].owner == head.owner
      else
        forall n :: (itemId, n) !in ownershipHistory
    }

    /** Every item's chain is intact. */
    ghost predicate Valid() {
      forall itemId :: ChainIntact(itemId)
    }
  }

  /** The state `beforeEach` resets the mock to. */
  function Reset(): (s: Ledger)
    ensures s.Valid()
  {
    Ledger(map[], map[])
  }

  /**
   * Initial recording stores a self-sourced "initial" record at sequence 1
   * and touches no other record and no other item's pointer.
   */
  lemma InitialRecordRoundTrip(s: Ledger, itemId: int, transactionNotes: string, sender: Principal)
    ensures var t := s.RecordInitialOwnership(itemId, transactionNotes, sender).state;
      && t.GetOwnershipRecord(itemId, INITIAL_SEQUENCE)
         == Some(OwnershipRecord(sender, sender, MOCK_BLOCK_HEIGHT, INITIAL_TRANSACTION_TYPE, transactionNotes))
      && (forall item, n :: (item, n) != (itemId, INITIAL_SEQUENCE) ==>
            t.GetOwnershipRecord(item, n) == s.GetOwnershipRecord(item, n))
      && (forall item :: item != itemId ==> t.GetCurrentOwner(item) == s.GetCurrentOwner(item))
  {
  }

  /** Recording the first owner of an item that has no chain yet keeps every chain intact. */
  lemma InitialRecordKeepsChains(s: Ledger, itemId: int, transactionNotes: string, sender: Principal)
    requires s.Valid()
    requires itemId !in s.currentOwnership
    ensures s.RecordInitialOwnership(itemId, transactionNotes, sender).state.Valid()
  {
    var t := s.RecordInitialOwnership(itemId, transactionNotes, sender).state;
    forall item ensures t.ChainIntact(item) {
      assert s.ChainIntact(item);
      if item == itemId {
        forall n ensures (item, n) in t.ownershipHistory <==> INITIAL_SEQUENCE <= n <= INITIAL_SEQUENCE {
          assert (item, n) !in s.ownershipHistory;
        }
      } else if item in s.currentOwnership {
        var head := s.currentOwnership[item];
        forall n ensures (item, n) in t.ownershipHistory <==> INITIAL_SEQUENCE <= n <= head.sequence {
          assert (item, n) in t.ownershipHistory <==> (item, n) in s.ownershipHistory;
        }
      } else {
        forall n ensures (item, n) !in t.ownershipHistory {
          assert (item, n) !in s.ownershipHistory;
        }
      }
    }
  }

  /**
   * The missing existence check: recording the initial owner of an item that
   * already changed hands resets its pointer to sequence 1 while the later
   * records stay stored, so the item's chain is no longer intact.
   */
  lemma RepeatInitialRecordOrphansHistory(s: Ledger, itemId: int, transactionNotes: string, sender: Principal)
    requires s.Valid()
    requires itemId in s.currentOwnership && s.currentOwnership[itemId].sequence >= 2
    ensures var t := s.RecordInitialOwnership(itemId, transactionNotes, sender);
      && t.response == Value(INITIAL_SEQUENCE)
      && t.state.GetCurrentOwner(itemId) == Some(CurrentOwner(sender, INITIAL_SEQUENCE))
      && t.state.GetOwnershipRecord(itemId, 2).Some?
      && t.state.GetOwnershipRecord(itemId, 2) == s.GetOwnershipRecord(itemId, 2)
      && !t.state.ChainIntact(itemId)
  {
    assert s.ChainIntact(itemId);
    assert (itemId, 2) in s.ownershipHistory;
  }

  /**
   * A successful transfer appends one record naming the new owner and the
   * previous owner it was acquired from, and touches no other record and no
   * other item's pointer.
   */
  lemma TransferAppendsRecord(s: Ledger, itemId: int, newOwner: Principal, transactionType: string,
                              transactionNotes: string, sender: Principal)
    requires itemId in s.currentOwnership && s.currentOwnership[itemId].owner == sender
    ensures var r := s.TransferOwnership(itemId, newOwner, transactionType, transactionNotes, sender);
      var next := s.currentOwnership[itemId].sequence + 1;
      && r.response == Value(next)
      && r.state.GetOwnershipRecord(itemId, next)
         == Some(OwnershipRecord(newOwner, sender, MOCK_BLOCK_HEIGHT, transactionType, transactionNotes))
      && (forall item, n :: (item, n) != (itemId, next) ==>
            r.state.GetOwnershipRecord(item, n) == s.GetOwnershipRecord(item, n))
      && (forall item :: item != itemId ==> r.state.GetCurrentOwner(item) == s.GetCurrentOwner(item))
  {
  }

  /**
   * Transfers, successful or not, keep every chain intact, and never alter or
   * remove a record already stored.
   */
  lemma TransferKeepsChains(s: Ledger, itemId: int, newOwner: Principal, transactionType: string,
                            transactionNotes: string, sender: Principal)
    requires s.Valid()
    ensures var t := s.TransferOwnership(itemId, newOwner, transactionType, transactionNotes, sender).state;
      && t.Valid()
      && (forall key :: key in s.ownershipHistory ==>
            key in t.ownershipHistory && t.ownershipHistory[key] == s.ownershipHistory[key])
  {
    var r := s.TransferOwnership(itemId, newOwner, transactionType, transactionNotes, sender);
    if r.response.Value? {
      var t := r.state;
      var next := s.currentOwnership[itemId].sequence + 1;
      assert s.ChainIntact(itemId);
      assert (itemId, next) !in s.ownershipHistory;
      forall item ensures t.ChainIntact(item) {
        assert s.ChainIntact(item);
        if item == itemId {
          forall n ensures (item, n) in t.ownershipHistory <==> INITIAL_SEQUENCE <= n <= next {
            assert (item, n) in t.ownershipHistory <==> (item, n) in s.ownershipHistory || n == next;
          }
          forall n | INITIAL_SEQUENCE < n <= next
            ensures t.ownershipHistory[(item, n)].acquiredFrom == t.ownershipHistory[(item, n - 1)].owner
          {
            if n < next {
              assert (item, n) in s.ownershipHistory;
            }
          }
        } else if item in s.currentOwnership {
          var head := s.currentOwnership[item];
          forall n ensures (item, n) in t.ownershipHistory <==> INITIAL_SEQUENCE <= n <= head.sequence {
            assert (item, n) in t.ownershipHistory <==> (item, n) in s.ownershipHistory;
          }
        } else {
          forall n ensures (item, n) !in t.ownershipHistory {
            assert (item, n) !in s.ownershipHistory;
          }
        }
      }
    }
  }

  /** The arguments of one transfer call. */
  datatype Transfer = Transfer(itemId: int, newOwner: Principal, transactionType: string,
                               transactionNotes: string, sender: Principal)

  /** The ledger after performing `transfers` in order; failed calls change nothing. */
  function TransferAll(s: Ledger, transfers: seq<Transfer>): Ledger
    decreases |transfers|
  {
    if transfers == [] then s
    else
      var t := transfers[0];
      TransferAll(s.TransferOwnership(t.itemId, t.newOwner, t.transactionType, t.transactionNotes, t.sender).state,
                  transfers[1..])
  }

  /**
   * Any run of transfers from a ledger whose chains are intact keeps them
   * intact and keeps every stored record as it was.
   */
  lemma {:induction false} TransfersKeepChains(s: Ledger, transfers: seq<Transfer>)
    requires s.Valid()
    ensures TransferAll(s, transfers).Valid()
    ensures forall key :: key in s.ownershipHistory ==>
      key in TransferAll(s, transfers).ownershipHistory
      && TransferAll(s, transfers).ownershipHistory[key] == s.ownershipHistory[key]
    decreases |transfers|
  {
    if transfers != [] {
      var t := transfers[0];
      TransferKeepsChains(s, t.itemId, t.newOwner, t.transactionType, t.transactionNotes, t.sender);
      TransfersKeepChains(s.TransferOwnership(t.itemId, t.newOwner, t.transactionType, t.transactionNotes, t.sender).state,
                          transfers[1..]);
    }
  }

  /**
   * From the reset ledger, one initial recording followed by any transfers
   * leaves an intact chain for the item: records 1..N, each acquired from
   * the previous owner, the last naming the current owner.
   */
  lemma ChainFromReset(itemId: int, transactionNotes: string, sender: Principal, transfers: seq<Transfer>)
    ensures var s := TransferAll(Reset().RecordInitialOwnership(itemId, transactionNotes, sender).state, transfers);
      && s.Valid()
      && s.GetOwnershipRecord(itemId, INITIAL_SEQUENCE)
         == Some(OwnershipRecord(sender, sender, MOCK_BLOCK_HEIGHT, INITIAL_TRANSACTION_TYPE, transactionNotes))
  {
    var s0 := Reset().RecordInitialOwnership(itemId, transactionNotes, sender).state;
    InitialRecordKeepsChains(Reset(), itemId, transactionNotes, sender);
    TransfersKeepChains(s0, transfers);
    assert (itemId, INITIAL_SEQUENCE) in s0.ownershipHistory;
  }

  /** The mock object: the two tables it updates in place. */
  class Contract {
    var ownershipHistory: map<(int, int), OwnershipRecord>
    var currentOwnership: map<int, CurrentOwner>

    function Snapshot(): Ledger
      reads this
    {
      Ledger(ownershipHistory, currentOwnership)
    }

    constructor ()
      ensures Snapshot() == Reset()
    {
      ownershipHistory := map[];
      currentOwnership := map[];
    }

    method RecordInitialOwnership(itemId: int, transactionNotes: string, sender: Principal) returns (r: Response<int>)
      modifies this
      ensures Step(r, Snapshot()) == old(Snapshot()).RecordInitialOwnership(itemId, transactionNotes, sender)
      ensures old(Snapshot().Valid()) && itemId !in old(currentOwnership) ==> Snapshot().Valid()
    {
      if Snapshot().Valid() && itemId !in currentOwnership {
        InitialRecordKeepsChains(Snapshot(), itemId, transactionNotes, sender);
      }
      var sequence := INITIAL_SEQUENCE;
      ownershipHistory := ownershipHistory[(itemId, sequence) :=
        OwnershipRecord(sender, sender, MOCK_BLOCK_HEIGHT, INITIAL_TRANSACTION_TYPE, transactionNotes)];
      currentOwnership := currentOwnership[itemId := CurrentOwner(sender, sequence)];
      r := Value(sequence);
    }

    method TransferOwnership(itemId: int, newOwner: Principal, transactionType: string,
                             transactionNotes: string, sender: Principal) returns (r: Response<int>)
      modifies this
      ensures Step(r, Snapshot())
              == old(Snapshot()).TransferOwnership(itemId, newOwner, transactionType, transactionNotes, sender)
      ensures old(Snapshot().Valid()) ==> Snapshot().Valid()
    {
      if Snapshot().Valid() {
        TransferKeepsChains(Snapshot(), itemId, newOwner, transactionType, transactionNotes, sender);
      }
      if itemId !in currentOwnership {
        return Error(NOT_FOUND);
      }
      var currentRecord := currentOwnership[itemId];
      if currentRecord.owner != sender {
        return Error(UNAUTHORIZED);
      }
      var newSequence := currentRecord.sequence + 1;
      ownershipHistory := ownershipHistory[(itemId, newSequence) :=
        OwnershipRecord(newOwner, sender, MOCK_BLOCK_HEIGHT, transactionType, transactionNotes)];
      currentOwnership := currentOwnership[itemId := CurrentOwner(newOwner, newSequence)];
      r := Value(newSequence);
    }

    method GetCurrentOwner(itemId: int) returns (r: Option<CurrentOwner>)
      ensures r == Snapshot().GetCurrentOwner(itemId)
    {
      if itemId in currentOwnership {
        r := Some(currentOwnership[itemId]);
      } else {
        r := None;
      }
    }

    method GetOwnershipRecord(itemId: int, sequence: int) returns (r: Option<OwnershipRecord>)
      ensures r == Snapshot().GetOwnershipRecord(itemId, sequence)
    {
      var key := (itemId, sequence);
      if key in ownershipHistory {
        r := Some(ownershipHistory[key]);
      } else {
        r := None;
      }
    }
  }
}
