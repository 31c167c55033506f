/**
 * The item catalogue: every registration receives the next id and stores
 * the item's description under it.
 */
module ItemRegistration {
  import opened Clarity

  datatype Item = Item(
    name: string,
    description: string,
    sport: string,
    year: int,
    registeredBy: Principal,
    registrationTime: int)

  /**
   * The whole state of the contract as a value. Its member functions are the
   * specification of the contract's public calls; `Contract` below performs
   * the same calls by updating its fields in place.
   */
  datatype Catalog = Catalog(lastItemId: nat, items: map<int, Item>)
  {
    function GetItem(itemId: int): Option<Item> {
      if itemId in items then Some(items[itemId]) else None
    }

    function GetLastItemId(): nat {
      lastItemId
    }

    /** Registration cannot fail: the new id is the counter plus one. */
    function RegisterItem(name: string, description: string, sport: string, year: int): (r: Step<int, Catalog>)
      ensures r.response == Value(lastItemId + 1)
      ensures r.state.GetLastItemId() == lastItemId + 1
    {
      var newId := lastItemId + 1;
      var item := Item(name, description, sport, year, MOCK_PRINCIPAL, MOCK_BLOCK_HEIGHT);
      Step(Value(newId), Catalog(newId, items[newId := item]))
    }

    /** The stored ids are exactly 1..lastItemId. */
    ghost predicate Valid() {
      forall itemId :: itemId in items <==> 1 <= itemId <= lastItemId
    }
  }

  /** The state `beforeEach` resets the mock to. */
  function Reset(): (s: Catalog)
    ensures s.Valid()
  {
    Catalog(0, map[])
  }

  /** The item stored under the new id is the one registered. */
  lemma RegisterItemRoundTrip(s: Catalog, name: string, description: string, sport: string, year: int)
    ensures var r := s.RegisterItem(name, description, sport, year);
      && r.response.Value?
      && r.state.GetItem(r.response.value)
         == Some(Item(name, description, sport, year, MOCK_PRINCIPAL, MOCK_BLOCK_HEIGHT))
  {
  }

  /**
   * The new id is fresh, so registration leaves every stored item as it was
   * and the stored ids become exactly 1..lastItemId again.
   */
  lemma RegisterItemKeepsExisting(s: Catalog, name: string, description: string, sport: string, year: int)
    requires s.Valid()
    ensures var r := s.RegisterItem(name, description, sport, year);
      && r.state.Valid()
      && r.response.value !in s.items
      && (forall itemId :: itemId != r.response.value ==> r.state.GetItem(itemId) == s.GetItem(itemId))
  {
  }

  /** The descriptive arguments of one registration call. */
  datatype ItemDetails = ItemDetails(name: string, description: string, sport: string, year: int)

  /** The catalogue after registering `batch` in order. */
  function RegisterAll(s: Catalog, batch: seq<ItemDetails>): Catalog
    decreases |batch|
  {
    if batch == [] then s
    else
      var d := batch[0];
      RegisterAll(s.RegisterItem(d.name, d.description, d.sport, d.year).state, batch[1..])
  }

  /**
   * Registering a batch numbers its items consecutively after the current
   * counter, in order, and leaves the items already stored untouched.
   */
  lemma {:induction false} RegisterAllAppends(s: Catalog, batch: seq<ItemDetails>)
    requires s.Valid()
    ensures var t := RegisterAll(s, batch);
      && t.Valid()
      && t.GetLastItemId() == s.lastItemId + |batch|
      && (forall itemId :: itemId in s.items ==> t.GetItem(itemId) == s.GetItem(itemId))
      && (forall i :: 0 <= i < |batch| ==>
            t.GetItem(s.lastItemId + 1 + i)
            == Some(Item(batch[i].name, batch[i].description, batch[i].sport, batch[i].year,
                         MOCK_PRINCIPAL, MOCK_BLOCK_HEIGHT)))
    decreases |batch|
  {
    if batch != [] {
      var d := batch[0];
      var s1 := s.RegisterItem(d.name, d.description, d.sport, d.year).state;
      RegisterItemKeepsExisting(s, d.name, d.description, d.sport, d.year);
      RegisterAllAppends(s1, batch[1..]);
      var t := RegisterAll(s, batch);
      assert t == RegisterAll(s1, batch[1..]);
      forall i | 0 <= i < |batch|
        ensures t.GetItem(s.lastItemId + 1 + i)
                == Some(Item(batch[i].name, batch[i].description, batch[i].sport, batch[i].year,
                             MOCK_PRINCIPAL, MOCK_BLOCK_HEIGHT))
      {
        if i > 0 {
          assert batch[1..][i - 1] == batch[i];
          assert s.lastItemId + 1 + i == s1.lastItemId + 1 + (i - 1);
        } else {
          assert s.lastItemId + 1 in s1.items;
        }
      }
    }
  }

  /** After k registrations from the reset state the counter is k and items 1..k are the batch, in order. */
  lemma RegisterAllFromReset(batch: seq<ItemDetails>)
    ensures var t := RegisterAll(Reset(), batch);
      && t.GetLastItemId() == |batch|
      && (forall itemId :: t.GetItem(itemId).Some? <==> 1 <= itemId <= |batch|)
      && (forall i :: 0 <= i < |batch| ==> t.GetItem(i + 1).Some? && t.GetItem(i + 1).value.name == batch[i].name)
  {
    RegisterAllAppends(Reset(), batch);
  }

  /** The mock object: the id counter and the item table it updates in place. */
  class Contract {
    var lastItemId: nat
    var items: map<int, Item>

    function Snapshot(): Catalog
      reads this
    {
      Catalog(lastItemId, items)
    }

    ghost predicate Valid()
      reads this
    {
      Snapshot().Valid()
    }

    constructor ()
      ensures Snapshot() == Reset()
      ensures Valid()
    {
      lastItemId := 0;
      items := map[];
    }

    method RegisterItem(name: string, description: string, sport: string, year: int) returns (r: Response<int>)
      requires Valid()
      modifies this
      ensures Valid()
      ensures Step(r, Snapshot()) == old(Snapshot()).RegisterItem(name, description, sport, year)
    {
      RegisterItemKeepsExisting(Snapshot(), name, description, sport, year);
      var newId := lastItemId + 1;
      lastItemId := newId;
      items := items[newId := Item(name, description, sport, year, MOCK_PRINCIPAL, MOCK_BLOCK_HEIGHT)];
      r := Value(newId);
    }

    method GetItem(itemId: int) returns (r: Option<Item>)
      ensures r == Snapshot().GetItem(itemId)
    {
      if itemId in items {
        r := Some(items[itemId]);
      } else {
        r := None;
      }
    }

    method GetLastItemId() returns (id: nat)
      ensures id == Snapshot().GetLastItemId()
    {
      id := lastItemId;
    }
  }
}
