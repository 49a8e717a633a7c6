/**
 * The server's in-memory contact store: the ordered contact list and the id
 * counter, the four request handlers that act on them, and what a sequence of
 * requests does to the store.
 */
module Store {
  import opened Wrappers
  import opened Sequences
  import opened Contacts

  /** A snapshot of the two module-level variables `contacts` and `idCounter`. */
  datatype StoreState = StoreState(contacts: seq<Contact>, idCounter: int)

  /** The state at process start: no contacts, and the first id to hand out is 1. */
  function Initial(): StoreState {
    StoreState([], 1)
  }

  /**
   * The store invariant: the counter is at least 1 and every stored id is at
   * least 1, below the counter, and larger than the ids before it in the list.
   */
  predicate WellFormed(s: StoreState) {
    && s.idCounter >= 1
    && IdsIncreasing(s.contacts)
    && forall i :: 0 <= i < |s.contacts| ==> 1 <= s.contacts[i].id < s.idCounter
  }

  /** The record a create request builds: the current counter value is its id. */
  function NewContact(s: StoreState, name: string, email: string, phone: string): Contact {
    Contact(s.idCounter, name, email, phone)
  }

  /** Create: append the new record and advance the counter by one. */
  function Created(s: StoreState, name: string, email: string, phone: string): StoreState {
    StoreState(s.contacts + [NewContact(s, name, email, phone)], s.idCounter + 1)
  }

  /** Update by id: rewrite the matching contact; the counter does not move. */
  function Updated(s: StoreState, id: Option<int>, name: string, email: string, phone: string): StoreState {
    StoreState(Replaced(s.contacts, id, name, email, phone), s.idCounter)
  }

  /** Delete by id: drop the matching contacts; the counter does not move. */
  function Deleted(s: StoreState, id: Option<int>): StoreState {
    StoreState(Removed(s.contacts, id), s.idCounter)
  }

  /** A create keeps the invariant, and the new id exceeds every id already stored. */
  lemma CreateKeepsWellFormed(s: StoreState, name: string, email: string, phone: string)
    requires WellFormed(s)
    ensures WellFormed(Created(s, name, email, phone))
    ensures forall c :: c in s.contacts ==> c.id < NewContact(s, name, email, phone).id
  {
  }

  /** An update keeps the invariant: it moves no id and leaves the counter alone. */
  lemma UpdateKeepsWellFormed(s: StoreState, id: Option<int>, name: string, email: string, phone: string)
    requires WellFormed(s)
    ensures WellFormed(Updated(s, id, name, email, phone))
  {
  }

  /** A delete keeps the invariant: it only drops entries. */
  lemma DeleteKeepsWellFormed(s: StoreState, id: Option<int>)
    requires WellFormed(s)
    ensures WellFormed(Deleted(s, id))
  {
    var cs := Removed(s.contacts, id);
    FilterKeepsIdsIncreasing(s.contacts, Survives(id));
    forall i | 0 <= i < |cs| ensures 1 <= cs[i].id < s.idCounter {
      assert cs[i] in cs;
      assert cs[i] in s.contacts;
    }
  }

  /**
   * An update or a delete whose id matches no stored contact (a path that is
   * not a number included) leaves the whole store unchanged.
   */
  lemma UnmatchedIdChangesNothing(s: StoreState, id: Option<int>, name: string, email: string, phone: string)
    requires forall i :: 0 <= i < |s.contacts| ==> !Matches(s.contacts[i], id)
    ensures Updated(s, id, name, email, phone) == s
    ensures Deleted(s, id) == s
  {
    FilterKeepsAll(s.contacts, Survives(id));
  }

  /** Applying the same update twice gives the same store as applying it once. */
  lemma UpdateIdempotent(s: StoreState, id: Option<int>, name: string, email: string, phone: string)
    ensures Updated(Updated(s, id, name, email, phone), id, name, email, phone)
         == Updated(s, id, name, email, phone)
  {
  }

  /** Applying the same delete twice gives the same store as applying it once. */
  lemma DeleteIdempotent(s: StoreState, id: Option<int>)
    ensures Deleted(Deleted(s, id), id) == Deleted(s, id)
  {
    FilterIdempotent(s.contacts, Survives(id));
  }

  /**
   * Create a contact, update it by its new id, delete it by that id: the update
   * shows exactly the new fields at the end of the list, and the delete gives
   * back the original list, while the counter stays advanced.
   */
  lemma CreateUpdateDeleteRoundTrip(s: StoreState, name: string, email: string, phone: string,
                                    name': string, email': string, phone': string)
    requires WellFormed(s)
    ensures var id := s.idCounter;
            var s1 := Created(s, name, email, phone);
            var s2 := Updated(s1, Some(id), name', email', phone');
            var s3 := Deleted(s2, Some(id));
            && s2.contacts == s.contacts + [Contact(id, name', email', phone')]
            && s3 == StoreState(s.contacts, s.idCounter + 1)
  {
    var id := s.idCounter;
    var s1 := Created(s, name, email, phone);
    var k := |s.contacts|;
    CreateKeepsWellFormed(s, name, email, phone);
    assert s1.contacts[k].id == id;
    ReplacedAt(s1.contacts, k, name', email', phone');
    var s2 := Updated(s1, Some(id), name', email', phone');
    assert s2.contacts == s.contacts + [Contact(id, name', email', phone')];
    UpdateKeepsWellFormed(s1, Some(id), name', email', phone');
    assert s2.contacts[k].id == id;
    RemovedAt(s2.contacts, k);
    assert s2.contacts[..k] == s.contacts;
  }

  /** The four routes of the HTTP surface, with the path id already parsed. */
  datatype Request =
    | Get
    | Post(name: string, email: string, phone: string)
    | Put(id: Option<int>, name: string, email: string, phone: string)
    | Delete(id: Option<int>)

  /** What one request does to the store. */
  function Apply(s: StoreState, r: Request): StoreState {
    match r
    case Get => s
    case Post(name, email, phone) => Created(s, name, email, phone)
    case Put(id, name, email, phone) => Updated(s, id, name, email, phone)
    case Delete(id) => Deleted(s, id)
  }

  /** What a sequence of requests, handled one at a time, does to the store. */
  function Run(s: StoreState, rs: seq<Request>): StoreState
    decreases |rs|
  {
    if rs == [] then s else Run(Apply(s, rs[0]), rs[1..])
  }

  /** The ids handed out by the create requests of `rs`, in order. */
  function AssignedIds(s: StoreState, rs: seq<Request>): seq<int>
    decreases |rs|
  {
    if rs == [] then []
    else (if rs[0].Post? then [s.idCounter] else []) + AssignedIds(Apply(s, rs[0]), rs[1..])
  }

  /** Every request, and so every sequence of requests, keeps the store invariant. */
  lemma {:induction false} RunKeepsWellFormed(s: StoreState, rs: seq<Request>)
    requires WellFormed(s)
    ensures WellFormed(Run(s, rs))
    decreases |rs|
  {
    if rs != [] {
      match rs[0] {
        case Get =>
        case Post(name, email, phone) => CreateKeepsWellFormed(s, name, email, phone);
        case Put(id, name, email, phone) => UpdateKeepsWellFormed(s, id, name, email, phone);
        case Delete(id) => DeleteKeepsWellFormed(s, id);
      }
      RunKeepsWellFormed(Apply(s, rs[0]), rs[1..]);
    }
  }

  /**
   * The ids handed out over a run lie between the counter's value before the
   * run and its value after it; the counter never goes back.
   */
  lemma {:induction false} AssignedIdsInRange(s: StoreState, rs: seq<Request>)
    ensures s.idCounter <= Run(s, rs).idCounter
    ensures forall i :: 0 <= i < |AssignedIds(s, rs)| ==> s.idCounter <= AssignedIds(s, rs)[i] < Run(s, rs).idCounter
    decreases |rs|
  {
    if rs != [] {
      var s' := Apply(s, rs[0]);
      AssignedIdsInRange(s', rs[1..]);
      var rest := AssignedIds(s', rs[1..]);
      var head := if rs[0].Post? then [s.idCounter] else [];
      assert s'.idCounter == s.idCounter + |head|;
      assert AssignedIds(s, rs) == head + rest;
      assert Run(s, rs) == Run(s', rs[1..]);
    }
  }

  /**
   * Ids are never reused, deletes or not: the ids handed out over any run
   * strictly increase.
   */
  lemma {:induction false} IdsNeverReused(s: StoreState, rs: seq<Request>)
    ensures forall i, j :: 0 <= i < j < |AssignedIds(s, rs)| ==> AssignedIds(s, rs)[i] < AssignedIds(s, rs)[j]
    decreases |rs|
  {
    if rs != [] {
      var s' := Apply(s, rs[0]);
      IdsNeverReused(s', rs[1..]);
      var rest := AssignedIds(s', rs[1..]);
      if rs[0].Post? {
        AssignedIdsInRange(s', rs[1..]);
        assert s'.idCounter == s.idCounter + 1;
        var ids := [s.idCounter] + rest;
        assert AssignedIds(s, rs) == ids;
        forall i, j | 0 <= i < j < |ids| ensures ids[i] < ids[j] {
          if i > 0 {
            assert ids[i] == rest[i - 1];
          }
          assert ids[j] == rest[j - 1];
        }
      } else {
        assert AssignedIds(s, rs) == [] + rest == rest;
      }
    }
  }

  /** The server's store, as the module-level state the handlers mutate. */
  class ContactStore {
    var contacts: seq<Contact>
    var idCounter: int

    /** The current values of the two variables. */
    function State(): StoreState
      reads this
    {
      StoreState(contacts, idCounter)
    }

    predicate Valid()
      reads this
    {
      WellFormed(State())
    }

    /** Process start: an empty list and a counter of 1. */
    constructor ()
      ensures Valid()
      ensures State() == Initial()
    {
      contacts := [];
      idCounter := 1;
    }

    /** GET /api/contacts: the whole list in insertion order. */
    method List() returns (r: seq<Contact>)
      ensures r == contacts
    {
      r := contacts;
    }

    /** POST /api/contacts: the new contact takes the counter's value as its id. */
    method Create(name: string, email: string, phone: string) returns (c: Contact)
      requires Valid()
      modifies this
      ensures Valid()
      ensures c == Contact(old(idCounter), name, email, phone)
      ensures contacts == old(contacts) + [c]
      ensures idCounter == old(idCounter) + 1
      ensures forall d :: d in old(contacts) ==> d.id < c.id
      ensures State() == Created(old(State()), name, email, phone)
    {
      CreateKeepsWellFormed(State(), name, email, phone);
      c := Contact(idCounter, name, email, phone);
      idCounter := idCounter + 1;
      contacts := contacts + [c];
    }

    /** PUT /api/contacts/:id: rewrite the matching contact; always reports success. */
    method Update(id: Option<int>, name: string, email: string, phone: string) returns (success: bool)
      requires Valid()
      modifies this
      ensures Valid()
      ensures success
      ensures contacts == Replaced(old(contacts), id, name, email, phone)
      ensures idCounter == old(idCounter)
      ensures State() == Updated(old(State()), id, name, email, phone)
    {
      UpdateKeepsWellFormed(State(), id, name, email, phone);
      contacts := Replaced(contacts, id, name, email, phone);
      success := true;
    }

    /** DELETE /api/contacts/:id: drop the matching contacts; always reports success. */
    method Delete(id: Option<int>) returns (success: bool)
      requires Valid()
      modifies this
      ensures Valid()
      ensures success
      ensures contacts == Removed(old(contacts), id)
      ensures idCounter == old(idCounter)
      ensures State() == Deleted(old(State()), id)
    {
      DeleteKeepsWellFormed(State(), id);
      contacts := Removed(contacts, id);
      success := true;
    }
  }

}
