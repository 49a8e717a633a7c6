/**
 * Contact records and the two per-request transformations of the contact list:
 * the `map` that rewrites the matching contact on an update and the `filter`
 * that drops it on a delete.
 */
module Contacts {
  import opened Wrappers
  import opened Sequences

  /** A stored contact; the three text fields are free-form. */
  datatype Contact = Contact(id: int, name: string, email: string, phone: string)

  /**
   * The strict-equality test `c.id === id` against an id parsed from the
   * request path. A path that does not parse is `None` (JavaScript's NaN),
   * which is equal to no number.
   */
  predicate Matches(c: Contact, id: Option<int>) {
    id.Some? && c.id == id.value
  }

  /** Ids strictly increase along the list, so no id occurs twice. */
  predicate IdsIncreasing(cs: seq<Contact>) {
    forall i, j :: 0 <= i < j < |cs| ==> cs[i].id < cs[j].id
  }

  lemma IncreasingIdsAreUnique(cs: seq<Contact>, i: int, j: int)
    requires IdsIncreasing(cs)
    requires 0 <= i < |cs| && 0 <= j < |cs| && i != j
    ensures cs[i].id != cs[j].id
  {
  }

  /**
   * The update transformation: every contact whose id matches gets exactly the
   * given name, email and phone and keeps its id; every other contact, the
   * length and the order are unchanged.
   */
  function Replaced(cs: seq<Contact>, id: Option<int>, name: string, email: string, phone: string): (r: seq<Contact>)
    ensures |r| == |cs|
    ensures forall i :: 0 <= i < |cs| ==> r[i].id == cs[i].id
    ensures forall i :: 0 <= i < |cs| && Matches(cs[i], id) ==> r[i] == Contact(cs[i].id, name, email, phone)
    ensures forall i :: 0 <= i < |cs| && !Matches(cs[i], id) ==> r[i] == cs[i]
  {
    if cs == [] then []
    else
      var c := cs[0];
      [if Matches(c, id) then c.(name := name, email := email, phone := phone) else c]
        + Replaced(cs[1..], id, name, email, phone)
  }

  /** The test the delete handler filters with: keep `c` unless its id matches. */
  function Survives(id: Option<int>): Contact -> bool {
    c => !Matches(c, id)
  }

  /** The delete transformation: the contacts whose id does not match, in order. */
  function Removed(cs: seq<Contact>, id: Option<int>): seq<Contact> {
    Filter(cs, Survives(id))
  }

  /** A delete keeps every contact that does not match, and only those. */
  lemma RemovedMembers(cs: seq<Contact>, id: Option<int>)
    ensures forall c :: c in Removed(cs, id) <==> c in cs && !Matches(c, id)
    ensures IsSubsequence(Removed(cs, id), cs)
    ensures |Removed(cs, id)| <= |cs|
  {
    FilterIsSubsequence(cs, Survives(id));
  }

  /** In a list with unique ids, deleting the id of entry `k` removes exactly that entry. */
  lemma RemovedAt(cs: seq<Contact>, k: int)
    requires IdsIncreasing(cs)
    requires 0 <= k < |cs|
    ensures Removed(cs, Some(cs[k].id)) == cs[..k] + cs[k + 1..]
  {
    var p := Survives(Some(cs[k].id));
    forall i | 0 <= i < |cs| && i != k ensures p(cs[i]) {
      IncreasingIdsAreUnique(cs, i, k);
    }
    FilterDropsOne(cs, p, k);
  }

  /** In a list with unique ids, updating the id of entry `k` rewrites exactly that entry. */
  lemma ReplacedAt(cs: seq<Contact>, k: int, name: string, email: string, phone: string)
    requires IdsIncreasing(cs)
    requires 0 <= k < |cs|
    ensures Replaced(cs, Some(cs[k].id), name, email, phone) == cs[k := Contact(cs[k].id, name, email, phone)]
  {
    var r := Replaced(cs, Some(cs[k].id), name, email, phone);
    forall i | 0 <= i < |cs| && i != k ensures r[i] == cs[i] {
      IncreasingIdsAreUnique(cs, i, k);
    }
  }

  /** A filter keeps the ids increasing, since it only drops entries. */
  lemma {:induction false} FilterKeepsIdsIncreasing(cs: seq<Contact>, p: Contact -> bool)
    requires IdsIncreasing(cs)
    ensures IdsIncreasing(Filter(cs, p))
  {
    if cs != [] {
      var rest := Filter(cs[1..], p);
      FilterKeepsIdsIncreasing(cs[1..], p);
      if p(cs[0]) {
        var r := [cs[0]] + rest;
        forall i, j | 0 <= i < j < |r| ensures r[i].id < r[j].id {
          if i == 0 {
            assert r[j] == rest[j - 1];
            assert rest[j - 1] in cs[1..];
            var m :| 0 <= m < |cs[1..]| && cs[1..][m] == rest[j - 1];
            assert cs[0].id < cs[m + 1].id;
          } else {
            assert r[i] == rest[i - 1] && r[j] == rest[j - 1];
          }
        }
      }
    }
  }

}
