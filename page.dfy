/**
 * The browser page's script: the client-side search over the last fetched
 * list, and the small state machine of `editingId` that decides whether the
 * form submits an update or a create.
 */
module Page {
  import opened Wrappers
  import opened Sequences
  import opened Contacts
  import opened Store

  /** `toLowerCase` on one character, restricted to ASCII. */
  function LowerChar(ch: char): char {
    if 'A' <= ch <= 'Z' then (ch as int + 32) as char else ch
  }

  /** `toLowerCase` on a string: no upper-case ASCII letter remains, and every other character stays. */
  function Lower(s: string): (r: string)
    ensures |r| == |s|
    ensures forall i :: 0 <= i < |r| ==> !('A' <= r[i] <= 'Z')
    ensures forall i :: 0 <= i < |r| && !('A' <= s[i] <= 'Z') ==> r[i] == s[i]
    ensures forall i :: 0 <= i < |r| && 'A' <= s[i] <= 'Z' ==> r[i] == (s[i] as int + 32) as char
  {
    seq(|s|, i requires 0 <= i < |s| => LowerChar(s[i]))
  }

  lemma LowerIdempotent(s: string)
    ensures Lower(Lower(s)) == Lower(s)
  {
  }

  /** `s.includes(q)`: some suffix of `s` starts with `q`. */
  predicate Includes(s: string, q: string)
    decreases |s|
  {
    q <= s || (s != [] && Includes(s[1..], q))
  }

  /** `q` occurs in `s` starting at position `i`. */
  predicate OccursAt(s: string, q: string, i: int) {
    0 <= i <= |s| - |q| && s[i..i + |q|] == q
  }

  /** `Includes` holds exactly when `q` occurs in `s` at some position. */
  lemma {:induction false} IncludesIffOccurs(s: string, q: string)
    ensures Includes(s, q) <==> exists i :: OccursAt(s, q, i)
    decreases |s|
  {
    if q <= s {
      assert s[0..|q|] == q;
      assert OccursAt(s, q, 0);
    } else if s != [] {
      IncludesIffOccurs(s[1..], q);
      if Includes(s[1..], q) {
        var i :| OccursAt(s[1..], q, i);
        assert s[i + 1..i + 1 + |q|] == s[1..][i..i + |q|];
        assert OccursAt(s, q, i + 1);
      }
      if exists i :: OccursAt(s, q, i) {
        var i :| OccursAt(s, q, i);
        if i > 0 {
          assert s[1..][i - 1..i - 1 + |q|] == s[i..i + |q|];
          assert OccursAt(s[1..], q, i - 1);
        }
      }
    }
  }

  /**
   * The search test on one contact, with `q` the already lower-cased query:
   * name and email are lower-cased before the substring test, the phone is not.
   */
  predicate MatchesQuery(c: Contact, q: string) {
    Includes(Lower(c.name), q) || Includes(Lower(c.email), q) || Includes(c.phone, q)
  }

  function KeptBy(q: string): Contact -> bool {
    c => MatchesQuery(c, q)
  }

  /**
   * `searchContacts`: the contacts of `all` that match the lower-cased search
   * text, in their original order.
   */
  function Search(all: seq<Contact>, text: string): (r: seq<Contact>)
    ensures forall c :: c in r <==> c in all && MatchesQuery(c, Lower(text))
    ensures IsSubsequence(r, all)
  {
    FilterIsSubsequence(all, KeptBy(Lower(text)));
    Filter(all, KeptBy(Lower(text)))
  }

  /** An empty search keeps every contact. */
  lemma SearchEmptyKeepsAll(all: seq<Contact>)
    ensures Search(all, "") == all
  {
    var p := KeptBy(Lower(""));
    forall i | 0 <= i < |all| ensures p(all[i]) {
      assert [] <= Lower(all[i].name);
    }
    FilterKeepsAll(all, p);
  }

  /** The case of the search text does not matter. */
  lemma SearchIgnoresCase(all: seq<Contact>, text: string)
    ensures Search(all, Lower(text)) == Search(all, text)
  {
    LowerIdempotent(text);
  }

  /**
   * The case of a contact's name or email does not matter either: a contact
   * whose name or email equals the search text up to case is found.
   */
  lemma SearchFindsAnyCase(c: Contact, text: string)
    requires Lower(text) == Lower(c.name) || Lower(text) == Lower(c.email)
    ensures Search([c], text) == [c]
  {
    var q := Lower(text);
    assert q <= Lower(c.name) || q <= Lower(c.email);
    assert MatchesQuery(c, q);
    FilterKeepsAll([c], KeptBy(q));
  }

  /**
   * The phone test compares the phone as it is against the lower-cased query,
   * so a phone holding an upper-case letter does not match its own text.
   */
  lemma PhoneMatchIsCaseSensitive(phone: string)
    requires Lower(phone) != phone
    ensures !Includes(phone, Lower(phone))
  {
    var q := Lower(phone);
    IncludesIffOccurs(phone, q);
  }

  /** JavaScript truthiness of `editingId`: null and 0 are falsy, every other number is truthy. */
  predicate Truthy(editing: Option<int>) {
    editing.Some? && editing.value != 0
  }

  /** The page's script state and the handlers that change it. */
  class ContactPage {
    var editingId: Option<int>
    var allContacts: seq<Contact>
    /** The list `renderContacts` last drew. */
    var shown: seq<Contact>

    /**
     * Every fetched id is at least 1, the drawn list is drawn from the fetched
     * one, and an editing id, which was the id of a drawn contact when it was
     * set, is at least 1.
     */
    ghost predicate Valid()
      reads this
    {
      && (forall c :: c in allContacts ==> c.id >= 1)
      && (forall c :: c in shown ==> c in allContacts)
      && (editingId.Some? ==> editingId.value >= 1)
    }

    constructor ()
      ensures Valid()
      ensures editingId == None && allContacts == [] && shown == []
    {
      editingId := None;
      allContacts := [];
      shown := [];
    }

    /** `fetchContacts`: take the server's whole list and draw it. */
    method FetchContacts(server: ContactStore)
      requires Valid() && server.Valid()
      modifies this
      ensures Valid()
      ensures allContacts == server.contacts && shown == server.contacts
      ensures editingId == old(editingId)
    {
      allContacts := server.List();
      shown := allContacts;
    }

    /** `searchContacts`: draw the matching part of the fetched list. */
    method SearchContacts(text: string)
      requires Valid()
      modifies this`shown
      ensures Valid()
      ensures shown == Search(allContacts, text)
    {
      shown := Search(allContacts, text);
    }

    /** `clearSearch`: draw the whole fetched list again. */
    method ClearSearch()
      requires Valid()
      modifies this`shown
      ensures Valid()
      ensures shown == allContacts
    {
      shown := allContacts;
    }

    /** `editContact`, called from the Edit button of a drawn contact. */
    method EditContact(c: Contact)
      requires Valid()
      requires c in shown
      modifies this`editingId
      ensures Valid()
      ensures editingId == Some(c.id)
      ensures Truthy(editingId)
    {
      editingId := Some(c.id);
    }

    /**
     * The form's submit handler: an update of the contact being edited, which
     * ends the edit, or else a create. Since ids start at 1, the truthiness
     * test sends every real editing id down the update branch.
     */
    method Submit(name: string, email: string, phone: string) returns (r: Request)
      requires Valid()
      modifies this`editingId
      ensures Valid()
      ensures editingId == None
      ensures old(editingId).Some? ==> r == Put(old(editingId), name, email, phone)
      ensures old(editingId) == None ==> r == Post(name, email, phone)
    {
      if Truthy(editingId) {
        r := Put(Some(editingId.value), name, email, phone);
        editingId := None;
      } else {
        r := Post(name, email, phone);
      }
    }

    /**
     * `deleteContact`, called from the Delete button of a drawn contact: the
     * store drops every contact with that id, and the page then reloads and
     * draws the store's list, in which no contact has that id.
     */
    method DeleteContact(server: ContactStore, c: Contact)
      requires Valid() && server.Valid()
      requires c in shown
      modifies this, server
      ensures Valid() && server.Valid()
      ensures server.contacts == Removed(old(server.contacts), Some(c.id))
      ensures server.idCounter == old(server.idCounter)
      ensures allContacts == server.contacts && shown == server.contacts
      ensures forall d :: d in allContacts ==> d.id != c.id
      ensures editingId == old(editingId)
    {
      var _ := server.Delete(Some(c.id));
      FetchContacts(server);
    }
  }

}
