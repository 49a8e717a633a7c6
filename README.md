# Contact list: a Dafny model of the in-memory contact store and its page script

The contact list application is one Node.js file, `contact-app.js`. An Express
server keeps an ordered array of contacts (`id`, `name`, `email`, `phone`) and an
id counter that starts at 1. Four routes list, create, update by id and delete by
id. The server also serves one HTML page whose script fetches the list, filters it
client-side for a search, and submits a form that either creates a contact or
updates the one being edited.

This project models that core and proves its contracts:

- `sequences.dfy` (module `Sequences`): `Filter`, the order-preserving filter that
  the delete handler and the search both use, and `IsSubsequence`.
- `contacts.dfy` (module `Contacts`): the `Contact` record and the id test
  `c.id === id`. A path id that does not parse (NaN) is `None`, and `None` matches
  nothing. Also the update transformation `Replaced` (the `map`), the delete
  transformation `Removed` (the `filter`), and the order on ids.
- `store.dfy` (module `Store`): the store as a value `StoreState` with the invariant
  `WellFormed`. Ids are at least 1, strictly increasing along the list (so unique),
  and below the counter. The module has the specification functions
  `Created`/`Updated`/`Deleted` and the requests `Get`/`Post`/`Put`/`Delete` with
  `Run` over a sequence of them. The class `ContactStore` holds the two
  module-level variables as fields. Its methods change them in place, and each
  method is tied to its specification function.
- `page.dfy` (module `Page`): ASCII lower-casing, `Includes` (`String.prototype.includes`),
  the search filter, JavaScript truthiness of `editingId`, and the class
  `ContactPage` with the script's variables `editingId`, `allContacts` and the
  drawn list.

The model follows the code in a few places where the code is narrower than its
description. The search lower-cases the query but not the phone number, so the phone
test does not match a phone holding an upper-case letter against that
phone's own text (`Page.PhoneMatchIsCaseSensitive`). Such a contact can still
be found by its name or email. The submit handler tests `editingId` for
truthiness, not for presence. This is harmless only because ids start at 1
(`Page.ContactPage.Submit`). An update or a delete reports success whether or not
any contact matched.

## Model

| member | source | states |
|---|---|---|
| `Sequences.Filter` | contact-app.js:32 | the result holds exactly the elements of the input that pass the test, and is no longer than the input |
| `Sequences.FilterCounts` | contact-app.js:32 | a filter keeps every copy of an element that passes and no copy of one that fails |
| `Sequences.FilterIsSubsequence` | contact-app.js:32 | a filter result is an order-preserving subsequence of its input |
| `Sequences.FilterIdempotent` | contact-app.js:32 | filtering twice by the same test gives the same sequence as filtering once |
| `Contacts.Matches` | contact-app.js:25 | the test `c.id === id`; a NaN path id (`None`) matches no contact, as `Store.UnmatchedIdChangesNothing` uses |
| `Contacts.Removed` | contact-app.js:32 | the delete `filter`; which contacts it keeps and in what order is stated by `Contacts.RemovedMembers` and `Contacts.RemovedAt` |
| `Contacts.IncreasingIdsAreUnique` | contact-app.js:16 | in a list with increasing ids, two different positions never share an id |
| `Contacts.Replaced` | contact-app.js:24-26 | an update keeps the length, the order and every id; each matching entry gets exactly the given name, email and phone; every other entry is unchanged |
| `Contacts.ReplacedAt` | contact-app.js:24-26 | with unique ids, updating the id of entry k rewrites entry k's fields and nothing else |
| `Contacts.RemovedMembers` | contact-app.js:32 | a delete keeps exactly the contacts whose id does not match, as an order-preserving subsequence |
| `Contacts.RemovedAt` | contact-app.js:32 | with unique ids, deleting the id of entry k removes exactly that entry and keeps the rest in order |
| `Contacts.FilterKeepsIdsIncreasing` | contact-app.js:32 | filtering a list with increasing ids leaves the ids increasing |
| `Store.Created` | contact-app.js:16-17 | the state after a create: the record with the old counter as id appended, counter plus one; its properties are `Store.CreateKeepsWellFormed` and `Store.ContactStore.Create` |
| `Store.Updated` | contact-app.js:24-26 | the state after an update: `Replaced` list, same counter; its properties are `Store.UpdateKeepsWellFormed`, `Store.UpdateIdempotent` and `Contacts.ReplacedAt` |
| `Store.Deleted` | contact-app.js:32 | the state after a delete: `Removed` list, same counter; its properties are `Store.DeleteKeepsWellFormed`, `Store.DeleteIdempotent` and `Contacts.RemovedAt` |
| `Store.Apply` | contact-app.js:12-33 | what one request of the four routes does to the store; `Store.RunKeepsWellFormed` proves each keeps the invariant |
| `Store.Run` | contact-app.js:12-33 | requests handled one after another; `Store.RunKeepsWellFormed` and `Store.IdsNeverReused` state what any run keeps |
| `Store.CreateKeepsWellFormed` | contact-app.js:16-17 | a create keeps the store invariant, and the new id exceeds every stored id |
| `Store.UpdateKeepsWellFormed` | contact-app.js:24-26 | an update keeps the store invariant |
| `Store.DeleteKeepsWellFormed` | contact-app.js:32 | a delete keeps the store invariant |
| `Store.UnmatchedIdChangesNothing` | contact-app.js:21-33 | an update or delete whose id matches no contact, a NaN path included, leaves list and counter unchanged |
| `Store.UpdateIdempotent` | contact-app.js:24-26 | the same update applied twice gives the same store as once |
| `Store.DeleteIdempotent` | contact-app.js:32 | the same delete applied twice gives the same store as once |
| `Store.CreateUpdateDeleteRoundTrip` | contact-app.js:14-33 | create, update by the new id, then delete by it: the update shows exactly the new fields at the end of the list, and the delete restores the original list with the counter advanced by one |
| `Store.RunKeepsWellFormed` | contact-app.js:8-34 | any sequence of requests from a well-formed store leaves it well-formed |
| `Store.AssignedIdsInRange` | contact-app.js:9-17 | over any sequence of requests the counter never goes back, and every id handed out lies between the counter before the run and the counter after it |
| `Store.IdsNeverReused` | contact-app.js:9-17 | the ids handed out over any sequence of requests, deletes included, strictly increase, so no id is handed out twice |
| `Store.ContactStore.constructor` | contact-app.js:8-9 | the store starts with no contacts and a counter of 1 |
| `Store.ContactStore.List` | contact-app.js:12 | listing returns the stored list in insertion order |
| `Store.ContactStore.Create` | contact-app.js:14-19 | the returned contact has the old counter as id and the given fields; it is appended, earlier entries are unchanged, the counter grows by exactly 1, the invariant holds |
| `Store.ContactStore.Update` | contact-app.js:21-28 | the list becomes `Replaced` of the old list, the counter is unchanged, success is always reported, the invariant holds |
| `Store.ContactStore.Delete` | contact-app.js:30-34 | the list becomes `Removed` of the old list, the counter is unchanged, success is always reported, the invariant holds |
| `Page.Lower` | contact-app.js:131 | lower-casing keeps the length, turns each ASCII 'A'..'Z' into the matching 'a'..'z', leaves no upper-case ASCII letter and keeps every other character |
| `Page.Includes` | contact-app.js:133-135 | `String.prototype.includes`; `Page.IncludesIffOccurs` proves it holds exactly when the query occurs at some position |
| `Page.IncludesIffOccurs` | contact-app.js:133-135 | `includes` holds exactly when the query occurs at some position of the string |
| `Page.MatchesQuery` | contact-app.js:133-135 | the filter callback: lower-cased name or email, or the phone as it is, includes the lower-cased query; `Page.Search` states the filter it drives |
| `Page.Search` | contact-app.js:130-138 | a contact is kept iff its lower-cased name or email, or its phone, contains the lower-cased query; the result is an order-preserving subsequence of the fetched list |
| `Page.SearchEmptyKeepsAll` | contact-app.js:130-136 | an empty search keeps every contact |
| `Page.SearchIgnoresCase` | contact-app.js:131-134 | searching for the lower-cased text gives the same result as searching for the text |
| `Page.SearchFindsAnyCase` | contact-app.js:133-134 | a contact whose name or email equals the search text up to case is found |
| `Page.PhoneMatchIsCaseSensitive` | contact-app.js:135 | for every phone holding an upper-case ASCII letter, the phone test does not match that phone's own text |
| `Page.Truthy` | contact-app.js:151 | the truthiness test `if (editingId)`: null and 0 are falsy; `Page.ContactPage.EditContact` and `Page.ContactPage.Submit` prove every real id is truthy |
| `Page.ContactPage.constructor` | contact-app.js:100-101 | the page starts with no editing id and an empty fetched list |
| `Page.ContactPage.FetchContacts` | contact-app.js:103-107 | the fetched list becomes the server's list and is drawn whole; the editing id is unchanged |
| `Page.ContactPage.SearchContacts` | contact-app.js:130-138 | the drawn list becomes `Search` of the fetched list |
| `Page.ContactPage.ClearSearch` | contact-app.js:140-143 | the drawn list becomes the whole fetched list |
| `Page.ContactPage.EditContact` | contact-app.js:174-179 | the editing id becomes the chosen contact's id, which is truthy |
| `Page.ContactPage.Submit` | contact-app.js:145-164 | while editing, the form issues an update of the edited id and the edit ends; otherwise it issues a create; a real id is never taken for "not editing" |
| `Page.ContactPage.DeleteContact` | contact-app.js:169-172 | for a drawn contact, the store's list becomes `Removed` of the old list by that id with the counter unchanged, and the page reloads and draws the store's list, in which no contact has that id |

## Left out

- Express wiring is not modelled: `require`, `express.json()`, routing, `res.json`/`res.send` and `app.listen`. The handlers are the methods of `Store.ContactStore`, and `Store.Request` names the route.
- The HTML and CSS and `renderContacts` are not modelled, because they build DOM nodes. The field `shown` of `Page.ContactPage` records only which list was drawn. The unescaped interpolation of contact fields into markup is not modelled.
- `fetch` and `await` are not modelled as network calls. `DeleteContact` calls the store's `Delete` directly and then reloads through `FetchContacts`, which reads the store object. `Submit` returns the request it would send, and `Store.Apply` gives that request's effect on the store. The reload after a submit is the separate step `FetchContacts`.
- DOM form state is not modelled. This covers the values `editContact` writes into the form fields, the form reset after submit, and clearing the search box. The search text and the submitted fields are parameters.
- `parseInt` is abstracted to `Option<int>`. A path that does not parse is `None`, which matches no contact. Partial parses such as `"12abc"` to 12 are not modelled.
- Request bodies are plain strings. Missing or non-string JSON fields (`undefined`) are not modelled. So the server storing an absent field, and the search failing on one, are outside the model.
- Ids are unbounded integers. JavaScript numbers stop being exact above 2^53, and that is not modelled.
- `toLowerCase` is modelled for ASCII letters only. Other characters are left as they are.
- Concurrency is not modelled. Requests are handled one at a time, in the order of the request sequence given to `Store.Run`.
