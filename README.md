# Ticket store model

A Dafny model of the ticket-tracking backend in `server.js`: a small REST
service whose every mutating route loads one JSON record (`tickets`,
`groups`, `authors`, `adminPassword`), changes it and saves it back; the
read-only routes load it and return part of it. The model keeps
that record as one object, `TicketStore.Store`, whose fields the handler
methods update in place; the clock readings (`Date.now()` for the id,
`new Date().toISOString()` for the timestamps) are parameters, and each
handler's HTTP outcome is a `Reply` (`Ok` 200, `Created` 201, `NotFound` 404,
`Conflict` 400, `Unauthorized` 401).

Files:

- `wrappers.dfy` — `Option`; `None` is a JSON key that is missing (`undefined`).
- `names.dfy` — the group and author lists: the `filter` that deletes a name
  and its laws (order kept, idempotent, duplicates never introduced).
- `tickets.dfy` — the `Ticket` record and request body, building a new
  ticket (status defaults to `"offen"` when the body's status is missing or
  empty), merging an update body, the status change, and the `find` /
  `findIndex` lookups with what they return after an append, a replacement
  and a removal.
- `store.dfy` — the record as a class, seeded with `initialData`, and one
  method per route that changes or reads it.
- `scenarios.dfy` — request sequences on a fresh store with the replies
  they must give, derived from the handlers' contracts alone.

Where the description of the service and the code differ, the model follows
the code:

- A status change whose body has no `status` stores `undefined` as the
  status (the full update would keep the old one); `Tickets.WithStatusAgainstMerge`
  states the difference.
- A password change whose body has no `newPassword` stores `undefined`; a
  later login whose body has no `password` then succeeds, because the
  comparison is strict equality of two `undefined` values
  (`Scenarios.MissingNewPassword`). The stored password is therefore an
  `Option<string>` (a string, or missing).
- The creation time is not fixed once a ticket exists: a full update whose
  body carries `createdAt` overwrites it, since the body is spread over the
  stored ticket before only `id` and `updatedAt` are reset (`Tickets.Merge`).
- Deleting a group or author removes every occurrence of the name, not
  only one.
- The ticket list is kept in insertion order (oldest first); it is not
  sorted newest first.
- Ids are not guaranteed unique: two creations in the same millisecond get
  the same id, and the lookup then returns the earlier ticket
  (`Tickets.FindAfterAppend`). Uniqueness of ids is kept by every operation
  as long as each creation's id is fresh.

## Model

| member | source | states |
|---|---|---|
| `TicketStore.Store.constructor` | server.js:15-20 | The initial record has no tickets, the four seed groups, the three seed authors and password `admin123`; names are duplicate-free. |
| `TicketStore.Store.GetTicket` | server.js:68-76 | Replies 404 exactly when no ticket has the id; otherwise 200 with the first ticket in list order whose id matches. |
| `TicketStore.Store.CreateTicket` | server.js:86-97 | Replies 201 with the new ticket and appends exactly it at the end, earlier tickets unchanged; looking the id up afterwards finds the new ticket when the id was fresh, and the earlier ticket on a collision; unique ids stay unique when the id is fresh. |
| `TicketStore.Store.UpdateTicket` | server.js:106-118 | On a missing id replies 404 and changes nothing; otherwise replaces only the first matching ticket, in place, by the merge of the body over it, keeping order and all other tickets, and the lookup then finds the merged ticket; unique ids stay unique. |
| `TicketStore.Store.SetStatus` | server.js:128-136 | On a missing id replies 404 and changes nothing; otherwise the first matching ticket gets the new status and `updatedAt` and nothing else changes, in that ticket or in the list. |
| `TicketStore.Store.DeleteTicket` | server.js:146-153 | On a missing id replies 404 and changes nothing; otherwise removes exactly the first matching ticket (by the splice) and returns it, the list shrinks by one, its multiset loses exactly that ticket, and with unique ids the id is no longer found and ids stay unique. |
| `TicketStore.Store.AddGroup` | server.js:176-182 | A name already present gives 400 and no change; otherwise 201 and the name is appended at the end; the name is present afterwards and the list stays duplicate-free. |
| `TicketStore.Store.RemoveGroup` | server.js:192-196 | Always 200; the list becomes the original with every occurrence of the name filtered out; an absent name changes nothing; duplicate-freedom is kept. |
| `TicketStore.Store.AddAuthor` | server.js:218-224 | Same contract as adding a group, on the author list. |
| `TicketStore.Store.RemoveAuthor` | server.js:234-238 | Same contract as removing a group, on the author list. |
| `TicketStore.Store.Login` | server.js:249-253 | Replies 200 exactly when the candidate equals the stored password (strictly, so missing equals missing), 401 otherwise. |
| `TicketStore.Store.ChangePassword` | server.js:263-269 | Succeeds exactly when the old password equals the stored one and then stores the new one; on a mismatch replies 401 and the stored password is unchanged. |
| `Tickets.NewTicket` | server.js:86-94 | The new ticket carries the supplied id and creation time, no `updatedAt`, the body's title, description, author and group, and the body's status when it is truthy, otherwise `"offen"`; its status is always truthy. |
| `Tickets.Merge` | server.js:109-114 | The merged ticket keeps the stored id whatever the body says, takes `updatedAt` from the clock, and every other field from the body when the body carries it, from the stored ticket otherwise. |
| `Tickets.WithStatus` | server.js:131-132 | Only `status` and `updatedAt` change; id, title, description, author, group and creation time are kept. |
| `Tickets.WithStatusAgainstMerge` | server.js:109-132 | The status route equals a full update with a status-only body when a status is given, and differs from it when the status is missing and the ticket had one. |
| `Tickets.FindIndex` | server.js:107 | Returns -1 exactly when no ticket has the id; otherwise a position holding the id with no earlier position holding it. |
| `Tickets.Find` | server.js:71 | Returns nothing exactly when no ticket has the id; otherwise a ticket with that id found at a position with no earlier match. |
| `Tickets.FindIndexAppend` | server.js:107 | Lookup in a concatenation: a hit in the front wins, otherwise the back is searched and the position shifted by the front's length. |
| `Tickets.FindAfterAppend` | server.js:71-95 | After appending a ticket, its id finds it exactly when no earlier ticket had the id; on a collision the earlier ticket is found. |
| `Tickets.AppendFreshKeepsUniqueIds` | server.js:87-95 | Appending a ticket whose id is fresh keeps ids unique. |
| `Tickets.FindAfterReplace` | server.js:107-116 | Replacing the first match by a ticket with the same id keeps the lookup at the same position, finds the replacement, and keeps ids unique. |
| `Tickets.RemoveAt` | server.js:149 | The splice takes out exactly the ticket at the position: the list is one shorter, its multiset plus that ticket is the original's, tickets before the position stay in place and those after it move up by one, in order. |
| `Tickets.FindAfterRemove` | server.js:147-149 | After removing the first match, the id is found again exactly when a later ticket has it. |
| `Tickets.RemoveKeepsUniqueIds` | server.js:147-151 | With unique ids, after removing the ticket with the id no ticket has it and the remaining ids stay unique (a later fetch gives 404). |
| `Names.RemoveAll` | server.js:194 | The filtered list does not contain the name, is no longer than the original, and holds every other name as often as the original. |
| `Names.RemoveAllAppend` | server.js:194 | Filtering distributes over concatenation, so the survivors keep their relative order. |
| `Names.RemoveAllAbsent` | server.js:194-196 | Removing an absent name leaves the list unchanged. |
| `Names.RemoveAllIdempotent` | server.js:236-238 | Removing a name twice equals removing it once. |
| `Names.RemoveAllKeepsNoDup` | server.js:194 | A duplicate-free list stays duplicate-free after a removal. |
| `Names.AppendFreshKeepsNoDup` | server.js:177-178 | Appending a name not yet present keeps a list duplicate-free. |
| `Scenarios.TicketLifecycle` | server.js:68-158 | On a fresh store: create gives 201 with status `"offen"` when none is given, fetch returns the same ticket, closing changes only status and `updatedAt`, delete returns the closed ticket, and a second fetch gives 404. |
| `Scenarios.PasswordLifecycle` | server.js:247-274 | The seed password logs in; a change with a wrong old password gives 401 and changes nothing; after a real change the old password gives 401 and the new one logs in. |
| `Scenarios.MissingNewPassword` | server.js:250-265 | After a change whose body has no new password, a login without a password succeeds and any typed password is refused. |
| `Scenarios.GroupLifecycle` | server.js:173-196 | Adding a seeded group gives 400; removing a name twice gives 200 both times and equals one removal; an absent name leaves the seed groups as they were. |

## Left out

- Express routing, CORS, JSON parsing and serialisation of requests and replies, the reply messages, the health-check route and `app.listen` (server.js:1-12, 40-43, 276-280): HTTP plumbing.
- `loadData` / `saveData` (server.js:23-36): disk I/O. Every handler works on the record as loaded; the first fallback to `initialData` when the file cannot be read is the constructor.
- The fallback hands the handlers the module-level `initialData` object itself, which they then change in place (pushes, list reassignments, the password); a later fallback in the same process returns that changed record, while the constructor is always the original seed. This aliasing of the seed object is not modelled.
- The routes that only return the record or one of its lists (`GET /api/data`, `/api/tickets`, `/api/groups`, `/api/authors`): they read a field of `Store` unchanged, so no member models them.
- `Date.now()` and `new Date().toISOString()`: the clock, passed in as `id` and `now`; uniqueness of ids is not proved, since two creations in the same millisecond collide.
- `parseInt` on the id and `decodeURIComponent` on names in the path: ids are integers and names are already decoded; a non-numeric id (which matches no ticket in the source) cannot be expressed.
- Request bodies are limited to the ticket's own keys with string values: extra keys spread in by the full update, JSON `null` values, and non-string status values (whose truthiness differs from strings) are not modelled.
- Password bodies are modelled as a string or a missing key: a `null`, number or other JSON value as `newPassword`, `oldPassword` or `password` (stored and compared with `===`, so for example `null` matches only `null`) is not modelled.
- A group or author request without a `name` (the source appends `undefined`, saved as `null`): names are strings.
- The 500 replies for I/O failures, and the lost update between concurrent handlers that each read and write the whole file.
- The status route mutates the object returned by `find`; the model replaces the list element, which is the same since the record is reloaded for every request.
- The relational storage backend is not part of this model.
