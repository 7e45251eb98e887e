/** Tickets and the pure parts of the ticket routes of server.js: building a
    new ticket, merging an update body over a ticket, the status change, and
    the `find` / `findIndex` lookups by id. */
module Tickets {
  import opened Wrappers

  /** A stored ticket. An `Option` field is `None` when the key is missing
      from the stored object (the request did not supply it). */
  datatype Ticket = Ticket(
    id: int,
    title: Option<string>,
    description: Option<string>,
    author: Option<string>,
    group: Option<string>,
    status: Option<string>,
    createdAt: string,
    updatedAt: Option<string>)

  /** The JSON body of a create or update request, restricted to the keys a
      ticket has; `None` is a key the body does not carry. */
  datatype TicketBody = TicketBody(
    id: Option<int>,
    title: Option<string>,
    description: Option<string>,
    author: Option<string>,
    group: Option<string>,
    status: Option<string>,
    createdAt: Option<string>,
    updatedAt: Option<string>)

  /** The status a new ticket gets when the request names none ("open"). */
  const OpenStatus: string := "offen"

  /** JavaScript truthiness of a string-valued key: a missing key and the
      empty string are falsy, every other string is truthy. */
  predicate Truthy(s: Option<string>)
  {
    s.Some? && s.value != ""
  }

  /** The ticket that `POST /api/tickets` appends, given the clock readings
      `id` (milliseconds) and `now` (ISO time). Only the four descriptive
      keys and the status are taken from the body. */
  function NewTicket(id: int, now: string, body: TicketBody): (t: Ticket)
    ensures t.id == id && t.createdAt == now && t.updatedAt.None?
    ensures t.title == body.title && t.description == body.description
    ensures t.author == body.author && t.group == body.group
    ensures Truthy(body.status) ==> t.status == body.status
    ensures !Truthy(body.status) ==> t.status == Some(OpenStatus)
    ensures Truthy(t.status)
  {
    var status := if Truthy(body.status) then body.status else Some(OpenStatus);
    Ticket(id, body.title, body.description, body.author, body.group, status, now, None)
  }

  /** A body key overrides the stored one when present (object spread). */
  function Overlay<T>(over: Option<T>, under: Option<T>): Option<T>
  {
    if over.Some? then over else under
  }

  /** `{...t, ...body, id: t.id, updatedAt: now}` as built by
      `PUT /api/tickets/:id`. */
  function Merge(t: Ticket, body: TicketBody, now: string): (r: Ticket)
    ensures r.id == t.id
    ensures r.updatedAt == Some(now)
    ensures body.title.Some? ==> r.title == body.title
    ensures body.title.None? ==> r.title == t.title
    ensures body.description.Some? ==> r.description == body.description
    ensures body.description.None? ==> r.description == t.description
    ensures body.author.Some? ==> r.author == body.author
    ensures body.author.None? ==> r.author == t.author
    ensures body.group.Some? ==> r.group == body.group
    ensures body.group.None? ==> r.group == t.group
    ensures body.status.Some? ==> r.status == body.status
    ensures body.status.None? ==> r.status == t.status
    ensures body.createdAt.Some? ==> r.createdAt == body.createdAt.value
    ensures body.createdAt.None? ==> r.createdAt == t.createdAt
  {
    Ticket(
      t.id,
      Overlay(body.title, t.title),
      Overlay(body.description, t.description),
      Overlay(body.author, t.author),
      Overlay(body.group, t.group),
      Overlay(body.status, t.status),
      if body.createdAt.Some? then body.createdAt.value else t.createdAt,
      Some(now))
  }

  /** The found ticket after `PATCH /api/tickets/:id/status` assigns
      `status` and `updatedAt`; a body without `status` stores `undefined`. */
  function WithStatus(t: Ticket, status: Option<string>, now: string): (r: Ticket)
    ensures r.status == status && r.updatedAt == Some(now)
    ensures r.id == t.id && r.title == t.title && r.description == t.description
    ensures r.author == t.author && r.group == t.group && r.createdAt == t.createdAt
  {
    t.(status := status, updatedAt := Some(now))
  }

  /** A body carrying nothing but a status. */
  function StatusBody(status: Option<string>): TicketBody
  {
    TicketBody(None, None, None, None, None, status, None, None)
  }

  /** The status route agrees with a full update whose body carries only the
      status, as long as the status is present; without one, the full update
      keeps the old status while the status route erases it. */
  lemma WithStatusAgainstMerge(t: Ticket, status: Option<string>, now: string)
    ensures status.Some? ==> WithStatus(t, status, now) == Merge(t, StatusBody(status), now)
    ensures status.None? && t.status.Some? ==> WithStatus(t, status, now) != Merge(t, StatusBody(status), now)
  {
  }

  /** `ts.findIndex(t => t.id === id)`: the first position holding `id`,
      or -1 when no ticket has it. */
  function FindIndex(ts: seq<Ticket>, id: int): (r: int)
    ensures -1 <= r < |ts|
    ensures r == -1 <==> forall j :: 0 <= j < |ts| ==> ts[j].id != id
    ensures r != -1 ==> ts[r].id == id && forall j :: 0 <= j < r ==> ts[j].id != id
  {
    if ts == [] then -1
    else if ts[0].id == id then 0
    else
      var k := FindIndex(ts[1..], id);
      if k == -1 then -1 else k + 1
  }

  /** `ts.find(t => t.id === id)`: the first ticket holding `id`. */
  function Find(ts: seq<Ticket>, id: int): (r: Option<Ticket>)
    ensures r.None? <==> forall j :: 0 <= j < |ts| ==> ts[j].id != id
    ensures r.Some? ==> r.value.id == id
    ensures r.Some? ==>
      exists k :: 0 <= k < |ts| && ts[k] == r.value && forall j :: 0 <= j < k ==> ts[j].id != id
  {
    var k := FindIndex(ts, id);
    if k == -1 then None else Some(ts[k])
  }

  /** No two tickets share an id: the data-model invariant that creation keeps
      only when the clock gives a fresh id. */
  ghost predicate UniqueIds(ts: seq<Ticket>)
  {
    forall i, j :: 0 <= i < j < |ts| ==> ts[i].id != ts[j].id
  }

  /** Lookup in a concatenation: a hit in the front part wins, otherwise the
      back part is searched and the position shifted. */
  lemma {:induction false} FindIndexAppend(a: seq<Ticket>, b: seq<Ticket>, id: int)
    ensures FindIndex(a + b, id) ==
      if FindIndex(a, id) != -1 then FindIndex(a, id)
      else if FindIndex(b, id) == -1 then -1
      else |a| + FindIndex(b, id)
  {
    if a == [] {
      assert a + b == b;
    } else {
      assert (a + b)[1..] == a[1..] + b;
      FindIndexAppend(a[1..], b, id);
    }
  }

  /** After appending `t`, looking up its id finds `t` exactly when no
      earlier ticket had that id; on a collision the earlier ticket is found. */
  lemma FindAfterAppend(ts: seq<Ticket>, t: Ticket)
    ensures FindIndex(ts, t.id) == -1 ==> Find(ts + [t], t.id) == Some(t)
    ensures FindIndex(ts, t.id) != -1 ==> Find(ts + [t], t.id) == Find(ts, t.id)
  {
    FindIndexAppend(ts, [t], t.id);
  }

  /** Appending a ticket with a fresh id keeps the ids unique. */
  lemma AppendFreshKeepsUniqueIds(ts: seq<Ticket>, t: Ticket)
    requires UniqueIds(ts) && FindIndex(ts, t.id) == -1
    ensures UniqueIds(ts + [t])
  {
  }

  /** Replacing the first ticket with `id` by one that keeps `id`: the
      lookup finds the replacement at the same place, and unique ids stay
      unique. */
  lemma FindAfterReplace(ts: seq<Ticket>, id: int, t: Ticket)
    requires FindIndex(ts, id) != -1 && t.id == id
    ensures FindIndex(ts[FindIndex(ts, id) := t], id) == FindIndex(ts, id)
    ensures Find(ts[FindIndex(ts, id) := t], id) == Some(t)
    ensures UniqueIds(ts) ==> UniqueIds(ts[FindIndex(ts, id) := t])
  {
    var k := FindIndex(ts, id);
    var r := ts[k := t];
    assert r[k].id == id;
    assert forall j :: 0 <= j < k ==> r[j] == ts[j];
  }

  /** `ts.splice(k, 1)`: the list without position `k`. Exactly one ticket,
      the one at `k`, is taken out. */
  function RemoveAt(ts: seq<Ticket>, k: nat): (r: seq<Ticket>)
    requires k < |ts|
    ensures |r| == |ts| - 1
    ensures multiset(r) + multiset{ts[k]} == multiset(ts)
    ensures forall j :: 0 <= j < k ==> r[j] == ts[j]
    ensures forall j :: k <= j < |r| ==> r[j] == ts[j + 1]
  {
    assert ts == ts[..k] + [ts[k]] + ts[k + 1..];
    ts[..k] + ts[k + 1..]
  }

  /** After removing the first ticket with `id`, the id is found again
      exactly when a later ticket holds it. */
  lemma FindAfterRemove(ts: seq<Ticket>, id: int)
    requires FindIndex(ts, id) != -1
    ensures var k := FindIndex(ts, id);
      FindIndex(RemoveAt(ts, k), id) == -1 <==> FindIndex(ts[k + 1..], id) == -1
  {
    var k := FindIndex(ts, id);
    FindIndexAppend(ts[..k], ts[k + 1..], id);
    assert FindIndex(ts[..k], id) == -1 by {
      assert forall j :: 0 <= j < k ==> ts[..k][j] == ts[j];
    }
  }

  /** With unique ids, removing the ticket with `id` leaves no ticket with
      `id` and the remaining ids unique. */
  lemma RemoveKeepsUniqueIds(ts: seq<Ticket>, id: int)
    requires FindIndex(ts, id) != -1 && UniqueIds(ts)
    ensures FindIndex(RemoveAt(ts, FindIndex(ts, id)), id) == -1
    ensures UniqueIds(RemoveAt(ts, FindIndex(ts, id)))
  {
    var k := FindIndex(ts, id);
    var rest := RemoveAt(ts, k);
    forall i, j | 0 <= i < j < |rest| ensures rest[i].id != rest[j].id {
      var i' := if i < k then i else i + 1;
      var j' := if j < k then j else j + 1;
      assert rest[i] == ts[i'] && rest[j] == ts[j'];
    }
    forall j | 0 <= j < |rest| ensures rest[j].id != id {
      var j' := if j < k then j else j + 1;
      assert rest[j] == ts[j'];
    }
  }
}
