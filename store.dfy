/** The data record of server.js and the route handlers that change it. Each
    handler loads the record, updates it in place and saves it; here the
    record is one object whose fields the handler methods update, and the
    clock readings are parameters. */
module TicketStore {
  import opened Wrappers
  import opened Tickets
  import opened Names

  /** The outcome of a handler: 200 and 201 with a body, or 404, 400, 401. */
  datatype Reply<T> = Ok(body: T) | Created(body: T) | NotFound | Conflict | Unauthorized
  {
    function Code(): int
    {
      match this
      case Ok(_) => 200
      case Created(_) => 201
      case NotFound => 404
      case Conflict => 400
      case Unauthorized => 401
    }
  }

  const SeedGroups: seq<string> := ["Alle", "Support", "Entwicklung", "Design"]
  const SeedAuthors: seq<string> := ["Max Mustermann", "Anna Schmidt", "Tom Weber"]
  const SeedPassword: string := "admin123"

  class Store {
    var tickets: seq<Ticket>
    var groups: seq<string>
    var authors: seq<string>
    /** `None` once a password change stored `undefined`. */
    var adminPassword: Option<string>

    /** Group and author names are unique. The handlers do not require it
        (a data file may break it); they keep it when it holds. */
    ghost predicate Valid()
      reads this
    {
      NoDup(groups) && NoDup(authors)
    }

    /** The record written when no data file can be read (`initialData`). */
    constructor ()
      ensures tickets == [] && groups == SeedGroups && authors == SeedAuthors
      ensures adminPassword == Some(SeedPassword)
      ensures Valid()
    {
      tickets := [];
      groups := SeedGroups;
      authors := SeedAuthors;
      adminPassword := Some(SeedPassword);
    }

    /** GET /api/tickets/:id */
    method GetTicket(id: int) returns (r: Reply<Ticket>)
      ensures r.Ok? || r.NotFound?
      ensures r.NotFound? <==> forall j :: 0 <= j < |tickets| ==> tickets[j].id != id
      ensures r.Ok? ==> r.body.id == id
      ensures r.Ok? ==>
        exists k :: 0 <= k < |tickets| && tickets[k] == r.body &&
          forall j :: 0 <= j < k ==> tickets[j].id != id
    {
      var ticket := Find(tickets, id);
      if ticket.Some? {
        r := Ok(ticket.value);
      } else {
        r := NotFound;
      }
    }

    /** POST /api/tickets, with `id` the millisecond clock and `now` the time. */
    method CreateTicket(id: int, now: string, body: TicketBody) returns (r: Reply<Ticket>)
      modifies this`tickets
      ensures r == Created(NewTicket(id, now, body))
      ensures tickets == old(tickets) + [r.body]
      ensures FindIndex(old(tickets), id) == -1 ==> Find(tickets, id) == Some(r.body)
      ensures FindIndex(old(tickets), id) != -1 ==> Find(tickets, id) == Find(old(tickets), id)
      ensures old(UniqueIds(tickets)) && FindIndex(old(tickets), id) == -1 ==> UniqueIds(tickets)
    {
      var ticket := NewTicket(id, now, body);
      FindAfterAppend(tickets, ticket);
      if UniqueIds(tickets) && FindIndex(tickets, id) == -1 {
        AppendFreshKeepsUniqueIds(tickets, ticket);
      }
      tickets := tickets + [ticket];
      r := Created(ticket);
    }

    /** PUT /api/tickets/:id */
    method UpdateTicket(id: int, now: string, body: TicketBody) returns (r: Reply<Ticket>)
      modifies this`tickets
      ensures r.Ok? || r.NotFound?
      ensures r.NotFound? <==> FindIndex(old(tickets), id) == -1
      ensures r.NotFound? ==> tickets == old(tickets)
      ensures r.Ok? ==>
        var k := FindIndex(old(tickets), id);
        r.body == Merge(old(tickets)[k], body, now) &&
        tickets == old(tickets)[k := r.body] &&
        Find(tickets, id) == Some(r.body)
      ensures old(UniqueIds(tickets)) ==> UniqueIds(tickets)
    {
      var index := FindIndex(tickets, id);
      if index != -1 {
        var ticket := Merge(tickets[index], body, now);
        FindAfterReplace(tickets, id, ticket);
        tickets := tickets[index := ticket];
        r := Ok(ticket);
      } else {
        r := NotFound;
      }
    }

    /** PATCH /api/tickets/:id/status */
    method SetStatus(id: int, now: string, status: Option<string>) returns (r: Reply<Ticket>)
      modifies this`tickets
      ensures r.Ok? || r.NotFound?
      ensures r.NotFound? <==> FindIndex(old(tickets), id) == -1
      ensures r.NotFound? ==> tickets == old(tickets)
      ensures r.Ok? ==>
        var k := FindIndex(old(tickets), id);
        r.body == WithStatus(old(tickets)[k], status, now) &&
        tickets == old(tickets)[k := r.body] &&
        Find(tickets, id) == Some(r.body)
      ensures old(UniqueIds(tickets)) ==> UniqueIds(tickets)
    {
      var ticket := Find(tickets, id);
      if ticket.Some? {
        var index := FindIndex(tickets, id);
        var changed := WithStatus(ticket.value, status, now);
        FindAfterReplace(tickets, id, changed);
        tickets := tickets[index := changed];
        r := Ok(changed);
      } else {
        r := NotFound;
      }
    }

    /** DELETE /api/tickets/:id; the reply carries the removed ticket. */
    method DeleteTicket(id: int) returns (r: Reply<Ticket>)
      modifies this`tickets
      ensures r.Ok? || r.NotFound?
      ensures r.NotFound? <==> FindIndex(old(tickets), id) == -1
      ensures r.NotFound? ==> tickets == old(tickets)
      ensures r.Ok? ==>
        var k := FindIndex(old(tickets), id);
        r.body == old(tickets)[k] && tickets == RemoveAt(old(tickets), k)
      ensures r.Ok? ==> |tickets| == |old(tickets)| - 1
      ensures r.Ok? ==> multiset(tickets) + multiset{r.body} == multiset(old(tickets))
      ensures r.Ok? && old(UniqueIds(tickets)) ==> FindIndex(tickets, id) == -1 && UniqueIds(tickets)
    {
      var index := FindIndex(tickets, id);
      if index != -1 {
        var deleted := tickets[index];
        if UniqueIds(tickets) {
          RemoveKeepsUniqueIds(tickets, id);
        }
        tickets := RemoveAt(tickets, index);
        r := Ok(deleted);
      } else {
        r := NotFound;
      }
    }

    /** POST /api/groups */
    method AddGroup(name: string) returns (r: Reply<string>)
      modifies this`groups
      ensures name in old(groups) ==> r == Conflict && groups == old(groups)
      ensures name !in old(groups) ==> r == Created(name) && groups == old(groups) + [name]
      ensures name in groups
      ensures old(Valid()) ==> Valid()
    {
      if name !in groups {
        if NoDup(groups) {
          AppendFreshKeepsNoDup(groups, name);
        }
        groups := groups + [name];
        r := Created(name);
      } else {
        r := Conflict;
      }
    }

    /** DELETE /api/groups/:name; always succeeds. */
    method RemoveGroup(name: string) returns (r: Reply<()>)
      modifies this`groups
      ensures r == Ok(())
      ensures groups == RemoveAll(old(groups), name)
      ensures name !in old(groups) ==> groups == old(groups)
      ensures old(Valid()) ==> Valid()
    {
      if name !in groups {
        RemoveAllAbsent(groups, name);
      }
      if NoDup(groups) {
        RemoveAllKeepsNoDup(groups, name);
      }
      groups := RemoveAll(groups, name);
      r := Ok(());
    }

    /** POST /api/authors */
    method AddAuthor(name: string) returns (r: Reply<string>)
      modifies this`authors
      ensures name in old(authors) ==> r == Conflict && authors == old(authors)
      ensures name !in old(authors) ==> r == Created(name) && authors == old(authors) + [name]
      ensures name in authors
      ensures old(Valid()) ==> Valid()
    {
      if name !in authors {
        if NoDup(authors) {
          AppendFreshKeepsNoDup(authors, name);
        }
        authors := authors + [name];
        r := Created(name);
      } else {
        r := Conflict;
      }
    }

    /** DELETE /api/authors/:name; always succeeds. */
    method RemoveAuthor(name: string) returns (r: Reply<()>)
      modifies this`authors
      ensures r == Ok(())
      ensures authors == RemoveAll(old(authors), name)
      ensures name !in old(authors) ==> authors == old(authors)
      ensures old(Valid()) ==> Valid()
    {
      if name !in authors {
        RemoveAllAbsent(authors, name);
      }
      if NoDup(authors) {
        RemoveAllKeepsNoDup(authors, name);
      }
      authors := RemoveAll(authors, name);
      r := Ok(());
    }

    /** POST /api/admin/login: strict equality, so a missing candidate
        matches a missing stored password. */
    method Login(password: Option<string>) returns (r: Reply<()>)
      ensures r.Ok? || r.Unauthorized?
      ensures r.Ok? <==> password == adminPassword
    {
      if password == adminPassword {
        r := Ok(());
      } else {
        r := Unauthorized;
      }
    }

    /** PUT /api/admin/password */
    method ChangePassword(oldPassword: Option<string>, newPassword: Option<string>) returns (r: Reply<()>)
      modifies this`adminPassword
      ensures r.Ok? || r.Unauthorized?
      ensures r.Ok? <==> oldPassword == old(adminPassword)
      ensures r.Ok? ==> adminPassword == newPassword
      ensures r.Unauthorized? ==> adminPassword == old(adminPassword)
    {
      if oldPassword == adminPassword {
        adminPassword := newPassword;
        r := Ok(());
      } else {
        r := Unauthorized;
      }
    }
  }
}
