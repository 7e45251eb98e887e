/** Request sequences against a freshly seeded store, with what the replies
    must be. They use only the handlers' contracts. */
module Scenarios {
  import opened Wrappers
  import opened Tickets
  import opened TicketStore

  /** Create, fetch, close, delete, fetch again. */
  method TicketLifecycle(id: int, createdAt: string, closedAt: string, body: TicketBody)
    returns (created: Reply<Ticket>, fetched: Reply<Ticket>, closed: Reply<Ticket>,
             deleted: Reply<Ticket>, missing: Reply<Ticket>)
    ensures created.Code() == 201 && created.body.id == id && created.body.createdAt == createdAt
    ensures body.status.None? ==> created.body.status == Some(OpenStatus)
    ensures fetched == Ok(created.body)
    ensures closed.Code() == 200 && closed.body.status == Some("geschlossen")
    ensures closed.body.updatedAt == Some(closedAt)
    ensures closed.body == created.body.(status := Some("geschlossen"), updatedAt := Some(closedAt))
    ensures deleted == Ok(closed.body)
    ensures missing.Code() == 404
  {
    var store := new Store();
    created := store.CreateTicket(id, createdAt, body);
    fetched := store.GetTicket(id);
    closed := store.SetStatus(id, closedAt, Some("geschlossen"));
    deleted := store.DeleteTicket(id);
    missing := store.GetTicket(id);
  }

  /** Log in with the seed password, fail to change it with a wrong old
      password, change it, then only the new password logs in. */
  method PasswordLifecycle(wrong: string, replacement: string)
    returns (first: Reply<()>, refused: Reply<()>, changed: Reply<()>,
             oldLogin: Reply<()>, newLogin: Reply<()>)
    requires wrong != SeedPassword && replacement != SeedPassword
    ensures first.Ok?
    ensures refused.Code() == 401
    ensures changed.Ok?
    ensures oldLogin.Code() == 401
    ensures newLogin.Ok?
  {
    var store := new Store();
    first := store.Login(Some(SeedPassword));
    refused := store.ChangePassword(Some(wrong), Some(replacement));
    changed := store.ChangePassword(Some(SeedPassword), Some(replacement));
    oldLogin := store.Login(Some(SeedPassword));
    newLogin := store.Login(Some(replacement));
  }

  /** A password change whose body has no `newPassword` stores `undefined`;
      afterwards a login body without `password` succeeds and the old
      password no longer does. */
  method MissingNewPassword(candidate: string)
    returns (changed: Reply<()>, emptyLogin: Reply<()>, typedLogin: Reply<()>)
    ensures changed.Ok?
    ensures emptyLogin.Ok?
    ensures typedLogin.Code() == 401
  {
    var store := new Store();
    changed := store.ChangePassword(Some(SeedPassword), None);
    emptyLogin := store.Login(None);
    typedLogin := store.Login(Some(candidate));
  }

  /** Adding a seeded group is refused; deleting a name twice is deleting it
      once, and deleting an absent name succeeds and changes nothing. */
  method GroupLifecycle(name: string)
    returns (duplicate: Reply<string>, removed: Reply<()>, again: Reply<()>, groups: seq<string>)
    ensures duplicate.Code() == 400
    ensures removed.Ok? && again.Ok?
    ensures name !in groups
    ensures groups == Names.RemoveAll(SeedGroups, name)
    ensures name !in SeedGroups ==> groups == SeedGroups
  {
    var store := new Store();
    duplicate := store.AddGroup("Support");
    assert store.groups == SeedGroups;
    removed := store.RemoveGroup(name);
    again := store.RemoveGroup(name);
    Names.RemoveAllIdempotent(SeedGroups, name);
    groups := store.groups;
  }
}
