/**
 * The admin's list of all users, with a delete button per row. A
 * delete runs only after confirmation; while it runs every delete button is
 * disabled, and its outcome is announced in an alert.
 *
 * `handleDeleteUser` awaits the server, so it is cut in two:
 * `RequestDelete` runs up to the request, `DeleteReply` once it has settled.
 */
module AdminUsers {
  import opened Wrappers
  import opened Http
  import opened Entities

  const LoadFailed: string := "Failed to load users. Please try again."
  const Deleted: string := "User deleted successfully"
  const DeleteFailed: string := "Failed to delete user. Please try again."

  /** The role badge of a row: "Admin" for an administrator, "User" for
      anyone else. */
  function RoleLabel(role: Role): (badge: string)
    ensures badge == "Admin" <==> role == AdminRole
    ensures badge == "User" <==> role == UserRole
  {
    match role
    case AdminRole => "Admin"
    case UserRole => assert "User"[0] != "Admin"[0]; "User"
  }

  class Page {
    var loading: bool
    var users: seq<User>
    var error: Option<string>
    var isDeleting: bool

    constructor ()
      ensures loading && users == [] && error.None? && !isDeleting
    {
      loading := true;
      users := [];
      error := None;
      isDeleting := false;
    }

    /** The start of `fetchUsers`. */
    method StartLoad()
      modifies this
      ensures loading && error.None?
      ensures users == old(users) && isDeleting == old(isDeleting)
    {
      loading := true;
      error := None;
    }

    /** The end of `fetchUsers`: the list is replaced, or the fixed
        error is shown. */
    method LoadReply(reply: Reply<seq<User>>)
      modifies this
      ensures reply.Ok? ==> users == reply.value && error == old(error)
      ensures reply.Fail? ==> users == old(users) && error == Some(LoadFailed)
      ensures !loading && isDeleting == old(isDeleting)
    {
      match reply {
        case Ok(us) => users := us;
        case Fail(_) => error := Some(LoadFailed);
      }
      loading := false;
    }

    /** A delete button can be pressed only while no delete runs. */
    predicate DeleteEnabled()
      reads this
    {
      !isDeleting
    }

    /** The first half of `handleDeleteUser`: `confirmed` is the answer
        to the confirmation. A declined one sends nothing. */
    method RequestDelete(id: string, confirmed: bool) returns (sent: bool)
      requires DeleteEnabled()
      modifies this
      ensures sent == confirmed
      ensures isDeleting == sent
      ensures loading == old(loading) && users == old(users) && error == old(error)
    {
      if !confirmed {
        return false;
      }
      isDeleting := true;
      return true;
    }

    /** The second half: the entries with `id` are dropped only once the
        server has deleted it, the others kept in order; failure leaves the
        list. Either outcome is announced and the buttons are enabled again. */
    method DeleteReply(id: string, reply: Reply<()>, browser: Browser)
      requires isDeleting
      modifies this, browser
      ensures reply.Ok? ==> users == WithoutId(old(users), UserId, id)
                            && browser.alerts == old(browser.alerts) + [Deleted]
      ensures reply.Fail? ==> users == old(users)
                              && browser.alerts == old(browser.alerts) + [DeleteFailed]
      ensures !isDeleting && DeleteEnabled()
      ensures loading == old(loading) && error == old(error)
      ensures browser.cookie == old(browser.cookie) && browser.history == old(browser.history)
    {
      match reply {
        case Ok(_) =>
          users := WithoutId(users, UserId, id);
          browser.Alert(Deleted);
        case Fail(_) =>
          browser.Alert(DeleteFailed);
      }
      isDeleting := false;
    }
  }
}
