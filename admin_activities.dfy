/**
 * The admin's list of all activities, with a delete button per row. A
 * delete runs only after confirmation; while it runs every delete button is
 * disabled, and its outcome is announced in an alert.
 *
 * `handleDeleteActivity` awaits the server, so it is cut in two:
 * `RequestDelete` runs up to the request, `DeleteReply` once it has settled.
 */
module AdminActivities {
  import opened Wrappers
  import opened Http
  import opened Entities

  const LoadFailed: string := "Failed to load activities. Please try again."
  const Deleted: string := "Activity deleted successfully"
  const DeleteFailed: string := "Failed to delete activity. Please try again."

  class Page {
    var loading: bool
    var activities: seq<Activity>
    var error: Option<string>
    var isDeleting: bool

    constructor ()
      ensures loading && activities == [] && error.None? && !isDeleting
    {
      loading := true;
      activities := [];
      error := None;
      isDeleting := false;
    }

    /** The start of `fetchActivities`. */
    method StartLoad()
      modifies this
      ensures loading && error.None?
      ensures activities == old(activities) && isDeleting == old(isDeleting)
    {
      loading := true;
      error := None;
    }

    /** The end of `fetchActivities`: the list is replaced, or the fixed
        error is shown. */
    method LoadReply(reply: Reply<seq<Activity>>)
      modifies this
      ensures reply.Ok? ==> activities == reply.value && error == old(error)
      ensures reply.Fail? ==> activities == old(activities) && error == Some(LoadFailed)
      ensures !loading && isDeleting == old(isDeleting)
    {
      match reply {
        case Ok(acts) => activities := acts;
        case Fail(_) => error := Some(LoadFailed);
      }
      loading := false;
    }

    /** A delete button can be pressed only while no delete runs. */
    predicate DeleteEnabled()
      reads this
    {
      !isDeleting
    }

    /** The first half of `handleDeleteActivity`: `confirmed` is the answer
        to the confirmation. A declined one sends nothing. */
    method RequestDelete(id: string, confirmed: bool) returns (sent: bool)
      requires DeleteEnabled()
      modifies this
      ensures sent == confirmed
      ensures isDeleting == sent
      ensures loading == old(loading) && activities == old(activities) && error == old(error)
    {
      if !confirmed {
        return false;
      }
      isDeleting := true;
      return true;
    }

    /** The second half: the entries with `id` are dropped only once the
        server has deleted it, the others kept in order; failure leaves the
        list. Either outcome is announced and the buttons are enabled again. */
    method DeleteReply(id: string, reply: Reply<()>, browser: Browser)
      requires isDeleting
      modifies this, browser
      ensures reply.Ok? ==> activities == WithoutId(old(activities), ActivityId, id)
                            && browser.alerts == old(browser.alerts) + [Deleted]
      ensures reply.Fail? ==> activities == old(activities)
                              && browser.alerts == old(browser.alerts) + [DeleteFailed]
      ensures !isDeleting && DeleteEnabled()
      ensures loading == old(loading) && error == old(error)
      ensures browser.cookie == old(browser.cookie) && browser.history == old(browser.history)
    {
      match reply {
        case Ok(_) =>
          activities := WithoutId(activities, ActivityId, id);
          browser.Alert(Deleted);
        case Fail(_) =>
          browser.Alert(DeleteFailed);
      }
      isDeleting := false;
    }
  }
}
