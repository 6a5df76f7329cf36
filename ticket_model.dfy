/** The ticket schema: status and priority enumerations with their
    defaults, the required fields, and the embedded comment records. */
module Tickets {
  import opened Common

  const Statuses: set<string> := {"open", "in progress", "closed"}
  const Priorities: set<string> := {"low", "medium", "high"}
  const DefaultStatus := "open"
  const DefaultPriority := "medium"

  /** When a comment was made: the server clock, or a timestamp the request
      supplied (cast by the store, not interpreted here). */
  datatype Stamp = Clock(at: Time) | Supplied(raw: Json)

  datatype Comment = Comment(userId: Id, text: string, timestamp: Stamp)

  datatype Ticket = Ticket(
    title: string,
    description: string,
    userId: Id,
    status: string,
    priority: string,
    assignedTo: Option<Id>,
    comments: seq<Comment>)

  /** A comment names its author and has text. */
  predicate CommentOk(c: Comment) {
    c.userId != "" && c.text != ""
  }

  /** What the schema demands of a stored ticket: the required fields, the
      two enumerations, and well-formed comments. */
  predicate WellFormed(t: Ticket) {
    && t.title != "" && t.description != "" && t.userId != ""
    && t.status in Statuses
    && t.priority in Priorities
    && forall i :: 0 <= i < |t.comments| ==> CommentOk(t.comments[i])
  }

  ghost predicate AllWellFormed(tickets: map<Id, Ticket>) {
    forall id :: id in tickets ==> WellFormed(tickets[id])
  }

  lemma DefaultsAreInEnums()
    ensures DefaultStatus in Statuses && DefaultPriority in Priorities
  {
  }
}
