/** The Joi `ticketSchema` for ticket-creation bodies, as a predicate on the
    parsed JSON body. Joi's defaults apply: unknown keys are refused, a
    `string()` must be a non-empty string, `valid(...)` admits only the
    listed values, and an optional key may be left out but not set to
    `null`. Whether a string parses as a date is a parameter. */
module TicketValidation {
  import opened Common
  import Tickets

  type Body = map<string, Json>

  const TicketKeys: set<string> := {"title", "description", "userId", "priority", "assignedTo", "status", "comments"}
  const CommentKeys: set<string> := {"userId", "comment", "timestamp"}

  /** The lists given to `valid(...)` for `priority` and `status`. */
  const JoiPriorities: set<string> := {"low", "medium", "high"}
  const JoiStatuses: set<string> := {"open", "in progress", "closed"}

  /** `Joi.string()`. */
  predicate NonEmptyString(j: Json) {
    j.JStr? && j.s != ""
  }

  /** `Joi.string().required()`. */
  predicate RequiredString(b: Body, key: string) {
    key in b && NonEmptyString(b[key])
  }

  /** `Joi.string().optional()`. */
  predicate OptionalString(b: Body, key: string) {
    key !in b || NonEmptyString(b[key])
  }

  /** `Joi.string().valid(...allowed).optional()`. */
  predicate OptionalOneOf(b: Body, key: string, allowed: set<string>) {
    key !in b || (b[key].JStr? && b[key].s in allowed)
  }

  /** `Joi.date()`: a number of milliseconds, or a string that parses as a
      date. */
  predicate DateLike(j: Json, isDate: string -> bool) {
    j.JNum? || (j.JStr? && isDate(j.s))
  }

  /** One element of `comments`: an object with `userId` and `comment`, an
      optional date `timestamp`, and nothing else. */
  predicate ValidComment(j: Json, isDate: string -> bool) {
    && j.JObj?
    && j.fields.Keys <= CommentKeys
    && RequiredString(j.fields, "userId")
    && RequiredString(j.fields, "comment")
    && ("timestamp" in j.fields ==> DateLike(j.fields["timestamp"], isDate))
  }

  /** `Joi.array().items(...)`: every element is a valid comment. */
  predicate ValidComments(items: seq<Json>, isDate: string -> bool) {
    forall i :: 0 <= i < |items| ==> ValidComment(items[i], isDate)
  }

  /** `ticketSchema.validate(body)` reports no error. */
  predicate TicketSchema(b: Body, isDate: string -> bool) {
    && b.Keys <= TicketKeys
    && RequiredString(b, "title")
    && RequiredString(b, "description")
    && RequiredString(b, "userId")
    && OptionalOneOf(b, "priority", JoiPriorities)
    && OptionalString(b, "assignedTo")
    && OptionalOneOf(b, "status", JoiStatuses)
    && ("comments" in b ==> b["comments"].JArr? && ValidComments(b["comments"].elems, isDate))
  }

  /** The request schema admits exactly the values the store's enumerations
      admit, so no accepted priority or status is refused when stored, and
      none the store would take is refused at the door. */
  lemma JoiListsMatchSchemaEnums()
    ensures JoiPriorities == Tickets.Priorities
    ensures JoiStatuses == Tickets.Statuses
  {
  }

  /** What an accepted body guarantees: the three required strings are
      there; status and priority, when given, are inside the schema's
      enumerations; every given comment has an author and text. */
  lemma AcceptedBodyShape(b: Body, isDate: string -> bool)
    requires TicketSchema(b, isDate)
    ensures "title" in b && b["title"].JStr? && b["title"].s != ""
    ensures "description" in b && b["description"].JStr? && b["description"].s != ""
    ensures "userId" in b && b["userId"].JStr? && b["userId"].s != ""
    ensures "status" in b ==> b["status"].JStr? && b["status"].s in Tickets.Statuses
    ensures "priority" in b ==> b["priority"].JStr? && b["priority"].s in Tickets.Priorities
    ensures "comments" in b ==>
      forall i :: 0 <= i < |b["comments"].elems| ==>
        var c := b["comments"].elems[i];
        c.JObj? && NonEmptyString(c.fields["userId"]) && NonEmptyString(c.fields["comment"])
  {
  }

  /** The keys the schema does not mention make a body invalid, whatever
      else it holds; and each required key, when missing, does too. */
  lemma RefusedBodies(b: Body, isDate: string -> bool)
    ensures (exists k :: k in b && k !in TicketKeys) ==> !TicketSchema(b, isDate)
    ensures "title" !in b || "description" !in b || "userId" !in b ==> !TicketSchema(b, isDate)
    ensures "priority" in b && b["priority"] == JStr("urgent") ==> !TicketSchema(b, isDate)
    ensures "status" in b && b["status"] == JStr("resolved") ==> !TicketSchema(b, isDate)
  {
  }

  /** The smallest accepted body: the three required strings alone. */
  lemma MinimalBodyAccepted(title: string, description: string, userId: string, isDate: string -> bool)
    requires title != "" && description != "" && userId != ""
    ensures TicketSchema(map["title" := JStr(title), "description" := JStr(description), "userId" := JStr(userId)], isDate)
  {
    var b := map["title" := JStr(title), "description" := JStr(description), "userId" := JStr(userId)];
    assert b.Keys == {"title", "description", "userId"};
  }
}
