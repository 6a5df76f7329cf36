/** The ticket handlers: creation (schema-checked, status defaulting to
    "open"), comment append, lookup, status update and deletion. */
module TicketController {
  import opened Common
  import opened Store
  import opened Tickets
  import opened TicketValidation

  const TicketNotFoundReply := Reply(404, "Ticket not found")

  /** The shape of a comment element once the schema has accepted it. */
  predicate CommentShape(j: Json) {
    j.JObj? && RequiredString(j.fields, "userId") && RequiredString(j.fields, "comment")
  }

  /** One body comment as the store casts it; without a timestamp the
      schema default `Date.now` stamps it. */
  function CommentOf(j: Json, now: Time): Comment
    requires CommentShape(j)
  {
    Comment(j.fields["userId"].s, j.fields["comment"].s,
            if "timestamp" in j.fields then Supplied(j.fields["timestamp"]) else Clock(now))
  }

  /** The body's `comments` array as stored comment records: one per
      element, in order, each with its author and text, and stamped with
      its own `timestamp` when it has one, otherwise with the creation
      time. */
  function ToComments(items: seq<Json>, now: Time): (r: seq<Comment>)
    requires forall i :: 0 <= i < |items| ==> CommentShape(items[i])
    ensures |r| == |items|
    ensures forall i :: 0 <= i < |r| ==>
      CommentShape(items[i]) && CommentOk(r[i])
      && r[i].userId == items[i].fields["userId"].s && r[i].text == items[i].fields["comment"].s
      && r[i].timestamp == (if "timestamp" in items[i].fields then Supplied(items[i].fields["timestamp"]) else Clock(now))
  {
    if items == [] then [] else [CommentOf(items[0], now)] + ToComments(items[1..], now)
  }

  /** The ticket `TicketModel.create` stores for an accepted body: status
      is `req.body.status || 'open'`, an absent priority takes the schema
      default "medium", absent assignee and comments stay absent and empty.
      Every accepted body yields a ticket inside the schema's enumerations. */
  function NewTicket(b: Body, now: Time, isDate: string -> bool): (t: Ticket)
    requires TicketSchema(b, isDate)
    ensures WellFormed(t)
    ensures t.title == b["title"].s && t.description == b["description"].s && t.userId == b["userId"].s
    ensures "status" !in b ==> t.status == DefaultStatus
    ensures "status" in b ==> t.status == b["status"].s
    ensures "priority" !in b ==> t.priority == DefaultPriority
    ensures "priority" in b ==> t.priority == b["priority"].s
    ensures "assignedTo" !in b <==> t.assignedTo.None?
    ensures "assignedTo" in b ==> t.assignedTo == Some(b["assignedTo"].s)
    ensures "comments" !in b ==> t.comments == []
    ensures "comments" in b ==>
      && (forall i :: 0 <= i < |b["comments"].elems| ==> CommentShape(b["comments"].elems[i]))
      && t.comments == ToComments(b["comments"].elems, now)
  {
    var status := if "status" in b && NonEmptyString(b["status"]) then b["status"].s else DefaultStatus;
    var priority := if "priority" in b then b["priority"].s else DefaultPriority;
    var assignedTo := if "assignedTo" in b then Some(b["assignedTo"].s) else None;
    var comments :=
      if "comments" in b then
        assert forall i :: 0 <= i < |b["comments"].elems| ==> ValidComment(b["comments"].elems[i], isDate);
        ToComments(b["comments"].elems, now)
      else [];
    Ticket(b["title"].s, b["description"].s, b["userId"].s, status, priority, assignedTo, comments)
  }

  /** `createTicket`: a body the schema refuses gets 400 and the store is
      unchanged (the reply's text is Joi's own message, not modelled);
      otherwise exactly one ticket is added. */
  method CreateTicket(tickets: Collection<Ticket>, newId: Id, body: Body, now: Time, isDate: string -> bool)
    returns (reply: Reply, created: Option<Ticket>)
    requires tickets.Valid() && newId !in tickets.docs
    modifies tickets
    ensures tickets.Valid() && (AllWellFormed(old(tickets.docs)) ==> AllWellFormed(tickets.docs))
    ensures !TicketSchema(body, isDate) ==>
      reply.status == 400 && created == None
      && tickets.docs == old(tickets.docs) && tickets.order == old(tickets.order)
    ensures TicketSchema(body, isDate) ==>
      reply.status == 201 && created == Some(NewTicket(body, now, isDate))
      && tickets.docs == old(tickets.docs)[newId := created.value]
      && tickets.order == old(tickets.order) + [newId]
  {
    if !TicketSchema(body, isDate) {
      return Reply(400, ""), None;
    }
    var t := NewTicket(body, now, isDate);
    tickets.Insert(newId, t);
    reply, created := Reply(201, ""), Some(t);
  }

  /** `addComment`: 400 when `userId` or `comment` is missing or empty, 404
      for an unknown ticket, both without change; otherwise exactly one
      comment, stamped now, is appended at the end and nothing else of the
      ticket changes. */
  method AddComment(tickets: Collection<Ticket>, id: Id, userId: Option<string>, comment: Option<string>, now: Time)
    returns (reply: Reply, updated: Option<Ticket>)
    requires tickets.Valid()
    modifies tickets
    ensures tickets.Valid() && tickets.order == old(tickets.order)
    ensures AllWellFormed(old(tickets.docs)) ==> AllWellFormed(tickets.docs)
    ensures !Truthy(userId) || !Truthy(comment) ==> reply == Reply(400, "userId and comment are required")
    ensures Truthy(userId) && Truthy(comment) && id !in old(tickets.docs) ==> reply == TicketNotFoundReply
    ensures reply.status != 200 ==> tickets.docs == old(tickets.docs) && updated == None
    ensures reply.status == 200 <==> Truthy(userId) && Truthy(comment) && id in old(tickets.docs)
    ensures reply.status == 200 ==>
      var before := old(tickets.docs[id]);
      && tickets.docs == old(tickets.docs)[id := before.(comments := before.comments + [Comment(userId.value, comment.value, Clock(now))])]
      && updated == Some(tickets.docs[id])
  {
    if !Truthy(userId) || !Truthy(comment) {
      return Reply(400, "userId and comment are required"), None;
    }
    if id !in tickets.docs {
      return TicketNotFoundReply, None;
    }
    var t := tickets.docs[id];
    t := t.(comments := t.comments + [Comment(userId.value, comment.value, Clock(now))]);
    tickets.Replace(id, t);
    reply, updated := Reply(200, ""), Some(t);
  }

  /** `getTickets`: every ticket, in natural order. */
  function GetTickets(tickets: Collection<Ticket>): (r: seq<Ticket>)
    reads tickets
    requires tickets.Valid()
    ensures |r| == |tickets.order| == tickets.Count()
    ensures forall i :: 0 <= i < |r| ==> tickets.order[i] in tickets.docs && r[i] == tickets.docs[tickets.order[i]]
  {
    tickets.Find()
  }

  /** `getTicketById`: 404 for an unknown id; otherwise the stored ticket. */
  function GetTicketById(tickets: map<Id, Ticket>, id: Id): (r: Result<Ticket, Reply>)
    ensures r.Err? <==> id !in tickets
    ensures r.Err? ==> r.error == TicketNotFoundReply
    ensures r.Ok? ==> r.value == tickets[id]
  {
    if id in tickets then Ok(tickets[id]) else Err(TicketNotFoundReply)
  }

  /** `updateTicketStatus`: 400 when the status is missing or empty, 404
      for an unknown id, both without change; otherwise only that ticket's
      status changes, to the value given. The tickets stay well-formed when
      that value is one of the enumerated statuses. */
  method UpdateTicketStatus(tickets: Collection<Ticket>, id: Id, status: Option<string>)
    returns (reply: Reply, updated: Option<Ticket>)
    requires tickets.Valid()
    modifies tickets
    ensures tickets.Valid() && tickets.order == old(tickets.order)
    ensures !Truthy(status) ==> reply == Reply(400, "Status is required")
    ensures Truthy(status) && id !in old(tickets.docs) ==> reply == TicketNotFoundReply
    ensures reply.status != 200 ==> tickets.docs == old(tickets.docs) && updated == None
    ensures reply.status == 200 <==> Truthy(status) && id in old(tickets.docs)
    ensures reply.status == 200 ==>
      tickets.docs == old(tickets.docs)[id := old(tickets.docs[id]).(status := status.value)]
      && updated == Some(tickets.docs[id])
    ensures AllWellFormed(old(tickets.docs)) && (status.Some? ==> status.value in Statuses) ==> AllWellFormed(tickets.docs)
  {
    if !Truthy(status) {
      return Reply(400, "Status is required"), None;
    }
    if id !in tickets.docs {
      return TicketNotFoundReply, None;
    }
    var t := tickets.docs[id].(status := status.value);
    tickets.Replace(id, t);
    reply, updated := Reply(200, ""), Some(t);
  }

  /** `deleteTicket`: 404 for an unknown id; otherwise exactly that ticket
      goes and the others keep their order. */
  method DeleteTicket(tickets: Collection<Ticket>, id: Id) returns (reply: Reply)
    requires tickets.Valid()
    modifies tickets
    ensures tickets.Valid() && (AllWellFormed(old(tickets.docs)) ==> AllWellFormed(tickets.docs))
    ensures id !in old(tickets.docs) ==> reply == TicketNotFoundReply
    ensures id in old(tickets.docs) ==> reply == Reply(200, "Ticket deleted successfully")
    ensures tickets.docs == old(tickets.docs) - {id} && tickets.order == Erase(old(tickets.order), id)
  {
    var removed := tickets.FindByIdAndDelete(id);
    if removed.None? {
      return TicketNotFoundReply;
    }
    reply := Reply(200, "Ticket deleted successfully");
  }

  /** A request that creates a ticket without a status and then comments
      on it: the ticket starts "open" with the priority it was given, and
      after the comment it holds exactly that one comment. The ids "T1",
      "U1" and "U2" stand for well-formed ObjectIds. */
  method CreateThenComment(now: Time) returns (create: Reply, status: string, priority: string, commented: Reply, count: nat)
    ensures create.status == 201 && status == "open" && priority == "high"
    ensures commented.status == 200 && count == 1
  {
    var tickets := new Collection<Ticket>();
    var body := map["title" := JStr("Printer broken"), "description" := JStr("Jammed"),
                    "userId" := JStr("U1"), "priority" := JStr("high")];
    var isDate := (s: string) => false;
    assert body.Keys <= TicketKeys;
    assert TicketSchema(body, isDate);
    var created;
    create, created := CreateTicket(tickets, "T1", body, now, isDate);
    status, priority := created.value.status, created.value.priority;
    var updated;
    commented, updated := AddComment(tickets, "T1", Some("U2"), Some("Looking into it"), now);
    count := |updated.value.comments|;
  }
}
