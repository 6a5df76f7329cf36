/** The supplier handlers: create, the two reads, update and delete. */
module SupplierController {
  import opened Common
  import opened Store
  import opened Suppliers

  const SupplierNotFoundReply := Reply(404, "Supplier not found")
  const CreateSupplierFailedReply := Reply(500, "Failed to create supplier")

  /** `createSupplier`: a body the schema refuses is answered 500 and adds
      nothing; otherwise exactly one supplier, with the given name, contact
      record and address, is added. */
  method CreateSupplier(suppliers: Collection<Supplier>, newId: Id, input: SupplierInput, now: Time)
    returns (reply: Reply, created: Option<Supplier>)
    requires suppliers.Valid() && newId !in suppliers.docs
    modifies suppliers
    ensures suppliers.Valid()
    ensures reply.status == 201 <==> NewSupplier(input, now).Some?
    ensures reply.status != 201 ==>
      reply == CreateSupplierFailedReply && created == None
      && suppliers.docs == old(suppliers.docs) && suppliers.order == old(suppliers.order)
    ensures reply.status == 201 ==>
      && created == NewSupplier(input, now)
      && suppliers.docs == old(suppliers.docs)[newId := created.value]
      && suppliers.order == old(suppliers.order) + [newId]
    ensures AllWellFormed(old(suppliers.docs)) ==> AllWellFormed(suppliers.docs)
  {
    created := NewSupplier(input, now);
    if created.None? {
      return CreateSupplierFailedReply, None;
    }
    suppliers.Insert(newId, created.value);
    reply := Reply(201, "");
  }

  /** `getAllSuppliers`: every supplier, in natural order. */
  function GetAllSuppliers(suppliers: Collection<Supplier>): (r: seq<Supplier>)
    reads suppliers
    requires suppliers.Valid()
    ensures |r| == |suppliers.order| == suppliers.Count()
    ensures forall i :: 0 <= i < |r| ==> suppliers.order[i] in suppliers.docs && r[i] == suppliers.docs[suppliers.order[i]]
  {
    suppliers.Find()
  }

  /** `getSupplierById`: 404 for an unknown id; otherwise the supplier. */
  function GetSupplierById(suppliers: map<Id, Supplier>, id: Id): (r: Result<Supplier, Reply>)
    ensures r.Err? <==> id !in suppliers
    ensures r.Err? ==> r.error == SupplierNotFoundReply
    ensures r.Ok? ==> r.value == suppliers[id]
  {
    if id in suppliers then Ok(suppliers[id]) else Err(SupplierNotFoundReply)
  }

  /** The update `{ name, contactInfo, address }` applied to a supplier:
      each field the request gives replaces the stored one (a given
      `contactInfo` replaces the whole nested record); absent fields keep
      their value. */
  function Overwrite(s: Supplier, input: SupplierInput): (r: Supplier)
    ensures input.name.None? ==> r.name == s.name
    ensures input.name.Some? ==> r.name == input.name.value
    ensures input.contactInfo.None? ==> r.contactInfo == s.contactInfo
    ensures input.contactInfo.Some? ==> r.contactInfo == input.contactInfo.value
    ensures input.address.None? ==> r.address == s.address
    ensures input.address.Some? ==> r.address == input.address
    ensures r.createdAt == s.createdAt
  {
    Supplier(input.name.GetOr(s.name), input.contactInfo.GetOr(s.contactInfo),
             if input.address.Some? then input.address else s.address, s.createdAt)
  }

  /** An update that gives nothing leaves the supplier as it was, and an
      update that gives all three fields leaves nothing of the old record
      but its creation time. */
  lemma OverwriteExtremes(s: Supplier, name: string, contact: Contact, address: string)
    ensures Overwrite(s, SupplierInput(None, None, None)) == s
    ensures Overwrite(s, SupplierInput(Some(name), Some(contact), Some(address)))
         == Supplier(name, contact, Some(address), s.createdAt)
  {
  }

  /** `updateSupplier`: there is no 404; an unknown id is answered 200 with
      a null body and changes nothing. Otherwise the given fields overwrite
      the stored ones and the updated supplier is returned. */
  method UpdateSupplier(suppliers: Collection<Supplier>, id: Id, input: SupplierInput)
    returns (reply: Reply, updated: Option<Supplier>)
    requires suppliers.Valid()
    modifies suppliers
    ensures suppliers.Valid() && suppliers.order == old(suppliers.order)
    ensures reply == Reply(200, "")
    ensures id !in old(suppliers.docs) ==> updated == None && suppliers.docs == old(suppliers.docs)
    ensures id in old(suppliers.docs) ==>
      && updated == Some(Overwrite(old(suppliers.docs[id]), input))
      && suppliers.docs == old(suppliers.docs)[id := updated.value]
  {
    reply := Reply(200, "");
    if id !in suppliers.docs {
      return reply, None;
    }
    var s := Overwrite(suppliers.docs[id], input);
    suppliers.Replace(id, s);
    updated := Some(s);
  }

  /** `deleteSupplier`: 404 for an unknown id; otherwise exactly that
      supplier goes. Items that refer to it are left as they are. */
  method DeleteSupplier(suppliers: Collection<Supplier>, id: Id) returns (reply: Reply)
    requires suppliers.Valid()
    modifies suppliers
    ensures suppliers.Valid()
    ensures id !in old(suppliers.docs) ==> reply == SupplierNotFoundReply
    ensures id in old(suppliers.docs) ==> reply == Reply(200, "Supplier deleted successfully")
    ensures suppliers.docs == old(suppliers.docs) - {id} && suppliers.order == Erase(old(suppliers.order), id)
    ensures AllWellFormed(old(suppliers.docs)) ==> AllWellFormed(suppliers.docs)
  {
    var removed := suppliers.FindByIdAndDelete(id);
    if removed.None? {
      return SupplierNotFoundReply;
    }
    reply := Reply(200, "Supplier deleted successfully");
  }
}
