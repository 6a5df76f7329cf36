/** The supplier schema: a required name, a contact record whose email and
    phone are both required, an optional address and a creation time. */
module Suppliers {
  import opened Common

  /** The nested `contactInfo` object as stored or as a request gives it. */
  datatype Contact = Contact(email: Option<string>, phone: Option<string>)

  datatype Supplier = Supplier(
    name: string,
    contactInfo: Contact,
    address: Option<string>,
    createdAt: Time)

  /** The fields of `new SupplierModel({...})` as the request body gives
      them. */
  datatype SupplierInput = SupplierInput(
    name: Option<string>,
    contactInfo: Option<Contact>,
    address: Option<string>)

  /** What the schema demands of a stored supplier: name, contact email and
      contact phone present and non-empty. */
  predicate WellFormed(s: Supplier) {
    s.name != "" && Truthy(s.contactInfo.email) && Truthy(s.contactInfo.phone)
  }

  ghost predicate AllWellFormed(suppliers: map<Id, Supplier>) {
    forall id :: id in suppliers ==> WellFormed(suppliers[id])
  }

  /** `new SupplierModel(input).save()` as far as the schema decides it:
      refused (None) exactly when the name, the contact email or the contact
      phone is missing or empty; otherwise a supplier with the given fields
      and the creation time. */
  function NewSupplier(input: SupplierInput, now: Time): (r: Option<Supplier>)
    ensures r.Some? <==>
      Truthy(input.name) && input.contactInfo.Some?
      && Truthy(input.contactInfo.value.email) && Truthy(input.contactInfo.value.phone)
    ensures r.Some? ==>
      && WellFormed(r.value)
      && r.value.name == input.name.value && r.value.contactInfo == input.contactInfo.value
      && r.value.address == input.address && r.value.createdAt == now
  {
    var contact := input.contactInfo.GetOr(Contact(None, None));
    var s := Supplier(input.name.GetOr(""), contact, input.address, now);
    if WellFormed(s) then Some(s) else None
  }
}
