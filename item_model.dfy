/** The inventory item schema: a required name and price, a quantity that
    defaults to zero, references to a category and a supplier, and a
    creation time. */
module Items {
  import opened Common

  /** A stored item. `category` and `supplier` hold the ids of the records
      they refer to; the schema does not require them. */
  datatype Item = Item(
    name: string,
    category: Option<Id>,
    supplier: Option<Id>,
    quantity: real,
    price: real,
    createdAt: Time)

  const DefaultQuantity: real := 0.0

  /** The fields of `new ItemModel({...})` as the request body gives them. */
  datatype ItemInput = ItemInput(
    name: Option<string>,
    category: Option<Id>,
    supplier: Option<Id>,
    quantity: Option<real>,
    price: Option<real>)

  /** What the schema demands of a stored item: a non-empty name (the
      numeric `price` and `quantity` are always there in this datatype). */
  predicate WellFormed(i: Item) {
    i.name != ""
  }

  ghost predicate AllWellFormed(items: map<Id, Item>) {
    forall id :: id in items ==> WellFormed(items[id])
  }

  /** `new ItemModel(input).save()` as far as the schema decides it: refused
      (None) exactly when the name is missing or empty or the price is
      missing; otherwise an item with the given fields, the default
      quantity when none is given, and the creation time. */
  function NewItem(input: ItemInput, now: Time): (r: Option<Item>)
    ensures r.Some? <==> Truthy(input.name) && input.price.Some?
    ensures r.Some? ==>
      && WellFormed(r.value)
      && r.value.name == input.name.value && r.value.price == input.price.value
      && r.value.category == input.category && r.value.supplier == input.supplier
      && r.value.createdAt == now
      && (input.quantity.None? ==> r.value.quantity == DefaultQuantity)
      && (input.quantity.Some? ==> r.value.quantity == input.quantity.value)
  {
    if !Truthy(input.name) || input.price.None? then None
    else Some(Item(input.name.value, input.category, input.supplier,
                   input.quantity.GetOr(DefaultQuantity), input.price.value, now))
  }
}
