/** The item handlers: creation after checking that the category and the
    supplier exist, reads that resolve both references, update and
    delete. */
module InventoryController {
  import opened Common
  import opened Store
  import opened Items
  import opened Categories
  import opened Suppliers

  const CategoryNotFoundReply := Reply(404, "Category not found")
  const SupplierNotFoundReply := Reply(404, "Supplier not found")
  const ItemNotFoundReply := Reply(404, "Item not found")
  const CreateItemFailedReply := Reply(500, "Failed to create item")

  /** An item with `populate('category supplier')` applied: each reference
      is replaced by the record it names, or by null when it names none. */
  datatype ItemView = ItemView(
    name: string,
    category: Option<Category>,
    supplier: Option<Supplier>,
    quantity: real,
    price: real,
    createdAt: Time)

  /** The record a reference names, if the store holds it. */
  function Resolve<T>(docs: map<Id, T>, ref: Option<Id>): (r: Option<T>)
    ensures r.Some? <==> ref.Some? && ref.value in docs
    ensures r.Some? ==> r.value == docs[ref.value]
  {
    if ref.Some? && ref.value in docs then Some(docs[ref.value]) else None
  }

  function Populate(i: Item, categories: map<Id, Category>, suppliers: map<Id, Supplier>): ItemView {
    ItemView(i.name, Resolve(categories, i.category), Resolve(suppliers, i.supplier), i.quantity, i.price, i.createdAt)
  }

  /** Every item's category and supplier are in their stores. */
  ghost predicate ReferencesResolve(items: map<Id, Item>, categories: map<Id, Category>, suppliers: map<Id, Supplier>) {
    forall id :: id in items ==>
      && items[id].category.Some? && items[id].category.value in categories
      && items[id].supplier.Some? && items[id].supplier.value in suppliers
  }

  /** `createItem`: 404 "Category not found" when the category is missing
      (whatever the supplier), then 404 "Supplier not found", then 500 when
      the schema refuses the item; none of these adds anything. Otherwise
      exactly one item with the given fields is added, and it is returned
      with its references unresolved. */
  method CreateItem(items: Collection<Item>, categories: map<Id, Category>, suppliers: map<Id, Supplier>,
                    newId: Id, input: ItemInput, now: Time)
    returns (reply: Reply, created: Option<Item>)
    requires items.Valid() && newId !in items.docs
    modifies items
    ensures items.Valid()
    ensures !(input.category.Some? && input.category.value in categories) ==> reply == CategoryNotFoundReply
    ensures (input.category.Some? && input.category.value in categories
             && !(input.supplier.Some? && input.supplier.value in suppliers)) ==> reply == SupplierNotFoundReply
    ensures reply.status == 500 <==>
      input.category.Some? && input.category.value in categories
      && input.supplier.Some? && input.supplier.value in suppliers
      && NewItem(input, now).None?
    ensures reply.status == 500 ==> reply == CreateItemFailedReply
    ensures reply.status == 201 <==>
      input.category.Some? && input.category.value in categories
      && input.supplier.Some? && input.supplier.value in suppliers
      && NewItem(input, now).Some?
    ensures reply.status != 201 ==>
      created == None && items.docs == old(items.docs) && items.order == old(items.order)
    ensures reply.status == 201 ==>
      && created == NewItem(input, now)
      && items.docs == old(items.docs)[newId := created.value]
      && items.order == old(items.order) + [newId]
    ensures Items.AllWellFormed(old(items.docs)) ==> Items.AllWellFormed(items.docs)
    ensures ReferencesResolve(old(items.docs), categories, suppliers) ==> ReferencesResolve(items.docs, categories, suppliers)
  {
    if !(input.category.Some? && input.category.value in categories) {
      return CategoryNotFoundReply, None;
    }
    if !(input.supplier.Some? && input.supplier.value in suppliers) {
      return SupplierNotFoundReply, None;
    }
    created := NewItem(input, now);
    if created.None? {
      return CreateItemFailedReply, None;
    }
    items.Insert(newId, created.value);
    reply := Reply(201, "");
  }

  /** `getAllItems`: every item, in natural order, with references
      resolved. */
  function GetAllItems(items: Collection<Item>, categories: map<Id, Category>, suppliers: map<Id, Supplier>): (r: seq<ItemView>)
    reads items
    requires items.Valid()
    ensures |r| == |items.order| == items.Count()
    ensures forall i :: 0 <= i < |r| ==>
      items.order[i] in items.docs && r[i] == Populate(items.docs[items.order[i]], categories, suppliers)
  {
    var all := items.Find();
    seq(|all|, i requires 0 <= i < |all| => Populate(all[i], categories, suppliers))
  }

  /** `getItemById`: 404 for an unknown id; otherwise the item with its
      references resolved, a dangling one showing as null. */
  function GetItemById(items: map<Id, Item>, categories: map<Id, Category>, suppliers: map<Id, Supplier>, id: Id)
    : (r: Result<ItemView, Reply>)
    ensures r.Err? <==> id !in items
    ensures r.Err? ==> r.error == ItemNotFoundReply
    ensures r.Ok? ==>
      var i := items[id];
      && r.value.name == i.name && r.value.quantity == i.quantity && r.value.price == i.price
      && r.value.createdAt == i.createdAt
      && (r.value.category.Some? <==> i.category.Some? && i.category.value in categories)
      && (r.value.category.Some? ==> r.value.category.value == categories[i.category.value])
      && (r.value.supplier.Some? <==> i.supplier.Some? && i.supplier.value in suppliers)
      && (r.value.supplier.Some? ==> r.value.supplier.value == suppliers[i.supplier.value])
  {
    if id in items then Ok(Populate(items[id], categories, suppliers)) else Err(ItemNotFoundReply)
  }

  /** While every reference resolves, a read never shows a null category
      or supplier. */
  lemma ResolvedReadsShowBoth(items: map<Id, Item>, categories: map<Id, Category>, suppliers: map<Id, Supplier>, id: Id)
    requires ReferencesResolve(items, categories, suppliers) && id in items
    ensures GetItemById(items, categories, suppliers, id).Ok?
    ensures GetItemById(items, categories, suppliers, id).value.category.Some?
    ensures GetItemById(items, categories, suppliers, id).value.supplier.Some?
  {
  }

  /** The update `{ name, category, supplier, quantity, price }` applied to
      an item: each field the request gives replaces the stored one, with
      no check that a new category or supplier exists; absent fields keep
      their value. */
  function Overwrite(i: Item, input: ItemInput): (r: Item)
    ensures input.name.None? ==> r.name == i.name
    ensures input.name.Some? ==> r.name == input.name.value
    ensures input.category.None? ==> r.category == i.category
    ensures input.category.Some? ==> r.category == input.category
    ensures input.supplier.None? ==> r.supplier == i.supplier
    ensures input.supplier.Some? ==> r.supplier == input.supplier
    ensures input.quantity.None? ==> r.quantity == i.quantity
    ensures input.quantity.Some? ==> r.quantity == input.quantity.value
    ensures input.price.None? ==> r.price == i.price
    ensures input.price.Some? ==> r.price == input.price.value
    ensures r.createdAt == i.createdAt
  {
    Item(input.name.GetOr(i.name),
         if input.category.Some? then input.category else i.category,
         if input.supplier.Some? then input.supplier else i.supplier,
         input.quantity.GetOr(i.quantity), input.price.GetOr(i.price), i.createdAt)
  }

  /** `updateItem`: 404 for an unknown id, without change; otherwise the
      given fields overwrite the stored ones and the item is returned with
      its references resolved. */
  method UpdateItem(items: Collection<Item>, categories: map<Id, Category>, suppliers: map<Id, Supplier>,
                    id: Id, input: ItemInput)
    returns (reply: Reply, updated: Option<ItemView>)
    requires items.Valid()
    modifies items
    ensures items.Valid() && items.order == old(items.order)
    ensures id !in old(items.docs) ==>
      reply == ItemNotFoundReply && updated == None && items.docs == old(items.docs)
    ensures id in old(items.docs) ==>
      && reply == Reply(200, "")
      && items.docs == old(items.docs)[id := Overwrite(old(items.docs[id]), input)]
      && updated == Some(Populate(items.docs[id], categories, suppliers))
  {
    if id !in items.docs {
      return ItemNotFoundReply, None;
    }
    var i := Overwrite(items.docs[id], input);
    items.Replace(id, i);
    reply, updated := Reply(200, ""), Some(Populate(i, categories, suppliers));
  }

  /** `deleteItem`: 404 for an unknown id; otherwise exactly that item
      goes. */
  method DeleteItem(items: Collection<Item>, id: Id) returns (reply: Reply)
    requires items.Valid()
    modifies items
    ensures items.Valid()
    ensures id !in old(items.docs) ==> reply == ItemNotFoundReply
    ensures id in old(items.docs) ==> reply == Reply(200, "Item deleted successfully")
    ensures items.docs == old(items.docs) - {id} && items.order == Erase(old(items.order), id)
  {
    var removed := items.FindByIdAndDelete(id);
    if removed.None? {
      return ItemNotFoundReply;
    }
    reply := Reply(200, "Item deleted successfully");
  }

  /** Creation checks references but an update does not: an item created
      against an existing category can be moved to a category id that names
      nothing, and reads of it then show a null category. */
  method UpdateToDanglingCategory(now: Time) returns (create: Reply, update: Reply, shown: Option<Category>)
    ensures create.status == 201 && update.status == 200 && shown == None
  {
    var categories := map["C1" := Category("Printers", None)];
    var suppliers := map["S1" := Supplier("Acme", Contact(Some("a@acme.test"), Some("555")), None, now)];
    var items := new Collection<Item>();
    var created;
    create, created := CreateItem(items, categories, suppliers, "I1",
                                  ItemInput(Some("Toner"), Some("C1"), Some("S1"), None, Some(25.0)), now);
    var updated;
    update, updated := UpdateItem(items, categories, suppliers, "I1", ItemInput(None, Some("C9"), None, None, None));
    shown := updated.value.category;
  }
}
