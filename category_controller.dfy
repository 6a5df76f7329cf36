/** The category handlers: creation guarded by a lookup on the name, and
    the two reads. */
module CategoryController {
  import opened Common
  import opened Store
  import opened Categories

  const CategoryExistsReply := Reply(400, "Category already exists")
  const CategoryNotFoundReply := Reply(404, "Category not found")
  const CategoryServerErrorReply := Reply(500, "Server error")

  /** The filter `{ name }` matches a category. An undefined `name` drops
      out of the filter, which then matches every category. */
  predicate NameMatches(c: Category, name: Option<string>) {
    name.None? || c.name == name.value
  }

  /** `CategoryModel.findOne({ name })`: a matching category, if any. */
  function FindOneByName(categories: map<Id, Category>, order: seq<Id>, name: Option<string>): (r: Option<Id>)
    requires forall i :: 0 <= i < |order| ==> order[i] in categories
    ensures r.Some? ==> r.value in order && r.value in categories && NameMatches(categories[r.value], name)
    ensures r.None? ==> forall i :: 0 <= i < |order| ==> !NameMatches(categories[order[i]], name)
  {
    if order == [] then None
    else if NameMatches(categories[order[0]], name) then Some(order[0])
    else FindOneByName(categories, order[1..], name)
  }

  /** Some category matches the filter `{ name }`. */
  ghost predicate NameInUse(categories: map<Id, Category>, name: Option<string>) {
    exists id :: id in categories && NameMatches(categories[id], name)
  }

  /** `createCategory`: 400 when the lookup finds a category (for an absent
      name, any category at all); otherwise a missing or empty name fails
      the schema, answered 500; otherwise exactly one category is added.
      Names that were distinct stay distinct. */
  method CreateCategory(categories: Collection<Category>, newId: Id, name: Option<string>, description: Option<string>)
    returns (reply: Reply, created: Option<Category>)
    requires categories.Valid() && newId !in categories.docs
    modifies categories
    ensures categories.Valid()
    ensures NameInUse(old(categories.docs), name) ==> reply == CategoryExistsReply
    ensures !NameInUse(old(categories.docs), name) && !Truthy(name) ==> reply == CategoryServerErrorReply
    ensures reply.status == 201 <==> !NameInUse(old(categories.docs), name) && Truthy(name)
    ensures reply.status != 201 ==>
      created == None && categories.docs == old(categories.docs) && categories.order == old(categories.order)
    ensures reply.status == 201 ==>
      && created == Some(Category(name.value, description))
      && categories.docs == old(categories.docs)[newId := created.value]
      && categories.order == old(categories.order) + [newId]
    ensures AllWellFormed(old(categories.docs)) ==> AllWellFormed(categories.docs)
    ensures DistinctNames(old(categories.docs)) ==> DistinctNames(categories.docs)
  {
    var existing := FindOneByName(categories.docs, categories.order, name);
    if existing.Some? {
      return CategoryExistsReply, None;
    }
    assert !NameInUse(categories.docs, name) by {
      forall id | id in categories.docs ensures !NameMatches(categories.docs[id], name) {
        var k :| 0 <= k < |categories.order| && categories.order[k] == id;
      }
    }
    if !Truthy(name) {
      return CategoryServerErrorReply, None;
    }
    var c := Category(name.value, description);
    categories.Insert(newId, c);
    reply, created := Reply(201, ""), Some(c);
  }

  /** `getAllCategories`: every category, in natural order. */
  function GetAllCategories(categories: Collection<Category>): (r: seq<Category>)
    reads categories
    requires categories.Valid()
    ensures |r| == |categories.order| == categories.Count()
    ensures forall i :: 0 <= i < |r| ==> categories.order[i] in categories.docs && r[i] == categories.docs[categories.order[i]]
  {
    categories.Find()
  }

  /** `getCategoryById`: 404 for an unknown id; otherwise the category. */
  function GetCategoryById(categories: map<Id, Category>, id: Id): (r: Result<Category, Reply>)
    ensures r.Err? <==> id !in categories
    ensures r.Err? ==> r.error == CategoryNotFoundReply
    ensures r.Ok? ==> r.value == categories[id]
  {
    if id in categories then Ok(categories[id]) else Err(CategoryNotFoundReply)
  }

  /** Creating the same name twice: the first request adds the category,
      the second is refused with 400 and adds nothing. */
  method CreateTwice(name: string, description: Option<string>) returns (first: Reply, second: Reply, count: nat)
    requires name != ""
    ensures first.status == 201 && second == CategoryExistsReply && count == 1
  {
    var categories := new Collection<Category>();
    var created;
    first, created := CreateCategory(categories, "C1", Some(name), description);
    assert "C1" in categories.docs && NameMatches(categories.docs["C1"], Some(name));
    second, created := CreateCategory(categories, "C2", Some(name), None);
    assert categories.docs == map["C1" := Category(name, description)];
    count := categories.Count();
  }
}
