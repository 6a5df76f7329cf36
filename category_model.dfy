/** The inventory category schema: a required name and an optional
    description. */
module Categories {
  import opened Common

  datatype Category = Category(name: string, description: Option<string>)

  /** The schema's one required field. */
  predicate WellFormed(c: Category) {
    c.name != ""
  }

  ghost predicate AllWellFormed(categories: map<Id, Category>) {
    forall id :: id in categories ==> WellFormed(categories[id])
  }

  /** No two categories share a name. The schema has no unique index on
      `name`; only the create handler's lookup keeps this. */
  ghost predicate DistinctNames(categories: map<Id, Category>) {
    forall a, b :: a in categories && b in categories && a != b ==> categories[a].name != categories[b].name
  }
}
