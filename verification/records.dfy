/** The category and expense tables, in the order the database returns their rows. */
module Records {
  import opened Wrappers

  /** A category; `userId` is None for the seeded defaults. */
  datatype Category = Category(id: string, name: string, color: Option<string>, userId: Option<string>, isDefault: bool)

  datatype Expense = Expense(id: string, amount: real, description: Option<string>, date: int,
                             userId: string, categoryId: string)

  datatype Db = Db(categories: seq<Category>, expenses: seq<Expense>)

  /** `category.findUnique({ where: { id } })`. */
  function FindCategory(categories: seq<Category>, id: string): (r: Option<Category>)
    ensures r.Some? ==> r.value in categories && r.value.id == id
    ensures r.None? <==> forall c :: c in categories ==> c.id != id
  {
    if categories == [] then None
    else if categories[0].id == id then Some(categories[0])
    else FindCategory(categories[1..], id)
  }

  predicate ExpenseIdTaken(expenses: seq<Expense>, id: string) {
    exists e | e in expenses :: e.id == id
  }

  /**
   * `category.userId && category.userId !== userId`: the category belongs to
   * someone else. JavaScript truthiness makes an empty owner count as none.
   */
  predicate Foreign(c: Category, userId: string) {
    c.userId.Some? && c.userId.value != "" && c.userId.value != userId
  }

  /** The primary keys are unique. */
  ghost predicate CategoryIdsUnique(categories: seq<Category>) {
    forall i, j :: 0 <= i < j < |categories| ==> categories[i].id != categories[j].id
  }

  ghost predicate ExpenseIdsUnique(expenses: seq<Expense>) {
    forall i, j :: 0 <= i < j < |expenses| ==> expenses[i].id != expenses[j].id
  }

  /** The compound unique key `name_userId` (the seed script upserts by it), for rows with an owner. */
  ghost predicate NamesUniquePerOwner(categories: seq<Category>) {
    forall i, j :: 0 <= i < j < |categories| && categories[i].userId.Some? && categories[i].userId == categories[j].userId
                   ==> categories[i].name != categories[j].name
  }

  /** Every expense refers to a category that exists and is not foreign to the expense's owner. */
  ghost predicate ExpensesUseOwnCategories(db: Db) {
    forall e :: e in db.expenses ==>
      FindCategory(db.categories, e.categoryId).Some? && !Foreign(FindCategory(db.categories, e.categoryId).value, e.userId)
  }
}
