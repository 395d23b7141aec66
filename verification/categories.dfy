/**
 * `GET /api/categories` (the defaults followed by the requester's own
 * categories) and `POST /api/categories` (validate, reject a name the
 * requester already uses, insert a custom category).
 */
module Categories {
  import opened Wrappers
  import opened Validation
  import opened Http
  import opened Records
  import Seqs

  const DuplicateName := "Category with this name already exists"
  const CategoryCreated := "Category created successfully"

  /* ------------------------------------------------------------------ GET */

  /** `where: { userId: null, isDefault: true }`. */
  predicate IsDefaultCategory(c: Category) {
    c.userId.None? && c.isDefault
  }

  /** `where: { userId, isDefault: false }`. */
  predicate IsCustomOf(c: Category, userId: string) {
    c.userId == Some(userId) && !c.isDefault
  }

  /** No default category comes after a custom one. */
  ghost predicate DefaultsFirst(s: seq<Category>) {
    forall i, j :: 0 <= i < j < |s| && IsDefaultCategory(s[j]) ==> IsDefaultCategory(s[i])
  }

  /** The listing `[...defaultCategories, ...userCategories]` and what it holds. */
  lemma {:induction false} ListingShape(categories: seq<Category>, u: string)
    ensures var all := Seqs.Filter(categories, IsDefaultCategory) + Seqs.Filter(categories, c => IsCustomOf(c, u));
            && DefaultsFirst(all)
            && forall c :: multiset(all)[c] ==
                 if IsDefaultCategory(c) || IsCustomOf(c, u) then multiset(categories)[c] else 0
  {
    var defaults := Seqs.Filter(categories, IsDefaultCategory);
    var own := Seqs.Filter(categories, c => IsCustomOf(c, u));
    var all := defaults + own;
    assert multiset(all) == multiset(defaults) + multiset(own);
    forall i, j | 0 <= i < j < |all| && IsDefaultCategory(all[j])
      ensures IsDefaultCategory(all[i])
    {
      if i < |defaults| {
        assert all[i] == defaults[i] && all[i] in defaults;
      }
    }
  }

  /**
   * GET. Every default, then every custom category of the requester, each in
   * table order and each as often as the table holds it; nothing else.
   */
  function ListCategories(ctx: Context, req: Request, db: Db): (r: Response<seq<Category>>)
    ensures Requester(ctx, req).None? ==> r == Failure(401, Unauthorized)
    ensures Requester(ctx, req).Some? ==> r.Success?
    ensures r.Success? ==> r.status == 200 && Requester(ctx, req).Some? && DefaultsFirst(r.body)
    ensures r.Success? ==> var u := Requester(ctx, req).value;
                           forall c :: multiset(r.body)[c] ==
                             if IsDefaultCategory(c) || IsCustomOf(c, u) then multiset(db.categories)[c] else 0
  {
    match Requester(ctx, req)
    case None => Failure(401, Unauthorized)
    case Some(u) =>
      ListingShape(db.categories, u);
      Success(200, Seqs.Filter(db.categories, IsDefaultCategory) + Seqs.Filter(db.categories, c => IsCustomOf(c, u)))
  }

  /** GET never returns a category that another user owns. */
  lemma ListedCategoriesAreVisible(ctx: Context, req: Request, db: Db, c: Category)
    requires Requester(ctx, req).Some?
    ensures var u := Requester(ctx, req).value;
            c in ListCategories(ctx, req, db).body <==> c in db.categories && (IsDefaultCategory(c) || IsCustomOf(c, u))
    ensures c in ListCategories(ctx, req, db).body ==> c.userId.None? || c.userId == Requester(ctx, req)
  {
    var u := Requester(ctx, req).value;
    Seqs.FilterMembership(db.categories, IsDefaultCategory, c);
    Seqs.FilterMembership(db.categories, c => IsCustomOf(c, u), c);
  }

  /* ----------------------------------------------------------------- POST */

  /** `categorySchema.parse` output. */
  datatype CategoryInput = CategoryInput(name: string, color: Option<string>)

  /** `categorySchema.parse`, reporting the first issue in field order (name, color). */
  function ParseCategory(body: Json): (r: Parse<CategoryInput>)
    ensures r.Parsed? <==> && body.JObj?
                           && StringField(body.fields, "name").Some? && StringField(body.fields, "name").value != ""
                           && OptionalStringIssue(Field(body.fields, "color"), AnyString, "").None?
    ensures r.Parsed? ==> && Field(body.fields, "name") == Some(JStr(r.value.name))
                          && r.value.color == StringField(body.fields, "color")
    // a rejection carries zod's message for the first failing field
    ensures !body.JObj? ==> r == Rejected(InvalidType("object", Some(body)))
    ensures body.JObj? && "name" !in body.fields ==> r == Rejected("Required")
    ensures body.JObj? && "name" in body.fields && !body.fields["name"].JStr?
            ==> r == Rejected(InvalidType("string", Some(body.fields["name"])))
    ensures body.JObj? && Field(body.fields, "name") == Some(JStr("")) ==> r == Rejected("Category name is required")
    ensures body.JObj? && StringField(body.fields, "name").Some? && StringField(body.fields, "name").value != ""
            && "color" in body.fields && !body.fields["color"].JStr?
            ==> r == Rejected(InvalidType("string", Some(body.fields["color"])))
  {
    match body
    case JObj(f) =>
      var name := StringIssue(Field(f, "name"), MinLength(1), "Category name is required");
      var color := OptionalStringIssue(Field(f, "color"), AnyString, "");
      if name.Some? then Rejected(name.value)
      else if color.Some? then Rejected(color.value)
      else Parsed(CategoryInput(Field(f, "name").value.s, StringField(f, "color")))
    case _ => Rejected(InvalidType("object", Some(body)))
  }

  /** `findFirst({ where: { name, userId } })` for the requester: default categories never match. */
  predicate OwnsName(categories: seq<Category>, userId: string, name: string) {
    exists c | c in categories :: c.name == name && c.userId == Some(userId)
  }

  predicate CategoryIdTaken(categories: seq<Category>, id: string) {
    exists c | c in categories :: c.id == id
  }

  /**
   * POST. `freshId` is the id Prisma generates for the row. A unique-key
   * violation at insert (P2002) is answered like the duplicate pre-check;
   * sequentially the only one left is a clash of `freshId`.
   */
  function CreateCategory(ctx: Context, req: Request, freshId: string, db: Db): (r: Step<Created<Category>, Db>)
    ensures Requester(ctx, req).None? ==> r == Step(Failure(401, Unauthorized), db)
    ensures r.response.Failure? ==> r.state == db
    ensures Requester(ctx, req).Some? && req.body.None? ==> r.response == Failure(500, InternalError)
    ensures Requester(ctx, req).Some? && req.body.Some? && ParseCategory(req.body.value).Rejected?
            ==> r.response == Failure(400, ParseCategory(req.body.value).issue)
    // the duplicate check looks only at the requester's own categories
    ensures Requester(ctx, req).Some? && req.body.Some? && ParseCategory(req.body.value).Parsed?
            ==> (r.response == Failure(400, DuplicateName) <==>
                   OwnsName(db.categories, Requester(ctx, req).value, ParseCategory(req.body.value).value.name)
                   || CategoryIdTaken(db.categories, freshId))
    // and a body that is neither succeeds
    ensures Requester(ctx, req).Some? && req.body.Some? && ParseCategory(req.body.value).Parsed?
            && !OwnsName(db.categories, Requester(ctx, req).value, ParseCategory(req.body.value).value.name)
            && !CategoryIdTaken(db.categories, freshId)
            ==> r.response.Success?
    ensures r.response.Success? ==>
              && Requester(ctx, req).Some? && req.body.Some? && ParseCategory(req.body.value).Parsed?
              && var u, input, c := Requester(ctx, req).value, ParseCategory(req.body.value).value, r.response.body.record;
                 && r.response.status == 201 && r.response.body.message == CategoryCreated
                 && r.state == db.(categories := db.categories + [c])
                 && !OwnsName(db.categories, u, input.name) && !CategoryIdTaken(db.categories, freshId)
                 && c == Category(freshId, input.name, NullIfEmpty(input.color), Some(u), false)
  {
    match Requester(ctx, req)
    case None => Step(Failure(401, Unauthorized), db)
    case Some(u) =>
      match req.body
      case None => Step(Failure(500, InternalError), db)
      case Some(json) =>
        match ParseCategory(json)
        case Rejected(issue) => Step(Failure(400, issue), db)
        case Parsed(input) =>
          if OwnsName(db.categories, u, input.name) then Step(Failure(400, DuplicateName), db)
          else if CategoryIdTaken(db.categories, freshId) then Step(Failure(400, DuplicateName), db)
          else
            var c := Category(freshId, input.name, NullIfEmpty(input.color), Some(u), false);
            Step(Success(201, Created(CategoryCreated, c)), db.(categories := db.categories + [c]))
  }

  /** A custom category may take the name of a default one, or of another user's. */
  lemma DefaultNamesMayBeReused(ctx: Context, req: Request, freshId: string, db: Db, name: string)
    requires Requester(ctx, req).Some? && req.body == Some(JObj(map["name" := JStr(name)])) && name != ""
    requires forall c :: c in db.categories && c.name == name ==> c.userId != Requester(ctx, req)
    requires !CategoryIdTaken(db.categories, freshId)
    ensures CreateCategory(ctx, req, freshId, db).response.Success?
  {
    var f := map["name" := JStr(name)];
    assert Field(f, "name") == Some(JStr(name));
    assert Field(f, "color") == None;
  }

  /**
   * POST keeps the table's invariants: ids stay unique and no owner has two
   * categories with one name; expenses are untouched.
   */
  lemma CreateCategoryKeepsInvariants(ctx: Context, req: Request, freshId: string, db: Db)
    requires CategoryIdsUnique(db.categories) && NamesUniquePerOwner(db.categories)
    ensures var db' := CreateCategory(ctx, req, freshId, db).state;
            CategoryIdsUnique(db'.categories) && NamesUniquePerOwner(db'.categories) && db'.expenses == db.expenses
  {
    var r := CreateCategory(ctx, req, freshId, db);
    if r.response.Success? {
      var c := r.response.body.record;
      var cs := r.state.categories;
      assert cs == db.categories + [c];
      forall i, j | 0 <= i < j < |cs|
        ensures cs[i].id != cs[j].id
        ensures cs[i].userId.Some? && cs[i].userId == cs[j].userId ==> cs[i].name != cs[j].name
      {
        if j == |cs| - 1 {
          assert cs[i] in db.categories;
        }
      }
    }
  }
}
