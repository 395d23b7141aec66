/**
 * `GET /api/expenses` (the requester's expenses, optionally bounded by date
 * and category, newest first) and `POST /api/expenses` (validate, check the
 * category is usable by the requester, insert).
 */
module Expenses {
  import opened Wrappers
  import opened Validation
  import opened Http
  import opened Records
  import Seqs

  const CategoryNotFound := "Category not found"
  const ExpenseCreated := "Expense created successfully"

  /* ------------------------------------------------------------------ GET */

  /** The `where` clause beyond the owner: inclusive date bounds and a category. */
  datatype ExpenseQuery = ExpenseQuery(start: Option<int>, end: Option<int>, categoryId: Option<string>)

  /** `searchParams.get(key)` as `if (value)` reads it: absent and empty are alike. */
  function Param(query: map<string, string>, key: string): (r: Option<string>)
    ensures r.Some? <==> key in query && query[key] != ""
    ensures r.Some? ==> r.value == query[key]
  {
    if key in query && query[key] != "" then Some(query[key]) else None
  }

  /**
   * The query parameters as a filter; `parseDate` is `new Date(s)`, None for
   * an Invalid Date. Prisma rejects an Invalid Date bound, so such a
   * parameter makes the whole clause unusable (None).
   */
  function ParseQuery(parseDate: string -> Option<int>, query: map<string, string>): (r: Option<ExpenseQuery>)
    ensures r.None? <==> || (Param(query, "startDate").Some? && parseDate(Param(query, "startDate").value).None?)
                         || (Param(query, "endDate").Some? && parseDate(Param(query, "endDate").value).None?)
    ensures r.Some? ==> && (r.value.start.None? <==> Param(query, "startDate").None?)
                        && (r.value.start.Some? ==> r.value.start == parseDate(query["startDate"]))
                        && (r.value.end.None? <==> Param(query, "endDate").None?)
                        && (r.value.end.Some? ==> r.value.end == parseDate(query["endDate"]))
                        && r.value.categoryId == Param(query, "categoryId")
  {
    var start, end := Param(query, "startDate"), Param(query, "endDate");
    var startAt := if start.Some? then parseDate(start.value) else None;
    var endAt := if end.Some? then parseDate(end.value) else None;
    if (start.Some? && startAt.None?) || (end.Some? && endAt.None?) then None
    else Some(ExpenseQuery(startAt, endAt, Param(query, "categoryId")))
  }

  /** The `where` clause: owned by `userId`, `gte` start, `lte` end, the given category. */
  predicate Matches(e: Expense, userId: string, q: ExpenseQuery) {
    && e.userId == userId
    && (q.start.Some? ==> q.start.value <= e.date)
    && (q.end.Some? ==> e.date <= q.end.value)
    && (q.categoryId.Some? ==> e.categoryId == q.categoryId.value)
  }

  /** `orderBy: { date: 'desc' }`. */
  ghost predicate NewestFirst(s: seq<Expense>) {
    forall i, j :: 0 <= i < j < |s| ==> s[i].date >= s[j].date
  }

  /** Putting an expense no older than any of `s` in front keeps the order. */
  lemma PrependKeepsOrder(x: Expense, s: seq<Expense>)
    requires NewestFirst(s)
    requires forall y :: y in s ==> y.date <= x.date
    ensures NewestFirst([x] + s)
  {
    var r := [x] + s;
    forall i, j | 0 <= i < j < |r|
      ensures r[i].date >= r[j].date
    {
      assert r[j] == s[j - 1];
      if i > 0 {
        assert r[i] == s[i - 1];
      }
    }
  }

  function InsertByDate(e: Expense, s: seq<Expense>): (r: seq<Expense>)
    requires NewestFirst(s)
    ensures NewestFirst(r)
    ensures multiset(r) == multiset{e} + multiset(s)
    ensures forall x :: x in r ==> x == e || x in s
  {
    if s == [] then [e]
    else if e.date >= s[0].date then
      PrependKeepsOrder(e, s);
      [e] + s
    else
      var rest := InsertByDate(e, s[1..]);
      assert s == [s[0]] + s[1..];
      PrependKeepsOrder(s[0], rest);
      [s[0]] + rest
  }

  /** A permutation of `s`, newest first. */
  function SortNewestFirst(s: seq<Expense>): (r: seq<Expense>)
    ensures NewestFirst(r)
    ensures multiset(r) == multiset(s)
  {
    if s == [] then []
    else
      assert s == [s[0]] + s[1..];
      InsertByDate(s[0], SortNewestFirst(s[1..]))
  }

  /**
   * GET. The response holds, newest first, every expense the query matches,
   * each as often as the table holds it, and nothing else.
   */
  function ListExpenses(ctx: Context, parseDate: string -> Option<int>, req: Request, db: Db): (r: Response<seq<Expense>>)
    ensures Requester(ctx, req).None? ==> r == Failure(401, Unauthorized)
    ensures Requester(ctx, req).Some? && ParseQuery(parseDate, req.query).None? ==> r == Failure(500, InternalError)
    ensures Requester(ctx, req).Some? && ParseQuery(parseDate, req.query).Some? ==> r.Success?
    ensures r.Success? ==> && r.status == 200
                           && Requester(ctx, req).Some? && ParseQuery(parseDate, req.query).Some?
                           && NewestFirst(r.body)
    ensures r.Success? ==> var u, q := Requester(ctx, req).value, ParseQuery(parseDate, req.query).value;
                           forall e :: multiset(r.body)[e] == if Matches(e, u, q) then multiset(db.expenses)[e] else 0
  {
    match Requester(ctx, req)
    case None => Failure(401, Unauthorized)
    case Some(u) =>
      match ParseQuery(parseDate, req.query)
      case None => Failure(500, InternalError)
      case Some(q) =>
        var selected := Seqs.Filter(db.expenses, e => Matches(e, u, q));
        Success(200, SortNewestFirst(selected))
  }

  /**
   * GET never shows another user's expense, and every shown expense lies
   * within the bounds that were given.
   */
  lemma ListedExpensesMatch(ctx: Context, parseDate: string -> Option<int>, req: Request, db: Db, e: Expense)
    requires Requester(ctx, req).Some? && ParseQuery(parseDate, req.query).Some?
    ensures var r := ListExpenses(ctx, parseDate, req, db);
            var q := ParseQuery(parseDate, req.query).value;
            e in r.body <==> e in db.expenses && Matches(e, Requester(ctx, req).value, q)
  {
    var r := ListExpenses(ctx, parseDate, req, db);
    var u, q := Requester(ctx, req).value, ParseQuery(parseDate, req.query).value;
    var selected := Seqs.Filter(db.expenses, x => Matches(x, u, q));
    Seqs.FilterMembership(db.expenses, x => Matches(x, u, q), e);
    assert e in r.body <==> multiset(r.body)[e] > 0;
    assert e in selected <==> multiset(selected)[e] > 0;
  }

  /* ----------------------------------------------------------------- POST */

  /** `expenseSchema.parse` output; `date` is still the string zod accepted. */
  datatype ExpenseInput = ExpenseInput(amount: real, description: Option<string>, date: Option<string>, categoryId: string)

  /**
   * `expenseSchema.parse`, reporting the first issue in field order (amount,
   * description, date, categoryId). `isDateTime` is zod's `datetime()`
   * check; turning the accepted string into an instant happens later.
   */
  function ParseExpense(isDateTime: string -> bool, body: Json): (r: Parse<ExpenseInput>)
    ensures r.Parsed? <==> && body.JObj?
                           && PositiveNumberIssue(Field(body.fields, "amount"), "Amount must be positive").None?
                           && OptionalStringIssue(Field(body.fields, "description"), AnyString, "").None?
                           && OptionalStringIssue(Field(body.fields, "date"), isDateTime, "Invalid datetime").None?
                           && StringIssue(Field(body.fields, "categoryId"), MinLength(1), "Category is required").None?
    // a rejection carries the message of the first failing field, in schema order
    ensures !body.JObj? ==> r == Rejected(InvalidType("object", Some(body)))
    ensures body.JObj? && PositiveNumberIssue(Field(body.fields, "amount"), "Amount must be positive").Some?
            ==> r == Rejected(PositiveNumberIssue(Field(body.fields, "amount"), "Amount must be positive").value)
    ensures body.JObj? && PositiveNumberIssue(Field(body.fields, "amount"), "Amount must be positive").None?
            && OptionalStringIssue(Field(body.fields, "description"), AnyString, "").Some?
            ==> r == Rejected(OptionalStringIssue(Field(body.fields, "description"), AnyString, "").value)
    ensures body.JObj? && PositiveNumberIssue(Field(body.fields, "amount"), "Amount must be positive").None?
            && OptionalStringIssue(Field(body.fields, "description"), AnyString, "").None?
            && OptionalStringIssue(Field(body.fields, "date"), isDateTime, "Invalid datetime").Some?
            ==> r == Rejected(OptionalStringIssue(Field(body.fields, "date"), isDateTime, "Invalid datetime").value)
    ensures body.JObj? && PositiveNumberIssue(Field(body.fields, "amount"), "Amount must be positive").None?
            && OptionalStringIssue(Field(body.fields, "description"), AnyString, "").None?
            && OptionalStringIssue(Field(body.fields, "date"), isDateTime, "Invalid datetime").None?
            && StringIssue(Field(body.fields, "categoryId"), MinLength(1), "Category is required").Some?
            ==> r == Rejected(StringIssue(Field(body.fields, "categoryId"), MinLength(1), "Category is required").value)
    ensures r.Parsed? ==> && Field(body.fields, "amount") == Some(JNum(r.value.amount)) && r.value.amount > 0.0
                          && r.value.description == StringField(body.fields, "description")
                          && r.value.date == StringField(body.fields, "date")
                          && (r.value.date.Some? ==> isDateTime(r.value.date.value))
                          && Field(body.fields, "categoryId") == Some(JStr(r.value.categoryId))
                          && r.value.categoryId != ""
  {
    match body
    case JObj(f) =>
      var amount := PositiveNumberIssue(Field(f, "amount"), "Amount must be positive");
      var description := OptionalStringIssue(Field(f, "description"), AnyString, "");
      var date := OptionalStringIssue(Field(f, "date"), isDateTime, "Invalid datetime");
      var category := StringIssue(Field(f, "categoryId"), MinLength(1), "Category is required");
      if amount.Some? then Rejected(amount.value)
      else if description.Some? then Rejected(description.value)
      else if date.Some? then Rejected(date.value)
      else if category.Some? then Rejected(category.value)
      else Parsed(ExpenseInput(Field(f, "amount").value.n, StringField(f, "description"),
                               StringField(f, "date"), Field(f, "categoryId").value.s))
    case _ => Rejected(InvalidType("object", Some(body)))
  }

  /**
   * POST. `freshId` is the id Prisma generates for the row; a clash with an
   * existing id violates the primary key, which this route reports as 500.
   * `parseDate` is `new Date(s)`, None for Invalid Date: zod's check does not
   * rule that out (it accepts a month 13), and Prisma refuses an Invalid Date
   * at insert, which this route also reports as 500.
   */
  function CreateExpense(ctx: Context, isDateTime: string -> bool, parseDate: string -> Option<int>, req: Request,
                         freshId: string, db: Db)
    : (r: Step<Created<Expense>, Db>)
    ensures Requester(ctx, req).None? ==> r == Step(Failure(401, Unauthorized), db)
    ensures r.response.Failure? ==> r.state == db
    ensures Requester(ctx, req).Some? && req.body.None? ==> r.response == Failure(500, InternalError)
    ensures Requester(ctx, req).Some? && req.body.Some? && ParseExpense(isDateTime, req.body.value).Rejected?
            ==> r.response == Failure(400, ParseExpense(isDateTime, req.body.value).issue)
    // a missing category and another user's category give the same answer
    ensures Requester(ctx, req).Some? && req.body.Some? && ParseExpense(isDateTime, req.body.value).Parsed?
            && (var c := FindCategory(db.categories, ParseExpense(isDateTime, req.body.value).value.categoryId);
                c.None? || Foreign(c.value, Requester(ctx, req).value))
            ==> r.response == Failure(404, CategoryNotFound)
    // a usable category and an unused id give a success
    ensures Requester(ctx, req).Some? && req.body.Some? && ParseExpense(isDateTime, req.body.value).Parsed?
            && (var c := FindCategory(db.categories, ParseExpense(isDateTime, req.body.value).value.categoryId);
                c.Some? && !Foreign(c.value, Requester(ctx, req).value))
            && !ExpenseIdTaken(db.expenses, freshId)
            && (var d := ParseExpense(isDateTime, req.body.value).value.date; d.None? || d == Some("") || parseDate(d.value).Some?)
            ==> r.response.Success?
    // a date zod accepts but `new Date` cannot read fails at insert
    ensures Requester(ctx, req).Some? && req.body.Some? && ParseExpense(isDateTime, req.body.value).Parsed?
            && (var c := FindCategory(db.categories, ParseExpense(isDateTime, req.body.value).value.categoryId);
                c.Some? && !Foreign(c.value, Requester(ctx, req).value))
            && (var d := ParseExpense(isDateTime, req.body.value).value.date; d.Some? && d != Some("") && parseDate(d.value).None?)
            ==> r == Step(Failure(500, InternalError), db)
    ensures r.response.Success? ==>
              && Requester(ctx, req).Some? && req.body.Some? && ParseExpense(isDateTime, req.body.value).Parsed?
              && var u, input, x := Requester(ctx, req).value, ParseExpense(isDateTime, req.body.value).value, r.response.body.record;
                 && r.response.status == 201 && r.response.body.message == ExpenseCreated
                 && r.state == db.(expenses := db.expenses + [x])
                 && !ExpenseIdTaken(db.expenses, freshId)
                 && x.id == freshId && x.userId == u && x.categoryId == input.categoryId
                 && FindCategory(db.categories, x.categoryId).Some? && !Foreign(FindCategory(db.categories, x.categoryId).value, u)
                 && x.amount == input.amount && x.amount > 0.0
                 && x.description == NullIfEmpty(input.description)
                 && (input.date.None? || input.date == Some("") ==> x.date == ctx.now)
                 && (input.date.Some? && input.date != Some("") ==> parseDate(input.date.value) == Some(x.date))
  {
    match Requester(ctx, req)
    case None => Step(Failure(401, Unauthorized), db)
    case Some(u) =>
      match req.body
      case None => Step(Failure(500, InternalError), db)
      case Some(json) =>
        match ParseExpense(isDateTime, json)
        case Rejected(issue) => Step(Failure(400, issue), db)
        case Parsed(input) =>
          match FindCategory(db.categories, input.categoryId)
          case None => Step(Failure(404, CategoryNotFound), db)
          case Some(c) =>
            if Foreign(c, u) then Step(Failure(404, CategoryNotFound), db)
            else
              // `date ? new Date(date) : new Date()`: the empty string is falsy
              var when := if input.date.None? || input.date.value == "" then Some(ctx.now)
                          else parseDate(input.date.value);
              if when.None? || ExpenseIdTaken(db.expenses, freshId) then Step(Failure(500, InternalError), db)
              else
                var x := Expense(freshId, input.amount, NullIfEmpty(input.description), when.value, u, input.categoryId);
                Step(Success(201, Created(ExpenseCreated, x)), db.(expenses := db.expenses + [x]))
  }

  /**
   * POST keeps the table's invariants: ids stay unique and every expense's
   * category stays one its owner may use.
   */
  lemma CreateExpenseKeepsInvariants(ctx: Context, isDateTime: string -> bool, parseDate: string -> Option<int>, req: Request,
                                     freshId: string, db: Db)
    requires ExpenseIdsUnique(db.expenses) && ExpensesUseOwnCategories(db)
    ensures var db' := CreateExpense(ctx, isDateTime, parseDate, req, freshId, db).state;
            ExpenseIdsUnique(db'.expenses) && ExpensesUseOwnCategories(db') && db'.categories == db.categories
  {
    var r := CreateExpense(ctx, isDateTime, parseDate, req, freshId, db);
    if r.response.Success? {
      var x := r.response.body.record;
      var es := r.state.expenses;
      assert es == db.expenses + [x];
      forall i, j | 0 <= i < j < |es|
        ensures es[i].id != es[j].id
      {
        if j == |es| - 1 {
          assert es[i] in db.expenses;
        }
      }
    }
  }
}
