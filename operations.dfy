/**
 * The four ledger mutations and loading, as functions from the old `UserData`
 * to the new one. Console input appears as parameters: an `Option<string>` is
 * a `ReadLine` (None when it returns null), an `Option<T>` of a number or date
 * is the outcome of the corresponding `TryParse`, and `now` is `DateTime.Now`.
 */
module Operations {
  import opened Wrappers
  import opened Dates
  import opened Text
  import opened Seqs
  import opened Records

  const DefaultCategory := "General"
  const DefaultDescription := "Unnamed"

  /** The category of a new expense: a null, empty or blank read becomes "General". */
  function NormalizeCategory(cat: Option<string>): string {
    if IsNullOrWhiteSpace(cat) then DefaultCategory else cat.value
  }

  /**
   * The date of a new expense: `now` for a blank read, otherwise the parsed
   * date, and `now` again when the text does not parse.
   */
  function ResolveDate(dateText: Option<string>, parsed: Option<DateTime>, now: DateTime): DateTime {
    if IsNullOrWhiteSpace(dateText) then now else parsed.GetOr(now)
  }

  /**
   * AddExpense. `parsedDate` is what `DateTime.TryParse` makes of `dateText`.
   * An amount that does not parse aborts before anything is changed.
   */
  function AddExpense(d: UserData, desc: Option<string>, cat: Option<string>, amount: Option<Money>,
                      dateText: Option<string>, parsedDate: Option<DateTime>, now: DateTime): (r: UserData)
    ensures amount.None? ==> r == d
    ensures amount.Some? ==>
      && |r.expenses| == |d.expenses| + 1
      && r.expenses[..|d.expenses|] == d.expenses
      && r.nextId == d.nextId + 1
      && r.monthlyBudget == d.monthlyBudget
    ensures amount.Some? ==>
      var e := r.expenses[|d.expenses|];
      && e.id == d.nextId
      && e.amount == amount.value
      && e.description == desc.GetOr(DefaultDescription)
      && !IsNullOrWhiteSpace(Some(e.category))
      && (IsNullOrWhiteSpace(cat) ==> e.category == DefaultCategory)
      && (!IsNullOrWhiteSpace(cat) ==> e.category == cat.value)
      && (IsNullOrWhiteSpace(dateText) || parsedDate.None? ==> e.date == now)
      && (!IsNullOrWhiteSpace(dateText) && parsedDate.Some? ==> e.date == parsedDate.value)
  {
    if amount.None? then d
    else
      var e := Expense(d.nextId, desc.GetOr(DefaultDescription), amount.value, NormalizeCategory(cat),
                       ResolveDate(dateText, parsedDate, now));
      assert !IsWhiteSpace(DefaultCategory[0]);
      d.(expenses := d.expenses + [e], nextId := d.nextId + 1)
  }

  /** `FirstOrDefault(e => e.Id == id)`, as the position of the first match. */
  function FindById(s: seq<Expense>, id: int): (r: Option<nat>)
    ensures r.Some? ==> r.value < |s| && s[r.value].id == id
    ensures r.Some? ==> forall j :: 0 <= j < r.value ==> s[j].id != id
    ensures r.None? ==> forall j :: 0 <= j < |s| ==> s[j].id != id
  {
    if s == [] then None
    else if s[0].id == id then Some(0)
    else match FindById(s[1..], id)
      case None => None
      case Some(k) => Some(k + 1)
  }

  /** A blank or null read keeps the current text. */
  function KeepUnlessBlank(input: Option<string>, current: string): string {
    if IsNullOrWhiteSpace(input) then current else input.value
  }

  /** The fields UpdateExpense assigns on the found expense; `Id` and `Date` are never touched. */
  function Patch(e: Expense, desc: Option<string>, cat: Option<string>, amount: Option<Money>): (p: Expense)
    ensures p.id == e.id && p.date == e.date
    ensures IsNullOrWhiteSpace(desc) && IsNullOrWhiteSpace(cat) && amount.None? ==> p == e
    ensures !IsNullOrWhiteSpace(desc) ==> p.description == desc.value
    ensures IsNullOrWhiteSpace(desc) ==> p.description == e.description
    ensures !IsNullOrWhiteSpace(cat) ==> p.category == cat.value
    ensures IsNullOrWhiteSpace(cat) ==> p.category == e.category
    ensures amount.Some? ==> p.amount == amount.value
    ensures amount.None? ==> p.amount == e.amount
  {
    e.(description := KeepUnlessBlank(desc, e.description),
       category := KeepUnlessBlank(cat, e.category),
       amount := amount.GetOr(e.amount))
  }

  /** What UpdateExpense reports: an id that does not parse, "Not found." or "Expense updated!". */
  datatype UpdateOutcome = InvalidId | NotFound | Updated(index: nat)

  /** UpdateExpense: patches the first expense carrying the id, in place. */
  function UpdateExpense(d: UserData, idInput: Option<int>, desc: Option<string>, cat: Option<string>,
                         amount: Option<Money>): (r: (UserData, UpdateOutcome))
    ensures r.0.nextId == d.nextId && r.0.monthlyBudget == d.monthlyBudget
    ensures |r.0.expenses| == |d.expenses|
    ensures r.1.InvalidId? <==> idInput.None?
    ensures r.1.NotFound? <==> idInput.Some? && forall e :: e in d.expenses ==> e.id != idInput.value
    ensures !r.1.Updated? ==> r.0 == d
    ensures r.1.Updated? ==>
      var i := r.1.index;
      && i < |d.expenses|
      && d.expenses[i].id == idInput.value
      && (forall j :: 0 <= j < i ==> d.expenses[j].id != idInput.value)
      && r.0.expenses[i] == Patch(d.expenses[i], desc, cat, amount)
      && (forall j :: 0 <= j < |d.expenses| && j != i ==> r.0.expenses[j] == d.expenses[j])
  {
    if idInput.None? then (d, InvalidId)
    else match FindById(d.expenses, idInput.value)
      case None => (d, NotFound)
      case Some(i) =>
        (d.(expenses := d.expenses[i := Patch(d.expenses[i], desc, cat, amount)]), Updated(i))
  }

  function IdIs(id: int): Expense -> bool {
    (e: Expense) => e.id == id
  }

  function IdIsNot(id: int): Expense -> bool {
    (e: Expense) => e.id != id
  }

  /**
   * DeleteExpense: `RemoveAll(e => e.Id == id)` on a parsed id, with the
   * number removed; an id that does not parse removes nothing.
   */
  function DeleteExpense(d: UserData, idInput: Option<int>): (r: (UserData, nat))
    ensures r.0.nextId == d.nextId && r.0.monthlyBudget == d.monthlyBudget
    ensures idInput.None? ==> r == (d, 0)
    ensures idInput.Some? ==> r.1 == |Where(d.expenses, IdIs(idInput.value))|
    ensures idInput.Some? ==> |r.0.expenses| + r.1 == |d.expenses|
    ensures idInput.Some? ==> forall e :: multiset(r.0.expenses)[e] == if e.id != idInput.value then multiset(d.expenses)[e] else 0
    ensures idInput.Some? ==> forall e :: e in r.0.expenses <==> e in d.expenses && e.id != idInput.value
  {
    if idInput.None? then (d, 0)
    else
      var kept := Where(d.expenses, IdIsNot(idInput.value));
      WhereSplitLength(d.expenses, IdIsNot(idInput.value));
      assert Where(d.expenses, Negate(IdIsNot(idInput.value))) == Where(d.expenses, IdIs(idInput.value)) by {
        WhereSameFilter(d.expenses, Negate(IdIsNot(idInput.value)), IdIs(idInput.value));
      }
      forall e ensures multiset(kept)[e] == if e.id != idInput.value then multiset(d.expenses)[e] else 0 {
        WhereCount(d.expenses, IdIsNot(idInput.value), e);
      }
      (d.(expenses := kept), |d.expenses| - |kept|)
  }

  /** What DeleteExpense computes for a parsed id, spelled out for the in-place version. */
  lemma DeleteUnfolds(d: UserData, id: int)
    ensures var kept := Where(d.expenses, IdIsNot(id));
      DeleteExpense(d, Some(id)) == (d.(expenses := kept), |d.expenses| - |kept|)
  {
  }

  /** Two predicates that agree on every element filter alike. */
  lemma {:induction false} WhereSameFilter(s: seq<Expense>, p: Expense -> bool, q: Expense -> bool)
    requires forall e :: p(e) == q(e)
    ensures Where(s, p) == Where(s, q)
  {
    if s != [] {
      WhereSameFilter(s[1..], p, q);
    }
  }

  /** SetBudget: a parsed limit replaces the budget, whatever its sign; a failed parse changes nothing. */
  function SetBudget(d: UserData, budget: Option<Money>): (r: UserData)
    ensures r.expenses == d.expenses && r.nextId == d.nextId
    ensures budget.Some? ==> r.monthlyBudget == budget.value
    ensures budget.None? ==> r == d
  {
    match budget
    case Some(b) => d.(monthlyBudget := b)
    case None => d
  }

  /** What `expenses.json` holds at start-up; `Stored(None)` is a document that deserializes to null. */
  datatype StoredFile = Missing | Unreadable | Stored(content: Option<UserData>)

  /**
   * LoadData: the state after loading over `current`, and whether the
   * "Could not load data" warning is shown. A missing file leaves `current`
   * as it is; at start-up that is the fresh `UserData`.
   */
  function LoadData(current: UserData, f: StoredFile): (r: (UserData, bool))
    ensures r.1 <==> f.Unreadable?
    ensures f.Missing? ==> r.0 == current
    ensures f.Stored? && f.content.Some? ==> r.0 == f.content.value
    ensures f.Unreadable? || f == Stored(None) ==> r.0 == Default()
  {
    match f
    case Missing => (current, false)
    case Unreadable => (Default(), true)
    case Stored(content) => (content.GetOr(Default()), false)
  }

  // ---------------------------------------------------------------------------
  // The id invariant

  /** Ids are at least 1, below the counter, and pairwise distinct. */
  predicate IdsValid(d: UserData) {
    && d.nextId >= 1
    && (forall i :: 0 <= i < |d.expenses| ==> 1 <= d.expenses[i].id < d.nextId)
    && (forall i, j :: 0 <= i < j < |d.expenses| ==> d.expenses[i].id != d.expenses[j].id)
  }

  lemma DefaultIdsValid()
    ensures IdsValid(Default())
  {
  }

  lemma AddPreservesIds(d: UserData, desc: Option<string>, cat: Option<string>, amount: Option<Money>,
                        dateText: Option<string>, parsedDate: Option<DateTime>, now: DateTime)
    requires IdsValid(d)
    ensures IdsValid(AddExpense(d, desc, cat, amount, dateText, parsedDate, now))
  {
  }

  lemma UpdatePreservesIds(d: UserData, idInput: Option<int>, desc: Option<string>, cat: Option<string>,
                           amount: Option<Money>)
    requires IdsValid(d)
    ensures IdsValid(UpdateExpense(d, idInput, desc, cat, amount).0)
  {
  }

  /** Removing elements keeps the remaining ids distinct and in range. */
  lemma {:induction false} WherePreservesIds(s: seq<Expense>, p: Expense -> bool, nextId: int)
    requires IdsValid(UserData(s, nextId, 0.0))
    ensures IdsValid(UserData(Where(s, p), nextId, 0.0))
  {
    if s != [] {
      assert IdsValid(UserData(s[1..], nextId, 0.0)) by {
        forall i, j | 0 <= i < j < |s[1..]| ensures s[1..][i].id != s[1..][j].id {
          assert s[1..][i] == s[i + 1] && s[1..][j] == s[j + 1];
        }
      }
      WherePreservesIds(s[1..], p, nextId);
      var w := Where(s[1..], p);
      forall x | x in w ensures x.id != s[0].id {
        var k :| 0 <= k < |s[1..]| && s[1..][k] == x;
        assert s[k + 1] == x;
      }
    }
  }

  lemma DeletePreservesIds(d: UserData, idInput: Option<int>)
    requires IdsValid(d)
    ensures IdsValid(DeleteExpense(d, idInput).0)
  {
    if idInput.Some? {
      WherePreservesIds(d.expenses, IdIsNot(idInput.value), d.nextId);
    }
  }

  lemma SetBudgetPreservesIds(d: UserData, budget: Option<Money>)
    requires IdsValid(d)
    ensures IdsValid(SetBudget(d, budget))
  {
  }

  // ---------------------------------------------------------------------------
  // Properties of the mutations

  /** An added expense is found again under the id it was given, at the end of the list. */
  lemma AddThenFind(d: UserData, desc: Option<string>, cat: Option<string>, amount: Option<Money>,
                    dateText: Option<string>, parsedDate: Option<DateTime>, now: DateTime)
    requires IdsValid(d) && amount.Some?
    ensures var r := AddExpense(d, desc, cat, amount, dateText, parsedDate, now);
      FindById(r.expenses, d.nextId) == Some(|d.expenses|)
  {
    var r := AddExpense(d, desc, cat, amount, dateText, parsedDate, now);
    var found := FindById(r.expenses, d.nextId);
    assert found.Some? by {
      assert r.expenses[|d.expenses|].id == d.nextId;
    }
    assert forall j :: 0 <= j < |d.expenses| ==> r.expenses[j] == d.expenses[j];
  }

  /** An update whose every answer is blank or unparseable changes nothing. */
  lemma UpdateWithBlankPatchChangesNothing(d: UserData, idInput: Option<int>, desc: Option<string>,
                                           cat: Option<string>, amount: Option<Money>)
    requires IsNullOrWhiteSpace(desc) && IsNullOrWhiteSpace(cat) && amount.None?
    ensures UpdateExpense(d, idInput, desc, cat, amount).0 == d
  {
    var r := UpdateExpense(d, idInput, desc, cat, amount);
    if r.1.Updated? {
      assert r.0.expenses == d.expenses;
    }
  }

  /**
   * Delete reports success exactly when some expense carried the id, keeps
   * the order of the rest, and on a missing id leaves the list identical.
   */
  lemma DeleteReportsRemoval(d: UserData, id: int)
    ensures var r := DeleteExpense(d, Some(id));
      && (r.1 > 0 <==> exists e :: e in d.expenses && e.id == id)
      && ((forall e :: e in d.expenses ==> e.id != id) ==> r.0 == d)
      && IsSubsequence(r.0.expenses, d.expenses)
  {
    WhereAllOrNone(d.expenses, IdIs(id));
    WhereAllOrNone(d.expenses, IdIsNot(id));
    WhereIsSubsequence(d.expenses, IdIsNot(id));
  }

  /** Under the id invariant at most one expense carries a given id, so Delete removes at most one. */
  lemma DeleteRemovesAtMostOne(d: UserData, id: int)
    requires IdsValid(d)
    ensures DeleteExpense(d, Some(id)).1 <= 1
  {
    AtMostOneWithId(d.expenses, id, d.nextId);
  }

  lemma {:induction false} AtMostOneWithId(s: seq<Expense>, id: int, nextId: int)
    requires IdsValid(UserData(s, nextId, 0.0))
    ensures |Where(s, IdIs(id))| <= 1
  {
    if s != [] {
      assert IdsValid(UserData(s[1..], nextId, 0.0)) by {
        forall i, j | 0 <= i < j < |s[1..]| ensures s[1..][i].id != s[1..][j].id {
          assert s[1..][i] == s[i + 1] && s[1..][j] == s[j + 1];
        }
      }
      AtMostOneWithId(s[1..], id, nextId);
      if s[0].id == id {
        forall x | x in s[1..] ensures !IdIs(id)(x) {
          var k :| 0 <= k < |s[1..]| && s[1..][k] == x;
          assert s[k + 1] == x;
        }
        WhereAllOrNone(s[1..], IdIs(id));
      }
    }
  }

  // ---------------------------------------------------------------------------
  // Sessions: any sequence of menu actions from the initial state

  /** One menu action with the answers given to its prompts. */
  datatype Op =
    | AddOp(desc: Option<string>, cat: Option<string>, amount: Option<Money>,
            dateText: Option<string>, parsedDate: Option<DateTime>, now: DateTime)
    | UpdateOp(updateId: Option<int>, newDesc: Option<string>, newCat: Option<string>, newAmount: Option<Money>)
    | DeleteOp(deleteId: Option<int>)
    | SetBudgetOp(budget: Option<Money>)

  function Apply(d: UserData, op: Op): UserData {
    match op
    case AddOp(desc, cat, amount, dateText, parsedDate, now) =>
      AddExpense(d, desc, cat, amount, dateText, parsedDate, now)
    case UpdateOp(id, desc, cat, amount) => UpdateExpense(d, id, desc, cat, amount).0
    case DeleteOp(id) => DeleteExpense(d, id).0
    case SetBudgetOp(budget) => SetBudget(d, budget)
  }

  /** The state after performing `ops` in order. */
  function Run(d: UserData, ops: seq<Op>): UserData
    decreases |ops|
  {
    if ops == [] then d else Run(Apply(d, ops[0]), ops[1..])
  }

  /** The number of adds in `ops` whose amount parsed. */
  function SuccessfulAdds(ops: seq<Op>): nat {
    if ops == [] then 0
    else (if ops[0].AddOp? && ops[0].amount.Some? then 1 else 0) + SuccessfulAdds(ops[1..])
  }

  lemma ApplyPreservesIds(d: UserData, op: Op)
    requires IdsValid(d)
    ensures IdsValid(Apply(d, op))
  {
    match op
    case AddOp(desc, cat, amount, dateText, parsedDate, now) =>
      AddPreservesIds(d, desc, cat, amount, dateText, parsedDate, now);
    case UpdateOp(id, desc, cat, amount) => UpdatePreservesIds(d, id, desc, cat, amount);
    case DeleteOp(id) => DeletePreservesIds(d, id);
    case SetBudgetOp(budget) => SetBudgetPreservesIds(d, budget);
  }

  /** Every state reached from a valid one keeps ids distinct and below the counter. */
  lemma {:induction false} RunPreservesIds(d: UserData, ops: seq<Op>)
    requires IdsValid(d)
    ensures IdsValid(Run(d, ops))
    decreases |ops|
  {
    if ops != [] {
      ApplyPreservesIds(d, ops[0]);
      RunPreservesIds(Apply(d, ops[0]), ops[1..]);
    }
  }

  /** From the fresh `UserData` every session keeps the id invariant. */
  lemma SessionKeepsIdsValid(ops: seq<Op>)
    ensures IdsValid(Run(Default(), ops))
  {
    DefaultIdsValid();
    RunPreservesIds(Default(), ops);
  }

  /**
   * The counter grows by exactly one per successful add and by nothing else,
   * deletions included, so an id is never handed out twice.
   */
  lemma {:induction false} RunCountsAdds(d: UserData, ops: seq<Op>)
    ensures Run(d, ops).nextId == d.nextId + SuccessfulAdds(ops)
    decreases |ops|
  {
    if ops != [] {
      RunCountsAdds(Apply(d, ops[0]), ops[1..]);
    }
  }
}
