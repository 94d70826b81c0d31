/**
 * The program's static `data`: a ledger object whose menu actions update it
 * in place. Each method is proved to leave exactly the state that the
 * corresponding function of `Operations` describes.
 */
module Store {
  import opened Wrappers
  import opened Dates
  import opened Text
  import opened Seqs
  import opened Records
  import Operations

  class Ledger {
    var expenses: seq<Expense>
    var nextId: int
    var monthlyBudget: Money

    /** The ledger's current state as a value. */
    function Data(): UserData
      reads this
    {
      UserData(expenses, nextId, monthlyBudget)
    }

    /** `new UserData()`. */
    constructor ()
      ensures Data() == Default()
      ensures Operations.IdsValid(Data())
    {
      expenses := [];
      nextId := 1;
      monthlyBudget := 0.0;
    }

    /** LoadData: keeps the state for a missing file, otherwise replaces it; returns whether the warning is shown. */
    method LoadData(f: Operations.StoredFile) returns (warned: bool)
      modifies this
      ensures (Data(), warned) == Operations.LoadData(old(Data()), f)
    {
      warned := false;
      match f {
        case Missing =>
          return;
        case Unreadable =>
          warned := true;
          expenses, nextId, monthlyBudget := [], 1, 0.0;
        case Stored(content) =>
          var loaded := content.GetOr(Default());
          expenses, nextId, monthlyBudget := loaded.expenses, loaded.nextId, loaded.monthlyBudget;
      }
    }

    /** AddExpense: `Expenses.Add(new Expense { Id = NextId++, ... })` unless the amount fails to parse. */
    method AddExpense(desc: Option<string>, cat: Option<string>, amount: Option<Money>,
                      dateText: Option<string>, parsedDate: Option<DateTime>, now: DateTime)
      returns (recorded: bool)
      modifies this
      ensures recorded <==> amount.Some?
      ensures Data() == Operations.AddExpense(old(Data()), desc, cat, amount, dateText, parsedDate, now)
      ensures old(Operations.IdsValid(Data())) ==> Operations.IdsValid(Data())
    {
      if amount.None? {
        return false;
      }
      var category := if IsNullOrWhiteSpace(cat) then Operations.DefaultCategory else cat.value;
      var date := if IsNullOrWhiteSpace(dateText) then now else parsedDate.GetOr(now);
      var id := nextId;
      nextId := nextId + 1;
      expenses := expenses + [Expense(id, desc.GetOr(Operations.DefaultDescription), amount.value, category, date)];
      recorded := true;
    }

    /** UpdateExpense: assigns the non-blank answers to the fields of the first expense with the id. */
    method UpdateExpense(idInput: Option<int>, desc: Option<string>, cat: Option<string>, amount: Option<Money>)
      returns (outcome: Operations.UpdateOutcome)
      modifies this
      ensures (Data(), outcome) == Operations.UpdateExpense(old(Data()), idInput, desc, cat, amount)
      ensures old(Operations.IdsValid(Data())) ==> Operations.IdsValid(Data())
    {
      if idInput.None? {
        return Operations.InvalidId;
      }
      var found := Operations.FindById(expenses, idInput.value);
      if found.None? {
        return Operations.NotFound;
      }
      var i := found.value;
      var exp := expenses[i];
      if !IsNullOrWhiteSpace(desc) {
        exp := exp.(description := desc.value);
      }
      if !IsNullOrWhiteSpace(cat) {
        exp := exp.(category := cat.value);
      }
      if amount.Some? {
        exp := exp.(amount := amount.value);
      }
      expenses := expenses[i := exp];
      outcome := Operations.Updated(i);
    }

    /** DeleteExpense: `RemoveAll(e => e.Id == id)`; returns how many were removed. */
    method DeleteExpense(idInput: Option<int>) returns (removed: nat)
      modifies this
      ensures (Data(), removed) == Operations.DeleteExpense(old(Data()), idInput)
      ensures removed > 0 <==> idInput.Some? && exists e :: e in old(expenses) && e.id == idInput.value
      ensures old(Operations.IdsValid(Data())) ==> Operations.IdsValid(Data())
    {
      if idInput.None? {
        return 0;
      }
      ghost var d := Data();
      Operations.DeleteReportsRemoval(d, idInput.value);
      if Operations.IdsValid(d) {
        Operations.DeletePreservesIds(d, idInput);
      }
      Operations.DeleteUnfolds(d, idInput.value);
      var kept := Where(expenses, Operations.IdIsNot(idInput.value));
      removed := |expenses| - |kept|;
      expenses := kept;
    }

    /** SetBudget: stores a parsed limit. */
    method SetBudget(budget: Option<Money>)
      modifies this
      ensures Data() == Operations.SetBudget(old(Data()), budget)
      ensures old(Operations.IdsValid(Data())) ==> Operations.IdsValid(Data())
    {
      if budget.Some? {
        monthlyBudget := budget.value;
      }
    }
  }
}
