/** The ledger's data: the `Expense` record, the `UserData` state and the total of a list of expenses. */
module Records {
  import opened Dates

  /** `decimal`: an exact amount; any sign is accepted. */
  type Money = real

  datatype Expense = Expense(id: int, description: string, amount: Money, category: string, date: DateTime)

  /** The whole persisted state: the expenses in insertion order, the id counter and the budget (0 = none). */
  datatype UserData = UserData(expenses: seq<Expense>, nextId: int, monthlyBudget: Money)

  /** `new UserData()`: no expenses, the counter at 1 and no budget. */
  function Default(): UserData {
    UserData([], 1, 0.0)
  }

  /** `Sum(e => e.Amount)`; 0 for no expenses. */
  function Sum(s: seq<Expense>): Money {
    if s == [] then 0.0 else s[0].amount + Sum(s[1..])
  }

  lemma {:induction false} SumAppend(a: seq<Expense>, b: seq<Expense>)
    ensures Sum(a + b) == Sum(a) + Sum(b)
  {
    if a == [] {
      assert a + b == b;
    } else {
      assert (a + b)[1..] == a[1..] + b;
      SumAppend(a[1..], b);
    }
  }

  /** The total does not depend on the order of the expenses. */
  lemma {:induction false} SumOfPermutation(a: seq<Expense>, b: seq<Expense>)
    requires multiset(a) == multiset(b)
    ensures Sum(a) == Sum(b)
  {
    if a != [] {
      var x := a[0];
      assert x in multiset(b);
      var k :| 0 <= k < |b| && b[k] == x;
      var rest := b[..k] + b[k + 1..];
      RemoveAt(b, k);
      assert multiset(a[1..]) == multiset(rest) by {
        assert a == [x] + a[1..];
        assert multiset(a[1..]) == multiset(a) - multiset{x};
      }
      SumOfPermutation(a[1..], rest);
    }
  }

  /** Taking out the element at `k` removes one copy of it and its amount from the total. */
  lemma {:induction false} RemoveAt(b: seq<Expense>, k: nat)
    requires k < |b|
    ensures multiset(b[..k] + b[k + 1..]) == multiset(b) - multiset{b[k]}
    ensures Sum(b) == b[k].amount + Sum(b[..k] + b[k + 1..])
  {
    var left, right := b[..k], b[k + 1..];
    assert b == left + ([b[k]] + right);
    assert multiset(b) == multiset(left) + multiset{b[k]} + multiset(right);
    SumAppend(left, [b[k]] + right);
    assert ([b[k]] + right)[1..] == right;
    SumAppend(left, right);
  }
}
