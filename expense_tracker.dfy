/**
 * The local expense form of Finance/src/pages/expense.tsx: the component's
 * state (the list of entered expenses and the four input fields), the
 * `addExpense` guard and update, and `getTotalExpense`.
 */
module ExpenseTracker {

  /** One entered expense; `id` is the clock reading when it was added. */
  datatype LocalExpense = LocalExpense(id: int, amount: int, category: string, description: string, date: string)

  /** `expenses.reduce((total, expense) => total + expense.amount, 0)`, folding from the left. */
  function Total(expenses: seq<LocalExpense>): int
    decreases |expenses|
  {
    if expenses == [] then 0 else Total(expenses[..|expenses| - 1]) + expenses[|expenses| - 1].amount
  }

  /** The sum taken from the right, as a reference definition. */
  function SumFromRight(expenses: seq<LocalExpense>): int
    decreases |expenses|
  {
    if expenses == [] then 0 else expenses[0].amount + SumFromRight(expenses[1..])
  }

  /** The total after one more entry is the old total plus its amount. */
  lemma TotalAppend(expenses: seq<LocalExpense>, e: LocalExpense)
    ensures Total(expenses + [e]) == Total(expenses) + e.amount
  {
    assert (expenses + [e])[..|expenses + [e]| - 1] == expenses;
  }

  lemma {:induction false} SumFromRightAppend(expenses: seq<LocalExpense>, e: LocalExpense)
    ensures SumFromRight(expenses + [e]) == SumFromRight(expenses) + e.amount
    decreases |expenses|
  {
    if expenses != [] {
      assert (expenses + [e])[1..] == expenses[1..] + [e];
      SumFromRightAppend(expenses[1..], e);
    }
  }

  /** The total is the sum of the amounts, whichever way it is folded; 0 for no expenses. */
  lemma {:induction false} TotalIsSum(expenses: seq<LocalExpense>)
    ensures Total(expenses) == SumFromRight(expenses)
    decreases |expenses|
  {
    if expenses != [] {
      var init := expenses[..|expenses| - 1];
      TotalIsSum(init);
      assert expenses == init + [expenses[|expenses| - 1]];
      SumFromRightAppend(init, expenses[|expenses| - 1]);
    }
  }

  /** The component: its list of expenses and the contents of the four inputs. */
  class Tracker {
    var expenses: seq<LocalExpense>
    var amount: string
    var category: string
    var description: string
    var date: string

    /** `useState([])` and `useState("")` four times. */
    constructor ()
      ensures expenses == [] && amount == [] && category == [] && description == [] && date == []
    {
      expenses := [];
      amount := [];
      category := [];
      description := [];
      date := [];
    }

    /** Every input holds something. */
    predicate Filled()
      reads this
    {
      amount != [] && category != [] && description != [] && date != []
    }

    /** `getTotalExpense()`. */
    function TotalExpense(): (t: int)
      reads this
      ensures t == SumFromRight(expenses)
      ensures expenses == [] ==> t == 0
    {
      TotalIsSum(expenses);
      Total(expenses)
    }

    /**
     * `addExpense()` at clock reading `now`, with `parsedAmount` standing for
     * `parseFloat(amount)`: with an empty input nothing changes (the page
     * only alerts); otherwise the entry is appended and the inputs cleared.
     */
    method AddExpense(now: int, parsedAmount: int) returns (added: bool)
      modifies this
      ensures added == old(Filled())
      ensures !added ==> (expenses == old(expenses) && amount == old(amount) && category == old(category)
                          && description == old(description) && date == old(date))
      ensures added ==>
        && expenses == old(expenses) + [LocalExpense(now, parsedAmount, old(category), old(description), old(date))]
        && amount == [] && category == [] && description == [] && date == []
      ensures added ==> Total(expenses) == Total(old(expenses)) + parsedAmount
    {
      added := Filled();
      if added {
        var entry := LocalExpense(now, parsedAmount, category, description, date);
        TotalAppend(expenses, entry);
        expenses := expenses + [entry];
        amount, category, description, date := [], [], [], [];
      }
    }
  }
}
