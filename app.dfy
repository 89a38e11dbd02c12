/** The expense page's state and its three handlers. Each network call is
    replaced by the outcome it had (`ok` and the data it returned) and the
    confirmation dialog by the user's answer, so that every handler is a
    deterministic transition on the page's state slots. */
module ExpenseApp {
  import opened ExpenseViews

  /** The body of a creation request: the draft as it was when submitted. */
  datatype Draft = Draft(description: string, amount: string, category: string)

  /** What submitting the form came to. */
  datatype AddOutcome =
    | Rejected            // a draft field was empty: no request was sent
    | Failed(sent: Draft) // the creation request failed
    | Created(sent: Draft) // the creation request succeeded and a reload was issued

  datatype Option<T> = None | Some(value: T)

  /** The draft fields the local presence check demands: both non-empty. */
  predicate DraftComplete(description: string, amount: string)
  {
    description != "" && amount != ""
  }

  class ExpenseView {
    var expenses: seq<Expense>
    var description: string
    var amount: string
    var category: string
    var loading: bool
    var selectedFilterCategory: string
    var selectedFilterDate: string

    /** The initial value of every state slot. */
    constructor ()
      ensures expenses == [] && description == "" && amount == "" && category == "Food"
      ensures !loading && selectedFilterCategory == All && selectedFilterDate == AnyDate
    {
      expenses := [];
      description := "";
      amount := "";
      category := "Food";
      loading := false;
      selectedFilterCategory := All;
      selectedFilterDate := AnyDate;
    }

    /** Reload the cache: a successful fetch replaces it wholesale with what the
        service returned, a failed one leaves it as it was. Nothing else changes. */
    method FetchExpenses(ok: bool, fetched: seq<Expense>)
      modifies this
      ensures expenses == if ok then fetched else old(expenses)
      ensures description == old(description) && amount == old(amount) && category == old(category)
      ensures loading == old(loading)
      ensures selectedFilterCategory == old(selectedFilterCategory) && selectedFilterDate == old(selectedFilterDate)
    {
      if ok {
        expenses := fetched;
      }
    }

    /** Submit the form. With an empty description or amount nothing is sent and
        nothing changes. Otherwise the draft is sent; on success the description
        and amount are cleared (the category is kept) and a reload follows, with
        outcome `reloadOk` and data `reloaded`; on failure the draft is kept for
        a retry. Either way the page is idle again afterwards. */
    method AddExpense(postOk: bool, reloadOk: bool, reloaded: seq<Expense>) returns (outcome: AddOutcome)
      modifies this
      ensures !DraftComplete(old(description), old(amount)) ==>
                outcome == Rejected && expenses == old(expenses) && loading == old(loading) &&
                description == old(description) && amount == old(amount)
      ensures DraftComplete(old(description), old(amount)) ==>
                outcome == (if postOk then Created(Draft(old(description), old(amount), old(category)))
                            else Failed(Draft(old(description), old(amount), old(category)))) &&
                !loading
      ensures postOk && DraftComplete(old(description), old(amount)) ==>
                description == "" && amount == "" && expenses == (if reloadOk then reloaded else old(expenses))
      ensures !postOk ==> description == old(description) && amount == old(amount) && expenses == old(expenses)
      ensures category == old(category)
      ensures selectedFilterCategory == old(selectedFilterCategory) && selectedFilterDate == old(selectedFilterDate)
    {
      if !DraftComplete(description, amount) {
        return Rejected;
      }
      loading := true;
      var sent := Draft(description, amount, category);
      if postOk {
        description := "";
        amount := "";
        FetchExpenses(reloadOk, reloaded);
        outcome := Created(sent);
      } else {
        outcome := Failed(sent);
      }
      loading := false;
    }

    /** Delete the record with identifier `id`. Unless the user confirms, no
        request is sent; a confirmed deletion that succeeds is followed by a
        reload, with outcome `reloadOk` and data `reloaded`. Returns the
        identifier a deletion request was sent for, if any. Only the cache can change. */
    method DeleteExpense(id: int, confirmed: bool, deleteOk: bool, reloadOk: bool, reloaded: seq<Expense>)
        returns (sent: Option<int>)
      modifies this
      ensures sent == if confirmed then Some(id) else None
      ensures expenses == if confirmed && deleteOk && reloadOk then reloaded else old(expenses)
      ensures description == old(description) && amount == old(amount) && category == old(category)
      ensures loading == old(loading)
      ensures selectedFilterCategory == old(selectedFilterCategory) && selectedFilterDate == old(selectedFilterDate)
    {
      if !confirmed {
        return None;
      }
      sent := Some(id);
      if deleteOk {
        FetchExpenses(reloadOk, reloaded);
      }
    }
  }

  /** Worked cases checked against the contracts above: a two-record cache
      filtered down to one category, a rejected submission, an accepted one
      with its reload, amounts "0" and "-5" that the presence check lets
      through, and an unconfirmed deletion. */
  method Scenarios()
  {
    var coffee := Expense(1, "Coffee", 350, "Food", "2024-01-01");
    var bus := Expense(2, "Bus", 200, "Transport", "2024-01-02");
    var fare := Expense(3, "Fare", 500, "Transport", "2024-01-03");

    var page := new ExpenseView();
    page.FetchExpenses(true, [coffee, bus]);
    assert page.expenses == [coffee, bus];
    assert [coffee, bus][1..] == [bus] && [bus][1..] == [];
    assert Filter([coffee, bus], ByCategory("Food")) == [coffee];
    assert Filter([coffee], ByDate(AnyDate)) == [coffee];
    assert [coffee][..0] == [];
    assert Total([coffee]) == 350;
    page.selectedFilterCategory := "Food";
    var cf, df := page.selectedFilterCategory, page.selectedFilterDate;
    assert df == AnyDate;
    assert FilteredExpenses(page.expenses, cf, df) == [coffee];
    assert FilteredTotal(page.expenses, cf, df) == 350;
    assert ShowsTotalNote(page.expenses, cf, df);

    page.amount := "5";
    var outcome := page.AddExpense(true, true, [coffee, bus, fare]);
    assert outcome == Rejected && page.expenses == [coffee, bus] && page.amount == "5";

    page.description := "Fare";
    outcome := page.AddExpense(true, true, [coffee, bus, fare]);
    assert outcome == Created(Draft("Fare", "5", "Food"));
    assert page.expenses == [coffee, bus, fare] && page.description == "" && page.amount == "";
    assert !page.loading;

    page.description := "Tea";
    page.amount := "0";
    outcome := page.AddExpense(false, true, []);
    assert outcome == Failed(Draft("Tea", "0", "Food"));
    assert page.description == "Tea" && page.amount == "0" && !page.loading;

    page.amount := "-5";
    outcome := page.AddExpense(false, true, []);
    assert outcome == Failed(Draft("Tea", "-5", "Food"));

    var sent := page.DeleteExpense(3, false, true, true, [coffee, bus]);
    assert sent == None && page.expenses == [coffee, bus, fare];
  }
}
