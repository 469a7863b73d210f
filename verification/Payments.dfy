/**
 The lists of a plan as they arrive in JSON and as the plan stores them. The schema accepts a list whose
 rows all carry a non-blank text id, a non-blank text name and a finite amount. Goal payments are stored
 with their texts trimmed, and a list the schema rejects is repaired row by row. Loan payments, custom
 expenses and bank balances are stored as sent, or not at all.
 */
module Payments {
  import opened Wrappers

  /** A JSON value where text is expected; `printed` is what String() makes of a value that is not text. */
  datatype RawText = Text(text: string) | OtherValue(printed: string)

  /** A JSON value where an amount is expected; `coerced` is what Number() makes of a value that is
      not a finite number, None when that is not finite either. */
  datatype RawAmount = Finite(value: int) | OtherAmount(coerced: Option<int>)

  datatype RawItem = Junk | Row(id: RawText, name: RawText, amount: RawAmount)

  datatype Payment = Payment(id: string, name: string, amount: int)

  predicate IsBlank(c: char) {
    c == ' ' || c == '\t' || c == '\n' || c == '\r'
  }

  function TrimStart(s: string): (r: string)
    ensures |r| <= |s|
    ensures r == "" || !IsBlank(r[0])
  {
    if s != "" && IsBlank(s[0]) then TrimStart(s[1..]) else s
  }

  function TrimEnd(s: string): (r: string)
    ensures |r| <= |s| && r == s[..|r|]
    ensures r == "" || !IsBlank(r[|r| - 1])
  {
    if s != "" && IsBlank(s[|s| - 1]) then TrimEnd(s[..|s| - 1]) else s
  }

  function Trim(s: string): string {
    TrimEnd(TrimStart(s))
  }

  lemma TrimIdempotent(s: string)
    ensures Trim(Trim(s)) == Trim(s)
  {
    var t := Trim(s);
    assert t != "" ==> t[0] == TrimStart(s)[0];
  }

  lemma {:induction false} TrimStartCuts(s: string) returns (p: string)
    ensures s == p + TrimStart(s) && forall c <- p :: c == ' ' || c == '\t' || c == '\n' || c == '\r'
  {
    p := "";
    if s != "" && IsBlank(s[0]) {
      p := TrimStartCuts(s[1..]);
      assert s == [s[0]] + s[1..];
      p := [s[0]] + p;
    }
  }

  lemma {:induction false} TrimEndCuts(s: string) returns (q: string)
    ensures s == TrimEnd(s) + q && forall c <- q :: c == ' ' || c == '\t' || c == '\n' || c == '\r'
  {
    q := "";
    if s != "" && IsBlank(s[|s| - 1]) {
      q := TrimEndCuts(s[..|s| - 1]);
      assert s == s[..|s| - 1] + [s[|s| - 1]];
      q := q + [s[|s| - 1]];
    }
  }

  /** Trimming cuts blanks off both ends, nothing else, and all of them. */
  lemma TrimMeans(s: string) returns (p: string, q: string)
    ensures s == p + Trim(s) + q
    ensures forall c <- p + q :: c == ' ' || c == '\t' || c == '\n' || c == '\r'
    ensures Trim(s) != "" ==> Trim(s)[0] !in [' ', '\t', '\n', '\r'] && Trim(s)[|Trim(s)| - 1] !in [' ', '\t', '\n', '\r']
  {
    p := TrimStartCuts(s);
    q := TrimEndCuts(TrimStart(s));
    assert Trim(s) != "" ==> Trim(s)[0] == TrimStart(s)[0];
  }

  function Printed(raw: RawText): string {
    match raw
    case Text(t) => t
    case OtherValue(p) => p
  }

  function Coerced(raw: RawAmount): Option<int> {
    match raw
    case Finite(v) => Some(v)
    case OtherAmount(c) => c
  }

  predicate MatchesSchema(item: RawItem) {
    item.Row? && item.id.Text? && Trim(item.id.text) != "" && item.name.Text? && Trim(item.name.text) != ""
    && item.amount.Finite?
  }

  function ParsedRow(item: RawItem): Payment
    requires MatchesSchema(item)
  {
    Payment(Trim(item.id.text), Trim(item.name.text), item.amount.value)
  }

  function Parsed(items: seq<RawItem>): (r: seq<Payment>)
    requires forall i :: 0 <= i < |items| ==> MatchesSchema(items[i])
  {
    seq(|items|, i requires 0 <= i < |items| => ParsedRow(items[i]))
  }

  /** The repair of one row: None drops it. */
  function Repaired(item: RawItem): Option<Payment> {
    if item.Junk? then None
    else
      var id, name, amount := Trim(Printed(item.id)), Trim(Printed(item.name)), Coerced(item.amount);
      if id == "" || amount.None? then None
      else Some(Payment(id, if name == "" then id else name, amount.value))
  }

  function Kept(item: RawItem): seq<Payment> {
    match Repaired(item)
    case Some(p) => [p]
    case None => []
  }

  function Repair(items: seq<RawItem>): seq<Payment> {
    if items == [] then [] else Kept(items[0]) + Repair(items[1..])
  }

  /** None stands for a value that is not an array. */
  function NormalizeGoalPayments(items: Option<seq<RawItem>>): seq<Payment> {
    match items
    case None => []
    case Some(rows) =>
      if forall i :: 0 <= i < |rows| ==> MatchesSchema(rows[i]) then Parsed(rows) else Repair(rows)
  }

  /** A stored payment: trimmed, non-blank id and name. */
  predicate Canonical(p: Payment) {
    Trim(p.id) == p.id && p.id != "" && Trim(p.name) == p.name && p.name != ""
  }

  function AsJson(payments: seq<Payment>): (r: seq<RawItem>)
    ensures |r| == |payments|
    ensures forall i :: 0 <= i < |r| ==>
              r[i] == Row(Text(payments[i].id), Text(payments[i].name), Finite(payments[i].amount))
  {
    if payments == [] then []
    else [Row(Text(payments[0].id), Text(payments[0].name), Finite(payments[0].amount))] + AsJson(payments[1..])
  }

  // ---------------------------------------------------------------------------------------------
  // All or nothing: loan payments, custom expenses, bank balances
  // ---------------------------------------------------------------------------------------------

  datatype RawExpense = JunkExpense | ExpenseRow(caption: RawText, amount: RawAmount)

  datatype Expense = Expense(name: string, amount: int)

  /** Balances by bank; None is a value that is not a finite number. */
  datatype RawBanks = NotARecord | Record(balances: map<string, Option<int>>)

  function NormalizeLoanPayments(items: Option<seq<RawItem>>): seq<Payment> {
    match items
    case None => []
    case Some(rows) =>
      if forall i :: 0 <= i < |rows| ==> MatchesSchema(rows[i])
      then seq(|rows|, i requires 0 <= i < |rows| => Payment(rows[i].id.text, rows[i].name.text, rows[i].amount.value))
      else []
  }

  predicate MatchesExpense(item: RawExpense) {
    item.ExpenseRow? && item.caption.Text? && Trim(item.caption.text) != "" && item.amount.Finite?
  }

  function NormalizeCustomExpenses(items: Option<seq<RawExpense>>): seq<Expense> {
    match items
    case None => []
    case Some(rows) =>
      if forall i :: 0 <= i < |rows| ==> MatchesExpense(rows[i])
      then seq(|rows|, i requires 0 <= i < |rows| => Expense(rows[i].caption.text, rows[i].amount.value))
      else []
  }

  function NormalizeBanks(raw: RawBanks): map<string, int> {
    if raw.Record? && forall bank <- raw.balances.Keys :: raw.balances[bank].Some?
    then map bank | bank in raw.balances :: raw.balances[bank].value
    else map[]
  }

  /** A stored loan payment: texts that are not blank, with whatever blanks they were sent with. */
  predicate Named(p: Payment) {
    Trim(p.id) != "" && Trim(p.name) != ""
  }

  predicate Labelled(e: Expense) {
    Trim(e.name) != ""
  }

  function ExpensesAsJson(expenses: seq<Expense>): (r: seq<RawExpense>)
    ensures |r| == |expenses|
    ensures forall i :: 0 <= i < |r| ==> r[i] == ExpenseRow(Text(expenses[i].name), Finite(expenses[i].amount))
  {
    if expenses == [] then []
    else [ExpenseRow(Text(expenses[0].name), Finite(expenses[0].amount))] + ExpensesAsJson(expenses[1..])
  }

  function BanksAsJson(banks: map<string, int>): RawBanks {
    Record(map bank | bank in banks :: Some(banks[bank]))
  }

  lemma NormalizeNamed(items: Option<seq<RawItem>>)
    ensures forall p <- NormalizeLoanPayments(items) :: Named(p)
  {
  }

  lemma NormalizeLabelled(items: Option<seq<RawExpense>>)
    ensures forall e <- NormalizeCustomExpenses(items) :: Labelled(e)
  {
  }

  /** What is stored of loans, expenses and banks reads back unchanged. */
  lemma ListsStored(loans: seq<Payment>, expenses: seq<Expense>, banks: map<string, int>)
    requires (forall p <- loans :: Named(p)) && (forall e <- expenses :: Labelled(e))
    ensures NormalizeLoanPayments(Some(AsJson(loans))) == loans
    ensures NormalizeCustomExpenses(Some(ExpensesAsJson(expenses))) == expenses
    ensures NormalizeBanks(BanksAsJson(banks)) == banks
  {
    hide Trim;
    assert forall i :: 0 <= i < |loans| ==> loans[i] in loans;
    assert forall i :: 0 <= i < |expenses| ==> expenses[i] in expenses;
    assert NormalizeLoanPayments(Some(AsJson(loans))) == loans;
    assert NormalizeCustomExpenses(Some(ExpensesAsJson(expenses))) == expenses;
  }

  // ---------------------------------------------------------------------------------------------
  // Goal payments
  // ---------------------------------------------------------------------------------------------

  lemma RepairCanonical(items: seq<RawItem>)
    ensures forall p <- Repair(items) :: Canonical(p)
  {
    if items != [] {
      RepairCanonical(items[1..]);
      if items[0].Row? {
        TrimIdempotent(Printed(items[0].id));
        TrimIdempotent(Printed(items[0].name));
      }
    }
  }

  /** Whatever arrives, what is stored is canonical. */
  lemma NormalizeCanonical(items: Option<seq<RawItem>>)
    ensures forall p <- NormalizeGoalPayments(items) :: Canonical(p)
  {
    if items.Some? {
      RepairCanonical(items.value);
      if forall i :: 0 <= i < |items.value| ==> MatchesSchema(items.value[i]) {
        forall i | 0 <= i < |items.value| ensures Canonical(Parsed(items.value)[i]) {
          TrimIdempotent(items.value[i].id.text);
          TrimIdempotent(items.value[i].name.text);
        }
      }
    }
  }

  /** Reading a stored list back through the normaliser, as the dashboard does, changes nothing. */
  lemma NormalizeStored(payments: seq<Payment>)
    requires forall p <- payments :: Canonical(p)
    ensures NormalizeGoalPayments(Some(AsJson(payments))) == payments
  {
    var items := AsJson(payments);
    forall i | 0 <= i < |items| ensures MatchesSchema(items[i]) {
      assert payments[i] in payments;
    }
    forall i | 0 <= i < |items| ensures Parsed(items)[i] == payments[i] {
      assert payments[i] in payments;
    }
  }

  /** What the repair makes of one row, when the list is not as the schema wants it: a row without a usable
      id or amount is dropped, a blank name becomes the id, and the texts are trimmed. */
  lemma RepairOne(item: RawItem)
    requires !MatchesSchema(item)
    ensures item.Junk? ==> NormalizeGoalPayments(Some([item])) == []
    ensures item.Row? ==>
              var id := Trim(if item.id.Text? then item.id.text else item.id.printed);
              var name := Trim(if item.name.Text? then item.name.text else item.name.printed);
              var amount := if item.amount.Finite? then Some(item.amount.value) else item.amount.coerced;
              NormalizeGoalPayments(Some([item])) ==
              if id == "" || amount.None? then [] else [Payment(id, if name == "" then id else name, amount.value)]
  {
    hide Trim, MatchesSchema;
    var rows := [item];
    assert !MatchesSchema(rows[0]);
    assert NormalizeGoalPayments(Some(rows)) == Repair(rows) == Kept(rows[0]) + Repair(rows[1..]);
    assert rows[1..] == [];
  }

  lemma {:induction false} RepairAppend(a: seq<RawItem>, b: seq<RawItem>)
    ensures Repair(a + b) == Repair(a) + Repair(b)
  {
    hide Kept;
    if a == [] {
      assert a + b == b;
    } else {
      assert (a + b)[1..] == a[1..] + b;
      RepairAppend(a[1..], b);
    }
  }

  /** Row by row: a list the schema rejects is repaired one row after the other, in order. */
  lemma RepairEach(a: seq<RawItem>, item: RawItem, b: seq<RawItem>)
    requires !MatchesSchema(item)
    ensures NormalizeGoalPayments(Some(a + [item] + b)) == Repair(a) + NormalizeGoalPayments(Some([item])) + Repair(b)
  {
    hide Trim, Kept;
    var all := a + [item] + b;
    assert all[|a|] == item && [item][0] == item;
    assert !(forall i :: 0 <= i < |all| ==> MatchesSchema(all[i]));
    assert !(forall i :: 0 <= i < |[item]| ==> MatchesSchema([item][i]));
    RepairAppend(a + [item], b);
    RepairAppend(a, [item]);
  }

  /** A row the schema accepts is stored with its texts trimmed, whether its list is accepted or repaired. */
  lemma AcceptedRowStored(item: RawItem)
    requires item.Row? && item.id.Text? && item.name.Text? && item.amount.Finite?
    requires Trim(item.id.text) != "" && Trim(item.name.text) != ""
    ensures var p := Payment(Trim(item.id.text), Trim(item.name.text), item.amount.value);
            Repair([item]) == [p] && NormalizeGoalPayments(Some([item])) == [p]
  {
    hide Trim;
    assert [item][1..] == [];
    assert Parsed([item]) == [ParsedRow(item)];
  }

  /** Loan payments are stored as sent when every row carries a non-blank text id and name and a finite
      amount, and not at all otherwise. */
  lemma LoansAllOrNothing(rows: seq<RawItem>)
    ensures (forall row <- rows :: row.Row? && row.id.Text? && row.name.Text? && row.amount.Finite?
                                   && Trim(row.id.text) != "" && Trim(row.name.text) != "") ==>
              && |NormalizeLoanPayments(Some(rows))| == |rows|
              && forall i :: 0 <= i < |rows| ==>
                  NormalizeLoanPayments(Some(rows))[i] == Payment(rows[i].id.text, rows[i].name.text, rows[i].amount.value)
    ensures (exists row <- rows :: !(row.Row? && row.id.Text? && row.name.Text? && row.amount.Finite?
                                     && Trim(row.id.text) != "" && Trim(row.name.text) != "")) ==>
              NormalizeLoanPayments(Some(rows)) == []
  {
    hide Trim;
    assert forall row <- rows :: exists i :: 0 <= i < |rows| && rows[i] == row;
    assert forall i :: 0 <= i < |rows| ==> rows[i] in rows;
  }

  /** Custom expenses likewise, with a non-blank text label and a finite amount. */
  lemma ExpensesAllOrNothing(rows: seq<RawExpense>)
    ensures var usable := forall i :: 0 <= i < |rows| ==>
                            && rows[i].ExpenseRow? && rows[i].caption.Text? && rows[i].amount.Finite?
                            && Trim(rows[i].caption.text) != "";
            && |NormalizeCustomExpenses(Some(rows))| == (if usable then |rows| else 0)
            && (usable ==> forall i :: 0 <= i < |rows| ==>
                  NormalizeCustomExpenses(Some(rows))[i] == Expense(rows[i].caption.text, rows[i].amount.value))
  {
    hide Trim;
    if forall i :: 0 <= i < |rows| ==> MatchesExpense(rows[i]) {
    } else {
      var i :| 0 <= i < |rows| && !MatchesExpense(rows[i]);
      assert !(rows[i].ExpenseRow? && rows[i].caption.Text? && rows[i].amount.Finite? && Trim(rows[i].caption.text) != "");
    }
  }

  /** Bank balances likewise: one entry per bank when every balance is a finite number. */
  lemma BanksAllOrNothing(balances: map<string, Option<int>>)
    ensures var usable := forall bank <- balances.Keys :: balances[bank].Some?;
            && NormalizeBanks(Record(balances)).Keys == (if usable then balances.Keys else {})
            && (usable ==> forall bank <- balances.Keys :: balances[bank] == Some(NormalizeBanks(Record(balances))[bank]))
  {
  }

  lemma RepairNothing()
    ensures Repair([]) == []
  {
  }

  lemma RepairSnoc(items: seq<RawItem>, item: RawItem)
    ensures Repair(items + [item]) == Repair(items) + Kept(item)
  {
    hide Kept;
    if items == [] {
      assert [] + [item] == [item] && [item][1..] == [];
    } else {
      assert (items + [item])[1..] == items[1..] + [item];
      RepairSnoc(items[1..], item);
    }
  }

  /** The loop of the service: one schema check, then a repair pass that pushes onto a list. */
  method NormalizeList(items: Option<seq<RawItem>>) returns (payments: seq<Payment>)
    ensures payments == NormalizeGoalPayments(items)
    ensures forall p <- payments :: Canonical(p)
  {
    hide Trim, Canonical, Repair, Parsed;
    RepairNothing();
    NormalizeCanonical(items);
    if items.None? {
      return [];
    }
    var rows := items.value;
    if forall i :: 0 <= i < |rows| ==> MatchesSchema(rows[i]) {
      return Parsed(rows);
    }
    payments := [];
    for i := 0 to |rows|
      invariant payments == Repair(rows[..i])
    {
      var item := rows[i];
      assert rows[..i + 1] == rows[..i] + [item];
      RepairSnoc(rows[..i], item);
      if item.Junk? {
        continue;
      }
      var id, name, amount := Trim(Printed(item.id)), Trim(Printed(item.name)), Coerced(item.amount);
      if id == "" || amount.None? {
        continue;
      }
      payments := payments + [Payment(id, if name == "" then id else name, amount.value)];
    }
    assert rows[..|rows|] == rows;
  }
}
