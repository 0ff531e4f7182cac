/** The add/edit modal of the dashboard: its field state, the transitions `openModal`,
    `closeModal` and the category effect, and `handleSubmit`'s validation and record building. */
module ExpenseForm {
  import opened Wrappers
  import Catalog
  import Aggregation

  // ---- What `trim`, `!` and `parseFloat` decide ----

  /** The WhiteSpace and LineTerminator characters of ECMA-262, which `trim` and `parseFloat` skip. */
  predicate IsJsSpace(c: char) {
    || ('\t' <= c <= '\r')  // tab, line feed, vertical tab, form feed, carriage return
    || c == ' ' || c == '\U{00A0}' || c == '\U{1680}'
    || ('\U{2000}' <= c <= '\U{200A}')
    || c == '\U{2028}' || c == '\U{2029}' || c == '\U{202F}' || c == '\U{205F}' || c == '\U{3000}' || c == '\U{FEFF}'
  }

  /** `s` without its leading white space: the longest suffix that does not start with a space. */
  function TrimStart(s: string): (t: string)
    ensures |t| <= |s| && t == s[|s| - |t|..]
    ensures forall i | 0 <= i < |s| - |t| :: IsJsSpace(s[i])
    ensures t != [] ==> !IsJsSpace(t[0])
  {
    if s != [] && IsJsSpace(s[0]) then TrimStart(s[1..]) else s
  }

  /** `s` without its trailing white space: the longest prefix that does not end with a space. */
  function TrimEnd(s: string): (t: string)
    ensures |t| <= |s| && t == s[..|t|]
    ensures forall i | |t| <= i < |s| :: IsJsSpace(s[i])
    ensures t != [] ==> !IsJsSpace(t[|t| - 1])
  {
    if s != [] && IsJsSpace(s[|s| - 1]) then TrimEnd(s[..|s| - 1]) else s
  }

  /** `s.trim()`. */
  function Trim(s: string): (t: string)
    ensures |t| <= |s|
    ensures t != [] ==> !IsJsSpace(t[0]) && !IsJsSpace(t[|t| - 1])
    ensures (forall i | 0 <= i < |s| :: !IsJsSpace(s[i])) ==> t == s
  {
    TrimEnd(TrimStart(s))
  }

  /** `title.trim()` is empty exactly when every character of the title is white space. */
  lemma TrimEmptyIffBlank(s: string)
    ensures Trim(s) == "" <==> forall i | 0 <= i < |s| :: IsJsSpace(s[i])
  {
    var t := TrimStart(s);
    if t != [] {
      assert t[0] == s[|s| - |t|];
    }
  }

  predicate IsDigit(c: char) {
    '0' <= c <= '9'
  }

  /** `!isNaN(parseFloat(s))`: after leading white space and an optional sign, `s` starts with
      `Infinity`, with a digit, or with a point followed by a digit. */
  predicate ParsesAsNumber(s: string)
    ensures ParsesAsNumber(s) ==> Trim(s) != ""
  {
    var t := TrimStart(s);
    var u := if |t| > 0 && (t[0] == '+' || t[0] == '-') then t[1..] else t;
    || "Infinity" <= u
    || (|u| > 0 && IsDigit(u[0]))
    || (|u| > 1 && u[0] == '.' && IsDigit(u[1]))
  }

  /** The `amount` state: the text the user typed, or the stored number `openModal` copied in. */
  datatype AmountField = Text(text: string) | Number(value: real)

  /** Neither `!amount` nor `isNaN(parseFloat(amount))` holds. */
  predicate AmountAccepted(a: AmountField)
    ensures a == Text("") ==> !AmountAccepted(a)
    ensures a.Text? && AmountAccepted(a) ==> Trim(a.text) != ""
  {
    match a
    case Text(s) => s != "" && ParsesAsNumber(s)
    case Number(x) => x != 0.0
  }

  /** The guard of `handleSubmit`: a title that is not blank and an amount that is present and numeric. */
  predicate SubmitAccepts(title: string, amount: AmountField)
    ensures SubmitAccepts(title, amount) <==>
      (exists i | 0 <= i < |title| :: !IsJsSpace(title[i])) && AmountAccepted(amount)
  {
    TrimEmptyIffBlank(title);
    Trim(title) != "" && AmountAccepted(amount)
  }

  /** A blank title is rejected whatever the amount. */
  lemma BlankTitleRejected(amount: AmountField)
    ensures !SubmitAccepts("", amount)
    ensures !SubmitAccepts("   ", amount)
  {
    TrimEmptyIffBlank("   ");
  }

  /** A title with a visible character and an amount typed as a number pass. */
  lemma AcceptedExample()
    ensures SubmitAccepts("Coffee", Text("10"))
  {
    TrimEmptyIffBlank("Coffee");
    assert "Coffee"[0] == 'C' && !IsJsSpace('C');
    assert !IsJsSpace('1');
    assert TrimStart("10") == "10";
  }

  /** Leading white space and a sign before a fraction are accepted, and so is `Infinity`, as
      `parseFloat` reads them. */
  lemma SignedFractionExample()
    ensures ParsesAsNumber(" -.5")
    ensures ParsesAsNumber("Infinity")
  {
    assert !IsJsSpace('-') && TrimStart("-.5") == "-.5";
    assert TrimStart(" -.5") == "-.5";
    assert !IsJsSpace('I') && TrimStart("Infinity") == "Infinity";
  }

  /** Text that is not a number, or no amount at all, is rejected. */
  lemma RejectedAmountExamples()
    ensures !AmountAccepted(Text("abc"))
    ensures !AmountAccepted(Text(""))
  {
    assert !IsJsSpace('a');
    assert TrimStart("abc") == "abc";
  }

  // ---- The form state ----

  /** The object `openModal` receives: an expense row as fetched, whose properties may be absent. */
  datatype ExpenseObject = ExpenseObject(
    id: Option<nat>,
    title: Option<string>,
    amount: Option<real>,
    category: Option<string>,
    subcategory: Option<string>,
    description: Option<string>,
    createdAt: Option<string>,
    recurringType: Option<string>,
    modeOfPayment: Option<string>)

  /** `value || ''` on a string property. */
  function OrEmpty(value: Option<string>): string {
    value.GetOr("")
  }

  /** Every piece of React state the modal reads or writes. */
  datatype FormState = FormState(
    showModal: bool,
    editExpense: Option<ExpenseObject>,
    title: string,
    amount: AmountField,
    category: string,
    subcategory: string,
    description: string,
    createdAt: string,
    recurringType: string,
    modeOfPayment: string,
    subcategories: seq<string>)

  /** The `useState` initial values. */
  const Initial: FormState := FormState(false, None, "", Text(""), "", "", "", "", "", "", [])

  /** `openModal(expense)`: copy an expense in, or reset for a new one dated today. */
  function Opened(s: FormState, expense: Option<ExpenseObject>, nowIso: string): (r: FormState)
    ensures r.showModal && r.editExpense == expense && r.subcategories == s.subcategories
  {
    match expense
    case Some(e) =>
      FormState(true, expense, OrEmpty(e.title),
                if e.amount.Some? && e.amount.value != 0.0 then Number(e.amount.value) else Text(""),
                OrEmpty(e.category), OrEmpty(e.subcategory), OrEmpty(e.description),
                if e.createdAt.Some? && e.createdAt.value != "" then Aggregation.Prefix(e.createdAt.value, 10) else "",
                OrEmpty(e.recurringType), OrEmpty(e.modeOfPayment), s.subcategories)
    case None =>
      FormState(true, None, "", Text(""), "", "", "", Aggregation.Prefix(nowIso, 10), "", "", s.subcategories)
  }

  /** `closeModal()`: hide the modal and clear the text fields and the edited expense; the date,
      the recurrence and the payment mode stay as they were. */
  function Closed(s: FormState): (r: FormState)
    ensures !r.showModal && r.editExpense.None?
    ensures r.createdAt == s.createdAt && r.recurringType == s.recurringType && r.modeOfPayment == s.modeOfPayment
  {
    s.(showModal := false, title := "", amount := Text(""), category := "", subcategory := "",
       description := "", editExpense := None)
  }

  /** The category effect applied to the form's `subcategories` and `subcategory`; an edited
      expense is whatever `editExpense` holds. */
  function CategoryChanged(s: FormState, categories: seq<Catalog.Category>, fetched: Option<seq<string>>): (r: FormState)
    ensures r == s.(subcategories := r.subcategories, subcategory := r.subcategory)
    ensures r.subcategory == "" || r.subcategory == s.subcategory
    ensures s.category == "" ==> r.subcategories == [] && r.subcategory == ""
    ensures s.category != "" && Catalog.FindByName(categories, s.category).Some? ==>
      r.subcategories == fetched.GetOr([]) && (s.editExpense.None? ==> r.subcategory == "")
  {
    var next := Catalog.AfterCategoryChange(s.category, categories, s.editExpense.Some?, fetched,
                                            Catalog.Selection(s.subcategories, s.subcategory));
    s.(subcategories := next.options, subcategory := next.subcategory)
  }

  // ---- What `handleSubmit` writes ----

  /** The columns both the insert and the update write. */
  datatype ExpenseFields = ExpenseFields(
    title: string,
    amount: AmountField,
    category: string,
    subcategory: string,
    description: string,
    createdAt: string,
    recurringType: string,
    isRecurring: bool)

  /** An update of the row `editExpense.id` (absent when the edited object has no id), or an
      insert of a new row for the user. */
  datatype ExpenseWrite = Update(id: Option<nat>, fields: ExpenseFields) | Insert(fields: ExpenseFields, userId: UserId)

  /** The record `handleSubmit` builds from the form. */
  function WriteFor(s: FormState, user: UserId): (w: ExpenseWrite)
    ensures w.Update? <==> s.editExpense.Some?
    ensures w.Update? ==> w.id == s.editExpense.value.id
    ensures w.Insert? ==> w.userId == user
    ensures w.fields.isRecurring <==> s.recurringType != ""
    ensures w.fields.title == s.title && w.fields.amount == s.amount && w.fields.createdAt == s.createdAt
    ensures w.fields.category == s.category && w.fields.subcategory == s.subcategory
    ensures w.fields.description == s.description && w.fields.recurringType == s.recurringType
  {
    var fields := ExpenseFields(s.title, s.amount, s.category, s.subcategory, s.description,
                                s.createdAt, s.recurringType, s.recurringType != "");
    if s.editExpense.Some? then Update(s.editExpense.value.id, fields) else Insert(fields, user)
  }

  /** What a submission did: rejected by validation before any call, stopped for want of a user,
      written with an error reply, or saved. */
  datatype SubmitOutcome = Rejected | NoUser | Failed(write: ExpenseWrite) | Saved(write: ExpenseWrite)

  /** `handleSubmit` given the signed-in user (if any) and whether the store answers the write
      with an error: the outcome and the form state afterwards. */
  function Submitted(s: FormState, user: Option<UserId>, writeFails: bool): (r: (SubmitOutcome, FormState))
    ensures r.0 == Rejected <==> !SubmitAccepts(s.title, s.amount)
    ensures r.0 == NoUser <==> SubmitAccepts(s.title, s.amount) && user.None?
    ensures r.0.Failed? || r.0.Saved? ==> user.Some? && r.0.write == WriteFor(s, user.value)
    ensures r.0.Failed? <==> SubmitAccepts(s.title, s.amount) && user.Some? && writeFails
    ensures r.1 == if r.0.Saved? then Closed(s) else s
  {
    if !SubmitAccepts(s.title, s.amount) then (Rejected, s)
    else if user.None? then (NoUser, s)
    else if writeFails then (Failed(WriteFor(s, user.value)), s)
    else (Saved(WriteFor(s, user.value)), Closed(s))
  }

  /** Validation decides before any store call: the submission is rejected, with the form left as
      it was, exactly when the title is blank or the amount is missing or not numeric. */
  lemma {:induction false} RejectedIffInvalid(s: FormState, user: Option<UserId>, writeFails: bool)
    ensures Submitted(s, user, writeFails).0 == Rejected <==>
      (forall i | 0 <= i < |s.title| :: IsJsSpace(s.title[i])) || !AmountAccepted(s.amount)
    ensures Submitted(s, user, writeFails).0 == Rejected ==> Submitted(s, user, writeFails).1 == s
  {
    TrimEmptyIffBlank(s.title);
  }

  /** Whichever of insert and update is issued, `is_recurring` is set exactly when a recurrence is chosen. */
  lemma RecurringFlagOnEveryWrite(s: FormState, user: Option<UserId>, writeFails: bool)
    requires Submitted(s, user, writeFails).0.Failed? || Submitted(s, user, writeFails).0.Saved?
    ensures Submitted(s, user, writeFails).0.write.fields.isRecurring <==> s.recurringType != ""
    ensures Submitted(s, user, writeFails).0.write.fields.category == s.category
    ensures Submitted(s, user, writeFails).0.write.fields.subcategory == s.subcategory
  {
  }

  /** A failed write leaves every field in place for a retry; a saved one closes the modal. */
  lemma SubmitKeepsFormOnError(s: FormState, user: UserId)
    requires SubmitAccepts(s.title, s.amount)
    ensures Submitted(s, Some(user), true) == (Failed(WriteFor(s, user)), s)
    ensures Submitted(s, Some(user), false) == (Saved(WriteFor(s, user)), Closed(s))
  {
  }

  /** The payment mode never reaches the store: neither the insert nor the update carries it. */
  lemma PaymentModeNotWritten(s: FormState, mode: string, user: Option<UserId>, writeFails: bool)
    ensures Submitted(s.(modeOfPayment := mode), user, writeFails).0 == Submitted(s, user, writeFails).0
  {
    var t := s.(modeOfPayment := mode);
    if user.Some? {
      assert WriteFor(t, user.value) == WriteFor(s, user.value);
    }
  }

  /** Opening an expense for edit and saving it unchanged writes back the fields it was opened with:
      an update of its row, the date cut to its first ten characters. */
  lemma {:induction false} EditRoundTrip(s: FormState, e: ExpenseObject, nowIso: string, user: UserId)
    requires e.id.Some? && e.title.Some? && e.amount.Some? && e.amount.value != 0.0
    requires exists i | 0 <= i < |e.title.value| :: !IsJsSpace(e.title.value[i])
    ensures Submitted(Opened(s, Some(e), nowIso), Some(user), false).0 ==
      Saved(Update(e.id, ExpenseFields(e.title.value, Number(e.amount.value), OrEmpty(e.category),
                                       OrEmpty(e.subcategory), OrEmpty(e.description),
                                       if e.createdAt.Some? then Aggregation.Prefix(e.createdAt.value, 10) else "",
                                       OrEmpty(e.recurringType), OrEmpty(e.recurringType) != "")))
  {
    var loaded := Opened(s, Some(e), nowIso);
    assert loaded.title == e.title.value && loaded.amount == Number(e.amount.value);
    TrimEmptyIffBlank(e.title.value);
    assert SubmitAccepts(loaded.title, loaded.amount);
    assert loaded.createdAt == if e.createdAt.Some? then Aggregation.Prefix(e.createdAt.value, 10) else "";
  }

  /** Opening the modal for a new expense resets every field, dates it today, and a valid
      submission then inserts a new row for the user. */
  lemma {:induction false} CreateInserts(s: FormState, nowIso: string, title: string, amount: string, user: UserId)
    requires exists i | 0 <= i < |title| :: !IsJsSpace(title[i])
    requires amount != "" && ParsesAsNumber(amount)
    ensures Opened(s, None, nowIso) ==
      FormState(true, None, "", Text(""), "", "", "", Aggregation.Prefix(nowIso, 10), "", "", s.subcategories)
    ensures
      var typed := Opened(s, None, nowIso).(title := title, amount := Text(amount));
      Submitted(typed, Some(user), false).0 ==
        Saved(Insert(ExpenseFields(title, Text(amount), "", "", "", Aggregation.Prefix(nowIso, 10), "", false), user))
  {
    TrimEmptyIffBlank(title);
  }

  // ---- The Add Expense button ----

  /** The fields filled in before a submission: the title, the amount, the category, the
      subcategory and the payment mode, all of which the form's `required` inputs ask for. */
  function FilledIn(s: FormState, title: string, amount: string, category: string, subcategory: string, mode: string): FormState {
    s.(title := title, amount := Text(amount), category := category, subcategory := subcategory, modeOfPayment := mode)
  }

  /** The object React hands to `onClick={openModal}`: a click event, which is not null and has
      none of an expense's properties. */
  const ClickEvent: ExpenseObject := ExpenseObject(None, None, None, None, None, None, None, None, None)

  /** As written (`onClick={openModal}`), the Add Expense button opens the modal in edit mode with an
      empty date, and every valid submission from it is an update of a row without an id, dated
      empty, never an insert. */
  lemma {:induction false} AddButtonNeverInserts(s: FormState, nowIso: string, title: string, amount: string,
                                                 category: string, subcategory: string, mode: string,
                                                 user: UserId, writeFails: bool)
    requires exists i | 0 <= i < |title| :: !IsJsSpace(title[i])
    requires amount != "" && ParsesAsNumber(amount)
    ensures Opened(s, Some(ClickEvent), nowIso).editExpense.Some?
    ensures Opened(s, Some(ClickEvent), nowIso).createdAt == ""
    ensures
      var typed := FilledIn(Opened(s, Some(ClickEvent), nowIso), title, amount, category, subcategory, mode);
      var out := Submitted(typed, Some(user), writeFails).0;
      && (out.Saved? || out.Failed?) && out.write.Update? && out.write.id.None?
      && out.write.fields == ExpenseFields(title, Text(amount), category, subcategory, "", "", "", false)
  {
    var typed := FilledIn(Opened(s, Some(ClickEvent), nowIso), title, amount, category, subcategory, mode);
    assert typed.editExpense == Some(ClickEvent) && typed.createdAt == "";
    TrimEmptyIffBlank(title);
    assert SubmitAccepts(typed.title, typed.amount);
    assert WriteFor(typed, user).Update? && WriteFor(typed, user).id == ClickEvent.id;
  }

  /** With the argument the button evidently means to pass (`onClick={() => openModal()}`, so the
      default `null`), it opens a blank form dated today whose valid submission inserts a new row
      for the user. */
  lemma {:induction false} IntendedAddButtonInserts(s: FormState, nowIso: string, title: string, amount: string,
                                                    category: string, subcategory: string, mode: string, user: UserId)
    requires exists i | 0 <= i < |title| :: !IsJsSpace(title[i])
    requires amount != "" && ParsesAsNumber(amount)
    ensures Opened(s, None, nowIso).editExpense.None?
    ensures Opened(s, None, nowIso).createdAt == Aggregation.Prefix(nowIso, 10)
    ensures
      var typed := FilledIn(Opened(s, None, nowIso), title, amount, category, subcategory, mode);
      Submitted(typed, Some(user), false).0 ==
        Saved(Insert(ExpenseFields(title, Text(amount), category, subcategory, "", Aggregation.Prefix(nowIso, 10), "", false), user))
  {
    var typed := FilledIn(Opened(s, None, nowIso), title, amount, category, subcategory, mode);
    assert typed.editExpense.None? && typed.createdAt == Aggregation.Prefix(nowIso, 10);
    TrimEmptyIffBlank(title);
    assert SubmitAccepts(typed.title, typed.amount);
  }

  // ---- The component's state as an object ----

  /** The dashboard's form state; each method is one of the component's handlers. */
  class Form {
    var showModal: bool
    var editExpense: Option<ExpenseObject>
    var title: string
    var amount: AmountField
    var category: string
    var subcategory: string
    var description: string
    var createdAt: string
    var recurringType: string
    var modeOfPayment: string
    var subcategories: seq<string>

    function State(): FormState
      reads this
    {
      FormState(showModal, editExpense, title, amount, category, subcategory, description,
                createdAt, recurringType, modeOfPayment, subcategories)
    }

    constructor ()
      ensures State() == Initial
    {
      showModal, editExpense := false, None;
      title, amount, category, subcategory, description := "", Text(""), "", "", "";
      createdAt, recurringType, modeOfPayment, subcategories := "", "", "", [];
    }

    /** `openModal(expense)`, with `nowIso` standing for `new Date().toISOString()`. */
    method OpenModal(expense: Option<ExpenseObject>, nowIso: string)
      modifies this
      ensures State() == Opened(old(State()), expense, nowIso)
    {
      match expense {
        case Some(e) => LoadExpense(e);
        case None => ResetForNew(nowIso);
      }
    }

    /** The edit branch of `openModal`: the fields are loaded from the expense. */
    method LoadExpense(e: ExpenseObject)
      modifies this
      ensures showModal && editExpense == Some(e) && subcategories == old(subcategories)
      ensures title == OrEmpty(e.title) && category == OrEmpty(e.category)
      ensures subcategory == OrEmpty(e.subcategory) && description == OrEmpty(e.description)
      ensures amount == if e.amount.Some? && e.amount.value != 0.0 then Number(e.amount.value) else Text("")
      ensures createdAt == if e.createdAt.Some? && e.createdAt.value != "" then Aggregation.Prefix(e.createdAt.value, 10) else ""
      ensures recurringType == OrEmpty(e.recurringType) && modeOfPayment == OrEmpty(e.modeOfPayment)
    {
      showModal, editExpense := true, Some(e);
      title, category, subcategory, description := OrEmpty(e.title), OrEmpty(e.category), OrEmpty(e.subcategory), OrEmpty(e.description);
      amount := if e.amount.Some? && e.amount.value != 0.0 then Number(e.amount.value) else Text("");
      createdAt := if e.createdAt.Some? && e.createdAt.value != "" then Aggregation.Prefix(e.createdAt.value, 10) else "";
      recurringType, modeOfPayment := OrEmpty(e.recurringType), OrEmpty(e.modeOfPayment);
    }

    /** The create branch of `openModal`: empty fields and today's date. */
    method ResetForNew(nowIso: string)
      modifies this
      ensures showModal && editExpense.None? && subcategories == old(subcategories)
      ensures title == "" && category == "" && subcategory == "" && description == "" && amount == Text("")
      ensures createdAt == Aggregation.Prefix(nowIso, 10) && recurringType == "" && modeOfPayment == ""
    {
      showModal, editExpense := true, None;
      title, amount, category, subcategory, description := "", Text(""), "", "", "";
      createdAt, recurringType, modeOfPayment := Aggregation.Prefix(nowIso, 10), "", "";
    }

    /** `closeModal()`. */
    method CloseModal()
      modifies this
      ensures State() == Closed(old(State()))
      ensures createdAt == old(createdAt) && recurringType == old(recurringType) && modeOfPayment == old(modeOfPayment)
    {
      showModal := false;
      title := "";
      amount := Text("");
      category := "";
      subcategory := "";
      description := "";
      editExpense := None;
    }

    /** The effect on `[category, categories]`, with `fetched` standing for the reply to the
        subcategory query of the selected category. */
    method OnCategoryChange(categories: seq<Catalog.Category>, fetched: Option<seq<string>>)
      modifies this
      ensures State() == CategoryChanged(old(State()), categories, fetched)
    {
      if category != "" {
        var selected := Catalog.FindByName(categories, category);
        if selected.Some? {
          subcategories := fetched.GetOr([]);
          if editExpense.None? {
            subcategory := "";
          }
        }
      } else {
        subcategories := [];
        subcategory := "";
      }
    }

    /** `handleSubmit`, with `user` standing for the session's user and `writeFails` for an error
        reply to the insert or update. */
    method HandleSubmit(user: Option<UserId>, writeFails: bool) returns (outcome: SubmitOutcome)
      modifies this
      ensures (outcome, State()) == Submitted(old(State()), user, writeFails)
    {
      if Trim(title) == "" || !AmountAccepted(amount) {
        return Rejected;
      }
      if user.None? {
        return NoUser;
      }
      var fields := ExpenseFields(title, amount, category, subcategory, description,
                                  createdAt, recurringType, recurringType != "");
      var write := if editExpense.Some? then Update(editExpense.value.id, fields) else Insert(fields, user.value);
      if writeFails {
        return Failed(write);
      }
      CloseModal();
      outcome := Saved(write);
    }
  }
}
