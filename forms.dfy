/**
 * The validation rules of the four forms that guard a mutation. A form's
 * verdict is the list of its field errors, in field order: first the error
 * left by parsing the submitted text, then the choice check of a select
 * field, then the field's validators in order, then its inline
 * `validate_<field>` check. A failing `DataRequired` clears the errors the
 * field already has (a parse error, a not-a-choice error) and ends the
 * field's checks, so the field then reports the required error alone.
 */
module Forms {
  import opened Wrappers
  import opened Calendar
  import opened Records

  datatype Field =
    | Username | EmailAddress | Password | ConfirmPassword
    | Amount | Description | CategoryId | ExpenseDate
    | Name | Month | Year

  datatype Problem =
    | Required                      // the value is missing, blank or falsy
    | LengthBetween(min: nat, max: nat)
    | LongerThan(max: nat)
    | InvalidEmail
    | NotEqualTo(other: Field)
    | NotAChoice
    | NotParsed                     // the submitted text is not a number or a date
    | Message(text: string)         // a message the form itself raises

  datatype FormError = FormError(field: Field, problem: Problem)

  const UsernameTaken: string := "Username is already taken. Please choose another one."
  const EmailRegistered: string := "Email is already registered. Please use another one or login."
  const CategoryExists: string := "This category already exists."

  /**
   * A typed field after the form has processed the request: its data (absent
   * when nothing usable was submitted and the field has no default) and
   * whether the submitted text failed to parse.
   */
  datatype Processed<T> = Processed(data: Option<T>, malformed: bool)

  /** What the request carried for a typed field. */
  datatype Submitted<T> = Missing | Unparsable | Given(value: T)

  /** Processing a field: the default when nothing was sent, no data and an error when the text does not parse. */
  function Process<T>(s: Submitted<T>, default: Option<T>): (p: Processed<T>)
    ensures p.malformed <==> s.Unparsable?
    ensures s.Given? ==> p.data == Some(s.value)
    ensures s.Missing? ==> p.data == default
    ensures s.Unparsable? ==> p.data.None?
  {
    match s
    case Missing => Processed(default, false)
    case Unparsable => Processed(None, true)
    case Given(v) => Processed(Some(v), false)
  }

  /** The characters `str.strip()` removes. */
  const Whitespace: set<char> := {
    ' ', '\t', '\n', '\r', '\U{0b}', '\U{0c}', '\U{1c}', '\U{1d}', '\U{1e}', '\U{1f}',
    '\U{85}', '\U{a0}', '\U{1680}', '\U{2000}', '\U{2001}', '\U{2002}', '\U{2003}',
    '\U{2004}', '\U{2005}', '\U{2006}', '\U{2007}', '\U{2008}', '\U{2009}', '\U{200a}',
    '\U{2028}', '\U{2029}', '\U{202f}', '\U{205f}', '\U{3000}'
  }

  /** A string the required check refuses: empty or whitespace only. */
  predicate Blank(s: string) {
    forall i :: 0 <= i < |s| ==> s[i] in Whitespace
  }

  // ---------------------------------------------------------------- fields

  /** A required text field with its further checks, which run only when it is not blank. */
  function RequiredText(f: Field, s: string, checks: seq<FormError>): (r: seq<FormError>)
    ensures Blank(s) ==> r == [FormError(f, Required)]
    ensures !Blank(s) ==> r == checks
  {
    if Blank(s) then [FormError(f, Required)] else checks
  }

  /** `Length(min, max)` on a non-blank value. */
  function LengthCheck(f: Field, s: string, min: nat, max: nat): (r: seq<FormError>)
    ensures r == [] <==> min <= |s| <= max
    ensures r != [] ==> r == [FormError(f, LengthBetween(min, max))]
  {
    if min <= |s| <= max then [] else [FormError(f, LengthBetween(min, max))]
  }

  /** `Length(max=max)`: at most `max` characters. */
  function MaxLengthCheck(f: Field, s: string, max: nat): (r: seq<FormError>)
    ensures r == [] <==> |s| <= max
    ensures r != [] ==> r == [FormError(f, LongerThan(max))]
  {
    if |s| <= max then [] else [FormError(f, LongerThan(max))]
  }

  /** An inline check that raises `message` when the value is already in use. */
  function UniqueCheck(f: Field, s: string, inUse: set<string>, message: string): (r: seq<FormError>)
    ensures r == [] <==> s !in inUse
    ensures r != [] ==> r == [FormError(f, Message(message))]
  {
    if s in inUse then [FormError(f, Message(message))] else []
  }

  /** The parse error of a typed field, if any. */
  function ParseCheck<T>(f: Field, p: Processed<T>): (r: seq<FormError>)
    ensures r == [] <==> !p.malformed
    ensures r != [] ==> r == [FormError(f, NotParsed)]
  {
    if p.malformed then [FormError(f, NotParsed)] else []
  }

  /**
   * `FloatField` with `DataRequired`: absent data and 0.0 (falsy) are both
   * refused, with the required error alone; otherwise the parse error stands.
   */
  function AmountErrors(p: Processed<real>): (r: seq<FormError>)
    ensures r == [] <==> !p.malformed && p.data.Some? && p.data.value != 0.0
    ensures (p.data.None? || p.data.value == 0.0) <==> r == [FormError(Amount, Required)]
    ensures forall x :: x in r ==> x.field == Amount
  {
    if p.data.None? || p.data.value == 0.0 then [FormError(Amount, Required)] else ParseCheck(Amount, p)
  }

  /**
   * `SelectField(coerce=int)` with `DataRequired`: the parse error and the
   * choice check's error, unless the required check fails and replaces them
   * by the required error alone.
   */
  function ChoiceErrors(f: Field, p: Processed<int>, choices: seq<int>): (r: seq<FormError>)
    ensures r == [] <==> !p.malformed && p.data.Some? && p.data.value in choices && p.data.value != 0
    ensures (p.data.None? || p.data.value == 0) <==> r == [FormError(f, Required)]
    ensures FormError(f, NotAChoice) in r <==> p.data.Some? && p.data.value != 0 && p.data.value !in choices
    ensures forall x :: x in r ==> x.field == f
  {
    if p.data.None? || p.data.value == 0 then [FormError(f, Required)]
    else
      var errs := ParseCheck(f, p) + (if p.data.value !in choices then [FormError(f, NotAChoice)] else []);
      assert errs != [] ==> errs[0].problem != Required;
      errs
  }

  // ---------------------------------------------------------- registration

  datatype RegistrationInput = RegistrationInput(username: string, email: string, password: string, confirmPassword: string)

  /** The `username` field: `DataRequired`, `Length(3, 50)`, then `validate_username`. */
  function UsernameErrors(name: string, usernames: set<string>): (r: seq<FormError>)
    ensures forall x :: x in r ==> x.field == Username
  {
    RequiredText(Username, name,
      LengthCheck(Username, name, 3, 50) + UniqueCheck(Username, name, usernames, UsernameTaken))
  }

  /** The `email` field: `DataRequired`, `Email()`, then `validate_email`. */
  function EmailErrors(email: string, emailWellFormed: bool, emails: set<string>): (r: seq<FormError>)
    ensures forall x :: x in r ==> x.field == EmailAddress
  {
    RequiredText(EmailAddress, email,
      (if emailWellFormed then [] else [FormError(EmailAddress, InvalidEmail)])
      + UniqueCheck(EmailAddress, email, emails, EmailRegistered))
  }

  /** The `confirm_password` field: `DataRequired`, then `EqualTo('password')`. */
  function ConfirmErrors(confirm: string, password: string): (r: seq<FormError>)
    ensures forall x :: x in r ==> x.field == ConfirmPassword
  {
    RequiredText(ConfirmPassword, confirm,
      if confirm == password then [] else [FormError(ConfirmPassword, NotEqualTo(Password))])
  }

  /**
   * `RegistrationForm.validate()`. `emailWellFormed` is the verdict of the
   * `Email()` validator on the address; `usernames` and `emails` are those of
   * the registered users.
   */
  function RegistrationErrors(r: RegistrationInput, emailWellFormed: bool, usernames: set<string>, emails: set<string>): (errs: seq<FormError>)
    ensures forall x :: x in errs ==> x.field in {Username, EmailAddress, Password, ConfirmPassword}
  {
    UsernameErrors(r.username, usernames)
    + EmailErrors(r.email, emailWellFormed, emails)
    + RequiredText(Password, r.password, [])
    + ConfirmErrors(r.confirmPassword, r.password)
  }

  /** A registration is accepted exactly when every rule holds. */
  lemma RegistrationAccepted(r: RegistrationInput, emailWellFormed: bool, usernames: set<string>, emails: set<string>)
    ensures RegistrationErrors(r, emailWellFormed, usernames, emails) == [] <==>
              !Blank(r.username) && 3 <= |r.username| <= 50 && r.username !in usernames
              && !Blank(r.email) && emailWellFormed && r.email !in emails
              && !Blank(r.password)
              && !Blank(r.confirmPassword) && r.confirmPassword == r.password
  {
  }

  /**
   * The taken-username and registered-email messages appear exactly when the
   * value is present and already in use, and the mismatch error exactly when
   * the confirmation is present and differs.
   */
  lemma RegistrationMessages(r: RegistrationInput, emailWellFormed: bool, usernames: set<string>, emails: set<string>)
    ensures var errs := RegistrationErrors(r, emailWellFormed, usernames, emails);
            (FormError(Username, Message(UsernameTaken)) in errs <==> !Blank(r.username) && r.username in usernames)
            && (FormError(EmailAddress, Message(EmailRegistered)) in errs <==> !Blank(r.email) && r.email in emails)
            && (FormError(ConfirmPassword, NotEqualTo(Password)) in errs <==>
                  !Blank(r.confirmPassword) && r.confirmPassword != r.password)
            && (FormError(Username, LengthBetween(3, 50)) in errs <==>
                  !Blank(r.username) && !(3 <= |r.username| <= 50))
  {
    var errs := RegistrationErrors(r, emailWellFormed, usernames, emails);
    var u := UsernameErrors(r.username, usernames);
    var e := EmailErrors(r.email, emailWellFormed, emails);
    var p := RequiredText(Password, r.password, []);
    var c := ConfirmErrors(r.confirmPassword, r.password);
    assert forall x :: x in errs <==> x in u || x in e || x in p || x in c;
  }

  // --------------------------------------------------------------- expense

  datatype ExpenseInput = ExpenseInput(
    amount: Submitted<real>, description: string, categoryId: Submitted<int>, date: Submitted<Date>)

  /** The ids offered by the category select, in the order of the names. */
  function ChoiceIds(choices: seq<Category>): (r: seq<int>)
    ensures |r| == |choices|
    ensures forall i :: 0 <= i < |r| ==> r[i] == choices[i].id
  {
    if choices == [] then [] else ChoiceIds(choices[..|choices| - 1]) + [choices[|choices| - 1].id]
  }

  /** An id is offered exactly when some category has it. */
  lemma ChoiceIdsOfCategories(cats: seq<Category>, id: int)
    ensures id in ChoiceIds(CategoriesByName(cats)) <==> exists c :: c in cats && c.id == id
  {
    var sorted := CategoriesByName(cats);
    var ids := ChoiceIds(sorted);
    assert multiset(sorted) == multiset(cats);
    if id in ids {
      var i :| 0 <= i < |ids| && ids[i] == id;
      assert sorted[i] in multiset(cats);
    } else {
      forall c | c in cats ensures c.id != id {
        assert c in multiset(sorted);
        var i :| 0 <= i < |sorted| && sorted[i] == c;
        assert ids[i] == c.id;
      }
    }
  }

  /** The category select passes exactly when an existing, non-zero category id was sent. */
  lemma CategoryChoiceAccepted(s: Submitted<int>, cats: seq<Category>)
    ensures ChoiceErrors(CategoryId, Process(s, None), ChoiceIds(CategoriesByName(cats))) == [] <==>
              s.Given? && s.value != 0 && exists c :: c in cats && c.id == s.value
  {
    if s.Given? {
      ChoiceIdsOfCategories(cats, s.value);
    }
  }

  /** `ExpenseForm.validate()` once the form is built: `date` carries its default, today. */
  function ExpenseErrors(amount: Processed<real>, description: string, categoryId: Processed<int>,
                         date: Processed<Date>, choices: seq<int>): (r: seq<FormError>)
    ensures forall x :: x in r ==> x.field in {Amount, Description, CategoryId, ExpenseDate}
  {
    AmountErrors(amount)
    + MaxLengthCheck(Description, description, 200)
    + ChoiceErrors(CategoryId, categoryId, choices)
    + (if date.data.None? then [FormError(ExpenseDate, Required)] else ParseCheck(ExpenseDate, date))
  }

  /**
   * The form built for a request: the category select offers the categories
   * ordered by name, and a missing date takes today's.
   */
  class ExpenseForm {
    var amount: Processed<real>
    var description: string
    var categoryId: Processed<int>
    var date: Processed<Date>
    var choices: seq<Category>

    constructor (input: ExpenseInput, cats: seq<Category>, today: Date)
      ensures amount == Process(input.amount, None)
      ensures description == input.description
      ensures categoryId == Process(input.categoryId, None)
      ensures date == Process(input.date, Some(today))
      ensures choices == CategoriesByName(cats)
    {
      amount := Process(input.amount, None);
      description := input.description;
      categoryId := Process(input.categoryId, None);
      date := Process(input.date, Some(today));
      choices := CategoriesByName(cats);
    }

    function Errors(): seq<FormError>
      reads this
    {
      ExpenseErrors(amount, description, categoryId, date, ChoiceIds(choices))
    }
  }

  /**
   * An expense is accepted exactly when the amount parses and is non-zero, the
   * description has at most 200 characters, the category id is that of an
   * existing category (and non-zero), and the date, if sent, parses.
   */
  lemma ExpenseAccepted(input: ExpenseInput, cats: seq<Category>, today: Date)
    ensures var errs := ExpenseErrors(Process(input.amount, None), input.description, Process(input.categoryId, None),
                                      Process(input.date, Some(today)), ChoiceIds(CategoriesByName(cats)));
            errs == [] <==>
              input.amount.Given? && input.amount.value != 0.0
              && |input.description| <= 200
              && input.categoryId.Given? && input.categoryId.value != 0
              && (exists c :: c in cats && c.id == input.categoryId.value)
              && !input.date.Unparsable?
  {
    CategoryChoiceAccepted(input.categoryId, cats);
  }

  // -------------------------------------------------------------- category

  /** `CategoryForm.validate()` against the names of the existing categories. */
  function CategoryErrors(name: string, names: set<string>): (r: seq<FormError>)
    ensures forall x :: x in r ==> x.field == Name
  {
    RequiredText(Name, name, MaxLengthCheck(Name, name, 50) + UniqueCheck(Name, name, names, CategoryExists))
  }

  /**
   * A name is accepted exactly when it is not blank, has at most 50
   * characters and is not exactly an existing name; the exists message
   * appears exactly when a non-blank name is taken.
   */
  lemma CategoryAccepted(name: string, names: set<string>)
    ensures CategoryErrors(name, names) == [] <==> !Blank(name) && |name| <= 50 && name !in names
    ensures FormError(Name, Message(CategoryExists)) in CategoryErrors(name, names) <==> !Blank(name) && name in names
  {
  }

  // ---------------------------------------------------------------- budget

  /** `[lo, lo + 1, ..., hi - 1]`, as `range(lo, hi)`. */
  function Range(lo: int, hi: int): (r: seq<int>)
    ensures |r| == if lo <= hi then hi - lo else 0
    ensures forall i :: 0 <= i < |r| ==> r[i] == lo + i
    decreases hi - lo
  {
    if lo >= hi then [] else [lo] + Range(lo + 1, hi)
  }

  /** The month select: 1 to 12, in order. */
  function MonthChoices(): (r: seq<int>)
    ensures |r| == 12
    ensures forall i :: 0 <= i < 12 ==> r[i] == i + 1
  {
    Range(1, 13)
  }

  /**
   * The year select, computed once when the form class is defined, from the
   * year `loadYear` current then: the year before it to two years after it.
   */
  function YearChoices(loadYear: int): (r: seq<int>)
    ensures |r| == 4
    ensures forall i :: 0 <= i < 4 ==> r[i] == loadYear - 1 + i
  {
    Range(loadYear - 1, loadYear + 3)
  }

  lemma ChoiceRanges(loadYear: int, m: int, y: int)
    ensures m in MonthChoices() <==> 1 <= m <= 12
    ensures y in YearChoices(loadYear) <==> loadYear - 1 <= y <= loadYear + 2
  {
    var ms, ys := MonthChoices(), YearChoices(loadYear);
    if 1 <= m <= 12 { assert ms[m - 1] == m; }
    if loadYear - 1 <= y <= loadYear + 2 { assert ys[y - loadYear + 1] == y; }
  }

  /** `if not field.data: field.data = current`: only absent data and 0 are replaced. */
  function DefaultIfUnset(p: Processed<int>, current: int): (r: Processed<int>)
    ensures r.malformed == p.malformed
    ensures p.data.Some? && p.data.value != 0 ==> r == p
    ensures p.data.None? || p.data.value == 0 ==> r.data == Some(current)
  {
    if p.data.None? || p.data.value == 0 then p.(data := Some(current)) else p
  }

  /**
   * A request that leaves month and year out is given the current ones, and
   * these pass the selects while the current year is still among the choices.
   */
  lemma UnsetMonthAndYearTakeNow(input: BudgetInput, loadYear: int, now: Date)
    requires ValidDate(now) && input.month.Missing? && input.year.Missing?
    requires loadYear - 1 <= now.year <= loadYear + 2
    ensures DefaultIfUnset(Process(input.month, None), now.month).data == Some(now.month)
    ensures DefaultIfUnset(Process(input.year, None), now.year).data == Some(now.year)
    ensures ChoiceErrors(Month, DefaultIfUnset(Process(input.month, None), now.month), MonthChoices()) == []
    ensures ChoiceErrors(Year, DefaultIfUnset(Process(input.year, None), now.year), YearChoices(loadYear)) == []
  {
    ChoiceRanges(loadYear, now.month, now.year);
  }

  datatype BudgetInput = BudgetInput(categoryId: Submitted<int>, amount: Submitted<real>, month: Submitted<int>, year: Submitted<int>)

  /** `BudgetForm.validate()` once the form is built. */
  function BudgetErrors(categoryId: Processed<int>, amount: Processed<real>, month: Processed<int>, year: Processed<int>,
                        categoryChoices: seq<int>, loadYear: int): (r: seq<FormError>)
    ensures forall x :: x in r ==> x.field in {CategoryId, Amount, Month, Year}
  {
    ChoiceErrors(CategoryId, categoryId, categoryChoices)
    + AmountErrors(amount)
    + ChoiceErrors(Month, month, MonthChoices())
    + ChoiceErrors(Year, year, YearChoices(loadYear))
  }

  /**
   * The form built for a request: the category select ordered by name, and
   * month and year set to the current ones when the request left them unset.
   */
  class BudgetForm {
    var categoryId: Processed<int>
    var amount: Processed<real>
    var month: Processed<int>
    var year: Processed<int>
    var choices: seq<Category>
    const loadYear: int

    constructor (input: BudgetInput, cats: seq<Category>, loadYear: int, now: Date)
      ensures categoryId == Process(input.categoryId, None)
      ensures amount == Process(input.amount, None)
      ensures month == DefaultIfUnset(Process(input.month, None), now.month)
      ensures year == DefaultIfUnset(Process(input.year, None), now.year)
      ensures choices == CategoriesByName(cats)
      ensures this.loadYear == loadYear
    {
      this.loadYear := loadYear;
      categoryId := Process(input.categoryId, None);
      amount := Process(input.amount, None);
      choices := CategoriesByName(cats);
      var m := Process(input.month, None);
      var y := Process(input.year, None);
      if m.data.None? || m.data.value == 0 {
        m := m.(data := Some(now.month));
      }
      if y.data.None? || y.data.value == 0 {
        y := y.(data := Some(now.year));
      }
      month, year := m, y;
    }

    function Errors(): seq<FormError>
      reads this
    {
      BudgetErrors(categoryId, amount, month, year, ChoiceIds(choices), loadYear)
    }
  }

  /**
   * A budget is accepted exactly when it names an existing category, a
   * non-zero amount, and a month and year that, after defaulting, are among
   * the choices. A request that leaves month and year out gets the current
   * ones, which pass as long as the current year is still within the choices.
   */
  lemma BudgetAccepted(input: BudgetInput, cats: seq<Category>, loadYear: int, now: Date)
    requires ValidDate(now)
    ensures var month := DefaultIfUnset(Process(input.month, None), now.month);
            var year := DefaultIfUnset(Process(input.year, None), now.year);
            BudgetErrors(Process(input.categoryId, None), Process(input.amount, None), month, year,
                         ChoiceIds(CategoriesByName(cats)), loadYear) == [] <==>
              input.categoryId.Given? && input.categoryId.value != 0
              && (exists c :: c in cats && c.id == input.categoryId.value)
              && input.amount.Given? && input.amount.value != 0.0
              && !input.month.Unparsable? && 1 <= month.data.value <= 12
              && !input.year.Unparsable? && loadYear - 1 <= year.data.value <= loadYear + 2
  {
    var cid, amount := Process(input.categoryId, None), Process(input.amount, None);
    var month := DefaultIfUnset(Process(input.month, None), now.month);
    var year := DefaultIfUnset(Process(input.year, None), now.year);
    var ids := ChoiceIds(CategoriesByName(cats));
    var a, b := ChoiceErrors(CategoryId, cid, ids), AmountErrors(amount);
    var c, d := ChoiceErrors(Month, month, MonthChoices()), ChoiceErrors(Year, year, YearChoices(loadYear));
    assert BudgetErrors(cid, amount, month, year, ids, loadYear) == a + b + c + d;
    CategoryChoiceAccepted(input.categoryId, cats);
    ChoiceRanges(loadYear, month.data.value, year.data.value);
    assert c == [] <==> !input.month.Unparsable? && 1 <= month.data.value <= 12;
    assert d == [] <==> !input.year.Unparsable? && loadYear - 1 <= year.data.value <= loadYear + 2;
  }
}
