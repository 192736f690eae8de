/** The expense form (frontend/src/components/ExpenseForm.jsx): the four
    controlled fields, the categories loaded for the select, how a draft (an
    OCR result or the expense being edited) fills the fields, and whether a
    submit creates or updates. JavaScript truthiness is spelled out: a string
    is falsy when empty, a number when zero, an absent value always. */
module ExpenseForm {
  import opened Text
  import opened Expenses
  import Ocr

  /** A field value: what the user typed, or a number copied from a draft. */
  datatype Value = Str(s: string) | Num(n: real)

  datatype FormData = FormData(amount: Value, category: string, description: string, storeName: string)

  datatype Field = AmountField | CategoryField | DescriptionField | StoreNameField

  const EmptyForm: FormData := FormData(Str(""), "", "", "")
  const Uncategorized: string := "Uncategorized"
  const UnknownStore: string := "Unknown Store"
  const ReceiptPrefix: string := "Receipt from "

  /** The form's `initialData`: the fields of an OCR result or of a stored
      expense that the form reads. */
  datatype Draft = Draft(
    id: Option<int>,
    amount: real,
    category: string,
    description: Option<string>,
    storeName: Option<string>)

  /** The upload response of `process_receipt` as the form receives it. */
  function DraftOfReceipt(r: Ocr.Receipt): (d: Draft)
    ensures d.id.None? && d.amount == r.amount && d.category == r.category && d.storeName == Some(r.storeName)
  {
    Draft(None, r.amount, r.category, None, Some(r.storeName))
  }

  /** The expense picked for editing. */
  function DraftOfExpense(e: Expense): (d: Draft)
    ensures d.id == Some(e.id) && d.amount == e.amount && d.category == e.category
    ensures d.description == e.description && d.storeName == e.storeName
  {
    Draft(Some(e.id), e.amount, e.category, e.description, e.storeName)
  }

  predicate StoreGiven(store: Option<string>) {
    store.Some? && store.value != ""
  }

  /** The effect on `initialData`: the amount unless zero, the category or
      else the first loaded one or else 'Uncategorized', a description made
      from the store, and the store or else 'Unknown Store'. */
  function FormFromDraft(d: Draft, categories: seq<Category>): (f: FormData)
    ensures f.amount == Str("") <==> d.amount == 0.0
    ensures f.amount.Num? ==> f.amount.n == d.amount
    ensures d.category != "" ==> f.category == d.category
    ensures d.category == "" && categories != [] ==> f.category == categories[0].name
    ensures d.category == "" && categories == [] ==> f.category == Uncategorized
    ensures f.storeName != ""
    ensures StoreGiven(d.storeName) <==> f.description != ""
    ensures StoreGiven(d.storeName) ==> f.storeName == d.storeName.value && f.description == ReceiptPrefix + f.storeName
    ensures !StoreGiven(d.storeName) ==> f.storeName == UnknownStore
  {
    FormData(
      if d.amount != 0.0 then Num(d.amount) else Str(""),
      if d.category != "" then d.category
      else if |categories| > 0 then categories[0].name
      else Uncategorized,
      if StoreGiven(d.storeName) then ReceiptPrefix + d.storeName.value else "",
      if StoreGiven(d.storeName) then d.storeName.value else UnknownStore)
  }

  /** The description field never comes from the draft's own description, so
      editing an expense replaces its description. */
  lemma {:induction false} FormIgnoresDescription(d: Draft, categories: seq<Category>, other: Option<string>)
    ensures FormFromDraft(d.(description := other), categories) == FormFromDraft(d, categories)
  {
  }

  /** An OCR result fills the form with its store (the parser never yields an
      empty one), a "Receipt from" description and the 'Uncategorized' hint. */
  lemma {:induction false} ReceiptForm(r: Ocr.Receipt, categories: seq<Category>)
    requires r.storeName == Ocr.ExtractStoreName(r.text) && r.category == Uncategorized
    ensures var f := FormFromDraft(DraftOfReceipt(r), categories);
      && f.storeName == r.storeName
      && f.description == ReceiptPrefix + r.storeName
      && f.category == Uncategorized
  {
    assert r.storeName != [];
  }

  /** Editing a stored expense without a store shows 'Unknown Store' and an
      empty description, whatever its description was. */
  lemma {:induction false} EditWithoutStore(e: Expense, categories: seq<Category>)
    requires e.storeName.None?
    ensures FormFromDraft(DraftOfExpense(e), categories).storeName == UnknownStore
    ensures FormFromDraft(DraftOfExpense(e), categories).description == ""
  {
  }

  function SetField(f: FormData, field: Field, value: string): (g: FormData)
    ensures field == AmountField ==> g == f.(amount := Str(value))
    ensures field == CategoryField ==> g == f.(category := value)
    ensures field == DescriptionField ==> g == f.(description := value)
    ensures field == StoreNameField ==> g == f.(storeName := value)
  {
    match field
    case AmountField => f.(amount := Str(value))
    case CategoryField => f.(category := value)
    case DescriptionField => f.(description := value)
    case StoreNameField => f.(storeName := value)
  }

  /** What a submit sends: the form's fields, to be stored under a new id or
      under the edited one. */
  datatype Request = Create(data: FormData) | Update(id: int, data: FormData)

  /** `isEditing && initialData?.id`: an update needs both the editing flag
      and a non-zero id on the draft. */
  function ChooseRequest(isEditing: bool, initialData: Option<Draft>, form: FormData): (r: Request)
    ensures r.data == form
    ensures r.Update? <==>
      isEditing && initialData.Some? && initialData.value.id.Some? && initialData.value.id.value != 0
    ensures r.Update? ==> r.id == initialData.value.id.value
  {
    if isEditing && initialData.Some? && initialData.value.id.Some? && initialData.value.id.value != 0
    then Update(initialData.value.id.value, form)
    else Create(form)
  }

  /** A draft from an OCR result always creates, even while editing. */
  lemma {:induction false} ReceiptDraftCreates(r: Ocr.Receipt, isEditing: bool, form: FormData)
    ensures ChooseRequest(isEditing, Some(DraftOfReceipt(r)), form) == Create(form)
  {
  }

  /** Editing a stored expense (ids start at 1) updates it. */
  lemma {:induction false} EditUpdates(e: Expense, form: FormData)
    requires e.id >= 1
    ensures ChooseRequest(true, Some(DraftOfExpense(e)), form) == Update(e.id, form)
  {
  }

  /** The component's state. */
  class Form {
    var formData: FormData
    var categories: seq<Category>

    constructor ()
      ensures formData == EmptyForm && categories == []
    {
      formData := EmptyForm;
      categories := [];
    }

    /** The mount effect once `getCategories` answers. Its guard reads the
        form as it was at mount (the effect's closure), whose category is
        always empty, so a non-empty list always sets the first name; a failed
        request is only logged. */
    method OnCategoriesLoaded(response: Option<seq<Category>>)
      modifies this
      ensures response.None? ==> formData == old(formData) && categories == old(categories)
      ensures response.Some? ==> categories == response.value
      ensures response.Some? && response.value != [] ==>
        formData == old(formData).(category := response.value[0].name)
      ensures response.Some? && response.value == [] ==> formData == old(formData)
    {
      if response.Some? {
        var data := response.value;
        categories := data;
        var mounted := EmptyForm;
        if |data| > 0 && mounted.category == "" {
          formData := formData.(category := data[0].name);
        }
      }
    }

    /** The effect on `[initialData, categories]`. */
    method OnInitialData(initialData: Option<Draft>)
      modifies this
      ensures initialData.Some? ==> formData == FormFromDraft(initialData.value, categories)
      ensures initialData.None? ==> formData == old(formData)
      ensures categories == old(categories)
    {
      if initialData.Some? {
        formData := FormFromDraft(initialData.value, categories);
      }
    }

    /** `handleChange`: only the named field takes the typed value. */
    method HandleChange(field: Field, value: string)
      modifies this
      ensures formData == SetField(old(formData), field, value)
      ensures categories == old(categories)
    {
      formData := SetField(formData, field, value);
    }

    /** `handleSubmit` with the request's outcome as `succeeded`: a success
        clears the four fields and reports the addition; a failure keeps them
        and reports nothing. */
    method HandleSubmit(isEditing: bool, initialData: Option<Draft>, succeeded: bool)
      returns (request: Request, added: bool)
      modifies this
      ensures request == ChooseRequest(isEditing, initialData, old(formData))
      ensures added == succeeded
      ensures succeeded ==> formData == EmptyForm
      ensures !succeeded ==> formData == old(formData)
      ensures categories == old(categories)
    {
      request := ChooseRequest(isEditing, initialData, formData);
      if succeeded {
        formData := EmptyForm;
        added := true;
      } else {
        added := false;
      }
    }

    /** The cancel button shown while editing: the fields are cleared before
        the parent drops its editing slot. */
    method CancelEdit()
      modifies this
      ensures formData == EmptyForm && categories == old(categories)
    {
      formData := EmptyForm;
    }
  }
}
