/**
 * The category create/edit form (admin/components/categories/CategoryForm.tsx):
 * the text it starts with, the row it writes and the navigation it performs.
 * The database's reply to the write is an input.
 */
module CategoryForm {
  import opened Base
  import opened Schema
  import opened Effects

  const ListPath := "/dashboard/categories"
  const UpdatedStatus := "Category updated successfully."
  const CreatedStatus := "Category created successfully."

  datatype FormState = FormState(nameAr: string, nameEn: string, icon: string)

  /** What the form writes: `name_ar` as typed, the optional names as null
      when empty. */
  datatype Payload = Payload(nameAr: string, nameEn: Option<string>, icon: Option<string>)

  /** The inputs' starting values: the stored category when editing (null
      shown as empty), blank inputs when creating. */
  function InitialState(category: Option<CategoryRow>): (s: FormState)
    ensures category.None? ==> s == FormState("", "", "")
    ensures category.Some? ==>
      && s.nameAr == category.value.nameAr
      && s.nameEn == OrEmpty(category.value.nameEn)
      && s.icon == OrEmpty(category.value.icon)
      && (s.nameEn == "" <==> category.value.nameEn.None? || category.value.nameEn == Some(""))
      && (s.icon == "" <==> category.value.icon.None? || category.value.icon == Some(""))
  {
    match category
    case None => FormState("", "", "")
    case Some(c) => FormState(c.nameAr, OrEmpty(c.nameEn), OrEmpty(c.icon))
  }

  function BuildPayload(s: FormState): (p: Payload)
    ensures p.nameAr == s.nameAr
    ensures p.nameEn.None? <==> s.nameEn == ""
    ensures p.nameEn.Some? ==> p.nameEn.value == s.nameEn
    ensures p.icon.None? <==> s.icon == ""
    ensures p.icon.Some? ==> p.icon.value == s.icon
  {
    Payload(s.nameAr, OrNull(s.nameEn), OrNull(s.icon))
  }

  function AsInsert(p: Payload): CategoryInsert
  {
    CategoryInsert(Absent, p.nameAr, Given(p.nameEn), Given(p.icon))
  }

  function AsUpdate(p: Payload): CategoryUpdate
  {
    CategoryUpdate(Absent, Given(p.nameAr), Given(p.nameEn), Given(p.icon))
  }

  datatype SubmitResult = SubmitResult(effects: seq<Effect>, status: Option<string>)

  /** `handleSubmit`: update the given category by its id, or insert a new
      one; on a write error show its text and stay, otherwise show the
      success status and go back to the list. */
  function Submit(category: Option<CategoryRow>, s: FormState, writeError: Option<string>): (r: SubmitResult)
    ensures |r.effects| >= 1
    ensures r.effects[0].UpdateCategory? <==> category.Some?
    ensures r.effects[0].InsertCategory? <==> category.None?
    ensures category.Some? ==>
      r.effects[0] == UpdateCategory(category.value.id, AsUpdate(BuildPayload(s)))
    ensures category.None? ==> r.effects[0] == InsertCategory(AsInsert(BuildPayload(s)))
    ensures writeError.Some? ==> |r.effects| == 1 && r.status == writeError
    ensures Navigate(ListPath) in r.effects <==> writeError.None?
    ensures writeError.None? ==>
      && r.effects[1..] == [Navigate(ListPath), Refresh]
      && r.status == Some(if category.Some? then UpdatedStatus else CreatedStatus)
  {
    var p := BuildPayload(s);
    var write := if category.Some? then UpdateCategory(category.value.id, AsUpdate(p))
                 else InsertCategory(AsInsert(p));
    if writeError.Some? then
      SubmitResult([write], writeError)
    else
      SubmitResult([write, Navigate(ListPath), Refresh],
                   Some(if category.Some? then UpdatedStatus else CreatedStatus))
  }

  /** Opening a stored category and submitting it untouched leaves the row as
      it was exactly when neither optional name holds `''`: null stays null,
      a non-empty value stays itself, and a stored `''` becomes null. */
  lemma ResubmitUnchanged(row: CategoryRow)
    ensures ApplyCategoryUpdate(row, AsUpdate(BuildPayload(InitialState(Some(row))))) == row
      <==> row.nameEn != Some("") && row.icon != Some("")
  {
    NullableTextRoundTrip(row.nameEn);
    NullableTextRoundTrip(row.icon);
  }

  /** Submitting the edit form untouched issues an update of that category
      which leaves the row as it was exactly when neither optional name
      holds `''`. */
  lemma UntouchedEditWrites(row: CategoryRow, writeError: Option<string>)
    ensures var w := Submit(Some(row), InitialState(Some(row)), writeError).effects[0];
      && w.UpdateCategory? && w.categoryId == row.id
      && (ApplyCategoryUpdate(row, w.categoryChanges) == row <==> row.nameEn != Some("") && row.icon != Some(""))
  {
    ResubmitUnchanged(row);
  }
}
