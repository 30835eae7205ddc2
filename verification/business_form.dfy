/**
 * The business create/edit form (admin/components/businesses/BusinessForm.tsx):
 * the text it starts with, the payload it builds on submit, and the write and
 * navigation it performs. The database's reply to the write is an input.
 */
module BusinessForm {
  import opened Base
  import opened Schema
  import opened Effects
  import CommaList

  const ListPath := "/dashboard/businesses"
  const UpdatedMessage := "Business updated."
  const CreatedMessage := "Business created."

  /** How the form turns a number into text (`toString`) and text into a
      number (`Number`); both are left to the JavaScript runtime. */
  datatype NumberText = NumberText(show: Number -> string, parse: string -> Number)

  /** The number (if any) is shown as non-empty text that reads back as it. */
  predicate ShowsFaithfully(num: NumberText, n: Option<Number>)
  {
    n.Some? ==> num.show(n.value) != "" && num.parse(num.show(n.value)) == n.value
  }

  /** The values held by the form's inputs. `rating` is `number | ''`. */
  datatype FormState = FormState(
    name: string,
    categoryId: string,
    description: string,
    city: string,
    address: string,
    phone: string,
    rating: Option<Number>,
    latitude: string,
    longitude: string,
    features: string,
    images: string)

  /** What the form writes: every column but `id`. */
  datatype Payload = Payload(
    name: string,
    categoryId: Option<string>,
    description: Option<string>,
    city: Option<string>,
    address: Option<string>,
    phone: Option<string>,
    rating: Option<Number>,
    latitude: Option<Number>,
    longitude: Option<Number>,
    features: Option<seq<string>>,
    images: Option<seq<string>>)

  /** `n?.toString() ?? ''` */
  function NumberToText(num: NumberText, n: Option<Number>): (r: string)
    ensures n.None? ==> r == ""
    ensures n.Some? ==> r == num.show(n.value)
  {
    if n.Some? then num.show(n.value) else ""
  }

  /** `text ? Number(text) : null` */
  function TextToNumber(num: NumberText, text: string): (r: Option<Number>)
    ensures r.None? <==> text == ""
    ensures text != "" ==> r == Some(num.parse(text))
  {
    if text == "" then None else Some(num.parse(text))
  }

  /** A stored coordinate shown in its input and read back is itself, when
      the runtime reads back what it shows. */
  lemma NumberRoundTrip(num: NumberText, n: Option<Number>)
    requires ShowsFaithfully(num, n)
    ensures TextToNumber(num, NumberToText(num, n)) == n
  {
  }

  /** The inputs' starting values: the stored business when editing, every
      input blank when creating. Lists are shown joined with `", "`. */
  function InitialState(business: Option<BusinessRow>, num: NumberText): (s: FormState)
    ensures business.None? ==> s == FormState("", "", "", "", "", "", None, "", "", "", "")
    ensures business.Some? ==>
      && s.name == business.value.name
      && s.rating == business.value.rating
      && s.categoryId == OrEmpty(business.value.categoryId)
      && s.description == OrEmpty(business.value.description)
      && s.city == OrEmpty(business.value.city)
      && s.address == OrEmpty(business.value.address)
      && s.phone == OrEmpty(business.value.phone)
      && s.latitude == NumberToText(num, business.value.latitude)
      && s.longitude == NumberToText(num, business.value.longitude)
      && s.features == CommaList.Show(business.value.features)
      && s.images == CommaList.Show(business.value.images)
    ensures business.Some? ==>
      && (s.city == "" <==> business.value.city.None? || business.value.city == Some(""))
      && (business.value.features.None? || business.value.features == Some([]) ==> s.features == "")
  {
    match business
    case None => FormState("", "", "", "", "", "", None, "", "", "", "")
    case Some(b) =>
      FormState(b.name, OrEmpty(b.categoryId), OrEmpty(b.description), OrEmpty(b.city),
                OrEmpty(b.address), OrEmpty(b.phone), b.rating,
                NumberToText(num, b.latitude), NumberToText(num, b.longitude),
                CommaList.Show(b.features), CommaList.Show(b.images))
  }

  /** The payload built on submit. Optional text becomes null when empty and
      is otherwise sent untrimmed; list text is split, trimmed and filtered;
      the name is sent as typed. */
  function BuildPayload(s: FormState, num: NumberText): (p: Payload)
    ensures p.name == s.name
    ensures p.categoryId.None? <==> s.categoryId == ""
    ensures p.categoryId.Some? ==> p.categoryId.value == s.categoryId
    ensures p.description.None? <==> s.description == ""
    ensures p.description.Some? ==> p.description.value == s.description
    ensures p.city.None? <==> s.city == ""
    ensures p.city.Some? ==> p.city.value == s.city
    ensures p.address.None? <==> s.address == ""
    ensures p.address.Some? ==> p.address.value == s.address
    ensures p.phone.None? <==> s.phone == ""
    ensures p.phone.Some? ==> p.phone.value == s.phone
    ensures p.rating == s.rating
    ensures p.latitude.None? <==> s.latitude == ""
    ensures p.longitude.None? <==> s.longitude == ""
    ensures p.features.None? <==> s.features == ""
    ensures p.images.None? <==> s.images == ""
    ensures s.latitude != "" ==> p.latitude == Some(num.parse(s.latitude))
    ensures s.longitude != "" ==> p.longitude == Some(num.parse(s.longitude))
    ensures p.features == CommaList.Parse(s.features)
    ensures p.images == CommaList.Parse(s.images)
    ensures p.features.Some? ==>
      forall i :: 0 <= i < |p.features.value| ==> CommaList.IsCleanItem(p.features.value[i])
    ensures p.images.Some? ==>
      forall i :: 0 <= i < |p.images.value| ==> CommaList.IsCleanItem(p.images.value[i])
  {
    Payload(s.name, OrNull(s.categoryId), OrNull(s.description), OrNull(s.city),
            OrNull(s.address), OrNull(s.phone), s.rating,
            TextToNumber(num, s.latitude), TextToNumber(num, s.longitude),
            CommaList.Parse(s.features), CommaList.Parse(s.images))
  }

  function AsInsert(p: Payload): BusinessInsert
  {
    BusinessInsert(Absent, p.name, Given(p.categoryId), Given(p.description), Given(p.city),
                   Given(p.address), Given(p.phone), Given(p.rating), Given(p.latitude),
                   Given(p.longitude), Given(p.images), Given(p.features))
  }

  function AsUpdate(p: Payload): BusinessUpdate
  {
    BusinessUpdate(Absent, Given(p.name), Given(p.categoryId), Given(p.description), Given(p.city),
                   Given(p.address), Given(p.phone), Given(p.rating), Given(p.latitude),
                   Given(p.longitude), Given(p.images), Given(p.features))
  }

  datatype SubmitResult = SubmitResult(effects: seq<Effect>, message: Option<string>)

  /** `handleSubmit`: update the given business by its id, or insert a new
      one; on a write error show its text and stay, otherwise show the
      success message and go back to the list. */
  function Submit(business: Option<BusinessRow>, s: FormState, num: NumberText,
                  writeError: Option<string>): (r: SubmitResult)
    ensures |r.effects| >= 1
    ensures r.effects[0].UpdateBusiness? <==> business.Some?
    ensures r.effects[0].InsertBusiness? <==> business.None?
    ensures business.Some? ==>
      r.effects[0] == UpdateBusiness(business.value.id, AsUpdate(BuildPayload(s, num)))
    ensures business.None? ==> r.effects[0] == InsertBusiness(AsInsert(BuildPayload(s, num)))
    ensures writeError.Some? ==> |r.effects| == 1 && r.message == writeError
    ensures Navigate(ListPath) in r.effects <==> writeError.None?
    ensures writeError.None? ==>
      && r.effects[1..] == [Navigate(ListPath), Refresh]
      && r.message == Some(if business.Some? then UpdatedMessage else CreatedMessage)
  {
    var p := BuildPayload(s, num);
    var write := if business.Some? then UpdateBusiness(business.value.id, AsUpdate(p))
                 else InsertBusiness(AsInsert(p));
    if writeError.Some? then
      SubmitResult([write], writeError)
    else
      SubmitResult([write, Navigate(ListPath), Refresh],
                   Some(if business.Some? then UpdatedMessage else CreatedMessage))
  }

  /** A stored business the edit form can resubmit without changing it:
      no optional text column holds `''` and each list is null or clean. */
  predicate Resubmittable(row: BusinessRow)
  {
    && row.categoryId != Some("") && row.description != Some("") && row.city != Some("")
    && row.address != Some("") && row.phone != Some("")
    && (row.features.None? || CommaList.IsCleanList(row.features.value))
    && (row.images.None? || CommaList.IsCleanList(row.images.value))
  }

  /** Opening a stored business in the edit form and submitting it untouched
      leaves the row as it was exactly when the row is resubmittable (given
      that its coordinates survive the trip through text). */
  lemma ResubmitUnchanged(row: BusinessRow, num: NumberText)
    requires ShowsFaithfully(num, row.latitude) && ShowsFaithfully(num, row.longitude)
    ensures var p := BuildPayload(InitialState(Some(row), num), num);
      ApplyBusinessUpdate(row, AsUpdate(p)) == row <==> Resubmittable(row)
  {
    CommaList.StoredListRoundTrip(row.features);
    CommaList.StoredListRoundTrip(row.images);
    NullableTextRoundTrip(row.categoryId);
    NullableTextRoundTrip(row.description);
    NullableTextRoundTrip(row.city);
    NullableTextRoundTrip(row.address);
    NullableTextRoundTrip(row.phone);
  }

  /** Submitting the edit form untouched issues an update of that business
      which leaves the row as it was exactly when it is resubmittable. */
  lemma UntouchedEditWrites(row: BusinessRow, num: NumberText, writeError: Option<string>)
    requires ShowsFaithfully(num, row.latitude) && ShowsFaithfully(num, row.longitude)
    ensures var w := Submit(Some(row), InitialState(Some(row), num), num, writeError).effects[0];
      && w.UpdateBusiness? && w.businessId == row.id
      && (ApplyBusinessUpdate(row, w.businessChanges) == row <==> Resubmittable(row))
  {
    ResubmitUnchanged(row, num);
  }
}
