/**
 * The three tables of the hosted database as the dashboard sees them: for
 * each table the shape of a stored row, of an insert and of an update.
 * A nullable column is an `Option`; a property that an insert or update may
 * leave out is a `Field`. Which properties are required is fixed by the
 * types themselves: a business insert must carry a `name`, a category insert
 * a `nameAr`, an admin insert a `userId` and an `email`, and no update
 * requires anything.
 */
module Schema {
  import opened Base

  /** A JavaScript number. Only equality of numbers matters to this model;
      how text is coerced to a number is a parameter of the forms. */
  type Number = real

  // ---- admins ------------------------------------------------------------

  datatype AdminRow = AdminRow(
    id: string,
    userId: string,
    email: string,
    role: string,
    createdAt: Option<string>)

  datatype AdminInsert = AdminInsert(
    id: Field<string>,
    userId: string,
    email: string,
    role: Field<string>,
    createdAt: Field<Option<string>>)

  datatype AdminUpdate = AdminUpdate(
    id: Field<string>,
    userId: Field<string>,
    email: Field<string>,
    role: Field<string>,
    createdAt: Field<Option<string>>)

  // ---- businesses --------------------------------------------------------

  datatype BusinessRow = BusinessRow(
    id: string,
    name: string,
    categoryId: Option<string>,
    description: Option<string>,
    city: Option<string>,
    address: Option<string>,
    phone: Option<string>,
    rating: Option<Number>,
    latitude: Option<Number>,
    longitude: Option<Number>,
    images: Option<seq<string>>,
    features: Option<seq<string>>)

  datatype BusinessInsert = BusinessInsert(
    id: Field<string>,
    name: string,
    categoryId: Field<Option<string>>,
    description: Field<Option<string>>,
    city: Field<Option<string>>,
    address: Field<Option<string>>,
    phone: Field<Option<string>>,
    rating: Field<Option<Number>>,
    latitude: Field<Option<Number>>,
    longitude: Field<Option<Number>>,
    images: Field<Option<seq<string>>>,
    features: Field<Option<seq<string>>>)

  datatype BusinessUpdate = BusinessUpdate(
    id: Field<string>,
    name: Field<string>,
    categoryId: Field<Option<string>>,
    description: Field<Option<string>>,
    city: Field<Option<string>>,
    address: Field<Option<string>>,
    phone: Field<Option<string>>,
    rating: Field<Option<Number>>,
    latitude: Field<Option<Number>>,
    longitude: Field<Option<Number>>,
    images: Field<Option<seq<string>>>,
    features: Field<Option<seq<string>>>)

  // ---- categories --------------------------------------------------------

  datatype CategoryRow = CategoryRow(
    id: string,
    nameAr: string,
    nameEn: Option<string>,
    icon: Option<string>)

  datatype CategoryInsert = CategoryInsert(
    id: Field<string>,
    nameAr: string,
    nameEn: Field<Option<string>>,
    icon: Field<Option<string>>)

  datatype CategoryUpdate = CategoryUpdate(
    id: Field<string>,
    nameAr: Field<string>,
    nameEn: Field<Option<string>>,
    icon: Field<Option<string>>)

  // ---- what an update means ----------------------------------------------

  /** A property of an update overwrites the column when it is given. */
  function Put<T>(f: Field<T>, current: T): T
  {
    match f
    case Absent => current
    case Given(v) => v
  }

  /** The property leaves the column as it is: it is absent or repeats it. */
  predicate Keeps<T(==)>(f: Field<T>, current: T)
  {
    f.Absent? || f.value == current
  }

  const NoBusinessChange := BusinessUpdate(Absent, Absent, Absent, Absent, Absent, Absent,
                                           Absent, Absent, Absent, Absent, Absent, Absent)

  const NoCategoryChange := CategoryUpdate(Absent, Absent, Absent, Absent)

  const NoAdminChange := AdminUpdate(Absent, Absent, Absent, Absent, Absent)

  /** The row an update leaves behind: given properties replace the stored
      columns, absent ones keep them. */
  function ApplyBusinessUpdate(row: BusinessRow, u: BusinessUpdate): (r: BusinessRow)
    ensures r == row <==>
      (&& Keeps(u.id, row.id) && Keeps(u.name, row.name)
       && Keeps(u.categoryId, row.categoryId) && Keeps(u.description, row.description)
       && Keeps(u.city, row.city) && Keeps(u.address, row.address) && Keeps(u.phone, row.phone)
       && Keeps(u.rating, row.rating) && Keeps(u.latitude, row.latitude)
       && Keeps(u.longitude, row.longitude) && Keeps(u.images, row.images)
       && Keeps(u.features, row.features))
    ensures u == NoBusinessChange ==> r == row
  {
    BusinessRow(Put(u.id, row.id), Put(u.name, row.name), Put(u.categoryId, row.categoryId),
                Put(u.description, row.description), Put(u.city, row.city),
                Put(u.address, row.address), Put(u.phone, row.phone),
                Put(u.rating, row.rating), Put(u.latitude, row.latitude),
                Put(u.longitude, row.longitude), Put(u.images, row.images),
                Put(u.features, row.features))
  }

  function ApplyCategoryUpdate(row: CategoryRow, u: CategoryUpdate): (r: CategoryRow)
    ensures r == row <==>
      (Keeps(u.id, row.id) && Keeps(u.nameAr, row.nameAr)
       && Keeps(u.nameEn, row.nameEn) && Keeps(u.icon, row.icon))
    ensures u == NoCategoryChange ==> r == row
  {
    CategoryRow(Put(u.id, row.id), Put(u.nameAr, row.nameAr),
                Put(u.nameEn, row.nameEn), Put(u.icon, row.icon))
  }

  function ApplyAdminUpdate(row: AdminRow, u: AdminUpdate): (r: AdminRow)
    ensures r == row <==>
      (Keeps(u.id, row.id) && Keeps(u.userId, row.userId) && Keeps(u.email, row.email)
       && Keeps(u.role, row.role) && Keeps(u.createdAt, row.createdAt))
    ensures u == NoAdminChange ==> r == row
  {
    AdminRow(Put(u.id, row.id), Put(u.userId, row.userId), Put(u.email, row.email),
             Put(u.role, row.role), Put(u.createdAt, row.createdAt))
  }

  /** Applying the same update twice is the same as applying it once. */
  lemma BusinessUpdateIdempotent(row: BusinessRow, u: BusinessUpdate)
    ensures ApplyBusinessUpdate(ApplyBusinessUpdate(row, u), u) == ApplyBusinessUpdate(row, u)
  {
  }
}
