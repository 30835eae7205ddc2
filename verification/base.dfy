/**
 * Small vocabulary shared by every screen of the admin dashboard: nullable
 * values, optional properties of the database's Insert/Update shapes, and the
 * two JavaScript idioms the forms use to move between form text and nullable
 * columns (`s || null` and `o ?? ''`).
 */
module Base {

  /** A nullable value: `T | null` in the TypeScript types. */
  datatype Option<T> = None | Some(value: T)

  /** A property that may be left out of an object (`key?: T`). */
  datatype Field<T> = Absent | Given(value: T)

  /** `s || null` for a string: the empty string is falsy and becomes null,
      every other string is kept exactly as it is (no trimming). */
  function OrNull(s: string): (r: Option<string>)
    ensures r.None? <==> s == ""
    ensures r.Some? ==> r.value == s
  {
    if s == "" then None else Some(s)
  }

  /** `o ?? ''`: null becomes the empty string; a string, even an empty one,
      is kept. */
  function OrEmpty(o: Option<string>): (r: string)
    ensures o.None? ==> r == ""
    ensures o.Some? ==> r == o.value
  {
    match o
    case None => ""
    case Some(s) => s
  }

  /** Showing a nullable column in a text box and reading it back gives the
      column again exactly when the column does not hold the empty string:
      a stored `''` comes back as null. */
  lemma NullableTextRoundTrip(o: Option<string>)
    ensures OrNull(OrEmpty(o)) == o <==> o != Some("")
  {
  }

  /** Reading a text box into a nullable column and showing it again gives
      back the same text, whatever the text was. */
  lemma TextNullableRoundTrip(s: string)
    ensures OrEmpty(OrNull(s)) == s
  {
  }
}
