/**
 * The list-valued columns of a business (`features`, `images`) are edited as
 * one line of comma-separated text. The form shows a stored list joined with
 * `", "` and turns the submitted text back into a list by splitting on `,`,
 * trimming every piece and dropping the empty ones (BusinessForm.tsx).
 */
module CommaList {
  import opened Base
  import opened Text

  const Separator := ','
  const DisplaySeparator := ", "

  /** An element that survives being shown and read back: non-empty, no
      whitespace at either end, no comma. */
  predicate IsCleanItem(x: string)
  {
    x != "" && IsTrimmed(x) && Separator !in x
  }

  /** A stored list that survives being shown and read back unchanged. */
  predicate IsCleanList(xs: seq<string>)
  {
    |xs| >= 1 && forall i :: 0 <= i < |xs| ==> IsCleanItem(xs[i])
  }

  /** `.map((f) => f.trim())` */
  function TrimAll(xs: seq<string>): (r: seq<string>)
    ensures |r| == |xs|
    ensures forall i :: 0 <= i < |r| ==> r[i] == Trim(xs[i])
  {
    seq(|xs|, i requires 0 <= i < |xs| => Trim(xs[i]))
  }

  /** `.filter(Boolean)` on strings: the empty string is the only falsy one. */
  function DropEmpty(xs: seq<string>): (r: seq<string>)
    ensures forall x :: x in r <==> x in xs && x != ""
    ensures (forall i :: 0 <= i < |xs| ==> xs[i] != "") ==> r == xs
    ensures (forall i :: 0 <= i < |xs| ==> xs[i] == "") ==> r == []
    // every non-empty string is kept as often as it occurs
    ensures multiset(r) == multiset(xs)["" := 0]
    decreases |xs|
  {
    if |xs| == 0 then []
    else
      assert xs == [xs[0]] + xs[1..];
      if xs[0] == "" then DropEmpty(xs[1..])
      else [xs[0]] + DropEmpty(xs[1..])
  }

  /** `.filter` keeps the order: filtering a concatenation filters each
      part. With the value on one string this fixes `DropEmpty` entirely. */
  lemma {:induction false} DropEmptyAppend(a: seq<string>, b: seq<string>)
    ensures DropEmpty(a + b) == DropEmpty(a) + DropEmpty(b)
    decreases |a|
  {
    if |a| == 0 {
      assert a + b == b;
    } else {
      assert (a + b)[0] == a[0];
      assert (a + b)[1..] == a[1..] + b;
      DropEmptyAppend(a[1..], b);
    }
  }

  /** `.map` distributes over concatenation. */
  lemma TrimAllAppend(a: seq<string>, b: seq<string>)
    ensures TrimAll(a + b) == TrimAll(a) + TrimAll(b)
  {
  }

  /** The submitted text of a list field: null when the text is empty,
      otherwise the trimmed non-empty comma-separated pieces. */
  function Parse(text: string): (r: Option<seq<string>>)
    ensures r.None? <==> text == ""
    ensures r.Some? ==> forall i :: 0 <= i < |r.value| ==> IsCleanItem(r.value[i])
    // the elements are the trimmed pieces between commas that are not blank
    ensures r.Some? ==> forall x :: x in r.value <==>
      x != "" && exists i :: 0 <= i < |Split(text, Separator)| && Trim(Split(text, Separator)[i]) == x
    ensures r.Some? ==> multiset(r.value) == multiset(TrimAll(Split(text, Separator)))["" := 0]
  {
    if text == "" then None
    else
      var pieces := Split(text, Separator);
      CleanPieces(pieces);
      Some(DropEmpty(TrimAll(pieces)))
  }

  /** One comma-free piece gives its trim, or nothing when it is blank. */
  lemma ParsePiece(a: string)
    requires a != "" && Separator !in a
    ensures Parse(a) == Some(if Blank(a) then [] else [Trim(a)])
  {
    SplitWithoutSeparator(a, Separator);
    assert TrimAll([a]) == [Trim(a)];
  }

  /** The list keeps the order of the text: the elements before a comma
      come before those after it. With `ParsePiece` this fixes `Parse` on
      every text. */
  lemma ParseJoin(a: string, b: string)
    requires a != "" && b != ""
    ensures Parse(a + [Separator] + b) == Some(Parse(a).value + Parse(b).value)
  {
    var pa, pb := Split(a, Separator), Split(b, Separator);
    SplitConcat(a, Separator, b);
    TrimAllAppend(pa, pb);
    DropEmptyAppend(TrimAll(pa), TrimAll(pb));
  }

  /** Trimmed comma-free pieces with the empty ones dropped are clean. */
  lemma CleanPieces(pieces: seq<string>)
    requires forall i :: 0 <= i < |pieces| ==> Separator !in pieces[i]
    ensures forall i :: 0 <= i < |DropEmpty(TrimAll(pieces))| ==> IsCleanItem(DropEmpty(TrimAll(pieces))[i])
  {
    var trimmed := TrimAll(pieces);
    var r := DropEmpty(trimmed);
    forall i | 0 <= i < |r|
      ensures IsCleanItem(r[i])
    {
      assert r[i] in r;
      var j :| 0 <= j < |trimmed| && trimmed[j] == r[i];
      TrimKeepsAbsent(pieces[j], Separator);
    }
  }

  /** The text the form starts with: `(stored || []).join(', ')`. */
  function Show(stored: Option<seq<string>>): (r: string)
    ensures stored.None? || stored == Some([]) ==> r == ""
    ensures stored.Some? && |stored.value| == 1 ==> r == stored.value[0]
    ensures stored.Some? && |stored.value| > 1 ==>
      r == stored.value[0] + DisplaySeparator + Join(stored.value[1..], DisplaySeparator)
  {
    match stored
    case None => ""
    case Some(xs) => Join(xs, DisplaySeparator)
  }

  /** Trimming never introduces a character. */
  lemma TrimKeepsAbsent(s: string, c: char)
    requires c !in s
    ensures c !in Trim(s)
  {
  }

  /** The pieces after the first, each preceded by the space of `", "`. */
  function Indent(ys: seq<string>): (r: seq<string>)
    ensures |r| == |ys|
    ensures forall i :: 0 <= i < |ys| ==> r[i] == " " + ys[i]
  {
    seq(|ys|, i requires 0 <= i < |ys| => " " + ys[i])
  }

  /** Joining with `", "` is joining the indented pieces with `","`. */
  lemma {:induction false} JoinIndented(ys: seq<string>)
    requires |ys| >= 1
    ensures " " + Join(ys, DisplaySeparator) == Join(Indent(ys), [Separator])
    decreases |ys|
  {
    if |ys| > 1 {
      JoinIndented(ys[1..]);
      assert Indent(ys)[1..] == Indent(ys[1..]);
      assert " " + Join(ys, DisplaySeparator)
          == (" " + ys[0]) + [Separator] + (" " + Join(ys[1..], DisplaySeparator));
    }
  }

  lemma ShowAsCommaJoin(xs: seq<string>)
    requires |xs| >= 1
    ensures Show(Some(xs)) == Join([xs[0]] + Indent(xs[1..]), [Separator])
  {
    if |xs| > 1 {
      JoinIndented(xs[1..]);
      assert ([xs[0]] + Indent(xs[1..]))[1..] == Indent(xs[1..]);
      assert Join(xs, DisplaySeparator) == xs[0] + [Separator] + (" " + Join(xs[1..], DisplaySeparator));
    }
  }

  /** The text shown for a clean list splits back into its pieces, each
      but the first carrying the space of `", "`. */
  lemma CleanListSplits(xs: seq<string>)
    requires IsCleanList(xs)
    ensures Split(Show(Some(xs)), Separator) == [xs[0]] + Indent(xs[1..])
  {
    var pieces := [xs[0]] + Indent(xs[1..]);
    ShowAsCommaJoin(xs);
    forall i | 0 <= i < |pieces|
      ensures Separator !in pieces[i]
    {
      if i > 0 {
        assert pieces[i] == " " + xs[i];
      }
    }
    SplitJoin(pieces, Separator);
  }

  /** Trimming the split pieces of a clean list gives the list. */
  lemma TrimIndented(xs: seq<string>)
    requires IsCleanList(xs)
    ensures TrimAll([xs[0]] + Indent(xs[1..])) == xs
  {
    var pieces := [xs[0]] + Indent(xs[1..]);
    forall i | 0 <= i < |xs|
      ensures TrimAll(pieces)[i] == xs[i]
    {
      if i > 0 {
        assert pieces[i] == " " + xs[i];
        TrimAfterSpace(xs[i]);
      }
    }
  }

  /** A clean stored list is shown and read back as itself. */
  lemma CleanListRoundTrip(xs: seq<string>)
    requires IsCleanList(xs)
    ensures Parse(Show(Some(xs))) == Some(xs)
  {
    var text := Show(Some(xs));
    JoinNonEmpty(xs, DisplaySeparator);
    CleanListSplits(xs);
    TrimIndented(xs);
    assert Parse(text) == Some(DropEmpty(TrimAll(Split(text, Separator))));
  }

  /** A join whose first piece is non-empty is non-empty. */
  lemma JoinNonEmpty(pieces: seq<string>, sep: string)
    requires |pieces| >= 1 && |pieces[0]| > 0
    ensures |Join(pieces, sep)| > 0
  {
  }

  /** A stored list comes back from the form exactly when it is null or a
      clean list; an empty list, and a list holding an empty, untrimmed or
      comma-bearing element, come back changed. */
  lemma StoredListRoundTrip(stored: Option<seq<string>>)
    ensures Parse(Show(stored)) == stored <==> stored.None? || IsCleanList(stored.value)
  {
    if stored.Some? && IsCleanList(stored.value) {
      CleanListRoundTrip(stored.value);
    }
  }

  /** A stored empty or null list is submitted as null. */
  lemma EmptyListBecomesNull(stored: Option<seq<string>>)
    requires stored.None? || stored == Some([])
    ensures Parse(Show(stored)) == None
  {
  }

  /** Non-empty text made only of commas and whitespace gives an empty list,
      not null. */
  lemma SeparatorsOnlyGiveEmptyList(text: string)
    requires text != ""
    requires forall k :: 0 <= k < |text| ==> text[k] == Separator || IsSpace(text[k])
    ensures Parse(text) == Some([])
  {
    var pieces := Split(text, Separator);
    forall i | 0 <= i < |pieces|
      ensures Trim(pieces[i]) == ""
    {
      forall k | 0 <= k < |pieces[i]|
        ensures IsSpace(pieces[i][k])
      {
        var c := pieces[i][k];
        assert c in pieces[i];
        PieceCharInText(pieces, i, c);
        assert c != Separator;
      }
    }
  }

  /** Every character of a piece of `text` occurs in `text`. */
  lemma PieceCharInText(pieces: seq<string>, i: nat, c: char)
    requires 0 <= i < |pieces|
    requires c in pieces[i]
    ensures c in Join(pieces, [Separator])
  {
    PieceInJoin(pieces, i, [Separator]);
  }

  lemma {:induction false} PieceInJoin(pieces: seq<string>, i: nat, sep: string)
    requires 0 <= i < |pieces|
    ensures forall c :: c in pieces[i] ==> c in Join(pieces, sep)
    decreases |pieces|
  {
    if |pieces| > 1 {
      assert Join(pieces, sep) == pieces[0] + sep + Join(pieces[1..], sep);
      if i > 0 {
        PieceInJoin(pieces[1..], i - 1, sep);
        assert pieces[1..][i - 1] == pieces[i];
      }
    }
  }

  /** A trailing comma, with or without blanks after it, adds nothing:
      `"wifi, parking, "` reads as `"wifi, parking"` does. */
  lemma TrailingSeparatorDropped(a: string, blank: string)
    requires a != "" && Blank(blank) && Separator !in blank
    ensures Parse(a + [Separator] + blank) == Parse(a)
  {
    var text := a + [Separator] + blank;
    var pa := Split(a, Separator);
    assert Split(text, Separator) == pa + [blank] by {
      SplitConcat(a, Separator, blank);
      SplitWithoutSeparator(blank, Separator);
    }
    assert TrimAll(pa + [blank]) == TrimAll(pa) + [""] by {
      TrimAllAppend(pa, [blank]);
    }
    assert DropEmpty(TrimAll(pa) + [""]) == DropEmpty(TrimAll(pa)) by {
      DropEmptyAppend(TrimAll(pa), [""]);
      assert DropEmpty([""]) == [];
    }
  }
}
