/**
 * The list logic of the vehicle-stats table: the selection toggle, select-all,
 * the selected test, the sort-direction rule and the detail-page path with its
 * name slug.
 */
module VehicleStatssTable {
  import opened Wrappers
  import JsText
  import Actions = VehicleStatssActions
  import opened Sequences
  import GraphQLInputs

  /** A listed row. */
  datatype Row = Row(id: string, name: string, active: bool)

  /** `s.indexOf(x)`: the first position of `x`, or -1. */
  function IndexOf(s: seq<string>, x: string): (i: int)
    ensures -1 <= i < |s|
    ensures i == -1 <==> x !in s
    ensures i >= 0 ==> s[i] == x && forall j :: 0 <= j < i ==> s[j] != x
  {
    if s == [] then -1
    else if s[0] == x then 0
    else
      var j := IndexOf(s[1..], x);
      if j == -1 then -1 else j + 1
  }

  /** `selected.indexOf(id) !== -1`. */
  function IsSelected(selected: seq<string>, id: string): (r: bool)
    ensures r <==> id in selected
  {
    IndexOf(selected, id) != -1
  }

  /**
   * `handleCheck`: an id not yet selected is appended; a selected one is
   * removed at its first position, every other element keeping its order.
   */
  function HandleCheck(selected: seq<string>, id: string): (r: seq<string>)
    ensures id !in selected ==> r == selected + [id]
    ensures id in selected ==>
      var i := IndexOf(selected, id);
      && |r| == |selected| - 1
      && (forall j :: 0 <= j < i ==> r[j] == selected[j])
      && (forall j :: i <= j < |r| ==> r[j] == selected[j + 1])
  {
    var i := IndexOf(selected, id);
    if i == -1 then selected + [id]
    else if i == 0 then selected[1..]
    else if i == |selected| - 1 then selected[..|selected| - 1]
    else if i > 0 then selected[..i] + selected[i + 1..]
    else []
  }

  /** Checking an unselected id twice gives back the original selection. */
  lemma CheckTwiceRestores(selected: seq<string>, id: string)
    requires id !in selected
    ensures HandleCheck(HandleCheck(selected, id), id) == selected
  {
    var once := selected + [id];
    assert IndexOf(once, id) == |selected|;
  }

  /** On a selection without repeats the toggle flips membership of `id` and keeps every other id. */
  lemma CheckToggles(selected: seq<string>, id: string)
    requires Distinct(selected)
    ensures var r := HandleCheck(selected, id);
      && Distinct(r)
      && (id in r <==> id !in selected)
      && forall x :: x != id ==> (x in r <==> x in selected)
  {
    var r := HandleCheck(selected, id);
    if id in selected {
      var i := IndexOf(selected, id);
      assert r == selected[..i] + selected[i + 1..];
      forall x | x in selected && x != id ensures x in r {
        var k :| 0 <= k < |selected| && selected[k] == x;
        if k < i { assert r[k] == x; } else { assert k != i; assert r[k - 1] == x; }
      }
    }
  }

  /** `handleSelectAllClick`: every row id in row order when checked, none otherwise. */
  function HandleSelectAllClick(checked: bool, rows: seq<Row>): (r: seq<string>)
    ensures checked ==> |r| == |rows| && forall i :: 0 <= i < |rows| ==> r[i] == rows[i].id
    ensures !checked ==> r == []
  {
    if checked then seq(|rows|, i requires 0 <= i < |rows| => rows[i].id) else []
  }

  /** After select-all every row shows as selected, after clearing none does. */
  lemma SelectAllMarksRows(checked: bool, rows: seq<Row>)
    ensures forall i :: 0 <= i < |rows| ==> (IsSelected(HandleSelectAllClick(checked, rows), rows[i].id) <==> checked)
  {
    var r := HandleSelectAllClick(checked, rows);
    forall i | 0 <= i < |rows| && checked ensures rows[i].id in r {
      assert r[i] == rows[i].id;
    }
  }

  /** `handleRequestSort`: ascending only when the same column is clicked while descending. */
  function HandleRequestSort(order: Actions.Order, property: string): (r: Actions.Order)
    ensures r.id == Some(property)
    ensures r.direction == "asc" <==> order.id == Some(property) && order.direction == "desc"
    ensures r.direction == "asc" || r.direction == "desc"
  {
    var direction := if order.id == Some(property) && order.direction == "desc" then "asc" else "desc";
    Actions.Order(Some(property), direction)
  }

  /** Clicking the same column again reverses the direction. */
  lemma SortClickAlternates(order: Actions.Order, property: string)
    ensures HandleRequestSort(HandleRequestSort(order, property), property).direction
         != HandleRequestSort(order, property).direction
  {
  }

  /** The order a click sets yields a listing sorted on that column, ascending iff the direction is "asc". */
  lemma SortClickDrivesListing(p: Actions.QueryParams, property: string)
    requires property != ""
    ensures var order := HandleRequestSort(p.order, property);
      var args := Actions.GetListingQueryArguments(p.(order := order));
      args.sortInput == Some(GraphQLInputs.SortInput(property, order.direction == "asc"))
  {
  }

  // ----- The detail-page path -----

  /** The characters besides white space in `/[\s_Â·!@#$%^&*(),.?":{}|<>]+/`. */
  const SlugPunctuation: string := "_\U{00C2}\U{00B7}!@#$%^&*(),.?\":{}|<>"

  /** The characters of the slug pattern: JavaScript white space or one of `SlugPunctuation`. */
  predicate IsSlugSeparator(c: char) {
    JsText.IsJsSpace(c) || c in SlugPunctuation
  }

  predicate NoneIn(s: string, sep: char -> bool) {
    forall i :: 0 <= i < |s| ==> !sep(s[i])
  }

  predicate AllIn(s: string, sep: char -> bool) {
    forall i :: 0 <= i < |s| ==> sep(s[i])
  }

  /** The length of the run of `sep` characters that `s` opens with. */
  function RunLength(s: string, sep: char -> bool): (n: nat)
    ensures n <= |s|
    ensures AllIn(s[..n], sep)
    ensures n < |s| ==> !sep(s[n])
  {
    if s != [] && sep(s[0]) then
      var n := 1 + RunLength(s[1..], sep);
      assert s[..n] == [s[0]] + s[1..][..n - 1];
      n
    else 0
  }

  /** `s.replace(/[…]+/g, '-')` for the character class `sep`: every maximal run becomes one '-'. */
  function CollapseRuns(s: string, sep: char -> bool): string
    decreases |s|
  {
    if s == [] then []
    else if sep(s[0]) then "-" + CollapseRuns(s[RunLength(s, sep)..], sep)
    else [s[0]] + CollapseRuns(s[1..], sep)
  }

  /** The item name as it appears in the path: separators collapsed, then lower-cased. */
  function Slug(name: string): string {
    JsText.ToLowerAscii(CollapseRuns(name, IsSlugSeparator))
  }

  /** The route `handleClick` pushes for a row. */
  function RowPath(item: Row): string {
    "/vehicle-stats-mng/vehicle-statss/" + item.id + "/" + Slug(item.name)
  }

  /** The collapse leaves no separator behind and never lengthens the text. */
  lemma {:induction false} CollapseLeavesNoRun(s: string, sep: char -> bool)
    requires !sep('-')
    ensures NoneIn(CollapseRuns(s, sep), sep)
    ensures |CollapseRuns(s, sep)| <= |s|
    decreases |s|
  {
    if s == [] {
    } else if sep(s[0]) {
      CollapseLeavesNoRun(s[RunLength(s, sep)..], sep);
    } else {
      CollapseLeavesNoRun(s[1..], sep);
    }
  }

  /** Text without separators is kept as it is. */
  lemma {:induction false} CollapsePlain(s: string, sep: char -> bool)
    requires NoneIn(s, sep)
    ensures CollapseRuns(s, sep) == s
    decreases |s|
  {
    if s != [] {
      assert !sep(s[0]);
      CollapsePlain(s[1..], sep);
    }
  }

  /** A non-empty run of separators becomes a single '-'. */
  lemma CollapseRun(s: string, sep: char -> bool)
    requires s != [] && AllIn(s, sep)
    ensures CollapseRuns(s, sep) == "-"
  {
    assert RunLength(s, sep) == |s|;
  }

  /** The leading run of a concatenation. */
  lemma {:induction false} RunLengthConcat(a: string, b: string, sep: char -> bool)
    ensures RunLength(a, sep) < |a| ==> RunLength(a + b, sep) == RunLength(a, sep)
    ensures RunLength(a, sep) == |a| ==> RunLength(a + b, sep) == |a| + RunLength(b, sep)
    decreases |a|
  {
    if a == [] {
      assert a + b == b;
    } else {
      var ab := a + b;
      assert ab[0] == a[0] && ab[1..] == a[1..] + b;
      RunLengthConcat(a[1..], b, sep);
    }
  }

  /**
   * The collapse of a concatenation is the concatenation of the collapses
   * whenever the split point does not cut a run of separators. With
   * `CollapsePlain` and `CollapseRun` this determines the collapse completely.
   */
  lemma {:induction false} CollapseConcat(a: string, b: string, sep: char -> bool)
    requires a == [] || b == [] || !sep(a[|a| - 1]) || !sep(b[0])
    ensures CollapseRuns(a + b, sep) == CollapseRuns(a, sep) + CollapseRuns(b, sep)
    decreases |a|, 1
  {
    var ab := a + b;
    if a == [] {
      assert ab == b;
    } else if sep(a[0]) {
      CollapseConcatAtRun(a, b, sep);
    } else {
      assert ab[0] == a[0] && ab[1..] == a[1..] + b;
      CollapseConcat(a[1..], b, sep);
    }
  }

  /** The case of `CollapseConcat` where `a` opens with a separator. */
  lemma {:induction false} CollapseConcatAtRun(a: string, b: string, sep: char -> bool)
    requires a != [] && sep(a[0])
    requires b == [] || !sep(a[|a| - 1]) || !sep(b[0])
    ensures CollapseRuns(a + b, sep) == CollapseRuns(a, sep) + CollapseRuns(b, sep)
    decreases |a|, 0
  {
    var n := RunLength(a, sep);
    if n == |a| {
      CollapseConcatWholeRun(a, b, sep);
    } else {
      var ab := a + b;
      assert ab[0] == a[0];
      RunLengthConcat(a, b, sep);
      assert RunLength(ab, sep) == n;
      assert ab[n..] == a[n..] + b;
      assert a[n..][|a[n..]| - 1] == a[|a| - 1];
      CollapseConcat(a[n..], b, sep);
      assert CollapseRuns(ab, sep) == "-" + CollapseRuns(a[n..] + b, sep);
    }
  }

  /** The case of `CollapseConcat` where `a` is a single run of separators. */
  lemma CollapseConcatWholeRun(a: string, b: string, sep: char -> bool)
    requires a != [] && RunLength(a, sep) == |a|
    requires b == [] || !sep(b[0])
    ensures CollapseRuns(a + b, sep) == CollapseRuns(a, sep) + CollapseRuns(b, sep)
  {
    var ab := a + b;
    assert ab[0] == a[0];
    RunLengthConcat(a, b, sep);
    assert ab[|a|..] == b;
    assert a[|a|..] == [];
  }

  /** Lower-casing moves no character into or out of the slug pattern. */
  lemma LowerKeepsSeparators(c: char)
    ensures IsSlugSeparator(JsText.LowerChar(c)) <==> IsSlugSeparator(c)
  {
  }

  /** A slug has no separators and no upper-case ASCII letters, and slugging it again changes nothing. */
  lemma SlugIsNormal(name: string)
    ensures NoneIn(Slug(name), IsSlugSeparator)
    ensures forall i :: 0 <= i < |Slug(name)| ==> !('A' <= Slug(name)[i] <= 'Z')
    ensures Slug(Slug(name)) == Slug(name)
  {
    var c := CollapseRuns(name, IsSlugSeparator);
    CollapseLeavesNoRun(name, IsSlugSeparator);
    var s := Slug(name);
    forall i | 0 <= i < |s| ensures !IsSlugSeparator(s[i]) {
      LowerKeepsSeparators(c[i]);
    }
    CollapsePlain(s, IsSlugSeparator);
    assert JsText.ToLowerAscii(s) == s;
  }

  /** A name that is already lower-case and free of separators is its own slug. */
  lemma SlugOfPlainName(name: string)
    requires NoneIn(name, IsSlugSeparator)
    requires forall i :: 0 <= i < |name| ==> !('A' <= name[i] <= 'Z')
    ensures Slug(name) == name
  {
    CollapsePlain(name, IsSlugSeparator);
  }

  /** The route is the fixed prefix, the row id, `/` and a slug free of separators and ASCII capitals. */
  lemma RowPathShape(item: Row)
    ensures var prefix := "/vehicle-stats-mng/vehicle-statss/";
      var p, n := RowPath(item), |prefix| + |item.id| + 1;
      && |p| >= n && p[..n] == prefix + item.id + "/"
      && NoneIn(p[n..], IsSlugSeparator)
      && forall i :: n <= i < |p| ==> !('A' <= p[i] <= 'Z')
  {
    var prefix := "/vehicle-stats-mng/vehicle-statss/";
    var n := |prefix| + |item.id| + 1;
    var p := RowPath(item);
    SlugIsNormal(item.name);
    assert p == (prefix + item.id + "/") + Slug(item.name);
    assert p[n..] == Slug(item.name);
    forall i | n <= i < |p| ensures !('A' <= p[i] <= 'Z') {
      assert p[i] == Slug(item.name)[i - n];
    }
  }
}
