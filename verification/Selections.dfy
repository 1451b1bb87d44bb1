/** Choosing categories on the command line and narrowing sources to them
    (cmd/mkdatabase/category.go). */
module Selections {
  import opened Prefixes
  import opened Categories
  import opened RepoFiles

  /** categorySet: a name mapped to false is unselected, like a missing one. */
  type CategorySet = map<string, bool>

  predicate Selects(cs: CategorySet, category: string) { category in cs && cs[category] }

  /** A selection holding known categories only, as parseCategories returns. */
  ghost predicate OnlyKnown(cs: CategorySet) {
    forall c :: Selects(cs, c) ==> Known(c)
  }

  ghost predicate SelectsAll(cs: CategorySet) {
    forall c :: Selects(cs, c) <==> Known(c)
  }

  method ParseCategories(flags: seq<string>) returns (cs: Option<CategorySet>)
    ensures flags == [] ==> cs.Some? && SelectsAll(cs.value)
    ensures flags != [] ==> (cs.Some? <==> forall f :: f in flags ==> Known(f))
    ensures flags != [] && cs.Some? ==> forall c :: Selects(cs.value, c) <==> c in flags
    ensures cs.Some? ==> OnlyKnown(cs.value)
  {
    var m: CategorySet := map[];
    if flags == [] {
      for i := 0 to |ALL_CATEGORIES|
        invariant forall c :: Selects(m, c) <==> c in ALL_CATEGORIES[..i]
      {
        m := m[ALL_CATEGORIES[i] := true];
        assert ALL_CATEGORIES[..i + 1] == ALL_CATEGORIES[..i] + [ALL_CATEGORIES[i]];
      }
      assert ALL_CATEGORIES[..|ALL_CATEGORIES|] == ALL_CATEGORIES;
      return Some(m);
    }
    for i := 0 to |flags|
      invariant forall c :: Selects(m, c) <==> c in flags[..i]
      invariant forall f :: f in flags[..i] ==> Known(f)
    {
      if flags[i] !in ALL_CATEGORIES {
        assert flags[i] in flags && !Known(flags[i]);
        return None;
      }
      m := m[flags[i] := true];
      assert flags[..i + 1] == flags[..i] + [flags[i]];
    }
    assert flags[..|flags|] == flags;
    cs := Some(m);
  }

  /** The elements of s that keep accepts, in order. */
  function Kept<T(!new)>(s: seq<T>, keep: T -> bool): (r: seq<T>)
    ensures forall x :: x in r <==> x in s && keep(x)
  {
    if s == [] then []
    else if keep(s[|s| - 1]) then Kept(s[..|s| - 1], keep) + [s[|s| - 1]]
    else Kept(s[..|s| - 1], keep)
  }

  function InSelection(cs: CategorySet): ListSpec -> bool {
    (ls: ListSpec) => Selects(cs, ls.category)
  }

  function NameSelected(cs: CategorySet): string -> bool {
    (c: string) => Selects(cs, c)
  }

  method SelectLists(cs: CategorySet, lists: seq<ListSpec>) returns (out: seq<ListSpec>)
    ensures out == Kept(lists, InSelection(cs))
    ensures forall ls :: ls in out <==> ls in lists && ls.category in cs && cs[ls.category]
  {
    out := [];
    for i := 0 to |lists|
      invariant out == Kept(lists[..i], InSelection(cs))
    {
      assert lists[..i + 1][..i] == lists[..i];
      if Selects(cs, lists[i].category) {
        out := out + [lists[i]];
      }
    }
    assert lists[..|lists|] == lists;
  }

  method Intersect(cs: CategorySet, categories: seq<string>) returns (out: seq<string>)
    ensures out == Kept(categories, NameSelected(cs))
    ensures forall c :: c in out <==> c in categories && c in cs && cs[c]
  {
    out := [];
    for i := 0 to |categories|
      invariant out == Kept(categories[..i], NameSelected(cs))
    {
      assert categories[..i + 1][..i] == categories[..i];
      if Selects(cs, categories[i]) {
        out := out + [categories[i]];
      }
    }
    assert categories[..|categories|] == categories;
  }

  /** selected: in allCategories order. */
  function Selected(cs: CategorySet): seq<string> { Kept(ALL_CATEGORIES, NameSelected(cs)) }

  /** The mask of a selection. */
  function SelectionMask(cs: CategorySet): CategoryByte { MaskOf(Selected(cs)) }

  /** A list's one-category mask meets the selection's mask exactly when the list is selected. */
  lemma SelectionByMask(cs: CategorySet, category: string)
    requires OnlyKnown(cs)
    ensures Has(MaskOf([category]), SelectionMask(cs)) <==> Selects(cs, category)
  {
    MaskOfOne(category);
    BitMeetsMask(category, Selected(cs));
  }
}
