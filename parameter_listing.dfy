/**
 * `ElementParameters.TrySolveInstance`: the parameters of an element, by
 * group ascending and by id ascending within a group, that pass the
 * optional name, group and read-only filters.
 */
module ParameterListing {
  import opened Wrappers
  import opened Ordering
  import opened Revit

  /**
   * An optional filter input: the datum `DA.GetData` retrieved, if any, and
   * whether the input has sources.
   */
  datatype FilterInput<T> = FilterInput(data: Option<T>, wired: bool)

  /**
   * The filter an input sets up: none when nothing was retrieved and nothing
   * is wired; otherwise the retrieved datum, or the variable's initial value
   * when a wired input yields nothing.
   */
  function FilterOf<T>(input: FilterInput<T>, initial: T): (r: Option<T>)
    ensures r.None? <==> input.data.None? && !input.wired
    ensures input.data.Some? ==> r == input.data
    ensures input.data.None? && input.wired ==> r == Some(initial)
  {
    if input.data.None? && !input.wired then None else Some(input.data.GetOr(initial))
  }

  /** The three filters; the name filter compares with a possibly null name. */
  datatype Filters = Filters(name: Option<Option<string>>, group: Option<int>, readOnly: Option<bool>)

  predicate Passes(h: Handle, f: Filters) {
    && (f.name.None? || f.name.value == NameOf(h))
    && (f.group.None? || f.group.value == GroupOf(h))
    && (f.readOnly.None? || f.readOnly.value == h.readOnly)
  }

  /** The parameters of `s` that pass `f`, in their order in `s`. */
  function Filtered(s: seq<Handle>, f: Filters): seq<Handle> {
    if s == [] then [] else (if Passes(s[0], f) then [s[0]] else []) + Filtered(s[1..], f)
  }

  /** Filtering works one parameter at a time, from the front or from the back. */
  lemma {:induction false} FilteredAppend(s: seq<Handle>, x: Handle, f: Filters)
    ensures Filtered(s + [x], f) == Filtered(s, f) + (if Passes(x, f) then [x] else [])
  {
    if s == [] {
      assert [x][1..] == [];
    } else {
      assert (s + [x])[0] == s[0];
      assert (s + [x])[1..] == s[1..] + [x];
      FilteredAppend(s[1..], x, f);
    }
  }

  /** Filtering keeps exactly the parameters that pass. */
  lemma {:induction false} FilteredMembership(s: seq<Handle>, f: Filters, h: Handle)
    ensures h in Filtered(s, f) <==> h in s && Passes(h, f)
  {
    if s != [] {
      FilteredMembership(s[1..], f, h);
      assert s == [s[0]] + s[1..];
    }
  }

  /** Filtering keeps every occurrence of a parameter that passes and none of one that does not. */
  lemma {:induction false} FilteredCount(s: seq<Handle>, f: Filters, h: Handle)
    ensures multiset(Filtered(s, f))[h] == if Passes(h, f) then multiset(s)[h] else 0
  {
    if s != [] {
      FilteredCount(s[1..], f, h);
      assert s == [s[0]] + s[1..];
      assert multiset(s) == multiset([s[0]]) + multiset(s[1..]);
    }
  }

  /** Filtering a sorted listing leaves it sorted. */
  lemma {:induction false} FilteredSorted(s: seq<Handle>, f: Filters)
    requires SortedBy(s, ListingRank)
    ensures SortedBy(Filtered(s, f), ListingRank)
  {
    if s != [] {
      var x, rest := s[0], s[1..];
      assert SortedBy(rest, ListingRank) by {
        forall i, j | 0 <= i < j < |rest| ensures RankLe(ListingRank(rest[i]), ListingRank(rest[j])) {
          assert rest[i] == s[i + 1] && rest[j] == s[j + 1];
        }
      }
      FilteredSorted(rest, f);
      var kept := Filtered(rest, f);
      if Passes(x, f) {
        var out := [x] + kept;
        forall i, j | 0 <= i < j < |out| ensures RankLe(ListingRank(out[i]), ListingRank(out[j])) {
          if i == 0 {
            assert out[j] == kept[j - 1];
            FilteredMembership(rest, f, kept[j - 1]);
            var m :| 0 <= m < |rest| && rest[m] == kept[j - 1];
            assert s[m + 1] == rest[m];
          } else {
            assert out[i] == kept[i - 1] && out[j] == kept[j - 1];
          }
        }
      }
    }
  }

  /** The order of the listing: group first, then the parameter id. */
  function ListingRank(h: Handle): Rank {
    Rank(GroupOf(h), h.id)
  }

  /**
   * The filter-and-order loop: the parameters of `parameters` that pass `f`,
   * each as often as it occurs, sorted by group and then id.
   */
  method ListParameters(parameters: seq<Handle>, f: Filters) returns (listed: seq<Handle>)
    ensures SortedBy(listed, ListingRank)
    ensures forall h :: h in listed ==> Passes(h, f)
    ensures forall h :: multiset(listed)[h] == if Passes(h, f) then multiset(parameters)[h] else 0
    ensures listed == Filtered(SortBy(parameters, ListingRank), f)
  {
    var ordered := SortBy(parameters, ListingRank);
    listed := [];
    var i := 0;
    while i < |ordered|
      invariant 0 <= i <= |ordered|
      invariant listed == Filtered(ordered[..i], f)
    {
      var param := ordered[i];
      assert ordered[..i + 1] == ordered[..i] + [param];
      FilteredAppend(ordered[..i], param, f);
      if Passes(param, f) {
        listed := listed + [param];
      }
      i := i + 1;
    }
    assert ordered[..i] == ordered;
    SortByCorrect(parameters, ListingRank);
    FilteredSorted(ordered, f);
    forall h ensures (h in listed ==> Passes(h, f))
                  && multiset(listed)[h] == if Passes(h, f) then multiset(parameters)[h] else 0 {
      FilteredMembership(ordered, f, h);
      FilteredCount(ordered, f, h);
    }
  }

  /**
   * `TrySolveInstance` once the element was retrieved: null for a null
   * element; otherwise the filtered, ordered listing. The name filter starts
   * from a null string, the group filter from `INVALID` and the read-only
   * filter from false.
   */
  method TrySolveInstance(element: Option<seq<Handle>>, name: FilterInput<Option<string>>,
                          group: FilterInput<int>, readOnly: FilterInput<bool>)
    returns (parameters: Option<seq<Handle>>)
    ensures element.None? <==> parameters.None?
    ensures parameters.Some? ==>
              var f := Filters(FilterOf(name, None), FilterOf(group, InvalidGroup), FilterOf(readOnly, false));
              && SortedBy(parameters.value, ListingRank)
              && (forall h :: multiset(parameters.value)[h] ==
                                if Passes(h, f) then multiset(element.value)[h] else 0)
              && parameters.value == Filtered(SortBy(element.value, ListingRank), f)
  {
    var f := Filters(FilterOf(name, None), FilterOf(group, InvalidGroup), FilterOf(readOnly, false));
    parameters := None;
    if element.Some? {
      var listed := ListParameters(element.value, f);
      parameters := Some(listed);
    }
  }

  /** Filtering and picking out the parameters of one (group, id) commute. */
  lemma {:induction false} FilteredWithRank(s: seq<Handle>, f: Filters, k: Rank)
    ensures WithRank(Filtered(s, f), ListingRank, k) == Filtered(WithRank(s, ListingRank, k), f)
  {
    if s != [] {
      var x, rest := s[0], s[1..];
      FilteredWithRank(rest, f, k);
      var kept := Filtered(rest, f);
      var tied := WithRank(rest, ListingRank, k);
      if Passes(x, f) {
        assert ([x] + kept)[0] == x && ([x] + kept)[1..] == kept;
      } else {
        assert Filtered(s, f) == kept;
      }
      if ListingRank(x) == k {
        assert ([x] + tied)[0] == x && ([x] + tied)[1..] == tied;
      } else {
        assert WithRank(s, ListingRank, k) == tied;
      }
    }
  }

  /**
   * Parameters that tie on group and id are listed in the order the element
   * enumerates them: the listing's parameters of any one (group, id) are
   * exactly the element's, filtered, in the element's order.
   */
  lemma ListingKeepsTies(parameters: seq<Handle>, f: Filters, k: Rank)
    ensures WithRank(Filtered(SortBy(parameters, ListingRank), f), ListingRank, k)
         == Filtered(WithRank(parameters, ListingRank, k), f)
  {
    FilteredWithRank(SortBy(parameters, ListingRank), f, k);
    SortByStable(parameters, ListingRank, k);
  }
}
