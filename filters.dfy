/** The `applyFilters` handler: the values read from the search box, the three
    drop-downs and the two date inputs select the disasters whose markers are
    drawn. Dates are abstract integer timestamps: `dateOf` stands for
    `new Date(disaster.reported)` and answers None for an Invalid Date, whose
    comparisons are all false. */
module Filters {
  import opened Text
  import opened Incidents

  /** The wildcard value of the type, severity and state drop-downs. */
  const All := "all"

  /** The filter form as read from the page: the raw search text, the three
      drop-down values and the optional date bounds (None for an empty input). */
  datatype Form = Form(
    search: string,
    kind: string,
    severity: string,
    state: string,
    from: Option<int>,
    to: Option<int>)

  /** The form after the reset button: everything is a wildcard. */
  const Reset := Form("", All, All, All, None, None)

  /** `term` is the search text already lower-cased. */
  predicate MatchesSearch(d: Disaster, term: string)
  {
    term == "" ||
    Contains(Lower(d.title), term) ||
    Contains(Lower(d.description), term) ||
    Contains(Lower(d.location), term)
  }

  predicate MatchesKind(d: Disaster, kind: string)
  {
    kind == All || d.kind == kind
  }

  predicate MatchesSeverity(d: Disaster, severity: string)
  {
    severity == All || d.severity == severity
  }

  /** The state value, with its first '-' turned into a space and NOT
      lower-cased, must occur in the lower-cased location. */
  predicate MatchesState(d: Disaster, state: string)
  {
    state == All || Contains(Lower(d.location), ReplaceFirst(state, '-', ' '))
  }

  /** Inclusive date range; an absent bound does not constrain, and an
      Invalid Date (None) fails every comparison. */
  predicate MatchesDateRange(when: Option<int>, from: Option<int>, to: Option<int>)
  {
    if from.Some? && to.Some? then when.Some? && from.value <= when.value && when.value <= to.value
    else if from.Some? then when.Some? && when.value >= from.value
    else if to.Some? then when.Some? && when.value <= to.value
    else true
  }

  /** The callback handed to `disasters.filter`. */
  predicate Keep(d: Disaster, term: string, f: Form, dateOf: string -> Option<int>)
  {
    && MatchesSearch(d, term)
    && MatchesKind(d, f.kind)
    && MatchesSeverity(d, f.severity)
    && MatchesState(d, f.state)
    && MatchesDateRange(dateOf(d.reported), f.from, f.to)
  }

  /** `ds` with the elements failing Keep dropped, in order (Array.prototype.filter). */
  function Select(ds: seq<Disaster>, term: string, f: Form, dateOf: string -> Option<int>): (r: seq<Disaster>)
    ensures |r| <= |ds|
    ensures forall d :: d in r <==> d in ds && Keep(d, term, f, dateOf)
    ensures forall d :: multiset(r)[d] == if Keep(d, term, f, dateOf) then multiset(ds)[d] else 0
  {
    if ds == [] then []
    else
      var rest := Select(ds[1..], term, f, dateOf);
      assert ds == [ds[0]] + ds[1..];
      if Keep(ds[0], term, f, dateOf) then [ds[0]] + rest else rest
  }

  /** The disasters whose markers `applyFilters` draws. */
  function ApplyFilters(ds: seq<Disaster>, f: Form, dateOf: string -> Option<int>): (r: seq<Disaster>)
    ensures forall d :: d in r <==> d in ds && Keep(d, Lower(f.search), f, dateOf)
  {
    Select(ds, Lower(f.search), f, dateOf)
  }

  /** `a` is `b` with some elements left out, the rest in the same order. */
  predicate SubsequenceOf<T(==)>(a: seq<T>, b: seq<T>)
  {
    a == [] || (b != [] && ((a[0] == b[0] && SubsequenceOf(a[1..], b[1..])) || SubsequenceOf(a, b[1..])))
  }

  /** Filtering never adds, duplicates or reorders records. */
  lemma {:induction false} FilterIsSubsequence(ds: seq<Disaster>, f: Form, dateOf: string -> Option<int>)
    ensures SubsequenceOf(ApplyFilters(ds, f, dateOf), ds)
  {
    SelectIsSubsequence(ds, Lower(f.search), f, dateOf);
  }

  lemma {:induction false} SelectIsSubsequence(ds: seq<Disaster>, term: string, f: Form, dateOf: string -> Option<int>)
    ensures SubsequenceOf(Select(ds, term, f, dateOf), ds)
  {
    if ds != [] {
      SelectIsSubsequence(ds[1..], term, f, dateOf);
    }
  }

  /** Filtering a concatenation filters each part: the kept list is decided
      record by record, in input order. */
  lemma {:induction false} SelectAppend(a: seq<Disaster>, b: seq<Disaster>, term: string, f: Form, dateOf: string -> Option<int>)
    ensures Select(a + b, term, f, dateOf) == Select(a, term, f, dateOf) + Select(b, term, f, dateOf)
  {
    if a != [] {
      assert (a + b)[1..] == a[1..] + b;
      SelectAppend(a[1..], b, term, f, dateOf);
    } else {
      assert a + b == b;
    }
  }

  /** After a reset, every disaster is shown again. */
  lemma {:induction false} ResetKeepsAll(ds: seq<Disaster>, dateOf: string -> Option<int>)
    ensures ApplyFilters(ds, Reset, dateOf) == ds
  {
    assert Lower("") == "";
    SelectAll(ds, dateOf);
  }

  lemma {:induction false} SelectAll(ds: seq<Disaster>, dateOf: string -> Option<int>)
    ensures Select(ds, "", Reset, dateOf) == ds
  {
    if ds != [] {
      assert Keep(ds[0], "", Reset, dateOf);
      SelectAll(ds[1..], dateOf);
      assert ds == [ds[0]] + ds[1..];
    }
  }

  /** Every shown record has exactly the chosen type and severity. */
  lemma KeptMatchesKindAndSeverity(ds: seq<Disaster>, f: Form, dateOf: string -> Option<int>, d: Disaster)
    requires d in ApplyFilters(ds, f, dateOf)
    ensures f.kind != All ==> d.kind == f.kind
    ensures f.severity != All ==> d.severity == f.severity
  {
  }

  /** The search ignores case: a record is shown only if the lower-cased
      search text occurs in its lower-cased title, description or location,
      and the text typed in upper or lower case selects the same records. */
  lemma SearchIgnoresCase(ds: seq<Disaster>, f: Form, dateOf: string -> Option<int>)
    ensures ApplyFilters(ds, f.(search := Lower(f.search)), dateOf) == ApplyFilters(ds, f, dateOf)
    ensures forall d :: d in ApplyFilters(ds, f, dateOf) && f.search != "" ==>
      Contains(Lower(d.title), Lower(f.search)) ||
      Contains(Lower(d.description), Lower(f.search)) ||
      Contains(Lower(d.location), Lower(f.search))
  {
    LowerIdempotent(f.search);
    SelectIgnoresSearchField(ds, Lower(f.search), f, f.(search := Lower(f.search)), dateOf);
  }

  /** Keep reads the search text only through its `term` argument. */
  lemma {:induction false} SelectIgnoresSearchField(ds: seq<Disaster>, term: string, f: Form, g: Form, dateOf: string -> Option<int>)
    requires g == f.(search := g.search)
    ensures Select(ds, term, f, dateOf) == Select(ds, term, g, dateOf)
  {
    if ds != [] {
      SelectIgnoresSearchField(ds[1..], term, f, g, dateOf);
    }
  }

  /** Both date bounds are inclusive, and a missing bound leaves that side open. */
  lemma DateRangeInclusive(ds: seq<Disaster>, f: Form, dateOf: string -> Option<int>, d: Disaster)
    requires d in ds
    requires f.search == "" && f.kind == All && f.severity == All && f.state == All
    requires dateOf(d.reported).Some?
    ensures var t := dateOf(d.reported).value;
      d in ApplyFilters(ds, f, dateOf) <==>
        (f.from.Some? ==> f.from.value <= t) && (f.to.Some? ==> t <= f.to.value)
  {
  }

  /** A record whose date is an Invalid Date is shown only when both date
      inputs are empty. */
  lemma InvalidDateNeedsOpenRange(ds: seq<Disaster>, f: Form, dateOf: string -> Option<int>, d: Disaster)
    requires d in ApplyFilters(ds, f, dateOf)
    requires dateOf(d.reported).None?
    ensures f.from.None? && f.to.None?
  {
  }

  /** The state filter: only the first '-' becomes a space, and the value
      itself is not lower-cased, so a value holding an upper-case letter
      matches no location at all. */
  lemma StateFilterMatch(d: Disaster, state: string)
    requires state != All && MatchesState(d, state)
    ensures '-' in state ==>
      var k := IndexOf(state, '-');
      Contains(Lower(d.location), state[..k] + " " + state[k + 1..])
    ensures '-' !in state ==> Contains(Lower(d.location), state)
    ensures forall i :: 0 <= i < |state| ==> !IsUpper(state[i])
  {
    var hay := Lower(d.location);
    assert forall j :: 0 <= j < |hay| ==> !IsUpper(hay[j]);
    ReplacedValueHasNoUpper(hay, state);
  }

  /** A value that, with its first '-' made a space, is found in a string
      without upper-case letters has no upper-case letter itself. */
  lemma ReplacedValueHasNoUpper(hay: string, state: string)
    requires forall j :: 0 <= j < |hay| ==> !IsUpper(hay[j])
    requires Contains(hay, ReplaceFirst(state, '-', ' '))
    ensures forall i :: 0 <= i < |state| ==> !IsUpper(state[i])
  {
    var needle := ReplaceFirst(state, '-', ' ');
    FoundInLowerHasNoUpper(hay, needle);
    forall i | 0 <= i < |state|
      ensures !IsUpper(state[i])
    {
      if '-' in state && i == IndexOf(state, '-') {
        assert state[i] == '-';
      } else {
        assert state[i] == needle[i];
      }
    }
  }
}
