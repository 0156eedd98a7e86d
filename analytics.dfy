/** The counting and sorting done by `initCharts` before the data is handed to
    Chart.js: incidents per type (the pie chart) and incidents per reporting
    day (the line chart). A JavaScript object used as a dictionary is modelled
    by a map together with the order in which its keys were first set, which
    is the order Object.keys and Object.values report them in. */
module Analytics {
  import opened Text
  import opened Incidents

  predicate Distinct<T(==)>(s: seq<T>)
  {
    forall i, j :: 0 <= i < j < |s| ==> s[i] != s[j]
  }

  function Sum(s: seq<nat>): nat
  {
    if s == [] then 0 else s[0] + Sum(s[1..])
  }

  /** The distinct elements of `s`, in order of first appearance. */
  function FirstOccurrences(s: seq<string>): (r: seq<string>)
    ensures Distinct(r)
    ensures forall k :: k in r <==> k in s
  {
    if s == [] then []
    else
      var r := FirstOccurrences(s[..|s| - 1]);
      var k := s[|s| - 1];
      assert forall x :: x in s <==> x in s[..|s| - 1] || x == k by {
        assert s == s[..|s| - 1] + [k];
      }
      if k in r then r else r + [k]
  }

  /** The keys come out in the order in which they first appear. */
  lemma {:induction false} FirstOccurrencesInOrder(s: seq<string>)
    ensures forall i, j :: 0 <= i < j < |FirstOccurrences(s)| ==>
      IndexOf(s, FirstOccurrences(s)[i]) < IndexOf(s, FirstOccurrences(s)[j])
    decreases |s|
  {
    if s != [] {
      var init, k := s[..|s| - 1], s[|s| - 1];
      assert s == init + [k];
      FirstOccurrencesInOrder(init);
      forall x | x in init
        ensures IndexOf(s, x) == IndexOf(init, x)
      {
        var m := IndexOf(init, x);
        assert s[..m] == init[..m];
        IndexOfUnique(s, x, m);
      }
      var r0, r := FirstOccurrences(init), FirstOccurrences(s);
      if k !in init {
        IndexOfUnique(s, k, |init|);
      }
      assert r == if k in r0 then r0 else r0 + [k];
      forall i, j | 0 <= i < j < |r|
        ensures IndexOf(s, r[i]) < IndexOf(s, r[j])
      {
        assert r[i] == r0[i] && r0[i] in init;
        assert IndexOf(s, r[i]) == IndexOf(init, r0[i]) < |init|;
        if j < |r0| {
          assert r[j] == r0[j] && r0[j] in init;
        } else {
          assert r[j] == k && IndexOf(s, k) == |init|;
        }
      }
    }
  }

  /** The `type` of each record, in array order. */
  function Kinds(ds: seq<Disaster>): (r: seq<string>)
    ensures |r| == |ds| && forall i :: 0 <= i < |ds| ==> r[i] == ds[i].kind
  {
    seq(|ds|, i requires 0 <= i < |ds| => ds[i].kind)
  }

  /** `reported.split('T')[0]` of each record, in array order. */
  function DateKeys(ds: seq<Disaster>): (r: seq<string>)
    ensures |r| == |ds| && forall i :: 0 <= i < |ds| ==> r[i] == Before(ds[i].reported, 'T')
  {
    seq(|ds|, i requires 0 <= i < |ds| => Before(ds[i].reported, 'T'))
  }

  /** The `forEach` loop `data[k] = (data[k] || 0) + 1` over `keys`: `count`
      holds the entries of the resulting object and `order` its key order. */
  method Tally(keys: seq<string>) returns (order: seq<string>, count: map<string, nat>)
    ensures order == FirstOccurrences(keys)
    ensures forall k :: k in count <==> k in keys
    ensures forall k :: k in count ==> count[k] == multiset(keys)[k]
  {
    order, count := [], map[];
    var i := 0;
    while i < |keys|
      invariant 0 <= i <= |keys|
      invariant order == FirstOccurrences(keys[..i])
      invariant forall k :: k in count <==> k in keys[..i]
      invariant forall k :: k in count ==> count[k] == multiset(keys[..i])[k]
    {
      var k := keys[i];
      assert keys[..i + 1] == keys[..i] + [k];
      assert keys[..i + 1][..i] == keys[..i];
      if k !in count {
        order := order + [k];
      }
      count := count[k := (if k in count then count[k] else 0) + 1];
      i := i + 1;
    }
    assert keys[..i] == keys;
  }

  /** Raising one entry of a list of counts by one raises its total by one. */
  lemma {:induction false} SumBump(a: seq<nat>, b: seq<nat>, j: nat)
    requires |a| == |b| && j < |a|
    requires b[j] == a[j] + 1
    requires forall i :: 0 <= i < |a| && i != j ==> b[i] == a[i]
    ensures Sum(b) == Sum(a) + 1
  {
    if j > 0 {
      SumBump(a[1..], b[1..], j - 1);
    } else {
      assert a[1..] == b[1..];
    }
  }

  /** Per-key counts over a list of distinct labels that covers every key add
      up to the number of keys. */
  lemma {:induction false} SumOfTallies(labels: seq<string>, keys: seq<string>, counts: seq<nat>)
    requires Distinct(labels) && |counts| == |labels|
    requires forall k :: k in keys ==> k in labels
    requires forall i :: 0 <= i < |labels| ==> counts[i] == multiset(keys)[labels[i]]
    ensures Sum(counts) == |keys|
    decreases |keys|
  {
    if keys == [] {
      SumZero(counts);
    } else {
      var init := keys[..|keys| - 1];
      var last := keys[|keys| - 1];
      assert keys == init + [last];
      var before := seq(|labels|, i requires 0 <= i < |labels| => multiset(init)[labels[i]]);
      SumOfTallies(labels, init, before);
      assert last in keys;
      var j :| 0 <= j < |labels| && labels[j] == last;
      SumBump(before, counts, j);
    }
  }

  lemma {:induction false} SumZero(s: seq<nat>)
    requires forall i :: 0 <= i < |s| ==> s[i] == 0
    ensures Sum(s) == 0
  {
    if s != [] {
      SumZero(s[1..]);
    }
  }

  /** A list with the same elements, counted with multiplicity, as a list
      without repetitions has no repetitions either. */
  lemma DistinctPermutation(a: seq<string>, b: seq<string>)
    requires Distinct(a) && multiset(a) == multiset(b)
    ensures Distinct(b)
  {
    forall x
      ensures multiset(a)[x] <= 1
    {
      DistinctAtMostOnce(a, x);
    }
    forall i, j | 0 <= i < j < |b|
      ensures b[i] != b[j]
    {
      assert b == b[..j] + b[j..];
      assert b[i] in b[..j] && b[j] in b[j..];
      assert multiset(b)[b[j]] == multiset(b[..j])[b[j]] + multiset(b[j..])[b[j]];
    }
  }

  lemma {:induction false} DistinctAtMostOnce(a: seq<string>, x: string)
    requires Distinct(a)
    ensures multiset(a)[x] <= 1
  {
    if a != [] {
      assert a == [a[0]] + a[1..];
      DistinctAtMostOnce(a[1..], x);
    }
  }

  predicate Ascending(s: seq<string>)
  {
    forall i, j :: 0 <= i < j < |s| ==> LexLeq(s[i], s[j])
  }

  /** One insertion step: `x` goes after every element that is not greater. */
  method Insert(s: seq<string>, x: string) returns (r: seq<string>)
    requires Ascending(s)
    ensures Ascending(r)
    ensures multiset(r) == multiset(s) + multiset{x}
  {
    var p := 0;
    while p < |s| && LexLeq(s[p], x)
      invariant 0 <= p <= |s|
      invariant forall k :: 0 <= k < p ==> LexLeq(s[k], x)
    {
      p := p + 1;
    }
    if p < |s| {
      LexLeqTotal(s[p], x);
      forall k | p <= k < |s|
        ensures LexLeq(x, s[k])
      {
        if k > p {
          LexLeqTransitive(x, s[p], s[k]);
        }
      }
    }
    r := s[..p] + [x] + s[p..];
    assert s == s[..p] + s[p..];
  }

  /** Array.prototype.sort with the default comparison, as an insertion sort. */
  method Sort(xs: seq<string>) returns (ys: seq<string>)
    ensures Ascending(ys)
    ensures multiset(ys) == multiset(xs)
  {
    ys := [];
    for i := 0 to |xs|
      invariant Ascending(ys)
      invariant multiset(ys) == multiset(xs[..i])
    {
      assert xs[..i + 1] == xs[..i] + [xs[i]];
      ys := Insert(ys, xs[i]);
    }
    assert xs[..|xs|] == xs;
  }

  /** Two ascending lists with the same elements are equal: whatever algorithm
      the default sort uses, its result is the one ascending permutation. */
  lemma {:induction false} AscendingPermutationUnique(a: seq<string>, b: seq<string>)
    requires Ascending(a) && Ascending(b) && multiset(a) == multiset(b)
    ensures a == b
    decreases |a|
  {
    if a == [] {
      assert |multiset(b)| == 0;
    } else {
      assert a[0] in multiset(b) && b != [];
      AscendingHeadLeast(a, b[0]);
      AscendingHeadLeast(b, a[0]);
      LexLeqAntisymmetric(a[0], b[0]);
      RemoveHead(a);
      RemoveHead(b);
      AscendingPermutationUnique(a[1..], b[1..]);
    }
  }

  /** The head of an ascending list is not greater than any of its elements. */
  lemma AscendingHeadLeast(a: seq<string>, x: string)
    requires Ascending(a) && x in multiset(a)
    ensures LexLeq(a[0], x)
  {
    var i :| 0 <= i < |a| && a[i] == x;
    if i == 0 {
      LexLeqReflexive(x);
    }
  }

  lemma RemoveHead(a: seq<string>)
    requires Ascending(a) && a != []
    ensures Ascending(a[1..]) && multiset(a[1..]) == multiset(a) - multiset{a[0]}
  {
    assert a == [a[0]] + a[1..];
  }

  /** The pie chart's data: one label per distinct type, in order of first
      appearance and capitalised, with the number of records of that type;
      the counts add up to the number of records. */
  method CountByType(ds: seq<Disaster>) returns (labels: seq<string>, counts: seq<nat>)
    ensures var kinds := FirstOccurrences(Kinds(ds));
      && |labels| == |kinds| == |counts|
      && (forall i :: 0 <= i < |kinds| ==> labels[i] == Capitalize(kinds[i]))
      && (forall i :: 0 <= i < |kinds| ==> counts[i] == multiset(Kinds(ds))[kinds[i]])
    ensures Sum(counts) == |ds|
  {
    var order, typeData := Tally(Kinds(ds));
    labels := seq(|order|, i requires 0 <= i < |order| => Capitalize(order[i]));
    counts := seq(|order|, i requires 0 <= i < |order| => typeData[order[i]]);
    SumOfTallies(order, Kinds(ds), counts);
  }

  /** The line chart's data: the distinct reporting days in ascending order,
      each with the number of records reported that day; the counts add up to
      the number of records. */
  method CountByDate(ds: seq<Disaster>) returns (dates: seq<string>, counts: seq<nat>)
    ensures forall i, j :: 0 <= i < j < |dates| ==> LexLeq(dates[i], dates[j]) && dates[i] != dates[j]
    ensures forall k :: k in dates <==> k in DateKeys(ds)
    ensures |counts| == |dates|
    ensures forall i :: 0 <= i < |dates| ==> counts[i] == multiset(DateKeys(ds))[dates[i]]
    ensures Sum(counts) == |ds|
  {
    var keys := DateKeys(ds);
    var order, timeData := Tally(keys);
    dates := Sort(order);
    DistinctPermutation(order, dates);
    assert forall k :: k in dates <==> k in order by {
      forall k ensures k in dates <==> k in order {
        assert k in dates <==> k in multiset(dates);
        assert k in order <==> k in multiset(order);
      }
    }
    counts := seq(|dates|, i requires 0 <= i < |dates| => timeData[dates[i]]);
    SumOfTallies(dates, keys, counts);
  }
}
