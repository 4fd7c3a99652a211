/**
 * The decisions of the experiment board (src/components/sections/ExperimentBoard.tsx):
 * how the select and search inputs become query filters, the sorted set of
 * tags shown above the results, and what each experiment card shows.
 */
module ExperimentBoard {
  import opened Wrappers
  import opened JsStrings
  import opened Experiments

  // ---------------------------------------------------------------------------
  // Filters passed to the query
  // ---------------------------------------------------------------------------

  /** The filters the board passes: "all" means no domain or status filter, an empty search none. */
  function FilterArgs(domain: string, status: string, search: string): Filters
  {
    Filters(if domain != "all" then Some(domain) else None,
            if status != "all" then Some(status) else None,
            if search != "" then Some(search) else None,
            None)
  }

  /**
   * Together with the query builder: the board asks the server for an equality
   * on a select's value exactly when that value is neither "all" nor empty,
   * and for a text match exactly when the search box is non-empty.
   */
  lemma BoardQueryFilters(domain: string, status: string, search: string)
    ensures EqFor(Some(FilterArgs(domain, status, search)), "domain")
         == if domain == "all" || domain == "" then {} else {domain}
    ensures EqFor(Some(FilterArgs(domain, status, search)), "status")
         == if status == "all" || status == "" then {} else {status}
    ensures Truthy(Search(Some(FilterArgs(domain, status, search)))) <==> search != ""
    ensures FilterArgs(domain, status, search).tags.None?
  {
  }

  // ---------------------------------------------------------------------------
  // The `allTags` memo
  // ---------------------------------------------------------------------------

  /** The tags of one experiment (none when its tags are null). */
  function TagsOf(e: Experiment): set<string>
  {
    if e.tags.Some? then set t | t in e.tags.value else {}
  }

  /** The tags of all the experiments together. */
  function TagUnion(experiments: seq<Experiment>): set<string>
  {
    if experiments == [] then {}
    else TagUnion(experiments[..|experiments| - 1]) + TagsOf(experiments[|experiments| - 1])
  }

  /** A tag is collected exactly when some experiment carries it. */
  lemma {:induction false} TagUnionMembers(experiments: seq<Experiment>, t: string)
    ensures t in TagUnion(experiments) <==> exists e :: e in experiments && e.tags.Some? && t in e.tags.value
  {
    if experiments != [] {
      var init := experiments[..|experiments| - 1];
      var last := experiments[|experiments| - 1];
      TagUnionMembers(init, t);
      assert experiments == init + [last];
      if t in TagsOf(last) {
        assert last in experiments;
      }
      if exists e :: e in experiments && e.tags.Some? && t in e.tags.value {
        var e :| e in experiments && e.tags.Some? && t in e.tags.value;
        if e != last {
          assert e in init;
        }
      }
    }
  }

  /** Each element is strictly below the next, so each occurs once. */
  predicate StrictlySorted(s: seq<string>)
  {
    forall i :: 0 < i < |s| ==> Less(s[i - 1], s[i])
  }

  lemma TakeOne(s: seq<Experiment>, i: nat)
    requires i < |s|
    ensures s[..i + 1][..i] == s[..i] && s[..i + 1][i] == s[i]
  {
  }

  /** The nested `forEach` loops: every tag of every experiment is added to a set. */
  method CollectTags(experiments: seq<Experiment>) returns (tags: set<string>)
    ensures tags == TagUnion(experiments)
  {
    tags := {};
    for i := 0 to |experiments|
      invariant tags == TagUnion(experiments[..i])
    {
      TakeOne(experiments, i);
      var exp := experiments[i];
      if exp.tags.Some? {
        var ts := exp.tags.value;
        for j := 0 to |ts|
          invariant tags == TagUnion(experiments[..i]) + set k | 0 <= k < j :: ts[k]
        {
          tags := tags + {ts[j]};
        }
        assert (set k | 0 <= k < |ts| :: ts[k]) == TagsOf(exp);
      }
    }
    assert experiments[..|experiments|] == experiments;
  }

  /** Inserts a new tag at its place in a strictly sorted sequence. */
  method InsertSorted(sorted: seq<string>, t: string) returns (r: seq<string>)
    requires StrictlySorted(sorted) && t !in sorted
    ensures StrictlySorted(r)
    ensures forall x :: x in r <==> x in sorted || x == t
  {
    var i := 0;
    while i < |sorted| && Less(sorted[i], t)
      invariant 0 <= i <= |sorted|
      invariant forall k :: 0 <= k < i ==> Less(sorted[k], t)
    {
      i := i + 1;
    }
    if i < |sorted| {
      LessTotal(sorted[i], t);
    }
    r := sorted[..i] + [t] + sorted[i..];
    forall k | 0 < k < |r| ensures Less(r[k - 1], r[k]) {
      if k < i {
        assert r[k - 1] == sorted[k - 1] && r[k] == sorted[k];
      } else if k > i + 1 {
        assert r[k - 1] == sorted[k - 2] && r[k] == sorted[k - 1];
      }
    }
    assert sorted == sorted[..i] + sorted[i..];
  }

  /** `Array.from(tags).sort()`: the set's elements in ascending order, whatever order the set yields them in. */
  method SortTags(tags: set<string>) returns (sorted: seq<string>)
    ensures StrictlySorted(sorted)
    ensures forall x :: x in sorted <==> x in tags
  {
    sorted := [];
    var rest := tags;
    while rest != {}
      invariant StrictlySorted(sorted)
      invariant forall x :: x in sorted ==> x in tags && x !in rest
      invariant forall x :: x in tags ==> x in sorted || x in rest
      invariant rest <= tags
      decreases |rest|
    {
      var t :| t in rest;
      sorted := InsertSorted(sorted, t);
      rest := rest - {t};
    }
  }

  /**
   * `allTags`: empty while the experiments are undefined; otherwise every tag
   * of any experiment, each once, in ascending order.
   */
  method AllTags(experiments: Option<seq<Experiment>>) returns (allTags: seq<string>)
    ensures experiments.None? ==> allTags == []
    ensures StrictlySorted(allTags)
    ensures forall t :: t in allTags <==> experiments.Some? && t in TagUnion(experiments.value)
  {
    if experiments.None? {
      return [];
    }
    var tags := CollectTags(experiments.value);
    allTags := SortTags(tags);
  }

  /** In a strictly sorted sequence every earlier element is below every later one. */
  lemma {:induction false} SortedPairwise(s: seq<string>, i: nat, j: nat)
    requires StrictlySorted(s) && i < j < |s|
    ensures Less(s[i], s[j])
    decreases j - i
  {
    if i + 1 < j {
      SortedPairwise(s, i + 1, j);
      LessTransitive(s[i], s[i + 1], s[j]);
    }
  }

  /** No tag appears twice in a strictly sorted sequence. */
  lemma SortedDistinct(s: seq<string>)
    requires StrictlySorted(s)
    ensures forall i, j :: 0 <= i < j < |s| ==> s[i] != s[j]
  {
    forall i, j | 0 <= i < j < |s| ensures s[i] != s[j] {
      SortedPairwise(s, i, j);
      LessIrreflexive(s[i]);
    }
  }

  /**
   * Two strictly sorted sequences with the same elements are equal, so
   * `allTags` does not depend on the order in which tags were collected.
   */
  lemma {:induction false} SortedUnique(s: seq<string>, u: seq<string>)
    requires StrictlySorted(s) && StrictlySorted(u)
    requires forall x :: x in s <==> x in u
    ensures s == u
    decreases |s| + |u|
  {
    if s != [] && u != [] {
      assert u[0] in s && s[0] in u;
      if s[0] != u[0] {
        var i :| 0 <= i < |s| && s[i] == u[0];
        var j :| 0 <= j < |u| && u[j] == s[0];
        SortedPairwise(s, 0, i);
        SortedPairwise(u, 0, j);
        LessTransitive(s[0], u[0], s[0]);
        LessIrreflexive(s[0]);
      }
      SortedDistinct(s);
      SortedDistinct(u);
      forall x ensures x in s[1..] <==> x in u[1..] {
        if x in s[1..] {
          var i :| 1 <= i < |s| && s[i] == x;
          assert x != s[0];
          assert x in u;
          var j :| 0 <= j < |u| && u[j] == x;
          assert j != 0;
        }
        if x in u[1..] {
          var j :| 1 <= j < |u| && u[j] == x;
          assert x != u[0];
          assert x in s;
          var i :| 0 <= i < |s| && s[i] == x;
          assert i != 0;
        }
      }
      SortedUnique(s[1..], u[1..]);
      assert s == [s[0]] + s[1..] && u == [u[0]] + u[1..];
    } else {
      EmptyBoth(s, u);
    }
  }

  lemma EmptyBoth(s: seq<string>, u: seq<string>)
    requires forall x :: x in s <==> x in u
    ensures s == [] <==> u == []
  {
    if s != [] {
      assert s[0] in u;
    }
    if u != [] {
      assert u[0] in s;
    }
  }

  // ---------------------------------------------------------------------------
  // The tag strip and the experiment cards
  // ---------------------------------------------------------------------------

  /** The tag strip: the tags shown and the "+N more" count, when there is one. */
  datatype TagStrip = TagStrip(shown: seq<string>, more: Option<nat>)

  /** The strip is rendered only when there are tags: the first eight, then "+N more" for the rest. */
  function TagStripOf(allTags: seq<string>): Option<TagStrip>
  {
    if |allTags| == 0 then None
    else Some(TagStrip(allTags[..if |allTags| < 8 then |allTags| else 8],
                       if |allTags| > 8 then Some(|allTags| - 8) else None))
  }

  /**
   * The first eight tags are shown, or all of them when there are fewer;
   * "+N more" appears exactly when there are more than eight, N being the
   * number of tags beyond the eighth.
   */
  lemma TagStripSpec(allTags: seq<string>)
    ensures TagStripOf(allTags).None? <==> allTags == []
    ensures TagStripOf(allTags).Some? ==>
              var strip := TagStripOf(allTags).value;
              && |strip.shown| == Min(8, |allTags|)
              && strip.shown == allTags[..|strip.shown|]
              && (strip.more.Some? ==> strip.more.value == |allTags| - 8)
              && (strip.more.Some? <==> |allTags| > 8)
              && |strip.shown| + (if strip.more.Some? then strip.more.value else 0) == |allTags|
  {
  }

  /** `s.replace(/_/g, " ")`. */
  function ReplaceUnderscores(s: string): string
  {
    if s == [] then [] else [if s[0] == '_' then ' ' else s[0]] + ReplaceUnderscores(s[1..])
  }

  /** Every underscore becomes a space and nothing else changes. */
  lemma {:induction false} ReplaceUnderscoresSpec(s: string)
    ensures |ReplaceUnderscores(s)| == |s|
    ensures forall i :: 0 <= i < |s| ==> ReplaceUnderscores(s)[i] == if s[i] == '_' then ' ' else s[i]
    ensures '_' !in ReplaceUnderscores(s)
  {
    if s != [] {
      ReplaceUnderscoresSpec(s[1..]);
      var r := ReplaceUnderscores(s);
      forall i | 0 <= i < |s| ensures r[i] == if s[i] == '_' then ' ' else s[i] {
        if i > 0 {
          assert r[i] == ReplaceUnderscores(s[1..])[i - 1];
        }
      }
    }
  }

  /** Replacing twice is replacing once. */
  lemma {:induction false} ReplaceUnderscoresIdempotent(s: string)
    ensures ReplaceUnderscores(ReplaceUnderscores(s)) == ReplaceUnderscores(s)
  {
    var r := ReplaceUnderscores(s);
    ReplaceUnderscoresSpec(s);
    ReplaceUnderscoresSpec(r);
    assert forall i :: 0 <= i < |r| ==> r[i] != '_';
  }

  /** What a card shows beside the title: the domain label, up to four tags and up to two metrics. */
  datatype Card = Card(domainLabel: string, tags: seq<string>, metrics: seq<(string, string)>)

  function CardOf(e: Experiment): Card
  {
    var tags := if e.tags.Some? then e.tags.value else [];
    var entries := if e.metrics.Some? then e.metrics.value else [];
    var shownEntries := entries[..if |entries| < 2 then |entries| else 2];
    Card(ReplaceUnderscores(e.domain),
         tags[..if |tags| < 4 then |tags| else 4],
         seq(|shownEntries|, i requires 0 <= i < |shownEntries| => (ReplaceUnderscores(shownEntries[i].0), shownEntries[i].1)))
  }

  /**
   * A card shows the first tags, at most four, and the first metric entries,
   * at most two, each key with its underscores turned into spaces and its
   * value kept; the domain label is the domain with its underscores turned
   * into spaces. Null tags and null metrics show nothing.
   */
  lemma CardSpec(e: Experiment)
    ensures var c := CardOf(e);
            && c.domainLabel == ReplaceUnderscores(e.domain) && '_' !in c.domainLabel
            && |c.tags| <= 4
            && (e.tags.Some? ==> c.tags == e.tags.value[..|c.tags|] && |c.tags| == Min(4, |e.tags.value|))
            && (e.tags.None? ==> c.tags == [])
            && |c.metrics| <= 2
            && (e.metrics.None? ==> c.metrics == [])
            && (e.metrics.Some? ==> |c.metrics| == Min(2, |e.metrics.value|))
            && (forall i :: 0 <= i < |c.metrics| ==>
                  && c.metrics[i].0 == ReplaceUnderscores(e.metrics.value[i].0)
                  && c.metrics[i].1 == e.metrics.value[i].1 && '_' !in c.metrics[i].0)
  {
    ReplaceUnderscoresSpec(e.domain);
    var c := CardOf(e);
    forall i | 0 <= i < |c.metrics|
      ensures c.metrics[i].0 == ReplaceUnderscores(e.metrics.value[i].0)
      ensures c.metrics[i].1 == e.metrics.value[i].1 && '_' !in c.metrics[i].0
    {
      ReplaceUnderscoresSpec(e.metrics.value[i].0);
    }
  }

  function Min(a: int, b: int): int
  {
    if a < b then a else b
  }
}
