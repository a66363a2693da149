/** The related levels of a record: a breadth-first layering of the relation
    graph around it, as `RecordManager.createLevelsForRecords` builds them. */
module Layering {
  import opened Records
  import opened Sequences

  /** Who is related to whom: each stored record's relations, by key. */
  type Graph = map<RecordKey, set<RecordKey>>

  /** `RelatedLevels`: one set of records per level. */
  type Levels = seq<set<RecordKey>>

  /** `relatedRecords()` of the record with key `k`; none for an unknown key. */
  function Relatives(g: Graph, k: RecordKey): set<RecordKey> {
    if k in g then g[k] else {}
  }

  /** `levels(_:contains:)` as a property. */
  predicate InLevels(levels: Levels, k: RecordKey) {
    exists i :: 0 <= i < |levels| && k in levels[i]
  }

  /** The relatives of the members of `from` that are in no level yet and are
      not the root. */
  function Candidates(g: Graph, root: RecordKey, levels: Levels, from: set<RecordKey>): set<RecordKey> {
    set e, r | e in from && r in Relatives(g, e) && !InLevels(levels, r) && r != root :: r
  }

  /** The level that follows the last one. */
  function NextLevel(g: Graph, root: RecordKey, levels: Levels): set<RecordKey>
    requires |levels| > 0
  {
    Candidates(g, root, levels, levels[|levels| - 1])
  }

  /** The next level holds exactly the relatives of the last level's members
      that are in no level yet and are not the root. */
  lemma NextLevelMembers(g: Graph, root: RecordKey, levels: Levels, r: RecordKey)
    requires |levels| > 0
    ensures r in NextLevel(g, root, levels) <==>
              !InLevels(levels, r) && r != root
              && exists e :: e in levels[|levels| - 1] && r in Relatives(g, e)
  {
  }

  /** Adds levels until `maxLevels` are present or the next one is empty. */
  function Layer(g: Graph, root: RecordKey, levels: Levels, maxLevels: nat): Levels
    requires 1 <= |levels| <= maxLevels
    decreases maxLevels - |levels|
  {
    if |levels| == maxLevels then levels
    else
      var next := NextLevel(g, root, levels);
      if next == {} then levels else Layer(g, root, levels + [next], maxLevels)
  }

  /** The levels `createLevelsForRecords` builds for `root`; `maxLevels` is
      `NodeCluster.maxRelatedLevels`. */
  function RelatedLevels(g: Graph, root: RecordKey, maxLevels: nat): (levels: Levels)
    requires maxLevels >= 1
    ensures 1 <= |levels| <= maxLevels
    ensures levels[0] == Relatives(g, root)
  {
    LayerLayered(g, root, [Relatives(g, root)], maxLevels);
    Layer(g, root, [Relatives(g, root)], maxLevels)
  }

  /** Level 0 is the root's relatives; every later level is non-empty and is
      the next level of the ones before it. */
  predicate Layered(g: Graph, root: RecordKey, levels: Levels) {
    |levels| >= 1
    && levels[0] == Relatives(g, root)
    && forall i :: 1 <= i < |levels| ==> levels[i] != {} && levels[i] == NextLevel(g, root, levels[..i])
  }

  /** Layering stops either at the limit or because the next level is empty. */
  predicate Complete(g: Graph, root: RecordKey, levels: Levels, maxLevels: nat) {
    |levels| >= 1 && (|levels| == maxLevels || NextLevel(g, root, levels) == {})
  }

  lemma {:induction false} LayerLayered(g: Graph, root: RecordKey, levels: Levels, maxLevels: nat)
    requires 1 <= |levels| <= maxLevels
    requires Layered(g, root, levels)
    ensures var r := Layer(g, root, levels, maxLevels);
            Layered(g, root, r) && Complete(g, root, r, maxLevels) && |r| <= maxLevels
            && levels <= r
    decreases maxLevels - |levels|
  {
    if |levels| < maxLevels {
      var next := NextLevel(g, root, levels);
      if next != {} {
        var longer := levels + [next];
        assert longer[..|levels|] == levels;
        forall i | 1 <= i < |longer|
          ensures longer[i] != {} && longer[i] == NextLevel(g, root, longer[..i])
        {
          if i < |levels| {
            assert longer[..i] == levels[..i];
          }
        }
        LayerLayered(g, root, longer, maxLevels);
      }
    }
  }

  /** The levels of a record are layered, complete and at most `maxLevels`
      long; level 0 is present even when empty. */
  lemma RelatedLevelsLayered(g: Graph, root: RecordKey, maxLevels: nat)
    requires maxLevels >= 1
    ensures var r := RelatedLevels(g, root, maxLevels);
            Layered(g, root, r) && Complete(g, root, r, maxLevels) && 1 <= |r| <= maxLevels
            && r[0] == Relatives(g, root)
  {
    LayerLayered(g, root, [Relatives(g, root)], maxLevels);
  }

  /** A member of a later level is a relative of the previous level, is in no
      earlier level and is not the root. */
  lemma LayeredMembers(g: Graph, root: RecordKey, levels: Levels, i: nat, r: RecordKey)
    requires Layered(g, root, levels)
    requires 1 <= i < |levels| && r in levels[i]
    ensures exists e :: e in levels[i - 1] && r in Relatives(g, e)
    ensures r != root
    ensures forall j :: 0 <= j < i ==> r !in levels[j]
  {
    assert levels[..i][i - 1] == levels[i - 1];
    forall j | 0 <= j < i
      ensures r !in levels[j]
    {
      assert levels[..i][j] == levels[j];
    }
  }

  /** The levels are pairwise disjoint. */
  lemma LayeredDisjoint(g: Graph, root: RecordKey, levels: Levels)
    requires Layered(g, root, levels)
    ensures forall i, j :: 0 <= i < j < |levels| ==> levels[i] * levels[j] == {}
  {
    forall i, j | 0 <= i < j < |levels|
      ensures levels[i] * levels[j] == {}
    {
      forall r | r in levels[j]
        ensures r !in levels[i]
      {
        LayeredMembers(g, root, levels, j, r);
      }
    }
  }

  /** Two layerings of the same root agree on their common prefix. */
  lemma {:induction false} LayeredPrefixesAgree(g: Graph, root: RecordKey, a: Levels, b: Levels, n: nat)
    requires Layered(g, root, a) && Layered(g, root, b)
    requires 1 <= n <= |a| && n <= |b|
    ensures a[..n] == b[..n]
  {
    if n > 1 {
      LayeredPrefixesAgree(g, root, a, b, n - 1);
      var prefix := a[..n - 1];
      assert b[..n - 1] == prefix;
      LayeredStep(g, root, a, n - 1);
      LayeredStep(g, root, b, n - 1);
      assert a[..n] == prefix + [a[n - 1]];
      assert b[..n] == prefix + [b[n - 1]];
    }
  }

  /** Each level after the first is the next level of those before it. */
  lemma LayeredStep(g: Graph, root: RecordKey, levels: Levels, i: nat)
    requires Layered(g, root, levels) && 1 <= i < |levels|
    ensures levels[i] == NextLevel(g, root, levels[..i])
  {
  }

  /** A longer layering continues a shorter one with a non-empty next level. */
  lemma LayeredExtends(g: Graph, root: RecordKey, a: Levels, b: Levels)
    requires Layered(g, root, a) && Layered(g, root, b) && |a| < |b|
    ensures b[|a|] == NextLevel(g, root, a) && b[|a|] != {}
  {
    LayeredPrefixesAgree(g, root, a, b, |a|);
    assert a == b[..|a|];
  }

  /** The levels are the only layered, complete sequence within the limit: the
      layering is determined by the graph. */
  lemma LayeredUnique(g: Graph, root: RecordKey, a: Levels, b: Levels, maxLevels: nat)
    requires Layered(g, root, a) && Complete(g, root, a, maxLevels) && |a| <= maxLevels
    requires Layered(g, root, b) && Complete(g, root, b, maxLevels) && |b| <= maxLevels
    ensures a == b
  {
    if |a| < |b| {
      LayeredExtends(g, root, a, b);
    } else if |b| < |a| {
      LayeredExtends(g, root, b, a);
    } else {
      LayeredPrefixesAgree(g, root, a, b, |a|);
      assert a == a[..|a|] && b == b[..|b|];
    }
  }

  /** `levels(_:contains:)`: a loop over the levels with an early return. */
  method LevelsContain(levels: Levels, record: RecordKey) returns (found: bool)
    ensures found <==> InLevels(levels, record)
  {
    for i := 0 to |levels|
      invariant forall j :: 0 <= j < i ==> record !in levels[j]
    {
      if record in levels[i] {
        return true;
      }
    }
    return false;
  }

  /** The body of `createLevelsForRecords` for one record: level 0, then one
      level per pass until the limit or the first empty level. */
  method LevelsForRecord(g: Graph, root: RecordKey, maxLevels: nat) returns (levels: Levels)
    requires maxLevels >= 1
    ensures levels == RelatedLevels(g, root, maxLevels)
  {
    levels := [Relatives(g, root)];
    var level := 1;
    while level < maxLevels
      invariant 1 <= level <= maxLevels && |levels| == level
      invariant Layer(g, root, levels, maxLevels) == RelatedLevels(g, root, maxLevels)
    {
      var recordsForLevel := NextLevelOf(g, root, levels);
      if recordsForLevel == {} {
        return;
      }
      levels := levels + [recordsForLevel];
      level := level + 1;
    }
  }

  /** One pass: every relative of every member of the previous level that no
      level holds yet and that is not the root. */
  method NextLevelOf(g: Graph, root: RecordKey, levels: Levels) returns (recordsForLevel: set<RecordKey>)
    requires |levels| > 0
    ensures recordsForLevel == NextLevel(g, root, levels)
  {
    var previous := Enumerate(levels[|levels| - 1]);
    recordsForLevel := {};
    for a := 0 to |previous|
      invariant recordsForLevel <= NextLevel(g, root, levels)
      invariant forall x, r :: 0 <= x < a && r in Relatives(g, previous[x]) && !InLevels(levels, r) && r != root
                  ==> r in recordsForLevel
    {
      var related := Enumerate(Relatives(g, previous[a]));
      for b := 0 to |related|
        invariant recordsForLevel <= NextLevel(g, root, levels)
        invariant forall x, r :: 0 <= x < a && r in Relatives(g, previous[x]) && !InLevels(levels, r) && r != root
                    ==> r in recordsForLevel
        invariant forall y :: 0 <= y < b && !InLevels(levels, related[y]) && related[y] != root
                    ==> related[y] in recordsForLevel
      {
        var relatedRecord := related[b];
        var known := LevelsContain(levels, relatedRecord);
        if !known && relatedRecord != root {
          recordsForLevel := recordsForLevel + {relatedRecord};
        }
      }
    }
  }
}
