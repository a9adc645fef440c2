/**
 * The first step of the staging transformer: scraped records that agree on
 * every attribute but their rank (the same movie seen on several category
 * pages) are merged into one group whose rank text is the `","`-join of the
 * records' ranks, in input order. Missing attributes are values like any other
 * (pandas `groupby(..., dropna=False)`), so records with a missing genre list
 * group together.
 */
module Grouping {
  import opened Wrappers
  import opened Text
  import opened Table

  /** Everything a scraped record carries except its rank: the group-by key. */
  datatype Attributes = Attributes(
    title: string,
    url: string,
    releaseYear: string,
    mpaaRating: Option<string>,
    runtime: Option<string>,
    genres: Option<string>,
    imdbRating: Option<string>,
    metascore: Option<string>,
    actors: string,
    directors: string,
    summary: string,
    numVotes: Option<string>,
    gross: Option<string>,
    fileName: string,
    timestamp: CaptureTime)

  /** One scraped record: its rank on one category page, and its attributes. */
  datatype RawRecord = RawRecord(rank: string, attrs: Attributes)

  /** One merged row: the shared attributes and the joined rank text. */
  datatype Group = Group(attrs: Attributes, ranks: string)

  function AttrsOf(raw: seq<RawRecord>): (s: seq<Attributes>)
    ensures |s| == |raw|
    ensures forall i :: 0 <= i < |raw| ==> s[i] == raw[i].attrs
  {
    seq(|raw|, i requires 0 <= i < |raw| => raw[i].attrs)
  }

  /** The groups' keys: the attributes of the groups read back as records. */
  function GroupAttrs(groups: seq<Group>): (s: seq<Attributes>)
    ensures |s| == |groups|
    ensures forall i :: 0 <= i < |groups| ==> s[i] == groups[i].attrs
  {
    AttrsOf(AsRecords(groups))
  }

  /** The distinct group keys, in order of first occurrence. */
  function GroupKeys(raw: seq<RawRecord>): seq<Attributes>
  {
    Distinct(AttrsOf(raw))
  }

  /** The ranks of the records with attributes `a`, in input order. */
  function RanksOf(raw: seq<RawRecord>, a: Attributes): (ranks: seq<string>)
    ensures |ranks| > 0 <==> a in AttrsOf(raw)
    ensures |ranks| <= |raw|
  {
    if raw == [] then []
    else
      var front := raw[..|raw| - 1];
      assert AttrsOf(raw) == AttrsOf(front) + [raw[|raw| - 1].attrs];
      RanksOf(front, a) + (if raw[|raw| - 1].attrs == a then [raw[|raw| - 1].rank] else [])
  }

  /**
   * `df.groupby([...15 attributes...], dropna=False).agg({'imdb_rank': ','.join})`:
   * one group per distinct attribute tuple.
   */
  function Merge(raw: seq<RawRecord>): (groups: seq<Group>)
    ensures NoDuplicates(GroupAttrs(groups))
    ensures forall a :: a in GroupAttrs(groups) <==> a in AttrsOf(raw)
    ensures forall i :: 0 <= i < |groups| ==> |RanksOf(raw, groups[i].attrs)| > 0
  {
    var keys := GroupKeys(raw);
    var groups := seq(|keys|, i requires 0 <= i < |keys| => Group(keys[i], Join(RanksOf(raw, keys[i]), ',')));
    assert GroupAttrs(groups) == keys;
    groups
  }

  // ---------------------------------------------------------------------------
  // each group's rank text splits back into its records' ranks

  lemma {:induction false} RanksAreInputRanks(raw: seq<RawRecord>, a: Attributes)
    ensures forall s :: s in RanksOf(raw, a) ==> exists i :: 0 <= i < |raw| && raw[i].attrs == a && raw[i].rank == s
  {
    if raw != [] {
      var front := raw[..|raw| - 1];
      RanksAreInputRanks(front, a);
      forall s | s in RanksOf(raw, a) ensures exists i :: 0 <= i < |raw| && raw[i].attrs == a && raw[i].rank == s {
        if s in RanksOf(front, a) {
          var i :| 0 <= i < |front| && front[i].attrs == a && front[i].rank == s;
          assert raw[i] == front[i];
        } else {
          assert raw[|raw| - 1].attrs == a && raw[|raw| - 1].rank == s;
        }
      }
    }
  }

  /**
   * When no rank contains a comma, splitting a group's rank text on `","`
   * gives back exactly the ranks of the group's input records, in input order.
   */
  lemma MergedRanksSplit(raw: seq<RawRecord>, i: nat)
    requires forall k :: 0 <= k < |raw| ==> ',' !in raw[k].rank
    requires i < |Merge(raw)|
    ensures Split(Merge(raw)[i].ranks, ',') == RanksOf(raw, Merge(raw)[i].attrs)
  {
    var ranks := RanksOf(raw, Merge(raw)[i].attrs);
    RanksAreInputRanks(raw, Merge(raw)[i].attrs);
    forall j | 0 <= j < |ranks| ensures ',' !in ranks[j] {
      assert ranks[j] in ranks;
    }
    SplitJoin(ranks, ',');
  }

  // ---------------------------------------------------------------------------
  // rank conservation: every input record contributes exactly one rank

  /** The total number of ranks gathered under the given keys. */
  function RankTotal(raw: seq<RawRecord>, keys: seq<Attributes>): nat
  {
    if keys == [] then 0 else RankTotal(raw, keys[..|keys| - 1]) + |RanksOf(raw, keys[|keys| - 1])|
  }

  /** How often `x` occurs in `keys`. */
  function CountIn(keys: seq<Attributes>, x: Attributes): nat
  {
    if keys == [] then 0 else CountIn(keys[..|keys| - 1], x) + (if keys[|keys| - 1] == x then 1 else 0)
  }

  lemma {:induction false} CountInDistinct(keys: seq<Attributes>, x: Attributes)
    requires NoDuplicates(keys)
    ensures CountIn(keys, x) == (if x in keys then 1 else 0)
  {
    if keys != [] {
      var front := keys[..|keys| - 1];
      CountInDistinct(front, x);
      assert keys == front + [keys[|keys| - 1]];
    }
  }

  lemma {:induction false} RankTotalEmpty(keys: seq<Attributes>)
    ensures RankTotal([], keys) == 0
  {
    if keys != [] {
      RankTotalEmpty(keys[..|keys| - 1]);
    }
  }

  lemma {:induction false} RankTotalStep(raw: seq<RawRecord>, keys: seq<Attributes>)
    requires raw != []
    ensures RankTotal(raw, keys) == RankTotal(raw[..|raw| - 1], keys) + CountIn(keys, raw[|raw| - 1].attrs)
  {
    if keys != [] {
      RankTotalStep(raw, keys[..|keys| - 1]);
    }
  }

  lemma {:induction false} RankTotalCovers(raw: seq<RawRecord>, keys: seq<Attributes>)
    requires NoDuplicates(keys)
    requires forall i :: 0 <= i < |raw| ==> raw[i].attrs in keys
    ensures RankTotal(raw, keys) == |raw|
  {
    if raw == [] {
      RankTotalEmpty(keys);
    } else {
      var front := raw[..|raw| - 1];
      RankTotalCovers(front, keys);
      RankTotalStep(raw, keys);
      CountInDistinct(keys, raw[|raw| - 1].attrs);
    }
  }

  /** Summed over all groups, the number of merged ranks equals the number of input records. */
  lemma RanksConserved(raw: seq<RawRecord>)
    ensures RankTotal(raw, GroupAttrs(Merge(raw))) == |raw|
  {
    var keys := GroupAttrs(Merge(raw));
    forall i | 0 <= i < |raw| ensures raw[i].attrs in keys {
      assert AttrsOf(raw)[i] == raw[i].attrs;
    }
    RankTotalCovers(raw, keys);
  }

  /** The number of `","`-separated pieces over all groups' rank texts. */
  function PieceTotal(groups: seq<Group>): nat
  {
    if groups == [] then 0 else PieceTotal(groups[..|groups| - 1]) + |Split(groups[|groups| - 1].ranks, ',')|
  }

  /** Groups whose rank texts split into as many pieces as their keys have ranks sum to the rank total. */
  lemma {:induction false} PieceTotalPrefix(raw: seq<RawRecord>, groups: seq<Group>, n: nat)
    requires n <= |groups|
    requires forall i :: 0 <= i < n ==> |Split(groups[i].ranks, ',')| == |RanksOf(raw, groups[i].attrs)|
    ensures PieceTotal(groups[..n]) == RankTotal(raw, GroupAttrs(groups)[..n])
  {
    if n > 0 {
      PieceTotalPrefix(raw, groups, n - 1);
      assert groups[..n][..n - 1] == groups[..n - 1];
      assert GroupAttrs(groups)[..n][..n - 1] == GroupAttrs(groups)[..n - 1];
    }
  }

  /**
   * With comma-free ranks, the pieces of all joined rank texts together number
   * exactly the input records: merging loses and invents no rank.
   */
  lemma RankPiecesConserved(raw: seq<RawRecord>)
    requires forall k :: 0 <= k < |raw| ==> ',' !in raw[k].rank
    ensures PieceTotal(Merge(raw)) == |raw|
  {
    var groups := Merge(raw);
    forall i | 0 <= i < |groups| ensures |Split(groups[i].ranks, ',')| == |RanksOf(raw, groups[i].attrs)| {
      MergedRanksSplit(raw, i);
    }
    PieceTotalPrefix(raw, groups, |groups|);
    assert groups[..|groups|] == groups;
    assert GroupAttrs(groups)[..|groups|] == GroupAttrs(groups);
    RanksConserved(raw);
  }

  // ---------------------------------------------------------------------------
  // merging merged rows again changes nothing

  /** Merged groups read back as records whose rank is the joined rank text. */
  function AsRecords(groups: seq<Group>): (raw: seq<RawRecord>)
    ensures |raw| == |groups|
    ensures forall i :: 0 <= i < |groups| ==> raw[i] == RawRecord(groups[i].ranks, groups[i].attrs)
  {
    seq(|groups|, i requires 0 <= i < |groups| => RawRecord(groups[i].ranks, groups[i].attrs))
  }

  lemma {:induction false} DistinctOfDistinct(a: seq<Attributes>)
    requires NoDuplicates(a)
    ensures Distinct(a) == a
  {
    if a != [] {
      var front := a[..|a| - 1];
      DistinctOfDistinct(front);
      assert a[|a| - 1] !in front;
      assert Except(a, []) == Except(front, []) + [a[|a| - 1]];
      assert front + [a[|a| - 1]] == a;
    }
  }

  lemma {:induction false} RanksOfUnique(raw: seq<RawRecord>, i: nat)
    requires NoDuplicates(AttrsOf(raw))
    requires i < |raw|
    ensures RanksOf(raw, raw[i].attrs) == [raw[i].rank]
  {
    var front := raw[..|raw| - 1];
    assert AttrsOf(front) == AttrsOf(raw)[..|raw| - 1];
    if i == |raw| - 1 {
      assert raw[i].attrs !in AttrsOf(front);
    } else {
      RanksOfUnique(front, i);
      assert raw[|raw| - 1].attrs != raw[i].attrs by {
        assert AttrsOf(raw)[i] != AttrsOf(raw)[|raw| - 1];
      }
    }
  }

  /** Merging is idempotent: the merged rows already have one row per attribute tuple. */
  lemma MergeIdempotent(raw: seq<RawRecord>)
    ensures Merge(AsRecords(Merge(raw))) == Merge(raw)
  {
    var groups := Merge(raw);
    var again := AsRecords(groups);
    assert AttrsOf(again) == GroupAttrs(groups);
    DistinctOfDistinct(GroupAttrs(groups));
    forall i | 0 <= i < |groups| ensures Join(RanksOf(again, groups[i].attrs), ',') == groups[i].ranks {
      RanksOfUnique(again, i);
    }
  }

  /** A movie listed in two categories with ranks "3" and "7" becomes one row with ranks "3,7". */
  lemma TwoCategoriesMerge(a: Attributes)
    ensures Merge([RawRecord("3", a), RawRecord("7", a)]) == [Group(a, "3,7")]
  {
    var raw := [RawRecord("3", a), RawRecord("7", a)];
    assert raw[..1] == [RawRecord("3", a)];
    assert [RawRecord("3", a)][..0] == [];
    assert RanksOf(raw, a) == ["3", "7"];
    assert AttrsOf(raw) == [a, a];
    assert [a, a][..1] == [a];
    assert [a][..0] == [];
    assert GroupKeys(raw) == [a];
    assert ["3", "7"][1..] == ["7"];
    assert Join(["3", "7"], ',') == "3,7";
    assert Merge(raw)[0] == Group(a, "3,7");
  }
}
