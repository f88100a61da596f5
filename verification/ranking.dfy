/**
 The post-processing both scoring scripts share: a stable sort by score,
 highest first (Python's `list.sort(key=..., reverse=True)`), 1-based ranks
 (`enumerate(questions, 1)`), and the three score tiers built by list
 comprehensions over the ranked list.

 The module is generic in the item type; the score is read through a `key`
 function into `real`, which covers both the integer keyword score and the
 real-valued alignment score.
 */
module Ranking {

  /** An item together with the 1-based position it was given after sorting. */
  datatype Ranked<T> = Ranked(item: T, rank: nat)

  /** Scores never increase from left to right. */
  predicate NonIncreasing<T>(s: seq<T>, key: T -> real) {
    forall i, j :: 0 <= i < j < |s| ==> key(s[i]) >= key(s[j])
  }

  /** The subsequence of the elements of `s` whose score is exactly `k`. Two
      sequences with the same `WithKey` for every `k` list the elements of each
      score in the same relative order. */
  function WithKey<T>(s: seq<T>, key: T -> real, k: real): (r: seq<T>)
    ensures forall i :: 0 <= i < |r| ==> key(r[i]) == k
  {
    if |s| == 0 then []
    else (if key(s[0]) == k then [s[0]] else []) + WithKey(s[1..], key, k)
  }

  // ---------------------------------------------------------------------
  // Stable insertion sort, highest score first

  /** Inserts `x`, which came before every element of `s` in the input, in
      front of the first element whose score does not exceed its own. */
  function Insert<T>(x: T, s: seq<T>, key: T -> real): seq<T>
  {
    if |s| == 0 || key(s[0]) <= key(x) then [x] + s
    else [s[0]] + Insert(x, s[1..], key)
  }

  function SortDesc<T>(s: seq<T>, key: T -> real): seq<T>
  {
    if |s| == 0 then [] else Insert(s[0], SortDesc(s[1..], key), key)
  }

  lemma {:induction false} InsertPermutes<T>(x: T, s: seq<T>, key: T -> real)
    ensures multiset(Insert(x, s, key)) == multiset{x} + multiset(s)
  {
    if |s| == 0 || key(s[0]) <= key(x) {
    } else {
      InsertPermutes(x, s[1..], key);
      assert s == [s[0]] + s[1..];
    }
  }

  lemma {:induction false} InsertSorted<T>(x: T, s: seq<T>, key: T -> real)
    requires NonIncreasing(s, key)
    ensures NonIncreasing(Insert(x, s, key), key)
  {
    if |s| == 0 || key(s[0]) <= key(x) {
    } else {
      var t := Insert(x, s[1..], key);
      InsertSorted(x, s[1..], key);
      InsertPermutes(x, s[1..], key);
      forall y | y in t
        ensures key(y) <= key(s[0])
      {
        assert y in multiset(t);
        if y != x {
          assert y in multiset(s[1..]);
        }
      }
    }
  }

  /** Inserting `x` puts it ahead of every element with its score and leaves
      all other scores' subsequences alone. */
  lemma {:induction false} InsertWithKey<T>(x: T, s: seq<T>, key: T -> real, k: real)
    requires NonIncreasing(s, key)
    ensures WithKey(Insert(x, s, key), key, k)
         == (if key(x) == k then [x] else []) + WithKey(s, key, k)
  {
    if |s| == 0 || key(s[0]) <= key(x) {
      assert ([x] + s)[1..] == s;
    } else {
      var t := Insert(x, s[1..], key);
      var w := WithKey(s[1..], key, k);
      var head: seq<T> := if key(s[0]) == k then [s[0]] else [];
      var mine: seq<T> := if key(x) == k then [x] else [];
      InsertWithKey(x, s[1..], key, k);
      assert ([s[0]] + t)[1..] == t;
      assert WithKey(Insert(x, s, key), key, k) == head + (mine + w);
      assert WithKey(s, key, k) == head + w;
      SwapEmpty(head, mine, w);
    }
  }

  lemma SwapEmpty<T>(a: seq<T>, b: seq<T>, w: seq<T>)
    requires a == [] || b == []
    ensures a + (b + w) == b + (a + w)
  {
    if a == [] {
      assert a + (b + w) == b + w && a + w == w;
    } else {
      assert b + w == w && b + (a + w) == a + w;
    }
  }

  lemma {:induction false} SortDescProperties<T>(s: seq<T>, key: T -> real)
    ensures multiset(SortDesc(s, key)) == multiset(s)
    ensures NonIncreasing(SortDesc(s, key), key)
    ensures forall k :: WithKey(SortDesc(s, key), key, k) == WithKey(s, key, k)
  {
    if |s| == 0 {
    } else {
      var t := SortDesc(s[1..], key);
      SortDescProperties(s[1..], key);
      InsertPermutes(s[0], t, key);
      InsertSorted(s[0], t, key);
      assert s == [s[0]] + s[1..];
      forall k
        ensures WithKey(SortDesc(s, key), key, k) == WithKey(s, key, k)
      {
        InsertWithKey(s[0], t, key, k);
      }
    }
  }

  // ---------------------------------------------------------------------
  // Ranks

  /** `enumerate(s, start)`: pairs each item with its position counted from
      `start`. */
  function Enumerate<T>(s: seq<T>, start: nat): (r: seq<Ranked<T>>)
    ensures |r| == |s|
    ensures forall i :: 0 <= i < |s| ==> r[i] == Ranked(s[i], start + i)
  {
    if |s| == 0 then [] else [Ranked(s[0], start)] + Enumerate(s[1..], start + 1)
  }

  function Items<T>(r: seq<Ranked<T>>): (s: seq<T>)
    ensures |s| == |r|
    ensures forall i :: 0 <= i < |r| ==> s[i] == r[i].item
  {
    if |r| == 0 then [] else [r[0].item] + Items(r[1..])
  }

  /** Sorts highest score first, keeping input order among equal scores, then
      numbers the result 1, 2, ..., n. */
  function SortAndRank<T>(s: seq<T>, key: T -> real): (r: seq<Ranked<T>>)
    ensures |r| == |s|
    ensures forall i :: 0 <= i < |r| ==> r[i].rank == i + 1
    ensures multiset(Items(r)) == multiset(s)
    ensures NonIncreasing(Items(r), key)
    ensures forall k :: WithKey(Items(r), key, k) == WithKey(s, key, k)
  {
    var sorted := SortDesc(s, key);
    SortDescProperties(s, key);
    assert |sorted| == |multiset(sorted)| == |s|;
    var r := Enumerate(sorted, 1);
    assert Items(r) == sorted;
    r
  }

  // ---------------------------------------------------------------------
  // Tiers

  datatype Tier = High | Medium | Low

  /** The tier of score `v` given the high threshold `hi` and the medium
      threshold `mid`. */
  function TierOf(v: real, hi: real, mid: real): (t: Tier)
    requires mid <= hi
    ensures t == High <==> v >= hi
    ensures t == Medium <==> mid <= v < hi
    ensures t == Low <==> v < mid
  {
    if v >= hi then High else if v >= mid then Medium else Low
  }

  /** `[q for q in s if <q's score lies in tier t>]`. */
  function TierMembers<T(!new)>(s: seq<T>, key: T -> real, hi: real, mid: real, t: Tier): (r: seq<T>)
    requires mid <= hi
    ensures forall i :: 0 <= i < |r| ==> TierOf(key(r[i]), hi, mid) == t
  {
    if |s| == 0 then []
    else (if TierOf(key(s[0]), hi, mid) == t then [s[0]] else []) + TierMembers(s[1..], key, hi, mid, t)
  }

  /** An element is in tier `t` exactly when it occurs in `s` with a score in
      that tier. */
  lemma {:induction false} TierMembership<T(!new)>(s: seq<T>, key: T -> real, hi: real, mid: real, t: Tier)
    requires mid <= hi
    ensures forall x :: x in TierMembers(s, key, hi, mid, t) <==> x in s && TierOf(key(x), hi, mid) == t
  {
    if |s| > 0 {
      TierMembership(s[1..], key, hi, mid, t);
      assert s == [s[0]] + s[1..];
    }
  }

  datatype Tiers<T> = Tiers(high: seq<T>, medium: seq<T>, low: seq<T>)

  function Partition<T(!new)>(s: seq<T>, key: T -> real, hi: real, mid: real): (p: Tiers<T>)
    requires mid <= hi
    ensures forall x :: x in p.high <==> x in s && key(x) >= hi
    ensures forall x :: x in p.medium <==> x in s && mid <= key(x) < hi
    ensures forall x :: x in p.low <==> x in s && key(x) < mid
  {
    TierMembership(s, key, hi, mid, High);
    TierMembership(s, key, hi, mid, Medium);
    TierMembership(s, key, hi, mid, Low);
    Tiers(TierMembers(s, key, hi, mid, High),
          TierMembers(s, key, hi, mid, Medium),
          TierMembers(s, key, hi, mid, Low))
  }

  /** One step of the tier filters: the head goes to the front of its own
      tier and nowhere else. */
  lemma TierMembersStep<T(!new)>(s: seq<T>, key: T -> real, hi: real, mid: real, t: Tier)
    requires mid <= hi
    requires |s| > 0
    ensures TierOf(key(s[0]), hi, mid) == t ==>
      TierMembers(s, key, hi, mid, t) == [s[0]] + TierMembers(s[1..], key, hi, mid, t)
    ensures TierOf(key(s[0]), hi, mid) != t ==>
      TierMembers(s, key, hi, mid, t) == TierMembers(s[1..], key, hi, mid, t)
  {
    if TierOf(key(s[0]), hi, mid) != t {
      assert [] + TierMembers(s[1..], key, hi, mid, t) == TierMembers(s[1..], key, hi, mid, t);
    }
  }

  /** The head of the list adds itself to exactly one tier. */
  lemma PartitionStep<T(!new)>(s: seq<T>, key: T -> real, hi: real, mid: real)
    requires mid <= hi
    requires |s| > 0
    ensures multiset(TierMembers(s, key, hi, mid, High))
          + multiset(TierMembers(s, key, hi, mid, Medium))
          + multiset(TierMembers(s, key, hi, mid, Low))
         == multiset{s[0]}
          + (multiset(TierMembers(s[1..], key, hi, mid, High))
          + multiset(TierMembers(s[1..], key, hi, mid, Medium))
          + multiset(TierMembers(s[1..], key, hi, mid, Low)))
  {
    TierMembersStep(s, key, hi, mid, High);
    TierMembersStep(s, key, hi, mid, Medium);
    TierMembersStep(s, key, hi, mid, Low);
  }

  /** Every element lands in exactly one tier, as often as it occurs. */
  lemma {:induction false} PartitionPermutes<T(!new)>(s: seq<T>, key: T -> real, hi: real, mid: real)
    requires mid <= hi
    ensures multiset(TierMembers(s, key, hi, mid, High))
          + multiset(TierMembers(s, key, hi, mid, Medium))
          + multiset(TierMembers(s, key, hi, mid, Low)) == multiset(s)
  {
    if |s| > 0 {
      var rest := s[1..];
      var all := multiset(TierMembers(s, key, hi, mid, High))
               + multiset(TierMembers(s, key, hi, mid, Medium))
               + multiset(TierMembers(s, key, hi, mid, Low));
      var restAll := multiset(TierMembers(rest, key, hi, mid, High))
                   + multiset(TierMembers(rest, key, hi, mid, Medium))
                   + multiset(TierMembers(rest, key, hi, mid, Low));
      PartitionPermutes(rest, key, hi, mid);
      PartitionStep(s, key, hi, mid);
      HeadMultiset(s);
    }
  }

  lemma HeadSplit<T>(s: seq<T>)
    requires |s| > 0
    ensures s == [s[0]] + s[1..]
  {
  }

  /** Putting `x` at the head of the first non-empty block. */
  lemma BlockHead<T>(x: seq<T>, h: seq<T>, m: seq<T>, l: seq<T>)
    ensures (x + h) + m + l == x + (h + m + l)
    ensures h == [] ==> h + (x + m) + l == x + (h + m + l)
    ensures h == [] && m == [] ==> h + m + (x + l) == x + (h + m + l)
  {
    if h == [] {
      assert h + (x + m) == x + m && h + m == m;
      if m == [] {
        assert h + m + (x + l) == x + l && h + m + l == l;
      }
    }
  }

  lemma HeadMultiset<T>(s: seq<T>)
    requires |s| > 0
    ensures multiset(s) == multiset{s[0]} + multiset(s[1..])
  {
    assert s == [s[0]] + s[1..];
  }

  /** `a` can be obtained from `b` by deleting elements: it keeps `b`'s order. */
  predicate IsSubsequence<T(==)>(a: seq<T>, b: seq<T>)
    decreases |b|
  {
    || |a| == 0
    || (&& |b| > 0
        && ((a[0] == b[0] && IsSubsequence(a[1..], b[1..])) || IsSubsequence(a, b[1..])))
  }

  lemma {:induction false} TierKeepsOrder<T(!new)>(s: seq<T>, key: T -> real, hi: real, mid: real, t: Tier)
    requires mid <= hi
    ensures IsSubsequence(TierMembers(s, key, hi, mid, t), s)
  {
    if |s| > 0 {
      TierKeepsOrder(s[1..], key, hi, mid, t);
      TierMembersStep(s, key, hi, mid, t);
      var rest := TierMembers(s[1..], key, hi, mid, t);
      if TierOf(key(s[0]), hi, mid) == t {
        assert ([s[0]] + rest)[1..] == rest;
      } else {
        assert TierMembers(s, key, hi, mid, t) == rest;
      }
    }
  }

  /** Scores no higher than `v` leave every tier above `v`'s tier empty. */
  lemma {:induction false} TiersAboveEmpty<T(!new)>(s: seq<T>, key: T -> real, hi: real, mid: real, v: real)
    requires mid <= hi
    requires forall i :: 0 <= i < |s| ==> key(s[i]) <= v
    ensures v < hi ==> TierMembers(s, key, hi, mid, High) == []
    ensures v < mid ==> TierMembers(s, key, hi, mid, Medium) == []
  {
    if |s| > 0 {
      TiersAboveEmpty(s[1..], key, hi, mid, v);
      TierMembersStep(s, key, hi, mid, High);
      TierMembersStep(s, key, hi, mid, Medium);
    }
  }

  lemma SortedTail<T>(s: seq<T>, key: T -> real)
    requires |s| > 0
    requires NonIncreasing(s, key)
    ensures NonIncreasing(s[1..], key)
    ensures forall i :: 0 <= i < |s[1..]| ==> key(s[1..][i]) <= key(s[0])
  {
  }

  /** On a list sorted highest first, the tiers are consecutive blocks: the
      high tier is a prefix, then the medium tier, then the low tier. */
  lemma {:induction false} SortedTiersAreBlocks<T(!new)>(s: seq<T>, key: T -> real, hi: real, mid: real)
    requires mid <= hi
    requires NonIncreasing(s, key)
    ensures TierMembers(s, key, hi, mid, High)
          + TierMembers(s, key, hi, mid, Medium)
          + TierMembers(s, key, hi, mid, Low) == s
  {
    if |s| > 0 {
      var rest := s[1..];
      var v := key(s[0]);
      SortedTail(s, key);
      SortedTiersAreBlocks(rest, key, hi, mid);
      TiersAboveEmpty(rest, key, hi, mid, v);
      TierMembersStep(s, key, hi, mid, High);
      TierMembersStep(s, key, hi, mid, Medium);
      TierMembersStep(s, key, hi, mid, Low);
      var h := TierMembers(rest, key, hi, mid, High);
      var m := TierMembers(rest, key, hi, mid, Medium);
      var l := TierMembers(rest, key, hi, mid, Low);
      HeadSplit(s);
      BlockHead([s[0]], h, m, l);
    }
  }

  // ---------------------------------------------------------------------
  // Rank, then split

  /** The score of a ranked item. */
  function RankedKey<T>(key: T -> real): Ranked<T> -> real
  {
    (r: Ranked<T>) => key(r.item)
  }

  /** The whole ranking and its three tiers. */
  datatype Split<T> = Split(
    ranked: seq<Ranked<T>>, high: seq<Ranked<T>>, medium: seq<Ranked<T>>, low: seq<Ranked<T>>)

  /** What both scripts do after scoring: rank the items highest score
      first, stably, numbered 1..n, then split the ranked list into the items
      scoring at least `hi`, from `mid` up to `hi`, and below `mid`. */
  function RankAndSplit<T(!new)>(s: seq<T>, key: T -> real, hi: real, mid: real): (out: Split<T>)
    requires mid <= hi
    ensures |out.ranked| == |s|
    ensures forall i :: 0 <= i < |out.ranked| ==> out.ranked[i].rank == i + 1
    ensures multiset(Items(out.ranked)) == multiset(s)
    ensures NonIncreasing(Items(out.ranked), key)
    ensures forall k :: WithKey(Items(out.ranked), key, k) == WithKey(s, key, k)
    ensures forall r :: r in out.high <==> r in out.ranked && key(r.item) >= hi
    ensures forall r :: r in out.medium <==> r in out.ranked && mid <= key(r.item) < hi
    ensures forall r :: r in out.low <==> r in out.ranked && key(r.item) < mid
  {
    var ranked := SortAndRank(s, key);
    var tiers := Partition(ranked, RankedKey(key), hi, mid);
    Split(ranked, tiers.high, tiers.medium, tiers.low)
  }

  /** The tiers are consecutive blocks of the ranking: the high tier is a
      prefix of it, followed by the medium and then the low tier. */
  lemma RankedTiersAreBlocks<T(!new)>(s: seq<T>, key: T -> real, hi: real, mid: real)
    requires mid <= hi
    ensures var out := RankAndSplit(s, key, hi, mid);
      out.high + out.medium + out.low == out.ranked
  {
    var ranked := SortAndRank(s, key);
    var items := Items(ranked);
    var rkey := RankedKey(key);
    assert NonIncreasing(ranked, rkey) by {
      assert NonIncreasing(items, key);
      assert forall i :: 0 <= i < |ranked| ==> rkey(ranked[i]) == key(items[i]);
    }
    SortedTiersAreBlocks(ranked, rkey, hi, mid);
  }
}
