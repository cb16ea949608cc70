/** Planner shards, and the paged start of a campaign. */
module Shards {
  import opened Common
  import opened CardStates

  /** An activation waiting in a shard. */
  datatype Event = Event(card: CardId, step: int, retry: int)

  datatype ShardStatus = Waiting | Publishing | Published

  datatype Shard = Shard(campaign: CampaignId, sequence: int, status: ShardStatus, itemCount: int, events: seq<Event>)

  // --------------------------------------------------------------- ascending order

  ghost predicate Ascending(s: seq<nat>) {
    forall i, j :: 0 <= i < j < |s| ==> s[i] < s[j]
  }

  ghost predicate Lists(r: seq<nat>, s: set<nat>) {
    Ascending(r) && forall x :: x in r <==> x in s
  }

  ghost predicate IsLeast(m: nat, s: set<nat>) {
    m in s && forall x :: x in s ==> m <= x
  }

  lemma {:induction false} LeastExists(s: set<nat>)
    requires s != {}
    ensures exists m :: IsLeast(m, s)
    decreases |s|
  {
    var x :| x in s;
    var rest := s - {x};
    if rest == {} {
      assert s == {x};
      assert IsLeast(x, s);
    } else {
      LeastExists(rest);
      var m :| IsLeast(m, rest);
      var n := if x < m then x else m;
      forall y | y in s ensures n <= y {
        assert y == x || y in rest;
      }
      assert IsLeast(n, s);
    }
  }

  /** The elements of a set in ascending order. */
  ghost function Sorted(s: set<nat>): seq<nat>
    decreases |s|
  {
    if s == {} then [] else
      LeastExists(s);
      var m :| IsLeast(m, s);
      [m] + Sorted(s - {m})
  }

  lemma ListsLeast(m: nat, tail: seq<nat>, s: set<nat>)
    requires IsLeast(m, s) && Lists(tail, s - {m})
    ensures Lists([m] + tail, s)
  {
    var r := [m] + tail;
    forall i | 0 <= i < |tail| ensures m < tail[i] {
      assert tail[i] in s - {m};
    }
    assert forall i :: 0 < i < |r| ==> r[i] == tail[i - 1];
  }

  lemma {:induction false} SortedLists(s: set<nat>)
    ensures Lists(Sorted(s), s) && |Sorted(s)| == |s|
    decreases |s|
  {
    if s != {} {
      LeastExists(s);
      var m := Sorted(s)[0];
      assert IsLeast(m, s) && Sorted(s) == [m] + Sorted(s - {m});
      SortedLists(s - {m});
      ListsLeast(m, Sorted(s - {m}), s);
    }
  }

  lemma ListsEmpty(a: seq<nat>, s: set<nat>)
    requires Lists(a, s)
    ensures a == [] <==> s == {}
  {
    if a != [] {
      assert a[0] in s;
    }
  }

  /** An ascending list is determined by its members. */
  lemma {:induction false} ListsUnique(a: seq<nat>, b: seq<nat>, s: set<nat>)
    requires Lists(a, s) && Lists(b, s)
    ensures a == b
    decreases |a|
  {
    ListsEmpty(a, s);
    ListsEmpty(b, s);
    if s != {} {
      assert a[0] in s && b[0] in s;
      assert a[0] == b[0];
      ListsTail(a, s);
      ListsTail(b, s);
      ListsUnique(a[1..], b[1..], s - {a[0]});
    }
  }

  lemma ListsTail(a: seq<nat>, s: set<nat>)
    requires Lists(a, s) && a != []
    ensures Lists(a[1..], s - {a[0]})
  {
    assert a == [a[0]] + a[1..];
    assert forall i :: 0 <= i < |a| - 1 ==> a[1..][i] == a[i + 1];
  }

  // --------------------------------------------------------------- keyset pagination

  /** WHERE card_id > after. */
  function Beyond(targets: set<nat>, after: Option<nat>): set<nat> {
    set x | x in targets && (after.None? || x > after.value)
  }

  function Least(a: nat, b: nat): nat {
    if a < b then a else b
  }

  method LeastOf(s: set<nat>) returns (m: nat)
    requires s != {}
    ensures IsLeast(m, s)
  {
    LeastExists(s);
    m :| m in s && forall x :: x in s ==> m <= x;
  }

  /** One page: ORDER BY card_id ASC LIMIT limit. */
  method TargetPage(targets: set<nat>, after: Option<nat>, limit: nat) returns (page: seq<nat>)
    ensures page == Page(Sorted(Beyond(targets, after)), limit)
  {
    var left := Beyond(targets, after);
    ghost var rest := Sorted(left);
    page := [];
    while |page| < limit && left != {}
      invariant page + Sorted(left) == rest && |page| <= limit
      decreases left
    {
      var m := LeastOf(left);
      SortedHead(left, m);
      page, left := page + [m], left - {m};
    }
  }

  function Page<T>(s: seq<T>, limit: nat): seq<T> {
    s[..Least(limit, |s|)]
  }

  lemma SortedHead(s: set<nat>, m: nat)
    requires IsLeast(m, s)
    ensures Sorted(s) == [m] + Sorted(s - {m})
  {
    SortedLists(s - {m});
    SortedLists(s);
    ListsLeast(m, Sorted(s - {m}), s);
    ListsUnique([m] + Sorted(s - {m}), Sorted(s), s);
  }

  lemma SortedBeyond(targets: set<nat>, i: nat)
    requires 0 < i <= |Sorted(targets)|
    ensures Sorted(Beyond(targets, Some(Sorted(targets)[i - 1]))) == Sorted(targets)[i..]
  {
    SortedLists(targets);
    var all := Sorted(targets);
    var rest, beyond := all[i..], Beyond(targets, Some(all[i - 1]));
    forall x | x in beyond ensures x in rest {
      var j :| 0 <= j < |all| && all[j] == x;
      assert j >= i;
      assert rest[j - i] == x;
    }
    SortedLists(beyond);
    ListsUnique(rest, Sorted(beyond), beyond);
  }

  /** Chunks, none at all for nothing. */
  function Batches<T>(s: seq<T>, n: nat): seq<seq<T>>
    requires n > 0
  {
    if s == [] then [] else Chunks(s, n)
  }

  lemma BatchesFirst<T>(s: seq<T>, n: nat)
    requires n > 0 && s != []
    ensures Batches(s, n) == [Page(s, n)] + Batches(s[|Page(s, n)|..], n)
  {
    if |s| <= n {
      assert Page(s, n) == s && s[|s|..] == [];
    }
  }

  lemma BatchesFacts<T>(s: seq<T>, n: nat)
    requires n > 0
    ensures Flatten(Batches(s, n)) == s
    ensures forall b :: b in Batches(s, n) ==> 0 < |b| <= n
  {
    if s != [] {
      ChunksFlatten(s, n);
      ChunksSizes(s, n);
    }
  }

  /** The paging loop: batches as the callback sees them. */
  method ForEachTargetBatch(targets: set<nat>, batchSize: int, shardSize: nat) returns (batches: seq<seq<nat>>)
    requires shardSize > 0
    ensures batches == Batches(Sorted(targets), if batchSize > 0 then batchSize else shardSize)
  {
    var n: nat := if batchSize > 0 then batchSize else shardSize;
    ghost var all := Sorted(targets);
    ghost var i := 0;
    batches := [];
    var after: Option<nat> := None;
    assert Beyond(targets, None) == targets;
    var more := true;
    while more
      invariant 0 <= i <= |all|
      invariant Sorted(Beyond(targets, after)) == all[i..]
      invariant !more ==> i == |all|
      invariant batches + Batches(all[i..], n) == Batches(all, n)
      decreases |all| - i, more
    {
      var page := TargetPage(targets, after, n);
      if page == [] {
        more := false;
      } else {
        NextPage(targets, i, n, page);
        batches := batches + [page];
        i := i + |page|;
        after := Some(page[|page| - 1]);
        more := |page| >= n;
      }
    }
  }

  lemma NextPage(targets: set<nat>, i: nat, n: nat, page: seq<nat>)
    requires i <= |Sorted(targets)| && n > 0 && page == Page(Sorted(targets)[i..], n) && page != []
    ensures var all, i' := Sorted(targets), i + |page|;
            && i' <= |all| && (|page| < n ==> i' == |all|)
            && Sorted(Beyond(targets, Some(page[|page| - 1]))) == all[i'..]
            && Batches(all[i..], n) == [page] + Batches(all[i'..], n)
  {
    var all := Sorted(targets);
    BatchesFirst(all[i..], n);
    assert all[i..][|page|..] == all[i + |page|..];
    assert page[|page| - 1] == all[i + |page| - 1];
    SortedBeyond(targets, i + |page|);
  }

  // ------------------------------------------------------------------------ shards

  function Activations(cards: seq<CardId>, step: int): seq<Event> {
    seq(|cards|, i requires 0 <= i < |cards| => Event(cards[i], step, 0))
  }

  function CardsIn(events: seq<Event>): seq<CardId> {
    seq(|events|, i requires 0 <= i < |events| => events[i].card)
  }

  /** All cards of a list of shards, shard by shard. */
  function ShardCards(ss: seq<Shard>): seq<CardId> {
    if ss == [] then [] else ShardCards(ss[..|ss| - 1]) + CardsIn(ss[|ss| - 1].events)
  }

  function ItemSum(ss: seq<Shard>): int {
    if ss == [] then 0 else ItemSum(ss[..|ss| - 1]) + ss[|ss| - 1].itemCount
  }

  function ShardsFrom(c: CampaignId, first: int, batches: seq<seq<Event>>): seq<Shard> {
    if batches == [] then []
    else
      var last := batches[|batches| - 1];
      ShardsFrom(c, first, batches[..|batches| - 1]) + [Shard(c, first + |batches| - 1, Waiting, |last|, last)]
  }

  /** New shards: contiguous numbers, waiting, one batch each. */
  lemma {:induction false} ShardsFromFacts(c: CampaignId, first: int, batches: seq<seq<Event>>)
    ensures var ss := ShardsFrom(c, first, batches);
            |ss| == |batches| &&
            forall i :: 0 <= i < |ss| ==> ss[i] == Shard(c, first + i, Waiting, |batches[i]|, batches[i])
  {
    if batches != [] {
      ShardsFromFacts(c, first, batches[..|batches| - 1]);
    }
  }

  lemma {:induction false} ShardsFromCards(c: CampaignId, first: int, batches: seq<seq<Event>>)
    ensures ShardCards(ShardsFrom(c, first, batches)) == CardsIn(Flatten(batches))
    ensures ItemSum(ShardsFrom(c, first, batches)) == |Flatten(batches)|
  {
    if batches != [] {
      var init, last := batches[..|batches| - 1], batches[|batches| - 1];
      ShardsFromCards(c, first, init);
      assert batches == init + [last];
      FlattenOne(init, last);
      assert CardsIn(Flatten(init) + last) == CardsIn(Flatten(init)) + CardsIn(last);
      ShardsFromFacts(c, first, init);
    }
  }

  // ----------------------------------------------------------------- starting

  function ActivationBatches(batches: seq<seq<CardId>>, step: int): seq<seq<Event>> {
    seq(|batches|, i requires 0 <= i < |batches| => Activations(batches[i], step))
  }

  lemma {:induction false} ActivationCards(batches: seq<seq<CardId>>, step: int)
    ensures CardsIn(Flatten(ActivationBatches(batches, step))) == Flatten(batches)
  {
    if batches != [] {
      var bs := ActivationBatches(batches, step);
      ActivationCards(batches[1..], step);
      assert bs[1..] == ActivationBatches(batches[1..], step);
      assert CardsIn(bs[0]) == batches[0];
      assert CardsIn(bs[0] + Flatten(bs[1..])) == CardsIn(bs[0]) + CardsIn(Flatten(bs[1..]));
    }
  }

  ghost function StartShards(c: CampaignId, targets: set<CardId>, size: nat, step: int): seq<Shard>
    requires size > 0
  {
    ShardsFrom(c, 1, ActivationBatches(Batches(Sorted(targets), size), step))
  }

  /** Numbered contiguously, waiting, neither empty nor over the size. */
  ghost predicate WellShaped(ss: seq<Shard>, c: CampaignId, first: int, size: nat) {
    forall i :: 0 <= i < |ss| ==>
      && ss[i].campaign == c && ss[i].sequence == first + i && ss[i].status == Waiting
      && 0 < ss[i].itemCount == |ss[i].events| <= size
  }

  lemma ShardsFromShape(c: CampaignId, first: int, batches: seq<seq<Event>>, size: nat)
    requires forall i :: 0 <= i < |batches| ==> 0 < |batches[i]| <= size
    ensures WellShaped(ShardsFrom(c, first, batches), c, first, size)
  {
    ShardsFromFacts(c, first, batches);
  }

  ghost predicate AllAt(ss: seq<Shard>, step: int) {
    forall i, j :: 0 <= i < |ss| && 0 <= j < |ss[i].events| ==>
      ss[i].events[j].step == step && ss[i].events[j].retry == 0
  }

  lemma StartShape(c: CampaignId, pages: seq<seq<CardId>>, size: nat, step: int)
    requires forall i :: 0 <= i < |pages| ==> 0 < |pages[i]| <= size
    ensures var ss := ShardsFrom(c, 1, ActivationBatches(pages, step));
            WellShaped(ss, c, 1, size) && AllAt(ss, step)
  {
    var bs := ActivationBatches(pages, step);
    ShardsFromFacts(c, 1, bs);
    ShardsFromShape(c, 1, bs, size);
  }

  lemma StartCards(c: CampaignId, pages: seq<seq<CardId>>, step: int)
    ensures var ss := ShardsFrom(c, 1, ActivationBatches(pages, step));
            ShardCards(ss) == Flatten(pages) && ItemSum(ss) == |Flatten(pages)|
  {
    var bs := ActivationBatches(pages, step);
    ActivationCards(pages, step);
    ShardsFromCards(c, 1, bs);
    assert |CardsIn(Flatten(bs))| == |Flatten(bs)|;
  }

  /** The start shards partition the targets: every target once, in ascending
      order, at the first step; the item counts add up to the targets. */
  lemma StartPartitions(c: CampaignId, targets: set<CardId>, size: nat, step: int)
    requires size > 0
    ensures var ss := StartShards(c, targets, size, step);
            && Lists(ShardCards(ss), targets) && ItemSum(ss) == |targets|
            && WellShaped(ss, c, 1, size) && AllAt(ss, step)
  {
    var pages := Batches(Sorted(targets), size);
    BatchesFacts(Sorted(targets), size);
    SortedLists(targets);
    StartCards(c, pages, step);
    assert forall i :: 0 <= i < |pages| ==> pages[i] in pages;
    StartShape(c, pages, size, step);
  }

  datatype StartError = NoTargets | DuplicateSequence(sequence: int)

  predicate Numbered(rows: seq<Shard>, c: CampaignId, sequence: int) {
    exists i :: 0 <= i < |rows| && rows[i].campaign == c && rows[i].sequence == sequence
  }

  lemma NumberedMore(rows: seq<Shard>, c: CampaignId, batches: seq<seq<Event>>, sequence: int)
    requires sequence > |batches|
    ensures Numbered(rows + ShardsFrom(c, 1, batches), c, sequence) <==> Numbered(rows, c, sequence)
  {
    var ss := ShardsFrom(c, 1, batches);
    ShardsFromFacts(c, 1, batches);
    if i :| 0 <= i < |rows| && rows[i].campaign == c && rows[i].sequence == sequence {
      assert (rows + ss)[i] == rows[i];
    }
    if i :| 0 <= i < |rows + ss| && (rows + ss)[i].campaign == c && (rows + ss)[i].sequence == sequence {
      assert i < |rows| || (rows + ss)[i] == ss[i - |rows|];
    }
  }

  ghost predicate Free(rows: seq<Shard>, c: CampaignId, n: nat) {
    forall m :: 1 <= m <= n ==> !Numbered(rows, c, m)
  }

  /** campaign_shards, with its unique (campaign, sequence). */
  class ShardTable {
    var rows: seq<Shard>

    /** The rows with a shard for each page, unless a number is taken. */
    static method AddShards(rows: seq<Shard>, c: CampaignId, pages: seq<seq<CardId>>, step: int)
      returns (r: Result<seq<Shard>, StartError>, pending: nat)
      ensures r.Ok? <==> Free(rows, c, |pages|)
      ensures r.Ok? ==> r.value == rows + ShardsFrom(c, 1, ActivationBatches(pages, step)) && pending == |Flatten(pages)|
      ensures r.Err? ==> r.error.DuplicateSequence?
    {
      ghost var bs := ActivationBatches(pages, step);
      var tx, sequence, i := rows, 1, 0;
      pending := 0;
      while i < |pages|
        invariant 0 <= i <= |pages| && sequence == i + 1
        invariant pending == |Flatten(pages[..i])|
        invariant tx == rows + ShardsFrom(c, 1, bs[..i])
        invariant Free(rows, c, i)
      {
        var events := Activations(pages[i], step);
        NumberedMore(rows, c, bs[..i], sequence);
        if Numbered(tx, c, sequence) {
          return Err(DuplicateSequence(sequence)), pending;
        }
        assert bs[..i + 1][..i] == bs[..i];
        assert pages[..i + 1] == pages[..i] + [pages[i]];
        FlattenOne(pages[..i], pages[i]);
        tx := tx + [Shard(c, sequence, Waiting, |events|, events)];
        pending, sequence, i := pending + |pages[i]|, sequence + 1, i + 1;
      }
      assert pages[..|pages|] == pages && bs[..|bs|] == bs;
      return Ok(tx), pending;
    }

    /** One transaction: nothing stays if a number is taken or there was no
        target at all. */
    method StartCampaign(c: CampaignId, targets: set<CardId>, shardSize: nat, firstStep: int)
      returns (r: Result<nat, StartError>)
      requires shardSize > 0
      modifies this
      ensures r == Err(NoTargets) <==> targets == {}
      ensures r.Ok? <==> targets != {} && Free(old(rows), c, |Batches(Sorted(targets), shardSize)|)
      ensures r.Ok? ==> r.value == |targets| && rows == old(rows) + StartShards(c, targets, shardSize, firstStep)
      ensures r.Err? ==> rows == old(rows)
    {
      var pages := ForEachTargetBatch(targets, shardSize, shardSize);
      SortedLists(targets);
      BatchesFacts(Sorted(targets), shardSize);
      var tx, pending := AddShards(rows, c, pages, firstStep);
      if tx.Err? {
        return Err(tx.error);
      }
      if pending == 0 {
        return Err(NoTargets);
      }
      rows := tx.value;
      return Ok(pending);
    }
  }
}
