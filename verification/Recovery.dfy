/** Crash recovery: the open shards of every running campaign are rebuilt from
    the newest card states. */
module Recovery {
  import opened Common
  import opened CardStates
  import opened CardStateSchedules
  import opened CampaignStats
  import opened Shards

  /** A row of the newest-state query. */
  datatype Latest = Latest(card: CardId, status: Status, step: int, retry: int)

  function Ids(cards: seq<Latest>): seq<CardId> {
    seq(|cards|, i requires 0 <= i < |cards| => cards[i].card)
  }

  /** DISTINCT ON (card_id) ... ORDER BY card_id, transition_seq DESC. */
  ghost predicate IsSnapshot(cards: seq<Latest>, t: Table, c: CampaignId) {
    && Lists(Ids(cards), set k | k in CardsOf(t, c) :: k.card)
    && forall i :: 0 <= i < |cards| ==>
         var h := HeadOf(t, CardKey(cards[i].card, c));
         h.Some? && cards[i] == Latest(cards[i].card, h.value.row.status, h.value.row.step, h.value.row.retry)
  }

  // ------------------------------------------------------------ events to recover

  function EventFor(x: Latest, commands: seq<int>): Event {
    Event(x.card, if x.step == 0 && commands != [] then commands[0] else x.step, x.retry)
  }

  function RecoverEvents(cards: seq<Latest>, commands: seq<int>): seq<Event> {
    if cards == [] then []
    else
      var x := cards[|cards| - 1];
      RecoverEvents(cards[..|cards| - 1], commands) + if x.status.Terminal() then [] else [EventFor(x, commands)]
  }

  method CollectEvents(cards: seq<Latest>, commands: seq<int>) returns (events: seq<Event>)
    ensures events == RecoverEvents(cards, commands)
  {
    events := [];
    var i := 0;
    while i < |cards|
      invariant 0 <= i <= |cards| && events == RecoverEvents(cards[..i], commands)
    {
      assert cards[..i + 1][..i] == cards[..i];
      if !cards[i].status.Terminal() {
        var step := cards[i].step;
        if step == 0 && |commands| > 0 {
          step := commands[0];
        }
        events := events + [Event(cards[i].card, step, cards[i].retry)];
      }
      i := i + 1;
    }
    assert cards[..|cards|] == cards;
  }

  ghost predicate Open(cards: seq<Latest>, x: CardId) {
    exists i :: 0 <= i < |cards| && cards[i].card == x && !cards[i].status.Terminal()
  }

  lemma OpenMore(cards: seq<Latest>, x: CardId)
    requires cards != []
    ensures var last := cards[|cards| - 1];
            Open(cards, x) <==> Open(cards[..|cards| - 1], x) || (last.card == x && !last.status.Terminal())
  {
    var init, last := cards[..|cards| - 1], cards[|cards| - 1];
    if i :| 0 <= i < |init| && init[i].card == x && !init[i].status.Terminal() {
      assert cards[i] == init[i];
    }
    if i :| 0 <= i < |cards| && cards[i].card == x && !cards[i].status.Terminal() {
      assert i == |cards| - 1 || init[i] == cards[i];
    }
  }

  /** The events are those of the cards not yet finished, each once, in order. */
  lemma {:induction false} RecoverEventsCards(cards: seq<Latest>, commands: seq<int>)
    requires Ascending(Ids(cards))
    ensures var r := CardsIn(RecoverEvents(cards, commands));
            Ascending(r) && forall x :: x in r <==> Open(cards, x)
  {
    if cards != [] {
      var init, last := cards[..|cards| - 1], cards[|cards| - 1];
      assert Ids(init) == Ids(cards)[..|cards| - 1];
      RecoverEventsCards(init, commands);
      var r, r' := CardsIn(RecoverEvents(init, commands)), CardsIn(RecoverEvents(cards, commands));
      forall x ensures x in r' <==> Open(cards, x) {
        OpenMore(cards, x);
        RecoverEventsMore(cards, commands);
      }
      RecoverEventsMore(cards, commands);
      forall x | x in r ensures x < last.card {
        assert Open(init, x);
        var i :| 0 <= i < |init| && init[i].card == x;
        assert Ids(cards)[i] < Ids(cards)[|cards| - 1];
      }
      AscendingMore(r, last.card);
      assert r + [] == r;
    }
  }

  lemma AscendingMore(r: seq<CardId>, x: CardId)
    requires Ascending(r) && forall y :: y in r ==> y < x
    ensures Ascending(r + [x])
  {
    forall i | 0 <= i < |r| ensures r[i] < x {
      assert r[i] in r;
    }
  }

  lemma RecoverEventsMore(cards: seq<Latest>, commands: seq<int>)
    requires cards != []
    ensures var last := cards[|cards| - 1];
            CardsIn(RecoverEvents(cards, commands)) ==
              CardsIn(RecoverEvents(cards[..|cards| - 1], commands)) + if last.status.Terminal() then [] else [last.card]
  {
  }

  /** An event that restarts an unfinished card at its retry and step, step 0
      standing for the first command. */
  predicate Restarts(ev: Event, x: Latest, commands: seq<int>) {
    && !x.status.Terminal() && ev.card == x.card && ev.retry == x.retry
    && ev.step == if x.step != 0 || commands == [] then x.step else commands[0]
  }

  /** Each event restarts its card at the step and retry of its newest state. */
  lemma {:induction false} RecoverEventsFrom(cards: seq<Latest>, commands: seq<int>, j: nat)
    requires j < |RecoverEvents(cards, commands)|
    ensures exists i :: 0 <= i < |cards| && Restarts(RecoverEvents(cards, commands)[j], cards[i], commands)
  {
    var init, last := cards[..|cards| - 1], cards[|cards| - 1];
    if j < |RecoverEvents(init, commands)| {
      RecoverEventsFrom(init, commands, j);
      var i :| 0 <= i < |init| && Restarts(RecoverEvents(init, commands)[j], init[i], commands);
      assert cards[i] == init[i];
    } else {
      assert Restarts(RecoverEvents(cards, commands)[j], last, commands);
    }
  }

  ghost function UnfinishedCards(t: Table, c: CampaignId): set<CardId> {
    set k | k in Unfinished(t, c) :: k.card
  }

  lemma SnapshotOpen(cards: seq<Latest>, t: Table, c: CampaignId, x: CardId)
    requires IsSnapshot(cards, t, c)
    ensures Open(cards, x) <==> x in UnfinishedCards(t, c)
  {
    var k := CardKey(x, c);
    assert forall q :: q in CardsOf(t, c) ==> q.campaign == c;
    if Open(cards, x) {
      var i :| 0 <= i < |cards| && cards[i].card == x && !cards[i].status.Terminal();
      assert Ids(cards)[i] == x;
      assert k in Unfinished(t, c);
    }
    if x in UnfinishedCards(t, c) {
      assert k in Unfinished(t, c);
      assert x in Ids(cards);
      var i :| 0 <= i < |cards| && Ids(cards)[i] == x;
      assert cards[i].card == x;
    }
  }

  lemma SnapshotEvents(cards: seq<Latest>, t: Table, c: CampaignId, commands: seq<int>)
    requires IsSnapshot(cards, t, c)
    ensures Lists(CardsIn(RecoverEvents(cards, commands)), UnfinishedCards(t, c))
  {
    RecoverEventsCards(cards, commands);
    forall x ensures Open(cards, x) <==> x in UnfinishedCards(t, c) {
      SnapshotOpen(cards, t, c, x);
    }
  }

  // ------------------------------------------------------------- the shard table

  function Select(rows: seq<Shard>, keep: Shard -> bool): seq<Shard> {
    if rows == [] then []
    else Select(rows[..|rows| - 1], keep) + if keep(rows[|rows| - 1]) then [rows[|rows| - 1]] else []
  }

  lemma {:induction false} SelectConcat(a: seq<Shard>, b: seq<Shard>, keep: Shard -> bool)
    ensures Select(a + b, keep) == Select(a, keep) + Select(b, keep)
    decreases |b|
  {
    if b == [] {
      assert a + b == a;
    } else {
      SelectConcat(a, b[..|b| - 1], keep);
      assert (a + b)[..|a + b| - 1] == a + b[..|b| - 1];
    }
  }

  lemma {:induction false} SelectAll(rows: seq<Shard>, keep: Shard -> bool)
    requires forall i :: 0 <= i < |rows| ==> keep(rows[i])
    ensures Select(rows, keep) == rows
  {
    if rows != [] {
      SelectAll(rows[..|rows| - 1], keep);
    }
  }

  lemma {:induction false} SelectNone(rows: seq<Shard>, keep: Shard -> bool)
    requires forall i :: 0 <= i < |rows| ==> !keep(rows[i])
    ensures Select(rows, keep) == []
  {
    if rows != [] {
      SelectNone(rows[..|rows| - 1], keep);
    }
  }

  lemma {:induction false} SelectMembers(rows: seq<Shard>, keep: Shard -> bool)
    ensures forall s :: s in Select(rows, keep) <==> s in rows && keep(s)
  {
    if rows != [] {
      SelectMembers(rows[..|rows| - 1], keep);
      assert rows == rows[..|rows| - 1] + [rows[|rows| - 1]];
    }
  }

  lemma {:induction false} SelectTwice(rows: seq<Shard>, f: Shard -> bool, g: Shard -> bool)
    requires forall s :: g(s) ==> f(s)
    ensures Select(Select(rows, f), g) == Select(rows, g)
  {
    if rows != [] {
      var init, last := rows[..|rows| - 1], rows[|rows| - 1];
      SelectTwice(init, f, g);
      if f(last) {
        SelectConcat(Select(init, f), [last], g);
        assert Select([last], g) == Select([last][..0], g) + if g(last) then [last] else [];
      } else {
        assert Select(rows, f) == Select(init, f);
      }
    }
  }

  /** Shards of the campaign still to be published. */
  function Unpublished(c: CampaignId): Shard -> bool {
    (s: Shard) => s.campaign == c && s.status != Published
  }

  function Retained(c: CampaignId): Shard -> bool {
    (s: Shard) => s.campaign != c || s.status == Published
  }

  function Of(c: CampaignId): Shard -> bool {
    (s: Shard) => s.campaign == c
  }

  function MaxSequence(rows: seq<Shard>, c: CampaignId): Option<int> {
    if rows == [] then None
    else
      var m, s := MaxSequence(rows[..|rows| - 1], c), rows[|rows| - 1];
      if s.campaign != c then m
      else Some(if m.Some? && m.value > s.sequence then m.value else s.sequence)
  }

  /** COALESCE(MAX(sequence), 0). */
  function LastSequence(rows: seq<Shard>, c: CampaignId): int {
    var m := MaxSequence(rows, c);
    if m.Some? then m.value else 0
  }

  lemma {:induction false} MaxSequenceBounds(rows: seq<Shard>, c: CampaignId)
    ensures forall s :: s in rows && s.campaign == c ==> MaxSequence(rows, c).Some? && s.sequence <= MaxSequence(rows, c).value
  {
    if rows != [] {
      MaxSequenceBounds(rows[..|rows| - 1], c);
      assert rows == rows[..|rows| - 1] + [rows[|rows| - 1]];
    }
  }

  function Rebuilt(kept: seq<Shard>, c: CampaignId, events: seq<Event>, size: nat): seq<Shard>
    requires size > 0
  {
    kept + ShardsFrom(c, LastSequence(kept, c) + 1, Batches(events, size))
  }

  /** The rows after recovering one campaign. */
  function Recovered(rows: seq<Shard>, c: CampaignId, events: seq<Event>, size: nat): seq<Shard>
    requires size > 0
  {
    if events == [] then rows else Rebuilt(Select(rows, Retained(c)), c, events, size)
  }

  lemma NextBatch(events: seq<Event>, size: nat, i: nat, batches: seq<seq<Event>>, done: nat)
    requires size > 0 && i < |events| && done <= |batches| && batches[done..] == Batches(events[i..], size)
    ensures var end := if i + size < |events| then i + size else |events|;
            done < |batches| && batches[done] == events[i..end] && batches[done + 1..] == Batches(events[end..], size)
  {
    var end := if i + size < |events| then i + size else |events|;
    BatchesFirst(events[i..], size);
    assert Page(events[i..], size) == events[i..end];
    assert events[i..][end - i..] == events[end..];
    assert batches[done] == batches[done..][0] && batches[done + 1..] == batches[done..][1..];
  }

  lemma ShardsMore(c: CampaignId, first: int, batches: seq<seq<Event>>, done: nat)
    requires done < |batches|
    ensures ShardsFrom(c, first, batches[..done + 1]) ==
              ShardsFrom(c, first, batches[..done]) + [Shard(c, first + done, Waiting, |batches[done]|, batches[done])]
  {
    assert batches[..done + 1][..done] == batches[..done];
  }

  method ShardEvents(rows: seq<Shard>, c: CampaignId, first: int, events: seq<Event>, size: nat) returns (r: seq<Shard>)
    requires size > 0
    ensures r == rows + ShardsFrom(c, first, Batches(events, size))
  {
    ghost var batches := Batches(events, size);
    r := rows;
    var i, sequence := 0, first;
    ghost var done := 0;
    assert events[0..] == events;
    while i < |events|
      invariant 0 <= done <= |batches| && sequence == first + done && 0 <= i <= |events|
      invariant batches[done..] == Batches(events[i..], size)
      invariant r == rows + ShardsFrom(c, first, batches[..done])
    {
      var end := if i + size < |events| then i + size else |events|;
      NextBatch(events, size, i, batches, done);
      ShardsMore(c, first, batches, done);
      r := r + [Shard(c, sequence, Waiting, end - i, events[i..end])];
      i, sequence, done := end, sequence + 1, done + 1;
    }
    assert batches[..done] == batches;
  }

  method RecoverCampaign(table: ShardTable, c: CampaignId, cards: seq<Latest>, commands: seq<int>, shardSize: nat)
    requires shardSize > 0
    modifies table
    ensures table.rows == Recovered(old(table.rows), c, RecoverEvents(cards, commands), shardSize)
  {
    var events := CollectEvents(cards, commands);
    if |events| == 0 {
      return;
    }
    var kept := Select(table.rows, Retained(c));
    table.rows := ShardEvents(kept, c, LastSequence(kept, c) + 1, events, shardSize);
  }

  // ------------------------------------------------------------------ exactness

  lemma RetainedClosed(rows: seq<Shard>, c: CampaignId)
    ensures Select(Select(rows, Retained(c)), Unpublished(c)) == []
  {
    var kept := Select(rows, Retained(c));
    SelectMembers(rows, Retained(c));
    forall i | 0 <= i < |kept| ensures !Unpublished(c)(kept[i]) {
      assert kept[i] in kept;
    }
    SelectNone(kept, Unpublished(c));
  }

  lemma AddedOpen(c: CampaignId, first: int, batches: seq<seq<Event>>)
    ensures Select(ShardsFrom(c, first, batches), Unpublished(c)) == ShardsFrom(c, first, batches)
  {
    ShardsFromFacts(c, first, batches);
    SelectAll(ShardsFrom(c, first, batches), Unpublished(c));
  }

  /** The open shards after a recovery are just the added ones. */
  lemma RebuiltOpen(kept: seq<Shard>, c: CampaignId, events: seq<Event>, size: nat)
    requires size > 0 && Select(kept, Unpublished(c)) == []
    ensures Select(Rebuilt(kept, c, events, size), Unpublished(c)) ==
              ShardsFrom(c, LastSequence(kept, c) + 1, Batches(events, size))
  {
    var first, bs := LastSequence(kept, c) + 1, Batches(events, size);
    AddedOpen(c, first, bs);
    SelectJoin(kept, ShardsFrom(c, first, bs), Unpublished(c));
  }

  lemma SelectJoin(a: seq<Shard>, b: seq<Shard>, keep: Shard -> bool)
    requires Select(a, keep) == [] && Select(b, keep) == b
    ensures Select(a + b, keep) == b
  {
    SelectConcat(a, b, keep);
  }

  lemma AddedShape(c: CampaignId, first: int, events: seq<Event>, size: nat)
    requires size > 0 && events != []
    ensures var added := ShardsFrom(c, first, Batches(events, size));
            ShardCards(added) == CardsIn(events) && WellShaped(added, c, first, size) && added != []
  {
    var bs := Batches(events, size);
    BatchesFacts(events, size);
    assert forall i :: 0 <= i < |bs| ==> bs[i] in bs;
    ShardsFromShape(c, first, bs, size);
    ShardsFromCards(c, first, bs);
    ShardsFromFacts(c, first, bs);
  }

  lemma RebuiltShape(kept: seq<Shard>, c: CampaignId, events: seq<Event>, size: nat)
    requires size > 0 && events != [] && Select(kept, Unpublished(c)) == []
    ensures var open := Select(Rebuilt(kept, c, events, size), Unpublished(c));
            && ShardCards(open) == CardsIn(events) && open != []
            && WellShaped(open, c, LastSequence(kept, c) + 1, size)
  {
    RebuiltOpen(kept, c, events, size);
    AddedShape(c, LastSequence(kept, c) + 1, events, size);
  }

  /** Recovering a campaign with unfinished cards leaves open shards holding
      each of those cards exactly once and no other, none empty or over the
      size, numbered contiguously. */
  lemma RecoveryExact(t: Table, rows: seq<Shard>, c: CampaignId, cards: seq<Latest>, commands: seq<int>, size: nat)
    requires size > 0 && IsSnapshot(cards, t, c) && UnfinishedCards(t, c) != {}
    ensures var open := Select(Recovered(rows, c, RecoverEvents(cards, commands), size), Unpublished(c));
            && Lists(ShardCards(open), UnfinishedCards(t, c))
            && open != [] && WellShaped(open, c, LastSequence(Select(rows, Retained(c)), c) + 1, size)
  {
    var events := RecoverEvents(cards, commands);
    SnapshotEvents(cards, t, c, commands);
    ListsEmpty(CardsIn(events), UnfinishedCards(t, c));
    RetainedClosed(rows, c);
    RebuiltShape(Select(rows, Retained(c)), c, events, size);
  }

  /** The event restarts the card where its newest row left it: at that row's retry
      and step, step 0 standing for the first command. */
  ghost predicate RestartsAt(ev: Event, t: Table, c: CampaignId, commands: seq<int>) {
    var h := HeadOf(t, CardKey(ev.card, c));
    && h.Some? && !h.value.row.status.Terminal() && ev.retry == h.value.row.retry
    && ev.step == if h.value.row.step != 0 || commands == [] then h.value.row.step else commands[0]
  }

  lemma {:induction false} InFlatten<T>(parts: seq<seq<T>>, i: nat, x: T)
    requires i < |parts| && x in parts[i]
    ensures x in Flatten(parts)
  {
    if i > 0 {
      InFlatten(parts[1..], i - 1, x);
    }
  }

  lemma EventsRestart(t: Table, c: CampaignId, cards: seq<Latest>, commands: seq<int>, ev: Event)
    requires IsSnapshot(cards, t, c) && ev in RecoverEvents(cards, commands)
    ensures RestartsAt(ev, t, c, commands)
  {
    var events := RecoverEvents(cards, commands);
    var j :| 0 <= j < |events| && events[j] == ev;
    RecoverEventsFrom(cards, commands, j);
  }

  /** Every event in the open shards restarts its card where the card's newest row
      left it. */
  lemma RecoveryRestarts(t: Table, rows: seq<Shard>, c: CampaignId, cards: seq<Latest>, commands: seq<int>, size: nat,
                         s: Shard, ev: Event)
    requires size > 0 && IsSnapshot(cards, t, c) && UnfinishedCards(t, c) != {}
    requires s in Select(Recovered(rows, c, RecoverEvents(cards, commands), size), Unpublished(c)) && ev in s.events
    ensures RestartsAt(ev, t, c, commands)
  {
    var events, kept := RecoverEvents(cards, commands), Select(rows, Retained(c));
    SnapshotEvents(cards, t, c, commands);
    ListsEmpty(CardsIn(events), UnfinishedCards(t, c));
    RetainedClosed(rows, c);
    RebuiltOpen(kept, c, events, size);
    ShardHolds(c, LastSequence(kept, c) + 1, events, size, s, ev);
    EventsRestart(t, c, cards, commands, ev);
  }

  lemma ShardHolds(c: CampaignId, first: int, events: seq<Event>, size: nat, s: Shard, ev: Event)
    requires size > 0 && s in ShardsFrom(c, first, Batches(events, size)) && ev in s.events
    ensures ev in events
  {
    var bs := Batches(events, size);
    ShardsFromFacts(c, first, bs);
    var i :| 0 <= i < |bs| && ShardsFrom(c, first, bs)[i] == s;
    InFlatten(bs, i, ev);
    BatchesFacts(events, size);
  }

  /** Numbers go on from the highest one of the campaign, or from 1. */
  lemma {:induction false} LastSequenceExactly(rows: seq<Shard>, c: CampaignId)
    ensures var n := LastSequence(rows, c);
            if forall s :: s in rows ==> s.campaign != c then n == 0
            else (exists s :: s in rows && s.campaign == c && s.sequence == n)
                 && forall s :: s in rows && s.campaign == c ==> s.sequence <= n
  {
    if rows != [] {
      var init, last := rows[..|rows| - 1], rows[|rows| - 1];
      LastSequenceExactly(init, c);
      assert forall s :: s in rows <==> s in init || s == last;
      MaxSequenceBounds(init, c);
      if MaxSequence(init, c).None? {
        assert forall s :: s in init ==> s.campaign != c;
      } else {
        MaxSequenceSome(init, c);
      }
    }
  }

  lemma {:induction false} MaxSequenceSome(rows: seq<Shard>, c: CampaignId)
    requires MaxSequence(rows, c).Some?
    ensures exists s :: s in rows && s.campaign == c
  {
    if rows[|rows| - 1].campaign != c {
      MaxSequenceSome(rows[..|rows| - 1], c);
      var s :| s in rows[..|rows| - 1] && s.campaign == c;
      assert s in rows;
    } else {
      assert rows[|rows| - 1] in rows;
    }
  }

  /** Published shards stay, and the new numbers start above theirs. */
  lemma RecoveryNumbers(rows: seq<Shard>, c: CampaignId, events: seq<Event>, size: nat, s: Shard)
    requires size > 0 && s in rows && s.campaign == c && s.status == Published
    ensures s in Recovered(rows, c, events, size)
    ensures s.sequence <= LastSequence(Select(rows, Retained(c)), c)
  {
    SelectMembers(rows, Retained(c));
    MaxSequenceBounds(Select(rows, Retained(c)), c);
  }

  /** A campaign with nothing left to do, and every other campaign, keeps its
      shards. */
  lemma RecoveryElsewhere(rows: seq<Shard>, c: CampaignId, events: seq<Event>, size: nat, d: CampaignId)
    requires size > 0 && (d != c || events == [])
    ensures Select(Recovered(rows, c, events, size), Of(d)) == Select(rows, Of(d))
  {
    if events != [] {
      RetainedElsewhere(rows, c, d);
      AddedElsewhere(Select(rows, Retained(c)), c, LastSequence(Select(rows, Retained(c)), c) + 1, Batches(events, size), d);
    }
  }

  lemma RetainedElsewhere(rows: seq<Shard>, c: CampaignId, d: CampaignId)
    requires d != c
    ensures Select(Select(rows, Retained(c)), Of(d)) == Select(rows, Of(d))
  {
    SelectTwice(rows, Retained(c), Of(d));
  }

  lemma AddedElsewhere(kept: seq<Shard>, c: CampaignId, first: int, batches: seq<seq<Event>>, d: CampaignId)
    requires d != c
    ensures Select(kept + ShardsFrom(c, first, batches), Of(d)) == Select(kept, Of(d))
  {
    var added := ShardsFrom(c, first, batches);
    ShardsFromFacts(c, first, batches);
    SelectNone(added, Of(d));
    SelectConcat(kept, added, Of(d));
  }

  // --------------------------------------------------------------- all campaigns

  /** A running campaign: its command numbers and its newest card states. */
  datatype Campaign = Campaign(id: CampaignId, commands: seq<int>, cards: seq<Latest>)

  /** Claimed shards go back to waiting. */
  function Unclaimed(rows: seq<Shard>): seq<Shard> {
    seq(|rows|, i requires 0 <= i < |rows| =>
      if rows[i].status == Publishing then rows[i].(status := Waiting) else rows[i])
  }

  function RecoverAll(rows: seq<Shard>, campaigns: seq<Campaign>, size: nat): seq<Shard>
    requires size > 0
  {
    if campaigns == [] then Unclaimed(rows)
    else
      var x := campaigns[|campaigns| - 1];
      Recovered(RecoverAll(rows, campaigns[..|campaigns| - 1], size), x.id, RecoverEvents(x.cards, x.commands), size)
  }

  method RecoverRunningCampaigns(table: ShardTable, campaigns: seq<Campaign>, shardSize: nat)
    requires shardSize > 0
    modifies table
    ensures table.rows == RecoverAll(old(table.rows), campaigns, shardSize)
  {
    table.rows := Unclaimed(table.rows);
    var i := 0;
    while i < |campaigns|
      invariant 0 <= i <= |campaigns|
      invariant table.rows == RecoverAll(old(table.rows), campaigns[..i], shardSize)
    {
      assert campaigns[..i + 1][..i] == campaigns[..i];
      RecoverCampaign(table, campaigns[i].id, campaigns[i].cards, campaigns[i].commands, shardSize);
      i := i + 1;
    }
    assert campaigns[..|campaigns|] == campaigns;
  }

  ghost predicate Distinct(campaigns: seq<Campaign>) {
    forall i, j :: 0 <= i < j < |campaigns| ==> campaigns[i].id != campaigns[j].id
  }

  /** After start-up the open shards of every running campaign with unfinished
      cards hold each of those cards exactly once, whatever they held before
      and whichever campaigns are recovered with it. */
  lemma {:induction false} StartupExact(t: Table, rows: seq<Shard>, campaigns: seq<Campaign>, size: nat, i: nat)
    requires size > 0 && Distinct(campaigns) && i < |campaigns|
    requires IsSnapshot(campaigns[i].cards, t, campaigns[i].id) && UnfinishedCards(t, campaigns[i].id) != {}
    ensures var c := campaigns[i].id;
            Lists(ShardCards(Select(RecoverAll(rows, campaigns, size), Unpublished(c))), UnfinishedCards(t, c))
    decreases |campaigns|
  {
    var init, last, c := campaigns[..|campaigns| - 1], campaigns[|campaigns| - 1], campaigns[i].id;
    var before := RecoverAll(rows, init, size);
    if i == |campaigns| - 1 {
      RecoveryExact(t, before, c, last.cards, last.commands, size);
    } else {
      StartupExact(t, rows, init, size, i);
      RecoveryElsewhere(before, last.id, RecoverEvents(last.cards, last.commands), size, c);
      SelectTwice(before, Of(c), Unpublished(c));
      SelectTwice(RecoverAll(rows, campaigns, size), Of(c), Unpublished(c));
    }
  }

  /** And every event in them restarts its card where its newest row left it. */
  lemma {:induction false} StartupRestarts(t: Table, rows: seq<Shard>, campaigns: seq<Campaign>, size: nat, i: nat,
                                           s: Shard, ev: Event)
    requires size > 0 && Distinct(campaigns) && i < |campaigns|
    requires IsSnapshot(campaigns[i].cards, t, campaigns[i].id) && UnfinishedCards(t, campaigns[i].id) != {}
    requires s in Select(RecoverAll(rows, campaigns, size), Unpublished(campaigns[i].id)) && ev in s.events
    ensures RestartsAt(ev, t, campaigns[i].id, campaigns[i].commands)
    decreases |campaigns|
  {
    var init, last, c := campaigns[..|campaigns| - 1], campaigns[|campaigns| - 1], campaigns[i].id;
    var before := RecoverAll(rows, init, size);
    if i == |campaigns| - 1 {
      RecoveryRestarts(t, before, c, last.cards, last.commands, size, s, ev);
    } else {
      RecoveryElsewhere(before, last.id, RecoverEvents(last.cards, last.commands), size, c);
      SelectTwice(before, Of(c), Unpublished(c));
      SelectTwice(RecoverAll(rows, campaigns, size), Of(c), Unpublished(c));
      StartupRestarts(t, rows, init, size, i, s, ev);
    }
  }

  /** A shard released: waiting if it was claimed, else as it was. */
  predicate Released(s: Shard, s': Shard) {
    && s'.campaign == s.campaign && s'.sequence == s.sequence && s'.itemCount == s.itemCount && s'.events == s.events
    && (if s.status == Publishing then s'.status == Waiting else s'.status == s.status)
  }

  /** Campaigns that are not recovered, or have nothing left to do, keep all their
      shards; only their claims are released. */
  lemma {:induction false} StartupElsewhere(rows: seq<Shard>, campaigns: seq<Campaign>, size: nat, d: CampaignId)
    requires size > 0
    requires forall i :: 0 <= i < |campaigns| && campaigns[i].id == d ==>
               RecoverEvents(campaigns[i].cards, campaigns[i].commands) == []
    ensures Select(RecoverAll(rows, campaigns, size), Of(d)) == Select(Unclaimed(rows), Of(d))
    ensures |Unclaimed(rows)| == |rows| && forall i :: 0 <= i < |rows| ==> Released(rows[i], Unclaimed(rows)[i])
  {
    if campaigns != [] {
      var init, last := campaigns[..|campaigns| - 1], campaigns[|campaigns| - 1];
      StartupElsewhere(rows, init, size, d);
      RecoveryElsewhere(RecoverAll(rows, init, size), last.id, RecoverEvents(last.cards, last.commands), size, d);
    }
  }
}
