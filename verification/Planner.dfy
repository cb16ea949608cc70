/** The planner: waiting shards are claimed in creation order and their events
    sent to the executor, until a shard cannot be read or a send fails. */
module Planner {
  import opened Common
  import opened Shards

  type ShardId = nat

  /** A claimed shard; no items if they do not unmarshal. */
  datatype Claim = Claim(id: ShardId, items: Option<seq<Event>>)

  function Idents(shards: seq<Claim>): seq<ShardId> {
    seq(|shards|, i requires 0 <= i < |shards| => shards[i].id)
  }

  /** Sends events one by one; the context is cancelled after `room` of them. */
  method PublishBatch(events: seq<Event>, room: nat) returns (sent: seq<Event>, ok: bool)
    ensures sent == Page(events, room) && (ok <==> |events| <= room)
  {
    sent := [];
    ok := true;
    var i := 0;
    while i < |events|
      invariant 0 <= i <= |events| && i <= room && ok && sent == events[..i]
    {
      if i == room {
        ok := false;
        return;
      }
      sent := sent + [events[i]];
      i := i + 1;
    }
  }

  /** Shards marked published, shards reset to waiting, events sent. */
  datatype Outcome = Outcome(published: seq<ShardId>, reset: seq<ShardId>, sent: seq<Event>)

  /** Publishing, shard by shard. */
  function Publish(shards: seq<Claim>, room: nat): Outcome
    decreases |shards|
  {
    if shards == [] then Outcome([], [], [])
    else
      match shards[0].items
      case None => Outcome([], [shards[0].id], [])
      case Some(events) =>
        if |events| > room then Outcome([], Idents(shards), events[..room])
        else
          var o := Publish(shards[1..], room - |events|);
          Outcome([shards[0].id] + o.published, o.reset, events + o.sent)
  }

  function After(a: Outcome, b: Outcome): Outcome {
    Outcome(a.published + b.published, a.reset + b.reset, a.sent + b.sent)
  }

  lemma PublishNext(o: Outcome, shards: seq<Claim>, idx: nat, room: nat)
    requires idx < |shards| && o.reset == []
    ensures var s := shards[idx];
            After(o, Publish(shards[idx..], room)) ==
              match s.items
              case None => Outcome(o.published, [s.id], o.sent)
              case Some(events) =>
                if |events| > room then Outcome(o.published, Idents(shards[idx..]), o.sent + Page(events, room))
                else After(Outcome(o.published + [s.id], [], o.sent + events), Publish(shards[idx + 1..], room - |events|))
  {
    var s := shards[idx];
    assert shards[idx..][0] == s && shards[idx..][1..] == shards[idx + 1..];
  }

  method PublishClaimedShards(shards: seq<Claim>, room: nat) returns (o: Outcome)
    ensures o == Publish(shards, room)
  {
    o := Outcome([], [], []);
    var idx, left := 0, room;
    assert shards[0..] == shards;
    while idx < |shards|
      invariant 0 <= idx <= |shards| && 0 <= left && o.reset == []
      invariant After(o, Publish(shards[idx..], left)) == Publish(shards, room)
    {
      PublishNext(o, shards, idx, left);
      var shard := shards[idx];
      if shard.items.None? {
        return o.(reset := [shard.id]);
      }
      var sent, ok := PublishBatch(shard.items.value, left);
      if !ok {
        var reset := [shard.id];
        var j := idx + 1;
        while j < |shards|
          invariant idx < j <= |shards| && reset == Idents(shards[idx..j])
        {
          reset := reset + [shards[j].id];
          j := j + 1;
        }
        assert shards[idx..j] == shards[idx..];
        return Outcome(o.published, reset, o.sent + sent);
      }
      assert sent == shard.items.value;
      o := Outcome(o.published + [shard.id], [], o.sent + sent);
      idx, left := idx + 1, left - |sent|;
    }
  }

  // --------------------------------------------------------- one claimed list

  /** Shards from the front that can be read and fit. */
  function Done(shards: seq<Claim>, room: nat): (k: nat)
    ensures k <= |shards|
    decreases |shards|
  {
    if shards == [] || shards[0].items.None? || |shards[0].items.value| > room then 0
    else 1 + Done(shards[1..], room - |shards[0].items.value|)
  }

  function EventsOf(items: seq<Option<seq<Event>>>): seq<Event> {
    if items == [] then []
    else (if items[0].Some? then items[0].value else []) + EventsOf(items[1..])
  }

  function ItemsOf(shards: seq<Claim>): seq<Option<seq<Event>>> {
    seq(|shards|, i requires 0 <= i < |shards| => shards[i].items)
  }

  lemma ItemsOfFirst(shards: seq<Claim>, k: nat)
    requires 0 < k <= |shards| && shards[0].items.Some?
    ensures Idents(shards[..k]) == [shards[0].id] + Idents(shards[1..][..k - 1])
    ensures EventsOf(ItemsOf(shards[..k])) == shards[0].items.value + EventsOf(ItemsOf(shards[1..][..k - 1]))
  {
    assert shards[..k][1..] == shards[1..][..k - 1];
    assert ItemsOf(shards[..k])[1..] == ItemsOf(shards[1..][..k - 1]);
  }

  /** What becomes of shard k, where publishing stopped, and of those after it. */
  ghost predicate StoppedAt(shards: seq<Claim>, room: nat, k: nat, o: Outcome)
    requires k <= |shards|
  {
    var whole := EventsOf(ItemsOf(shards[..k]));
    if k == |shards| then o.reset == [] && o.sent == whole
    else if shards[k].items.None? then o.reset == [shards[k].id] && o.sent == whole
    else
      && o.reset == Idents(shards[k..])
      && |o.sent| == room && whole <= o.sent && o.sent[|whole|..] < shards[k].items.value
  }

  lemma StoppedBefore(shards: seq<Claim>, room: nat, k: nat, o: Outcome)
    requires shards != [] && shards[0].items.Some? && |shards[0].items.value| <= room && 0 < k <= |shards|
    requires StoppedAt(shards[1..], room - |shards[0].items.value|, k - 1, o)
    ensures StoppedAt(shards, room, k, o.(sent := shards[0].items.value + o.sent))
  {
    var events, rest := shards[0].items.value, shards[1..];
    ItemsOfFirst(shards, k);
    assert rest[k - 1..] == shards[k..];
    var whole := EventsOf(ItemsOf(rest[..k - 1]));
    if k < |shards| {
      assert rest[k - 1] == shards[k];
      if shards[k].items.Some? {
        assert (events + o.sent)[|events + whole|..] == o.sent[|whole|..];
      }
    }
  }

  /** The published shards are a prefix of the claimed ones and all their events
      were sent in order.  A failed send resets exactly the rest; a shard that
      cannot be read resets itself only, and the rest stay claimed. */
  lemma {:induction false} PublishExactly(shards: seq<Claim>, room: nat)
    ensures var k, o := Done(shards, room), Publish(shards, room);
            && (forall i :: 0 <= i < k ==> shards[i].items.Some?)
            && o.published == Idents(shards[..k])
            && StoppedAt(shards, room, k, o)
    decreases |shards|
  {
    var k := Done(shards, room);
    if k == 0 {
      assert shards[..0] == [] && shards[0..] == shards;
    } else {
      var rest, left := shards[1..], room - |shards[0].items.value|;
      PublishExactly(rest, left);
      ItemsOfFirst(shards, k);
      StoppedBefore(shards, room, k, Publish(rest, left).(published := Publish(shards, room).published));
      assert forall i :: 0 < i < k ==> shards[i] == rest[i - 1];
    }
  }

  // ------------------------------------------------------- a process's polls

  /** Shards in creation order and their states.  The rest is history since the
      process started: shards sent whole, those of them that could not be marked
      published, events sent, and those sent for a shard that was cut off, after
      which the planner has stopped. */
  datatype World = World(
    items: seq<Option<seq<Event>>>, status: seq<ShardStatus>, done: seq<ShardId>, unmarked: set<ShardId>,
    sent: seq<Event>, cut: seq<Event>, stopped: bool)

  /** `order` is the order in which the claim returns its rows.  The two updates at
      the end of a poll may fail, as both do on an ended context: `freed` tells
      whether shards were reset, `marked` whether they were marked published. */
  datatype Step = Create(items: Option<seq<Event>>)
                | Poll(limit: nat, order: seq<ShardId>, room: nat, freed: bool, marked: bool)

  /** The rows a claim takes: the first waiting ones in creation order. */
  function FirstWaiting(w: World, i: nat, limit: nat): seq<ShardId>
    requires |w.status| == |w.items|
    decreases |w.items| - i
  {
    if i >= |w.items| || limit == 0 then []
    else if w.status[i] == Waiting then [i] + FirstWaiting(w, i + 1, limit - 1)
    else FirstWaiting(w, i + 1, limit)
  }

  /** ORDER BY picks the rows of a claim; RETURNING gives them in any order. */
  predicate Enabled(w: World, s: Step)
    requires |w.status| == |w.items|
  {
    s.Poll? ==> !w.stopped && multiset(s.order) == multiset(FirstWaiting(w, 0, s.limit))
  }

  predicate Known(w: World, order: seq<ShardId>) {
    forall i :: 0 <= i < |order| ==> order[i] < |w.items|
  }

  function Claims(w: World, order: seq<ShardId>): seq<Claim>
    requires Known(w, order)
  {
    seq(|order|, i requires 0 <= i < |order| => Claim(order[i], w.items[order[i]]))
  }

  function Pick(w: World, order: seq<ShardId>): seq<Option<seq<Event>>>
    requires Known(w, order)
  {
    ItemsOf(Claims(w, order))
  }

  function Settled(status: seq<ShardStatus>, claimed: seq<ShardId>, o: Outcome, freed: bool, marked: bool): seq<ShardStatus> {
    seq(|status|, i requires 0 <= i < |status| =>
      if marked && i in o.published then Published
      else if freed && i in o.reset then Waiting
      else if i in claimed then Publishing
      else status[i])
  }

  lemma {:induction false} FirstWaitingKnown(w: World, i: nat, limit: nat)
    requires |w.status| == |w.items|
    ensures forall x :: x in FirstWaiting(w, i, limit) ==> i <= x < |w.items| && w.status[x] == Waiting
    ensures Ascending(FirstWaiting(w, i, limit))
    decreases |w.items| - i
  {
    if i < |w.items| && limit > 0 {
      var left: nat := if w.status[i] == Waiting then limit - 1 else limit;
      FirstWaitingKnown(w, i + 1, left);
      var rest := FirstWaiting(w, i + 1, left);
      if w.status[i] == Waiting {
        forall p | 0 <= p < |rest| ensures i < rest[p] {
          assert rest[p] in rest;
        }
        assert FirstWaiting(w, i, limit) == [i] + rest;
      }
    }
  }

  /** A claim is of distinct waiting shards. */
  ghost predicate Claimable(w: World, order: seq<ShardId>) {
    && |w.status| == |w.items| && Known(w, order)
    && (forall i :: 0 <= i < |order| ==> w.status[order[i]] == Waiting)
    && (forall i, j :: 0 <= i < j < |order| ==> order[i] != order[j])
  }

  lemma EnabledClaims(w: World, s: Step)
    requires |w.status| == |w.items| && Enabled(w, s) && s.Poll?
    ensures Claimable(w, s.order)
  {
    var first := FirstWaiting(w, 0, s.limit);
    FirstWaitingKnown(w, 0, s.limit);
    forall i | 0 <= i < |s.order| ensures s.order[i] in first {
      assert s.order[i] in multiset(s.order);
    }
    forall i, j | 0 <= i < j < |s.order| ensures s.order[i] != s.order[j] {
      if s.order[i] == s.order[j] {
        TwicePresent(s.order, i, j);
        OnceIn(first, s.order[i]);
      }
    }
  }

  lemma {:induction false} OnceIn(s: seq<ShardId>, x: ShardId)
    requires Ascending(s)
    ensures multiset(s)[x] <= 1
  {
    if s != [] {
      OnceIn(s[1..], x);
      assert s == [s[0]] + s[1..];
      assert s[0] !in s[1..];
    }
  }

  function Next(w: World, s: Step): (w': World)
    requires |w.status| == |w.items| && Enabled(w, s)
    ensures |w'.status| == |w'.items|
  {
    match s
    case Create(items) => w.(items := w.items + [items], status := w.status + [Waiting])
    case Poll(limit, order, room, freed, marked) =>
      EnabledClaims(w, s);
      var claimed := Claims(w, order);
      var o, k := Publish(claimed, room), Done(claimed, room);
      var whole := EventsOf(ItemsOf(claimed[..k]));
      World(w.items, Settled(w.status, order, o, freed, marked), w.done + o.published,
            if marked then w.unmarked else w.unmarked + (set i | i in o.published), w.sent + o.sent,
            if |o.sent| > |whole| then o.sent[|whole|..] else [], k < |claimed| && claimed[k].items.Some?)
  }

  function Exec(w: World, steps: seq<Step>): Option<World>
    requires |w.status| == |w.items|
    decreases |steps|
  {
    if steps == [] then Some(w)
    else if !Enabled(w, steps[0]) then None
    else Exec(Next(w, steps[0]), steps[1..])
  }

  // ---------------------------------------------------- what a poll publishes

  /** The shards order[..j + 1] can be read and sent. */
  ghost predicate Reaches(w: World, order: seq<ShardId>, room: nat, j: nat)
    requires Known(w, order)
  {
    && j < |order| && (forall q :: 0 <= q <= j ==> w.items[order[q]].Some?)
    && |EventsOf(Pick(w, order[..j + 1]))| <= room
  }

  lemma {:induction false} DoneExactly(shards: seq<Claim>, room: nat, j: nat)
    requires j < |shards|
    ensures j < Done(shards, room) <==>
            (forall q :: 0 <= q <= j ==> shards[q].items.Some?) && |EventsOf(ItemsOf(shards[..j + 1]))| <= room
    decreases |shards|
  {
    if shards[0].items.Some? {
      var rest := shards[1..];
      ItemsOfFirst(shards, j + 1);
      assert rest[..j] == shards[1..][..j];
      if j > 0 && |shards[0].items.value| <= room {
        DoneExactly(rest, room - |shards[0].items.value|, j - 1);
        assert forall q :: 0 < q <= j ==> shards[q] == rest[q - 1];
      } else if j == 0 {
        assert ItemsOf(shards[1..][..0]) == [];
      }
    }
  }

  lemma ClaimsPrefix(w: World, order: seq<ShardId>, k: nat)
    requires Known(w, order) && k <= |order|
    ensures Known(w, order[..k]) && Claims(w, order)[..k] == Claims(w, order[..k])
    ensures Idents(Claims(w, order[..k])) == order[..k]
  {
  }

  lemma ReachesExactly(w: World, order: seq<ShardId>, room: nat, j: nat)
    requires Known(w, order) && j < |order|
    ensures j < Done(Claims(w, order), room) <==> Reaches(w, order, room, j)
  {
    var claimed := Claims(w, order);
    DoneExactly(claimed, room, j);
    ClaimsPrefix(w, order, j + 1);
    assert ItemsOf(claimed[..j + 1]) == Pick(w, order[..j + 1]);
    assert forall q :: 0 <= q <= j ==> claimed[q].items == w.items[order[q]];
  }

  /** Where a poll stops: all returned before are sent whole. */
  function Stop(w: World, s: Step): nat
    requires |w.status| == |w.items| && Enabled(w, s) && s.Poll?
  {
    EnabledClaims(w, s);
    Done(Claims(w, s.order), s.room)
  }

  lemma StopExactly(w: World, s: Step)
    requires |w.status| == |w.items| && Enabled(w, s) && s.Poll?
    ensures Claimable(w, s.order) && Stop(w, s) <= |s.order|
    ensures forall j :: 0 <= j < |s.order| ==> (j < Stop(w, s) <==> Reaches(w, s.order, s.room, j))
    ensures Publish(Claims(w, s.order), s.room).published == s.order[..Stop(w, s)]
  {
    EnabledClaims(w, s);
    var claimed, k := Claims(w, s.order), Stop(w, s);
    PublishExactly(claimed, s.room);
    ClaimsPrefix(w, s.order, k);
    forall j | 0 <= j < |s.order| ensures j < k <==> Reaches(w, s.order, s.room, j) {
      ReachesExactly(w, s.order, s.room, j);
    }
  }

  /** A poll publishes a shard exactly when the claim returned it, it and all
      returned before it can be read and sent, and the mark is written.  All of
      that but the mark makes it a shard sent whole. */
  lemma PollPublishesExactly(w: World, s: Step, i: ShardId)
    requires |w.status| == |w.items| && Enabled(w, s) && s.Poll? && i < |w.items|
    ensures Known(w, s.order)
    ensures var sent := exists j :: 0 <= j < |s.order| && s.order[j] == i && Reaches(w, s.order, s.room, j);
            && (i in Next(w, s).done <==> i in w.done || sent)
            && (Next(w, s).status[i] == Published <==> w.status[i] == Published || (s.marked && sent))
  {
    StopExactly(w, s);
    PublishedAre(w, s, Stop(w, s));
    if i in s.order[..Stop(w, s)] {
      var j :| 0 <= j < Stop(w, s) && s.order[..Stop(w, s)][j] == i;
    }
  }

  lemma PublishedAre(w: World, s: Step, k: nat)
    requires |w.status| == |w.items| && Enabled(w, s) && s.Poll? && k <= |s.order|
    requires Claimable(w, s.order) && Publish(Claims(w, s.order), s.room).published == s.order[..k]
    ensures forall i :: 0 <= i < |w.items| ==>
              (Next(w, s).status[i] == Published <==>
                 w.status[i] == Published || (s.marked && exists j :: 0 <= j < k && s.order[j] == i))
  {
    forall i | 0 <= i < |w.items|
      ensures i in s.order[..k] <==> exists j :: 0 <= j < k && s.order[j] == i
    {
      if j :| 0 <= j < k && s.order[j] == i {
        assert s.order[..k][j] == i;
      }
    }
    forall i | 0 <= i < |w.items| && i in s.order ensures w.status[i] == Waiting {
      var j :| 0 <= j < |s.order| && s.order[j] == i;
    }
    ResetAre(w, s.order, s.room);
  }

  /** The shards a poll resets: all from a cut-off one on, or the unreadable one. */
  predicate Resets(w: World, s: Step, j: nat)
    requires |w.status| == |w.items| && Enabled(w, s) && s.Poll? && j < |s.order|
  {
    EnabledClaims(w, s);
    var k := Stop(w, s);
    k <= j && (k == j || w.items[s.order[k]].Some?)
  }

  lemma ResetsExactly(w: World, s: Step, j: nat)
    requires |w.status| == |w.items| && Enabled(w, s) && s.Poll? && j < |s.order| && Claimable(w, s.order)
    ensures s.order[j] in Publish(Claims(w, s.order), s.room).reset <==> Resets(w, s, j)
  {
    var claimed, k := Claims(w, s.order), Stop(w, s);
    var reset := Publish(claimed, s.room).reset;
    PublishExactly(claimed, s.room);
    if k < |claimed| && claimed[k].items.Some? {
      assert reset == Idents(claimed[k..]);
      if j >= k {
        assert reset[j - k] == s.order[j];
      } else {
        assert forall q :: 0 <= q < |reset| ==> reset[q] == s.order[k + q];
      }
    }
  }

  lemma SentExactly(order: seq<ShardId>, k: nat, j: nat)
    requires k <= |order| && j < |order| && forall i, j :: 0 <= i < j < |order| ==> order[i] != order[j]
    ensures order[j] in order[..k] <==> j < k
  {
    if j < k {
      assert order[..k][j] == order[j];
    }
  }

  /** What becomes of each claimed shard, whichever of the updates succeed: one sent
      whole is published or stays claimed, one reset waits again or stays claimed,
      and those after an unreadable one stay claimed. */
  lemma PollSettles(w: World, s: Step, j: nat)
    requires |w.status| == |w.items| && Enabled(w, s) && s.Poll? && j < |s.order|
    ensures Known(w, s.order)
    ensures Next(w, s).status[s.order[j]] ==
              if Reaches(w, s.order, s.room, j) then (if s.marked then Published else Publishing)
              else if s.freed && Resets(w, s, j) then Waiting else Publishing
  {
    StopExactly(w, s);
    SentExactly(s.order, Stop(w, s), j);
    ResetsExactly(w, s, j);
  }

  lemma ResetAre(w: World, order: seq<ShardId>, room: nat)
    requires Claimable(w, order)
    ensures forall x :: x in Publish(Claims(w, order), room).reset ==> x in order
  {
    var claimed := Claims(w, order);
    PublishExactly(claimed, room);
    var k := Done(claimed, room);
    forall x | x in Publish(claimed, room).reset ensures x in order {
      if k < |claimed| && claimed[k].items.Some? {
        assert x in Idents(claimed[k..]);
        var j :| 0 <= j < |claimed[k..]| && Idents(claimed[k..])[j] == x;
        assert claimed[k + j].id == x && order[k + j] == x;
      } else {
        assert x == order[k];
      }
    }
  }

  /** Past an unreadable shard another one is published in the same poll exactly
      when the claim returned it ahead of every unreadable one, it fits, and the
      mark is written. */
  lemma PastUnreadable(w: World, s: Step, u: nat, j: nat)
    requires |w.status| == |w.items| && Enabled(w, s) && s.Poll? && u < |s.order| && j < |s.order|
    requires Known(w, s.order) && w.items[s.order[u]].None?
    ensures Next(w, s).status[s.order[u]] != Published
    ensures Next(w, s).status[s.order[j]] == Published ==> j < u
    ensures Next(w, s).status[s.order[j]] == Published <==>
            && s.marked && (forall q :: 0 <= q < |s.order| && w.items[s.order[q]].None? ==> j < q)
            && |EventsOf(Pick(w, s.order[..j + 1]))| <= s.room
  {
    EnabledClaims(w, s);
    PollPublishesExactly(w, s, s.order[j]);
    PollPublishesExactly(w, s, s.order[u]);
    if Reaches(w, s.order, s.room, j) {
      forall q | 0 <= q < |s.order| && w.items[s.order[q]].None? ensures j < q {
      }
    }
  }

  /** If claims come back in creation order, nothing created after an unreadable
      shard of the claim is published. */
  lemma InOrderStops(w: World, s: Step, u: nat, i: ShardId)
    requires |w.status| == |w.items| && Enabled(w, s) && s.Poll? && Ascending(s.order) && u < |s.order|
    requires Known(w, s.order) && w.items[s.order[u]].None? && i < |w.items| && w.status[i] != Published
    ensures Next(w, s).status[i] == Published ==> i < s.order[u]
  {
    PollPublishesExactly(w, s, i);
  }

  // ------------------------------------------------------------------ whole runs

  /** A process as it starts: any shards in any states. */
  ghost predicate Fresh(w: World) {
    |w.status| == |w.items| && w.done == [] && w.unmarked == {} && w.sent == [] && w.cut == [] && !w.stopped
  }

  ghost predicate Distinct(s: seq<ShardId>) {
    forall i, j :: 0 <= i < j < |s| ==> s[i] != s[j]
  }

  predicate PublishedIn(w: World, i: ShardId) {
    i < |w.status| && w.status[i] == Published
  }

  /** What was sent whole since w0: `done`, each readable, once each, not to be
      claimed again.  Those and only those whose mark was written are published. */
  ghost predicate Accounts(w0: World, w: World) {
    && |w.status| == |w.items| && w0.items <= w.items && Known(w, w.done) && Distinct(w.done)
    && (forall i :: 0 <= i < |w.items| ==> (PublishedIn(w, i) <==> (i in w.done && i !in w.unmarked) || PublishedIn(w0, i)))
    && (forall i :: 0 <= i < |w.done| ==>
          w.items[w.done[i]].Some? && !PublishedIn(w0, w.done[i]) && w.status[w.done[i]] != Waiting)
    && (forall i :: i in w.unmarked ==> i in w.done)
  }

  ghost predicate Unfinished(w: World, i: ShardId) {
    i < |w.items| && i !in w.done && w.items[i].Some? && w.cut < w.items[i].value
  }

  /** The log is the events of the shards sent whole, shard by shard in the order
      of sending, then what was sent of a shard that was cut off. */
  ghost predicate Logged(w: World) {
    && Known(w, w.done) && w.sent == EventsOf(Pick(w, w.done)) + w.cut
    && (!w.stopped ==> w.cut == [])
    && (w.cut != [] ==> exists i :: Unfinished(w, i))
  }

  lemma {:induction false} EventsConcat(a: seq<Option<seq<Event>>>, b: seq<Option<seq<Event>>>)
    ensures EventsOf(a + b) == EventsOf(a) + EventsOf(b)
  {
    if a == [] {
      assert a + b == b;
    } else {
      EventsConcat(a[1..], b);
      assert (a + b)[1..] == a[1..] + b;
    }
  }

  lemma CreateAccounts(w0: World, w: World, items: Option<seq<Event>>)
    requires |w0.status| == |w0.items| && Accounts(w0, w) && Logged(w)
    ensures Accounts(w0, Next(w, Create(items))) && Logged(Next(w, Create(items)))
  {
    var w' := Next(w, Create(items));
    forall i | 0 <= i < |w'.items|
      ensures PublishedIn(w', i) <==> (i in w'.done && i !in w'.unmarked) || PublishedIn(w0, i)
    {
      if i in w.done {
        var j :| 0 <= j < |w.done| && w.done[j] == i;
        assert w.done[j] < |w.items|;
      }
    }
    assert Pick(w', w.done) == Pick(w, w.done);
    if i :| Unfinished(w, i) {
      assert Unfinished(w', i);
    }
  }

  /** A poll in terms of the shards it publishes and the one it stops at. */
  lemma PollEffect(w: World, s: Step, k: nat)
    requires s.Poll? && Claimable(w, s.order) && Enabled(w, s) && k == Done(Claims(w, s.order), s.room)
    ensures k <= |s.order| && (forall i :: 0 <= i < k ==> w.items[s.order[i]].Some?)
    ensures Next(w, s).done == w.done + s.order[..k] && Next(w, s).items == w.items
    ensures Known(w, s.order[..k])
    ensures Next(w, s).sent == w.sent + (EventsOf(Pick(w, s.order[..k])) + Next(w, s).cut)
    ensures Next(w, s).cut != [] ==>
              Next(w, s).stopped && k < |s.order| && w.items[s.order[k]].Some? && Next(w, s).cut < w.items[s.order[k]].value
    ensures Publish(Claims(w, s.order), s.room).published == s.order[..k]
  {
    var claimed := Claims(w, s.order);
    PublishExactly(claimed, s.room);
    ClaimsPrefix(w, s.order, k);
    assert forall i :: 0 <= i < |s.order| ==> claimed[i] == Claim(s.order[i], w.items[s.order[i]]);
    var whole, o := EventsOf(ItemsOf(claimed[..k])), Publish(claimed, s.room);
    assert whole == EventsOf(Pick(w, s.order[..k]));
    assert o.sent == whole + Next(w, s).cut;
  }

  lemma PollAccounts(w0: World, w: World, s: Step)
    requires |w0.status| == |w0.items| && Accounts(w0, w) && Enabled(w, s) && s.Poll?
    ensures Accounts(w0, Next(w, s))
  {
    StopExactly(w, s);
    var w', k := Next(w, s), Stop(w, s);
    PollEffect(w, s, k);
    PublishedAre(w, s, k);
    forall i | 0 <= i < |w.items| && (i in w.done || i in s.order[..k]) ensures w'.status[i] != Waiting {
      SentNotWaiting(w0, w, s, i);
    }
    MoreAccounts(w0, w, w', s.order[..k], s.marked);
  }

  lemma SentNotWaiting(w0: World, w: World, s: Step, i: ShardId)
    requires Accounts(w0, w) && Enabled(w, s) && s.Poll? && i < |w.items|
    requires i in w.done || i in s.order[..Stop(w, s)]
    ensures Next(w, s).status[i] != Waiting
  {
    StopExactly(w, s);
    if i in s.order {
      var j :| 0 <= j < |s.order| && s.order[j] == i;
      assert w.status[s.order[j]] == Waiting;
      SentExactly(s.order, Stop(w, s), j);
      PollSettles(w, s, j);
    } else {
      ResetAre(w, s.order, s.room);
    }
  }

  lemma MoreAccounts(w0: World, w: World, w': World, more: seq<ShardId>, marked: bool)
    requires |w0.status| == |w0.items| && Accounts(w0, w)
    requires w'.items == w.items && |w'.status| == |w.status| && w'.done == w.done + more && Claimable(w, more)
    requires w'.unmarked == if marked then w.unmarked else w.unmarked + (set i | i in more)
    requires forall i :: 0 <= i < |more| ==> w.items[more[i]].Some?
    requires forall i :: 0 <= i < |w.items| && (i in w.done || i in more) ==> w'.status[i] != Waiting
    requires forall i :: 0 <= i < |w.items| ==>
               (w'.status[i] == Published <==> w.status[i] == Published || (marked && exists j :: 0 <= j < |more| && more[j] == i))
    ensures Accounts(w0, w')
  {
    forall i | 0 <= i < |more| ensures more[i] !in w.done && !PublishedIn(w0, more[i]) && more[i] in more {
      assert !PublishedIn(w, more[i]);
    }
    DistinctConcat(w.done, more);
    forall i | 0 <= i < |w.items|
      ensures PublishedIn(w', i) <==> (i in w'.done && i !in w'.unmarked) || PublishedIn(w0, i)
    {
      assert i in more <==> exists j :: 0 <= j < |more| && more[j] == i;
    }
    forall i | 0 <= i < |w'.done| ensures w'.done[i] in w.done || w'.done[i] in more {
    }
  }

  lemma DistinctConcat(a: seq<ShardId>, b: seq<ShardId>)
    requires Distinct(a) && Distinct(b) && forall i :: 0 <= i < |b| ==> b[i] !in a
    ensures Distinct(a + b)
  {
  }

  lemma PickConcat(w: World, a: seq<ShardId>, b: seq<ShardId>)
    requires Known(w, a) && Known(w, b)
    ensures Known(w, a + b) && EventsOf(Pick(w, a + b)) == EventsOf(Pick(w, a)) + EventsOf(Pick(w, b))
  {
    assert Pick(w, a + b) == Pick(w, a) + Pick(w, b);
    EventsConcat(Pick(w, a), Pick(w, b));
  }

  lemma MoreLogged(w: World, w': World, more: seq<ShardId>)
    requires Logged(w) && !w.stopped && w'.items == w.items && w'.done == w.done + more && Known(w, more)
    requires w'.sent == w.sent + (EventsOf(Pick(w, more)) + w'.cut)
    requires w'.cut != [] ==> w'.stopped && exists i :: Unfinished(w', i)
    ensures Logged(w')
  {
    PickConcat(w, w.done, more);
    assert Pick(w', w'.done) == Pick(w, w'.done);
  }

  lemma PollLogged(w0: World, w: World, s: Step)
    requires Accounts(w0, w) && Logged(w) && Enabled(w, s) && s.Poll?
    ensures Logged(Next(w, s))
  {
    EnabledClaims(w, s);
    var w', k := Next(w, s), Done(Claims(w, s.order), s.room);
    PollEffect(w, s, k);
    if w'.cut != [] {
      assert w.status[s.order[k]] == Waiting;
      SentExactly(s.order, k, k);
      assert s.order[k] !in w'.done;
      assert Unfinished(w', s.order[k]);
    }
    MoreLogged(w, w', s.order[..k]);
  }

  lemma {:induction false} ExecAccounts(w0: World, w: World, steps: seq<Step>)
    requires |w0.status| == |w0.items| && Accounts(w0, w) && Logged(w) && Exec(w, steps).Some?
    ensures Accounts(w0, Exec(w, steps).value) && Logged(Exec(w, steps).value)
    decreases |steps|
  {
    if steps != [] {
      var s := steps[0];
      match s {
        case Create(items) => CreateAccounts(w0, w, items);
        case Poll(_, _, _, _, _) =>
          PollAccounts(w0, w, s);
          PollLogged(w0, w, s);
      }
      ExecAccounts(w0, Next(w, s), steps[1..]);
    }
  }

  /** Over every run of a process, whatever order the claims come back in: what
      is published stays published, only readable shards are published, and the
      log is exactly their events, each shard once and whole, followed by a
      proper part of one unpublished shard if sending was cut off inside it. */
  lemma RunLog(w: World, steps: seq<Step>)
    requires Fresh(w) && Exec(w, steps).Some?
    ensures var w' := Exec(w, steps).value;
            && Accounts(w, w') && Logged(w')
            && (w'.sent == EventsOf(Pick(w', w'.done)) <==> w'.cut == [])
  {
    assert Pick(w, []) == [];
    ExecAccounts(w, w, steps);
  }

  function ThreeShards(a: seq<Event>, b: seq<Event>): World {
    World([Some(a), None, Some(b)], [Waiting, Waiting, Waiting], [], {}, [], [], false)
  }

  lemma ThreeWaiting(a: seq<Event>, b: seq<Event>)
    ensures FirstWaiting(ThreeShards(a, b), 0, 3) == [0, 1, 2]
  {
    var w := ThreeShards(a, b);
    assert FirstWaiting(w, 3, 0) == [];
    assert FirstWaiting(w, 2, 1) == [2];
    assert FirstWaiting(w, 1, 2) == [1, 2];
  }

  lemma OneShard(w: World, i: ShardId)
    requires i < |w.items| && w.items[i].Some?
    ensures Known(w, [i]) && EventsOf(Pick(w, [i])) == w.items[i].value
  {
    var picked := Pick(w, [i]);
    assert picked == [w.items[i]] && picked[1..] == [];
  }

  /** A readable shard returned first is published past any unreadable one. */
  lemma FirstReturned(w: World, s: Step, u: nat)
    requires |w.status| == |w.items| && Enabled(w, s) && s.Poll? && 0 < u < |s.order| && Known(w, s.order)
    requires w.items[s.order[u]].None? && w.items[s.order[0]].Some? && |w.items[s.order[0]].value| <= s.room && s.marked
    ensures Next(w, s).status[s.order[0]] == Published
  {
    PastUnreadable(w, s, u, 0);
    assert s.order[..1] == [s.order[0]];
    OneShard(w, s.order[0]);
    PollPublishesExactly(w, s, s.order[0]);
    assert Reaches(w, s.order, s.room, 0);
  }

  /** Three shards, the middle one unreadable, returned last first: the last one
      is published and the first is not. */
  lemma ReturnedLastFirst(a: seq<Event>, b: seq<Event>)
    ensures var w, s := ThreeShards(a, b), Poll(3, [2, 1, 0], |b|, true, true);
            Enabled(w, s) && Next(w, s).status[2] == Published && Next(w, s).status[0] != Published
  {
    var w, s := ThreeShards(a, b), Poll(3, [2, 1, 0], |b|, true, true);
    ThreeWaiting(a, b);
    assert multiset(s.order) == multiset{0, 1, 2};
    FirstReturned(w, s, 1);
    PastUnreadable(w, s, 1, 2);
  }

  // ------------------------------------------------------------- what a claim takes

  /** How many shards from i up to j wait. */
  function WaitingIn(w: World, i: nat, j: nat): nat
    requires |w.status| == |w.items| && i <= j <= |w.items|
    decreases j - i
  {
    if i == j then 0 else (if w.status[i] == Waiting then 1 else 0) + WaitingIn(w, i + 1, j)
  }

  lemma {:induction false} FirstWaitingExactly(w: World, i: nat, limit: nat, x: ShardId)
    requires |w.status| == |w.items| && i <= |w.items|
    ensures x in FirstWaiting(w, i, limit) <==>
            i <= x < |w.items| && w.status[x] == Waiting && WaitingIn(w, i, x) < limit
    decreases |w.items| - i
  {
    if i < |w.items| {
      var left: nat := if w.status[i] == Waiting && limit > 0 then limit - 1 else limit;
      FirstWaitingExactly(w, i + 1, left, x);
    }
  }

  /** A poll claims a shard exactly if it waits and fewer than the limit of those created
      before it do, each once. */
  lemma ClaimExactly(w: World, s: Step, x: ShardId)
    requires |w.status| == |w.items| && Enabled(w, s) && s.Poll?
    ensures x in s.order <==> x < |w.items| && w.status[x] == Waiting && WaitingIn(w, 0, x) < s.limit
    ensures forall i, j :: 0 <= i < j < |s.order| ==> s.order[i] != s.order[j]
  {
    EnabledClaims(w, s);
    FirstWaitingExactly(w, 0, s.limit, x);
    assert x in s.order <==> x in multiset(s.order);
    assert x in FirstWaiting(w, 0, s.limit) <==> x in multiset(FirstWaiting(w, 0, s.limit));
  }
}
