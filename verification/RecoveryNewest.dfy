/** What recovery makes of a card that had ended before the crash: whether it is
    started again depends on which of its changes is its newest row. */
module RecoveryNewest {
  import opened Common
  import opened CardStates
  import opened CardStateSchedules
  import opened CardProtocol
  import opened CardRuns
  import opened CardNewest
  import opened Shards
  import opened Recovery
  import CampaignStats

  /** The newest row is an unfinished change that reached the final one's number. */
  ghost predicate Hidden(log: seq<Change>, k: CardKey, f: Change, head: Head) {
    exists e :: e in log && e.Owner() == k && !e.status.Terminal() && f.transition <= e.transition
                && head == Head(e.transition, e.ToRow())
  }

  lemma SourceHides(t: Table, log: seq<Change>, k: CardKey, f: Change, head: Option<Head>)
    requires Ends(t, log, k, f) && HeadSource(t, log, k, head)
    ensures head.Some? && (!IsFinal(head) <==> Hidden(log, k, f, head.value))
  {
    var q := Key(k.card, k.campaign, head.value.transition);
    assert f.transition <= head.value.transition;
    assert q.Owner() == k && q !in t;
    var e :| Tops(t, log, k, e) && e.RowKey() == q && e.ToRow() == head.value.row;
    assert head.value == Head(e.transition, e.ToRow());
  }

  /** However the changes were flushed, an ended card is not seen finished exactly
      when an unfinished change of its is on its final one. */
  lemma HeadHides(db: Db, log: seq<Change>, bs: seq<seq<Change>>, k: CardKey, f: Change)
    requires Ends(db.states, log, k, f) && Schedules(bs, log)
    ensures var head := FinalHead(db, bs, k);
            head.Some? && (!IsFinal(head) <==> Hidden(log, k, f, head.value))
  {
    var t, t' := db.states, WriteBatches(db, bs).states;
    BatchesGrow(db, bs);
    GrownMembers(t, t', Flatten(bs), log);
    GrownHead(t, t', log, k);
    SourceHides(t, log, k, f, HeadOf(t', k));
  }

  lemma HeadUnfinished(t: Table, k: CardKey)
    ensures k.card in UnfinishedCards(t, k.campaign) <==> HeadOf(t, k).Some? && !IsFinal(HeadOf(t, k))
  {
    var ks := CampaignStats.Unfinished(t, k.campaign);
    if HeadOf(t, k).Some? {
      var q := Key(k.card, k.campaign, HeadOf(t, k).value.transition);
      assert q in t && q.Owner() == k;
      assert k in CampaignStats.CardsOf(t, k.campaign);
    }
    if k.card in UnfinishedCards(t, k.campaign) {
      var x :| x in ks && x.card == k.card;
      assert x == k;
    }
  }

  /** A card that had ended is sharded again after a crash exactly when its newest
      row is an unfinished change that reached the final one's number. */
  lemma EndedRestartsExactly(db: Db, log: seq<Change>, bs: seq<seq<Change>>, k: CardKey, f: Change,
                             rows: seq<Shard>, cards: seq<Latest>, commands: seq<int>, size: nat)
    requires Ends(db.states, log, k, f) && Schedules(bs, log)
    requires size > 0 && IsSnapshot(cards, WriteBatches(db, bs).states, k.campaign)
    ensures FinalHead(db, bs, k).Some?
    ensures var open := Select(Recovered(rows, k.campaign, RecoverEvents(cards, commands), size), Unpublished(k.campaign));
            var hidden := Hidden(log, k, f, FinalHead(db, bs, k).value);
            && (k.card in CardsIn(RecoverEvents(cards, commands)) <==> hidden)
            && (hidden ==> k.card in ShardCards(open))
            && (UnfinishedCards(WriteBatches(db, bs).states, k.campaign) != {} ==> (k.card in ShardCards(open) <==> hidden))
  {
    var t := WriteBatches(db, bs).states;
    HeadHides(db, log, bs, k, f);
    HeadUnfinished(t, k);
    SnapshotEvents(cards, t, k.campaign, commands);
    if UnfinishedCards(t, k.campaign) != {} {
      RecoveryExact(t, rows, k.campaign, cards, commands, size);
    }
  }

  /** So an ended card stays out of recovery under every flushing of its changes
      exactly when no unfinished one has reached the final one's number. */
  lemma NeverRestartsExactly(db: Db, log: seq<Change>, k: CardKey, f: Change)
    requires Ends(db.states, log, k, f)
    ensures (forall bs :: Schedules(bs, log) ==> k.card !in UnfinishedCards(WriteBatches(db, bs).states, k.campaign))
            <==> OnTop(log, k, f)
  {
    NewestFinalExactly(db, log, k, f);
    forall bs | Schedules(bs, log)
      ensures k.card in UnfinishedCards(WriteBatches(db, bs).states, k.campaign) <==> !IsFinal(FinalHead(db, bs, k))
    {
      HeadHides(db, log, bs, k, f);
      HeadUnfinished(WriteBatches(db, bs).states, k);
    }
    if !OnTop(log, k, f) {
      var bs :| Schedules(bs, log) && !IsFinal(FinalHead(db, bs, k));
      assert k.card in UnfinishedCards(WriteBatches(db, bs).states, k.campaign);
    }
  }

  lemma LateEnds(c: Config, t: Table)
    requires forall q :: q in t && q.Owner() == CardKey(c.card, c.campaign) ==> q.transition < 1
    ensures Ends(t, OneLate(c).changes, CardKey(c.card, c.campaign), Refusal(c, 1))
    ensures !OnTop(OneLate(c).changes, CardKey(c.card, c.campaign), Refusal(c, 1))
  {
    var e := Activation(c, c.first, 0).(transition := 2);
    assert OneLate(c).changes == [Refusal(c, 1), e];
    assert e in OneLate(c).changes && e.Owner() == CardKey(c.card, c.campaign);
  }

  /** It happens in every campaign: a refused card whose activation was written late
      has all its changes in the database and is started again by recovery. */
  lemma RefusedRestarts(c: Config, db: Db)
    requires c.first in Sequences(c.commands)
    requires forall q :: q in db.states && q.Owner() == CardKey(c.card, c.campaign) ==> q.transition < 1
    ensures exists steps, end, bs ::
              && Reaches(c, Start(c), steps, end) && end.end == Some(Declined) && Schedules(bs, end.changes)
              && c.card in UnfinishedCards(WriteBatches(db, bs).states, c.campaign)
  {
    var k, log := CardKey(c.card, c.campaign), OneLate(c).changes;
    OneLateReached(c);
    LateEnds(c, db.states);
    NeverRestartsExactly(db, log, k, Refusal(c, 1));
    var bs :| Schedules(bs, log) && k.card in UnfinishedCards(WriteBatches(db, bs).states, k.campaign);
    assert Reaches(c, Start(c), LATE_WRITTEN, OneLate(c)) && Schedules(bs, OneLate(c).changes);
  }
}
