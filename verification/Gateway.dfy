/** The in-process gateway: submitting the parts of a message, correlating
    delivery receipts with it, and folding them into one card event. */
module Gateway {
  import opened Common

  type MsgId = nat
  type SmscId = nat

  datatype DlrStatus = Delivrd | Undeliv | FailedSubmit | FailedPartialSubmit | Reported(code: string)

  /** A `card.dlr_received` event for a message. */
  datatype Event = Event(msg: MsgId, status: DlrStatus)

  /** What a stored correlation says; `expired` is its deadline having passed. */
  datatype Correlation = Correlation(msg: MsgId, expired: bool)

  datatype Multipart = Multipart(total: nat, resolved: nat, anyFailed: bool)

  /** The gateway's own tables and the events it has put on the bus. */
  datatype Tables = Tables(correlations: map<SmscId, Correlation>, multipart: map<MsgId, Multipart>, events: seq<Event>)

  // --------------------------------------------------------- the atomic parts

  function TrackParts(t: Tables, m: MsgId, total: nat): Tables {
    if total > 1 then t.(multipart := t.multipart[m := Multipart(total, 0, false)]) else t
  }

  function Correlate(t: Tables, m: MsgId, id: SmscId): Tables {
    t.(correlations := t.correlations[id := Correlation(m, false)])
  }

  function SubmitFailure(t: Tables, m: MsgId, submitted: nat): Tables {
    t.(events := t.events + [Event(m, if submitted > 0 then FailedPartialSubmit else FailedSubmit)])
  }

  datatype Verdict = Untracked | Waiting | Resolved(anyFailed: bool)

  /** What the counting does to a message's state, under its lock. */
  function CountPart(p: Multipart, delivered: bool): Multipart {
    Multipart(p.total, p.resolved + 1, p.anyFailed || !delivered)
  }

  function RecordPart(parts: map<MsgId, Multipart>, m: MsgId, delivered: bool): (map<MsgId, Multipart>, Verdict) {
    if m !in parts then (parts, Untracked)
    else
      var p := CountPart(parts[m], delivered);
      if p.resolved >= p.total then (parts - {m}, Resolved(p.anyFailed)) else (parts[m := p], Waiting)
  }

  /** A receipt whose correlation named message m. */
  function Settle(t: Tables, m: MsgId, status: DlrStatus): Tables {
    var (parts, verdict) := RecordPart(t.multipart, m, status == Delivrd);
    var t' := t.(multipart := parts);
    match verdict
    case Untracked => t'.(events := t.events + [Event(m, status)])
    case Waiting => t'
    case Resolved(anyFailed) => t'.(events := t.events + [Event(m, Aggregate(anyFailed))])
  }

  /** The rest of receipt handling once the correlation entry has been looked up. */
  function FinishReceipt(t: Tables, id: SmscId, entry: Option<Correlation>, status: DlrStatus): Tables {
    match entry
    case None => t
    case Some(c) =>
      var t' := t.(correlations := t.correlations - {id});
      if c.expired then t' else Settle(t', c.msg, status)
  }

  /** The aggregate of a message's receipts. */
  function Aggregate(anyFailed: bool): DlrStatus {
    if anyFailed then Undeliv else Delivrd
  }

  function Lookup(t: Tables, id: SmscId): Option<Correlation> {
    if id in t.correlations then Some(t.correlations[id]) else None
  }

  function Sweep(t: Tables): Tables {
    t.(correlations := map id | id in t.correlations && !t.correlations[id].expired :: t.correlations[id])
  }

  /** The sweep takes away the expired correlations and nothing else. */
  lemma SweepExactly(t: Tables, id: SmscId)
    ensures Sweep(t).multipart == t.multipart && Sweep(t).events == t.events
    ensures Lookup(Sweep(t), id) == match Lookup(t, id) case None => None case Some(c) => if c.expired then None else Some(c)
  {
  }

  // ------------------------------------------------------------ the code form

  /** The submissions of one message: accepted identifiers in order, then
      either the end or a refusal. */
  function SubmitAll(t: Tables, m: MsgId, accepted: seq<SmscId>): Tables {
    if accepted == [] then t
    else Correlate(SubmitAll(t, m, accepted[..|accepted| - 1]), m, accepted[|accepted| - 1])
  }

  class InProcessGateway {
    var correlations: map<SmscId, Correlation>
    var multipart: map<MsgId, Multipart>
    var events: seq<Event>

    ghost function Contents(): Tables
      reads this
    {
      Tables(correlations, multipart, events)
    }

    constructor ()
      ensures Contents() == Tables(map[], map[], [])
    {
      correlations, multipart, events := map[], map[], [];
    }

    /** Submits the parts of m one by one; `answers` are the SMSC's replies,
        a missing identifier being a failed submission. */
    method HandleSendSms(m: MsgId, answers: seq<Option<SmscId>>) returns (ghost accepted: seq<SmscId>)
      modifies this
      ensures |accepted| <= |answers|
      ensures forall i :: 0 <= i < |accepted| ==> answers[i] == Some(accepted[i])
      ensures |accepted| < |answers| ==> answers[|accepted|].None?
      ensures var sent := SubmitAll(TrackParts(old(Contents()), m, |answers|), m, accepted);
              Contents() == if |accepted| == |answers| then sent else SubmitFailure(sent, m, |accepted|)
    {
      if |answers| > 1 {
        multipart := multipart[m := Multipart(|answers|, 0, false)];
      }
      accepted := [];
      var submittedParts := 0;
      ghost var start := Contents();
      while submittedParts < |answers|
        invariant 0 <= submittedParts <= |answers| && |accepted| == submittedParts
        invariant forall i :: 0 <= i < |accepted| ==> answers[i] == Some(accepted[i])
        invariant Contents() == SubmitAll(start, m, accepted)
      {
        var answer := answers[submittedParts];
        if answer.None? {
          events := events + [Event(m, if submittedParts > 0 then FailedPartialSubmit else FailedSubmit)];
          return;
        }
        correlations := correlations[answer.value := Correlation(m, false)];
        ghost var more := accepted + [answer.value];
        assert more[..|more| - 1] == accepted;
        accepted := more;
        submittedParts := submittedParts + 1;
      }
    }

    method RecordPartDlr(m: MsgId, delivered: bool) returns (verdict: Verdict)
      modifies this
      ensures (multipart, verdict) == RecordPart(old(multipart), m, delivered)
      ensures correlations == old(correlations) && events == old(events)
    {
      if m !in multipart {
        return Untracked;
      }
      var state := multipart[m];
      state := state.(resolved := state.resolved + 1);
      if !delivered {
        state := state.(anyFailed := true);
      }
      if state.resolved >= state.total {
        multipart := multipart - {m};
        return Resolved(state.anyFailed);
      }
      multipart := multipart[m := state];
      return Waiting;
    }

    method HandleDlr(id: SmscId, receipt: DlrStatus)
      modifies this
      ensures Contents() == FinishReceipt(old(Contents()), id, Lookup(old(Contents()), id), receipt)
    {
      if id !in correlations {
        return;
      }
      var c := correlations[id];
      correlations := correlations - {id};
      if c.expired {
        return;
      }
      var status := receipt;
      var verdict := RecordPartDlr(c.msg, receipt == Delivrd);
      match verdict {
        case Untracked =>
        case Waiting =>
          return;
        case Resolved(anyFailed) =>
          status := Aggregate(anyFailed);
      }
      events := events + [Event(c.msg, status)];
    }

    method CleanupCorrelations()
      modifies this
      ensures Contents() == Sweep(old(Contents()))
    {
      var todo := correlations.Keys;
      ghost var was := correlations;
      while todo != {}
        invariant todo <= correlations.Keys <= was.Keys
        invariant forall id :: id in correlations ==> correlations[id] == was[id]
        invariant forall id :: id in was && id !in todo ==> (id in correlations <==> !was[id].expired)
        invariant multipart == old(multipart) && events == old(events)
        decreases todo
      {
        var id :| id in todo;
        if correlations[id].expired {
          correlations := correlations - {id};
        }
        todo := todo - {id};
      }
    }
  }
}
