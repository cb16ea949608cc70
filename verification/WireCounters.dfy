/** The OTA counters a card sees: ranges reserved in card_counters, spent from
    the local store, sent as five bytes. */
module WireCounters {
  import opened Common
  import opened Counters

  // -------------------------------------------------------------- five-byte form

  const WRAP := 0x100_0000_0000

  /** Big-endian, the high byte taken from above the low 32 bits. */
  function Encode(v: int): (bytes: seq<byte>)
    ensures |bytes| == 5
  {
    [(v / 0x1_0000_0000) % 256, (v / 0x100_0000) % 256, (v / 0x1_0000) % 256, (v / 0x100) % 256, v % 256]
  }

  function Number(bytes: seq<byte>): nat {
    if bytes == [] then 0 else Number(bytes[..|bytes| - 1]) * 256 + bytes[|bytes| - 1]
  }

  /** One more byte of a number. */
  lemma NumberMore(bytes: seq<byte>, b: byte)
    ensures Number(bytes + [b]) == Number(bytes) * 256 + b
  {
    assert (bytes + [b])[..|bytes|] == bytes;
  }

  /** The low bytes of x / 256, then the lowest of x. */
  lemma LowBytes(x: int, m: nat)
    requires m > 0
    ensures ((x / 256) % m) * 256 + x % 256 == x % (m * 256)
  {
    var q, r := (x / 256) / m, (x / 256) % m;
    assert x == (q * m + r) * 256 + x % 256;
    assert (q * m + r) * 256 == q * (m * 256) + r * 256;
    DivideUnique(x, m * 256, q, r * 256 + x % 256);
  }

  lemma FiveBytes(v: int)
    ensures (((((v / 0x1_0000_0000) % 256) * 256 + (v / 0x100_0000) % 256) * 256
             + (v / 0x1_0000) % 256) * 256 + (v / 0x100) % 256) * 256 + v % 256 == v % WRAP
  {
    var x1, x2, x3, x4 := v / 0x100, v / 0x1_0000, v / 0x100_0000, v / 0x1_0000_0000;
    assert x2 == x1 / 256 && x3 == x2 / 256 && x4 == x3 / 256;
    LowBytes(x3, 0x100);
    LowBytes(x2, 0x1_0000);
    LowBytes(x1, 0x100_0000);
    LowBytes(v, 0x1_0000_0000);
  }

  lemma NumberOfFive(e: seq<byte>)
    requires |e| == 5
    ensures Number(e) == ((((e[0] as int) * 256 + e[1]) * 256 + e[2]) * 256 + e[3]) * 256 + e[4]
  {
    assert e == (((([] + [e[0]]) + [e[1]]) + [e[2]]) + [e[3]]) + [e[4]];
    NumberMore([], e[0]);
    NumberMore([] + [e[0]], e[1]);
    NumberMore(([] + [e[0]]) + [e[1]], e[2]);
    NumberMore((([] + [e[0]]) + [e[1]]) + [e[2]], e[3]);
    NumberMore(((([] + [e[0]]) + [e[1]]) + [e[2]]) + [e[3]], e[4]);
  }

  /** The five bytes are the counter modulo 2^40. */
  lemma EncodeNumber(v: int)
    ensures Number(Encode(v)) == v % WRAP
  {
    NumberOfFive(Encode(v));
    FiveBytes(v);
  }

  predicate Less(a: seq<byte>, b: seq<byte>)
    requires |a| == |b|
  {
    a != [] && (a[0] < b[0] || (a[0] == b[0] && Less(a[1..], b[1..])))
  }

  function Power(n: nat): nat {
    if n == 0 then 1 else 256 * Power(n - 1)
  }

  lemma {:induction false} NumberFirst(a: seq<byte>)
    requires a != []
    ensures Number(a) == a[0] * Power(|a| - 1) + Number(a[1..]) && Number(a[1..]) < Power(|a| - 1)
  {
    if |a| > 1 {
      var init, rest := a[..|a| - 1], a[1..];
      NumberFirst(init);
      assert rest[..|rest| - 1] == init[1..];
      assert Number(rest) == Number(init[1..]) * 256 + a[|a| - 1];
      FirstShifts(a[0], Power(|a| - 2), Number(init[1..]), a[|a| - 1]);
    }
  }

  lemma FirstShifts(x: int, p: nat, r: nat, b: byte)
    requires r < p
    ensures (x * p + r) * 256 + b == x * (256 * p) + (r * 256 + b) && r * 256 + b < 256 * p
  {
    assert x * (256 * p) == x * p * 256;
  }

  lemma FirstDecides(x: int, y: int, p: nat, r: nat, s: nat)
    requires r < p && s < p
    ensures x * p + r < y * p + s <==> x < y || (x == y && r < s)
  {
    assert (x + 1) * p == x * p + p && (y + 1) * p == y * p + p;
    if x < y {
      MultiplyMonotone(x + 1, y, p);
    } else if x > y {
      MultiplyMonotone(y + 1, x, p);
    }
  }

  /** Byte order is number order. */
  lemma {:induction false} LessIsNumber(a: seq<byte>, b: seq<byte>)
    requires |a| == |b|
    ensures Less(a, b) <==> Number(a) < Number(b)
  {
    if a != [] {
      NumberFirst(a);
      NumberFirst(b);
      LessIsNumber(a[1..], b[1..]);
      FirstDecides(a[0], b[0], Power(|a| - 1), Number(a[1..]), Number(b[1..]));
    }
  }

  /** The wire form keeps the order of counters, and no more, modulo 2^40. */
  lemma EncodeOrders(u: int, v: int)
    ensures Less(Encode(u), Encode(v)) <==> u % WRAP < v % WRAP
  {
    EncodeNumber(u);
    EncodeNumber(v);
    LessIsNumber(Encode(u), Encode(v));
  }

  // --------------------------------------------------------- reserving and using

  /** A counter a worker has read for an activation, and whether it has been
      incremented since. */
  datatype Hand = Hand(value: int, bumped: bool)

  datatype Activation = Activation(pair: Pair, hand: Hand)

  /** `taken` and `sent` are history: counters read and counters sent. */
  datatype Use = Use(pair: Pair, value: int)

  datatype World = World(durable: Plain, store: Store, inHand: map<nat, Activation>, taken: seq<Use>, sent: seq<Use>)

  /** `Reserve` is a shard preload for one application, by the one planner.  An
      activation reads its counter and increments it under two separate locks,
      and then sends or gives up.  `Restart` loses the local store and whatever
      was in hand. */
  datatype Step =
    | Reserve(cards: set<string>, app: string, n: nat)
    | Read(worker: nat, card: string, app: string)
    | Bump(worker: nat, card: string, app: string)
    | Send(worker: nat, card: string, app: string)
    | GiveUp(worker: nat, card: string, app: string)
    | Evict(card: string)
    | Restart
  {
    predicate Plainly() {
      match this
      case Reserve(cards, _, _) => forall c :: c in cards ==> NoColon(c)
      case Restart => true
      case _ => NoColon(card)
    }

    predicate Reserves(q: Pair) {
      Reserve? && app == q.app && q.card in cards
    }

    /** A step of an activation of q. */
    predicate Works(q: Pair) {
      (Read? || Bump? || Send? || GiveUp?) && card == q.card && app == q.app
    }

    predicate Drops(q: Pair) {
      Restart? || (Evict? && card == q.card)
    }
  }

  predicate Enabled(w: World, s: Step) {
    match s
    case Read(v, _, _) => v !in w.inHand
    case Bump(v, card, app) => v in w.inHand && w.inHand[v].pair == Pair(card, app) && !w.inHand[v].hand.bumped
    case Send(v, card, app) => v in w.inHand && w.inHand[v].pair == Pair(card, app) && w.inHand[v].hand.bumped
    case GiveUp(v, card, app) => v in w.inHand && w.inHand[v].pair == Pair(card, app) && w.inHand[v].hand.bumped
    case _ => true
  }

  function Pairs(cards: set<string>, app: string): set<Pair> {
    set c | c in cards :: Pair(c, app)
  }

  /** Missing rows are inserted with value 0, then the range is taken. */
  function Raised(durable: Plain, cards: set<string>, app: string, n: nat): Plain {
    durable + (map p | p in Pairs(cards, app) :: ReadPlain(durable, p) + n)
  }

  /** The card of a key for a known application. */
  function CardFor(k: string, app: string): string {
    if |k| > |app| then k[..|k| - |app| - 1] else k
  }

  function StartValues(durable: Plain, cards: set<string>, app: string): map<string, int> {
    map k | k in (set c | c in cards :: Key(c, app)) :: ReadPlain(durable, Pair(CardFor(k, app), app))
  }

  function Next(w: World, s: Step): World
    requires Enabled(w, s)
  {
    match s
    case Reserve(cards, app, n) =>
      w.(durable := Raised(w.durable, cards, app, n), store := w.store.Preload(StartValues(w.durable, cards, app)))
    case Read(v, card, app) =>
      var value := w.store.Get(card, app);
      w.(inHand := w.inHand[v := Activation(Pair(card, app), Hand(value, false))],
         taken := w.taken + [Use(Pair(card, app), value)])
    case Bump(v, card, app) =>
      w.(store := w.store.Incr(card, app),
         inHand := w.inHand[v := w.inHand[v].(hand := w.inHand[v].hand.(bumped := true))])
    case Send(v, card, app) =>
      w.(inHand := w.inHand - {v}, sent := w.sent + [Use(Pair(card, app), w.inHand[v].hand.value)])
    case GiveUp(v, _, _) => w.(inHand := w.inHand - {v})
    case Evict(card) => w.(store := w.store.Evict(card))
    case Restart => w.(store := EMPTY, inHand := map[])
  }

  /** The world after a run, if each of its steps is possible. */
  function Exec(w: World, steps: seq<Step>): Option<World> {
    if steps == [] then Some(w)
    else
      var before := Exec(w, steps[..|steps| - 1]);
      if before.Some? && Enabled(before.value, steps[|steps| - 1]) then Some(Next(before.value, steps[|steps| - 1])) else None
  }

  /** A process at its start: nothing in hand, nothing used yet. */
  ghost predicate Fresh(w: World) {
    w.store == EMPTY && w.inHand == map[] && w.taken == [] && w.sent == []
  }

  /** Any world in which nothing has been done for the pair, as at the start. */
  ghost predicate Unstarted(w: World, q: Pair) {
    && w.store.Covered() && w.store.Value(q.card, q.app) == None
    && HandsOf(w.inHand, q) == map[] && Of(w.taken, q) == [] && Of(w.sent, q) == []
  }

  /** The uses of one pair, in order. */
  function Of(uses: seq<Use>, q: Pair): seq<int> {
    if uses == [] then []
    else Of(uses[..|uses| - 1], q) + if uses[|uses| - 1].pair == q then [uses[|uses| - 1].value] else []
  }

  lemma OfMore(uses: seq<Use>, u: Use, q: Pair)
    ensures Of(uses + [u], q) == if u.pair == q then Of(uses, q) + [u.value] else Of(uses, q)
  {
    assert (uses + [u])[..|uses|] == uses;
    assert Of(uses, q) + [] == Of(uses, q);
  }

  lemma ExecMore(w: World, steps: seq<Step>, s: Step)
    requires Exec(w, steps).Some? && Enabled(Exec(w, steps).value, s)
    ensures Exec(w, steps + [s]) == Some(Next(Exec(w, steps).value, s))
  {
    assert (steps + [s])[..|steps|] == steps;
  }

  /** Read and incremented with nothing in between, the two calls take the
      counter as one. */
  lemma TakenAlone(w: World, v: nat, card: string, app: string)
    requires v !in w.inHand
    ensures var end := Exec(w, ([] + [Read(v, card, app)]) + [Bump(v, card, app)]);
            && end.Some? && end.value.store == w.store.Incr(card, app)
            && v in end.value.inHand && end.value.inHand[v] == Activation(Pair(card, app), Hand(w.store.Get(card, app), true))
  {
    ExecMore(w, [], Read(v, card, app));
    ExecMore(w, [] + [Read(v, card, app)], Bump(v, card, app));
  }

  // ------------------------------------------------------------- one pair's view

  lemma CardForKey(c: string, app: string)
    ensures CardFor(Key(c, app), app) == c
  {
    var k := Key(c, app);
    assert k[..|k| - |app| - 1] == c;
  }

  lemma StartKeys(durable: Plain, cards: set<string>, app: string, p: Pair)
    requires NoColon(p.card) && forall c :: c in cards ==> NoColon(c)
    ensures Key(p.card, p.app) in StartValues(durable, cards, app) <==> p.card in cards && p.app == app
  {
    if Key(p.card, p.app) in StartValues(durable, cards, app) {
      var c :| c in cards && Key(p.card, p.app) == Key(c, app);
      KeyInjective(p, Pair(c, app));
    }
  }

  /** The range start the preload hands to one pair. */
  lemma StartValueAt(durable: Plain, cards: set<string>, app: string, p: Pair)
    requires NoColon(p.card) && forall c :: c in cards ==> NoColon(c)
    ensures var v := View(StartValues(durable, cards, app));
            (p in v <==> p.card in cards && p.app == app) && (p in v ==> v[p] == ReadPlain(durable, p))
  {
    StartKeys(durable, cards, app, p);
    CardForKey(p.card, app);
  }

  lemma ValueAgrees(s: Store, p: Pair)
    requires NoColon(p.card)
    ensures var v := View(s.counters); s.Value(p.card, p.app) == if p in v then Some(v[p]) else None
  {
  }

  lemma ReserveAt(w: World, s: Step, q: Pair)
    requires w.store.Covered() && s.Plainly() && NoColon(q.card) && s.Reserve?
    ensures var w' := Next(w, s);
            && w'.store.Covered()
            && w'.store.Value(q.card, q.app) ==
                 if s.Reserves(q) then Some(ReadPlain(w.durable, q)) else w.store.Value(q.card, q.app)
  {
    StartValueAt(w.durable, s.cards, s.app, q);
    PreloadAgrees(w.store, StartValues(w.durable, s.cards, s.app));
    ValueAgrees(w.store, q);
    ValueAgrees(Next(w, s).store, q);
  }

  lemma RaisedAt(durable: Plain, cards: set<string>, app: string, n: nat, q: Pair)
    ensures ReadPlain(Raised(durable, cards, app, n), q) ==
              ReadPlain(durable, q) + if q.app == app && q.card in cards then n else 0
  {
    assert q in Pairs(cards, app) <==> q.app == app && q.card in cards;
  }

  lemma IncrAt(store: Store, card: string, app: string, q: Pair)
    requires store.Covered() && NoColon(card) && NoColon(q.card)
    ensures store.Incr(card, app).Covered()
    ensures store.Incr(card, app).Value(q.card, q.app) ==
              if q == Pair(card, app) then Some(store.Get(q.card, q.app) + 1) else store.Value(q.card, q.app)
  {
    IncrAgrees(store, card, app);
    ValueAgrees(store, q);
    GetAgrees(store, q);
    ValueAgrees(store.Incr(card, app), q);
  }

  lemma EvictAt(store: Store, card: string, q: Pair)
    requires store.Covered() && NoColon(card) && NoColon(q.card)
    ensures store.Evict(card).Covered()
    ensures store.Evict(card).Value(q.card, q.app) == if q.card == card then None else store.Value(q.card, q.app)
  {
    EvictAgrees(store, card);
    ValueAgrees(store, q);
    ValueAgrees(store.Evict(card), q);
  }

  /** One pair's row, local counter, counters read, activations in hand and
      counters sent. */
  datatype Track = Track(durable: int, local: Option<int>, taken: seq<int>, hands: map<nat, Hand>, sent: seq<int>) {
    /** The counter as it reads: a missing one is zero. */
    function Now(): int {
      if local.Some? then local.value else 0
    }

    function Follow(s: Step, q: Pair): Track {
      if s.Reserves(q) then this.(durable := durable + s.n, local := Some(durable))
      else if s.Works(q) then Work(s)
      else if s.Restart? then this.(local := None, hands := map[])
      else if s.Drops(q) then this.(local := None)
      else this
    }

    function Work(s: Step): Track {
      match s
      case Read(v, _, _) => this.(taken := taken + [Now()], hands := hands[v := Hand(Now(), false)])
      case Bump(v, _, _) =>
        this.(local := Some(Now() + 1), hands := if v in hands then hands[v := hands[v].(bumped := true)] else hands)
      case Send(v, _, _) =>
        this.(hands := hands - {v}, sent := sent + if v in hands then [hands[v].value] else [])
      case GiveUp(v, _, _) => this.(hands := hands - {v})
      case _ => this
    }
  }

  function FollowAll(t: Track, steps: seq<Step>, q: Pair): Track {
    if steps == [] then t else FollowAll(t, steps[..|steps| - 1], q).Follow(steps[|steps| - 1], q)
  }

  function HandsOf(inHand: map<nat, Activation>, q: Pair): map<nat, Hand> {
    map v | v in inHand && inHand[v].pair == q :: inHand[v].hand
  }

  ghost function TrackOf(w: World, q: Pair): Track {
    Track(ReadPlain(w.durable, q), w.store.Value(q.card, q.app), Of(w.taken, q), HandsOf(w.inHand, q), Of(w.sent, q))
  }

  ghost predicate AllPlainly(steps: seq<Step>) {
    forall i :: 0 <= i < |steps| ==> steps[i].Plainly()
  }

  lemma HandsSet(inHand: map<nat, Activation>, v: nat, a: Activation, q: Pair)
    requires v in inHand ==> inHand[v].pair == a.pair
    ensures HandsOf(inHand[v := a], q) == if a.pair == q then HandsOf(inHand, q)[v := a.hand] else HandsOf(inHand, q)
  {
  }

  lemma HandsGone(inHand: map<nat, Activation>, v: nat, q: Pair)
    ensures HandsOf(inHand - {v}, q) == HandsOf(inHand, q) - {v}
  {
  }

  lemma HandAbsent(inHand: map<nat, Activation>, v: nat, q: Pair)
    requires v in inHand ==> inHand[v].pair != q
    ensures HandsOf(inHand, q) - {v} == HandsOf(inHand, q)
  {
    assert v !in HandsOf(inHand, q);
  }

  lemma ReserveTracked(w: World, s: Step, q: Pair)
    requires w.store.Covered() && s.Plainly() && NoColon(q.card) && s.Reserve?
    ensures Next(w, s).store.Covered() && TrackOf(Next(w, s), q) == TrackOf(w, q).Follow(s, q)
  {
    ReserveAt(w, s, q);
    RaisedAt(w.durable, s.cards, s.app, s.n, q);
  }

  lemma ReadTracked(w: World, s: Step, q: Pair)
    requires w.store.Covered() && Enabled(w, s) && s.Read?
    ensures Next(w, s).store.Covered() && TrackOf(Next(w, s), q) == TrackOf(w, q).Follow(s, q)
  {
    var value := w.store.Get(s.card, s.app);
    OfMore(w.taken, Use(Pair(s.card, s.app), value), q);
    HandsSet(w.inHand, s.worker, Activation(Pair(s.card, s.app), Hand(value, false)), q);
  }

  lemma BumpTracked(w: World, s: Step, q: Pair)
    requires w.store.Covered() && s.Plainly() && NoColon(q.card) && Enabled(w, s) && s.Bump?
    ensures Next(w, s).store.Covered() && TrackOf(Next(w, s), q) == TrackOf(w, q).Follow(s, q)
  {
    IncrAt(w.store, s.card, s.app, q);
    HandsSet(w.inHand, s.worker, w.inHand[s.worker].(hand := w.inHand[s.worker].hand.(bumped := true)), q);
  }

  lemma SendTracked(w: World, s: Step, q: Pair)
    requires w.store.Covered() && Enabled(w, s) && s.Send?
    ensures Next(w, s).store.Covered() && TrackOf(Next(w, s), q) == TrackOf(w, q).Follow(s, q)
  {
    OfMore(w.sent, Use(Pair(s.card, s.app), w.inHand[s.worker].hand.value), q);
    HandsGone(w.inHand, s.worker, q);
    if !s.Works(q) {
      HandAbsent(w.inHand, s.worker, q);
    }
  }

  lemma GiveUpTracked(w: World, s: Step, q: Pair)
    requires w.store.Covered() && Enabled(w, s) && s.GiveUp?
    ensures Next(w, s).store.Covered() && TrackOf(Next(w, s), q) == TrackOf(w, q).Follow(s, q)
  {
    HandsGone(w.inHand, s.worker, q);
    if !s.Works(q) {
      HandAbsent(w.inHand, s.worker, q);
    }
  }

  lemma StepTracked(w: World, s: Step, q: Pair)
    requires w.store.Covered() && s.Plainly() && NoColon(q.card) && Enabled(w, s)
    ensures Next(w, s).store.Covered() && TrackOf(Next(w, s), q) == TrackOf(w, q).Follow(s, q)
  {
    match s
    case Reserve(_, _, _) => ReserveTracked(w, s, q);
    case Read(_, _, _) => ReadTracked(w, s, q);
    case Bump(_, _, _) => BumpTracked(w, s, q);
    case Send(_, _, _) => SendTracked(w, s, q);
    case GiveUp(_, _, _) => GiveUpTracked(w, s, q);
    case Evict(card) => EvictAt(w.store, card, q);
    case Restart => assert HandsOf(map[], q) == map[];
  }

  /** Whatever happens to other cards, the pair's view is kept. */
  lemma {:induction false} RunTracked(w: World, steps: seq<Step>, q: Pair)
    requires w.store.Covered() && NoColon(q.card) && AllPlainly(steps) && Exec(w, steps).Some?
    ensures Exec(w, steps).value.store.Covered()
    ensures TrackOf(Exec(w, steps).value, q) == FollowAll(TrackOf(w, q), steps, q)
  {
    if steps != [] {
      var init, s := steps[..|steps| - 1], steps[|steps| - 1];
      RunTracked(w, init, q);
      StepTracked(Exec(w, init).value, s, q);
    }
  }

  // ------------------------------------------------------------------ reservations

  /** The uses of one reservation, or with none in force: how often the counter
      was incremented, and how often it had been at each reading. */
  datatype Block = Block(reserved: Option<nat>, bumps: nat, readings: seq<nat>)

  const BARE := Block(None, 0, [])

  /** One more step of a pair. */
  function More(bs: seq<Block>, s: Step, q: Pair): (more: seq<Block>)
    requires bs != []
    ensures more != []
  {
    var init, last := bs[..|bs| - 1], bs[|bs| - 1];
    if s.Reserves(q) then bs + [Block(Some(s.n), 0, [])]
    else if s.Drops(q) then bs + [BARE]
    else if s.Read? && s.Works(q) then init + [last.(readings := last.readings + [last.bumps])]
    else if s.Bump? && s.Works(q) then init + [last.(bumps := last.bumps + 1)]
    else bs
  }

  /** The steps of a pair, reservation by reservation.  A dropped counter reads as
      zero until the next one. */
  function Blocks(steps: seq<Step>, q: Pair): (bs: seq<Block>)
    ensures bs != []
  {
    if steps == [] then [BARE] else More(Blocks(steps[..|steps| - 1], q), steps[|steps| - 1], q)
  }

  function Total(bs: seq<Block>): nat {
    if bs == [] then 0
    else Total(bs[..|bs| - 1]) + if bs[|bs| - 1].reserved.Some? then bs[|bs| - 1].reserved.value else 0
  }

  /** Where a block's counters begin, after the blocks before it; the row began at
      `start`. */
  function Begins(start: int, before: seq<Block>, b: Block): int {
    if b.reserved.Some? then start + Total(before) else 0
  }

  function Shifted(start: int, offsets: seq<nat>): seq<int> {
    if offsets == [] then [] else Shifted(start, offsets[..|offsets| - 1]) + [start + offsets[|offsets| - 1]]
  }

  function Wire(start: int, bs: seq<Block>): seq<int> {
    if bs == [] then []
    else Wire(start, bs[..|bs| - 1]) + Shifted(Begins(start, bs[..|bs| - 1], bs[|bs| - 1]), bs[|bs| - 1].readings)
  }

  ghost predicate Accounted(start: int, t: Track, init: seq<Block>, last: Block) {
    && t.durable == start + Total(init + [last])
    && t.taken == Wire(start, init + [last])
    && t.Now() == Begins(start, init, last) + last.bumps
  }

  lemma BlockMore(start: int, bs: seq<Block>, b: Block)
    ensures Total(bs + [b]) == Total(bs) + (if b.reserved.Some? then b.reserved.value else 0)
    ensures Wire(start, bs + [b]) == Wire(start, bs) + Shifted(Begins(start, bs, b), b.readings)
  {
    assert (bs + [b])[..|bs|] == bs;
  }

  lemma ReadMore(start: int, init: seq<Block>, b: Block)
    ensures Wire(start, init + [b.(readings := b.readings + [b.bumps])]) ==
              Wire(start, init + [b]) + [Begins(start, init, b) + b.bumps]
  {
    var at, more := Begins(start, init, b), b.readings + [b.bumps];
    BlockMore(start, init, b);
    BlockMore(start, init, b.(readings := more));
    assert more[..|more| - 1] == b.readings;
    assert Shifted(at, more) == Shifted(at, b.readings) + [at + b.bumps];
  }

  /** A new block: reserved from the row's value on, or none, from zero. */
  lemma OpenAccounted(start: int, t: Track, t': Track, bs: seq<Block>, b: Block)
    requires t.durable == start + Total(bs) && t.taken == Wire(start, bs) && b.bumps == 0 && b.readings == []
    requires t'.taken == t.taken && t'.durable == t.durable + if b.reserved.Some? then b.reserved.value else 0
    requires t'.Now() == if b.reserved.Some? then t.durable else 0
    ensures Accounted(start, t', bs, b)
  {
    BlockMore(start, bs, b);
  }

  lemma ReadAccounted(start: int, t: Track, t': Track, init: seq<Block>, last: Block)
    requires Accounted(start, t, init, last)
    requires t'.durable == t.durable && t'.taken == t.taken + [t.Now()] && t'.Now() == t.Now()
    ensures Accounted(start, t', init, last.(readings := last.readings + [last.bumps]))
  {
    ReadMore(start, init, last);
    BlockMore(start, init, last);
    BlockMore(start, init, last.(readings := last.readings + [last.bumps]));
  }

  lemma BumpAccounted(start: int, t: Track, t': Track, init: seq<Block>, last: Block)
    requires Accounted(start, t, init, last)
    requires t'.durable == t.durable && t'.taken == t.taken && t'.Now() == t.Now() + 1
    ensures Accounted(start, t', init, last.(bumps := last.bumps + 1))
  {
    BlockMore(start, init, last);
    BlockMore(start, init, last.(bumps := last.bumps + 1));
  }

  lemma Ends<T>(init: seq<T>, last: T)
    ensures (init + [last])[..|init + [last]| - 1] == init && (init + [last])[|init + [last]| - 1] == last
  {
  }

  ghost predicate AccountedFor(start: int, t: Track, bs: seq<Block>) {
    bs != [] && Accounted(start, t, bs[..|bs| - 1], bs[|bs| - 1])
  }

  lemma AccountedEnds(start: int, t: Track, init: seq<Block>, last: Block)
    requires Accounted(start, t, init, last)
    ensures AccountedFor(start, t, init + [last])
  {
    Ends(init, last);
  }

  lemma StepAccounted(start: int, t: Track, bs: seq<Block>, s: Step, q: Pair)
    requires AccountedFor(start, t, bs)
    ensures AccountedFor(start, t.Follow(s, q), More(bs, s, q))
  {
    var init, last, t' := bs[..|bs| - 1], bs[|bs| - 1], t.Follow(s, q);
    assert bs == init + [last];
    if s.Reserves(q) {
      OpenAccounted(start, t, t', bs, Block(Some(s.n), 0, []));
      AccountedEnds(start, t', bs, Block(Some(s.n), 0, []));
    } else if s.Drops(q) {
      OpenAccounted(start, t, t', bs, BARE);
      AccountedEnds(start, t', bs, BARE);
    } else if s.Read? && s.Works(q) {
      ReadAccounted(start, t, t', init, last);
      AccountedEnds(start, t', init, last.(readings := last.readings + [last.bumps]));
    } else if s.Bump? && s.Works(q) {
      BumpAccounted(start, t, t', init, last);
      AccountedEnds(start, t', init, last.(bumps := last.bumps + 1));
    }
  }

  /** The counters read are those of the blocks, in order: reserved ranges, and
      counts from zero where no reservation was in force. */
  lemma {:induction false} RunAccounted(t: Track, steps: seq<Step>, q: Pair)
    requires t.taken == [] && t.local == None
    ensures AccountedFor(t.durable, FollowAll(t, steps, q), Blocks(steps, q))
  {
    if steps == [] {
      OpenAccounted(t.durable, t, t, [], BARE);
      AccountedEnds(t.durable, t, [], BARE);
      assert [] + [BARE] == [BARE];
    } else {
      var init, s := steps[..|steps| - 1], steps[|steps| - 1];
      RunAccounted(t, init, q);
      StepAccounted(t.durable, FollowAll(t, init, q), Blocks(init, q), s, q);
    }
  }

  // ---------------------------------------------------------------- strict increase

  ghost predicate Increasing(s: seq<int>) {
    forall i, j :: 0 <= i < j < |s| ==> s[i] < s[j]
  }

  /** The last counter read. */
  function High(start: int, bs: seq<Block>): Option<int> {
    if bs == [] then None
    else if bs[|bs| - 1].readings != [] then
      Some(Begins(start, bs[..|bs| - 1], bs[|bs| - 1]) + bs[|bs| - 1].readings[|bs[|bs| - 1].readings| - 1])
    else High(start, bs[..|bs| - 1])
  }

  /** Whenever a block is first read, its counter is above what earlier blocks
      have reached. */
  predicate Fits(start: int, bs: seq<Block>) {
    bs == [] ||
    (Fits(start, bs[..|bs| - 1]) &&
     var high, b := High(start, bs[..|bs| - 1]), bs[|bs| - 1];
     b.readings != [] && high.Some? ==> high.value < Begins(start, bs[..|bs| - 1], b) + b.readings[0])
  }

  /** Between two readings of a block comes an increment. */
  predicate Apart(readings: seq<nat>) {
    forall i :: 0 <= i < |readings| - 1 ==> readings[i] != readings[i + 1]
  }

  predicate AllApart(bs: seq<Block>) {
    forall i :: 0 <= i < |bs| ==> Apart(bs[i].readings)
  }

  /** Increments only add up. */
  ghost predicate Counting(b: Block) {
    && (forall i, j :: 0 <= i < j < |b.readings| ==> b.readings[i] <= b.readings[j])
    && (forall i :: 0 <= i < |b.readings| ==> b.readings[i] <= b.bumps)
  }

  lemma {:induction false} BlocksCounting(steps: seq<Step>, q: Pair)
    ensures forall i :: 0 <= i < |Blocks(steps, q)| ==> Counting(Blocks(steps, q)[i])
  {
    if steps != [] {
      BlocksCounting(steps[..|steps| - 1], q);
    }
  }

  lemma {:induction false} ApartAbove(readings: seq<nat>, i: nat, j: nat)
    requires Apart(readings) && i < j < |readings|
    requires forall i, j :: 0 <= i < j < |readings| ==> readings[i] <= readings[j]
    ensures readings[i] < readings[j]
  {
    assert readings[i] != readings[i + 1];
  }

  lemma {:induction false} ShiftedValues(start: int, offsets: seq<nat>)
    ensures |Shifted(start, offsets)| == |offsets|
    ensures forall i :: 0 <= i < |offsets| ==> Shifted(start, offsets)[i] == start + offsets[i]
  {
    if offsets != [] {
      ShiftedValues(start, offsets[..|offsets| - 1]);
    }
  }

  /** The counters of one block increase exactly when its readings are apart. */
  lemma BlockIncreasing(start: int, b: Block)
    requires Counting(b)
    ensures Increasing(Shifted(start, b.readings)) <==> Apart(b.readings)
  {
    var s := Shifted(start, b.readings);
    ShiftedValues(start, b.readings);
    if Apart(b.readings) {
      forall i, j | 0 <= i < j < |s| ensures s[i] < s[j] {
        ApartAbove(b.readings, i, j);
      }
    }
    if Increasing(s) {
      forall i | 0 <= i < |b.readings| - 1 ensures b.readings[i] != b.readings[i + 1] {
        assert s[i] < s[i + 1];
      }
    }
  }

  lemma {:induction false} WireEnd(start: int, bs: seq<Block>)
    ensures var s := Wire(start, bs);
            if s == [] then High(start, bs) == None else High(start, bs) == Some(s[|s| - 1])
  {
    if bs != [] {
      WireEnd(start, bs[..|bs| - 1]);
      ShiftedValues(Begins(start, bs[..|bs| - 1], bs[|bs| - 1]), bs[|bs| - 1].readings);
    }
  }

  lemma IncreasingConcat(a: seq<int>, b: seq<int>)
    ensures Increasing(a + b) <==> Increasing(a) && Increasing(b) && (a != [] && b != [] ==> a[|a| - 1] < b[0])
  {
    var s := a + b;
    assert forall i :: 0 <= i < |a| ==> s[i] == a[i];
    assert forall i :: 0 <= i < |b| ==> s[|a| + i] == b[i];
    if Increasing(s) {
      forall i, j | 0 <= i < j < |b| ensures b[i] < b[j] {
        assert s[|a| + i] < s[|a| + j];
      }
      if a != [] && b != [] {
        assert s[|a| - 1] < s[|a|];
      }
    }
    if Increasing(a) && Increasing(b) && (a != [] && b != [] ==> a[|a| - 1] < b[0]) {
      forall i, j | 0 <= i < j < |s| ensures s[i] < s[j] {
        if i < |a| <= j {
          assert a[i] <= a[|a| - 1] < b[0] <= b[j - |a|];
        } else if i >= |a| {
          assert b[i - |a|] < b[j - |a|];
        }
      }
    }
  }

  /** One more block. */
  lemma WireJoins(start: int, init: seq<Block>, b: Block)
    requires Counting(b)
    ensures var high, at := High(start, init), Begins(start, init, b);
            Increasing(Wire(start, init) + Shifted(at, b.readings)) <==>
            && Increasing(Wire(start, init)) && Apart(b.readings)
            && (b.readings != [] && high.Some? ==> high.value < at + b.readings[0])
  {
    var at := Begins(start, init, b);
    WireEnd(start, init);
    ShiftedValues(at, b.readings);
    BlockIncreasing(at, b);
    IncreasingConcat(Wire(start, init), Shifted(at, b.readings));
  }

  lemma {:induction false} WireIncreasing(start: int, bs: seq<Block>)
    requires forall i :: 0 <= i < |bs| ==> Counting(bs[i])
    ensures Increasing(Wire(start, bs)) <==> AllApart(bs) && Fits(start, bs)
  {
    if bs != [] {
      var init, b := bs[..|bs| - 1], bs[|bs| - 1];
      WireIncreasing(start, init);
      WireJoins(start, init, b);
      assert AllApart(bs) <==> AllApart(init) && Apart(b.readings) by {
        assert forall i :: 0 <= i < |init| ==> init[i] == bs[i];
      }
    }
  }

  /** Over every run of a process from its start, with overlapping activations,
      evictions and restarts, the counters read for a card strictly increase
      exactly when each two readings have an increment or a new block between
      them and no block is read below what earlier ones have reached. */
  lemma CountersIncreaseExactly(w: World, steps: seq<Step>, q: Pair)
    requires Unstarted(w, q) && Exec(w, steps).Some? && NoColon(q.card) && AllPlainly(steps)
    ensures var bs := Blocks(steps, q);
            Increasing(Of(Exec(w, steps).value.taken, q)) <==> AllApart(bs) && Fits(ReadPlain(w.durable, q), bs)
  {
    RunTracked(w, steps, q);
    RunAccounted(TrackOf(w, q), steps, q);
    BlocksCounting(steps, q);
    WireIncreasing(ReadPlain(w.durable, q), Blocks(steps, q));
  }

  // ------------------------------------------------------------- the order of sending

  /** Which reading of the pair each activation in hand, and each sent, is. */
  datatype Turns = Turns(readings: nat, hands: map<nat, nat>, sent: seq<nat>) {
    function Follow(s: Step, q: Pair): Turns {
      if s.Restart? then this.(hands := map[])
      else if !s.Works(q) then this
      else
        match s
        case Read(v, _, _) => Turns(readings + 1, hands[v := readings], sent)
        case Send(v, _, _) => this.(hands := hands - {v}, sent := sent + if v in hands then [hands[v]] else [])
        case GiveUp(v, _, _) => this.(hands := hands - {v})
        case _ => this
    }
  }

  function TurnsOf(steps: seq<Step>, q: Pair): Turns {
    if steps == [] then Turns(0, map[], []) else TurnsOf(steps[..|steps| - 1], q).Follow(steps[|steps| - 1], q)
  }

  ghost predicate Matches(t: Track, o: Turns) {
    && |t.taken| == o.readings && t.hands.Keys == o.hands.Keys && |t.sent| == |o.sent|
    && (forall v :: v in o.hands ==> o.hands[v] < o.readings && t.hands[v].value == t.taken[o.hands[v]])
    && (forall i :: 0 <= i < |o.sent| ==> o.sent[i] < o.readings && t.sent[i] == t.taken[o.sent[i]])
  }

  lemma WorkMatches(t: Track, o: Turns, s: Step, q: Pair)
    requires Matches(t, o) && s.Works(q)
    ensures Matches(t.Work(s), o.Follow(s, q))
  {
  }

  lemma {:induction false} RunMatches(t: Track, steps: seq<Step>, q: Pair)
    requires t.taken == [] && t.hands == map[] && t.sent == []
    ensures Matches(FollowAll(t, steps, q), TurnsOf(steps, q))
  {
    if steps != [] {
      var init, s := steps[..|steps| - 1], steps[|steps| - 1];
      RunMatches(t, init, q);
      if s.Works(q) {
        WorkMatches(FollowAll(t, init, q), TurnsOf(init, q), s, q);
      }
    }
  }

  ghost predicate InOrder(turns: seq<nat>) {
    forall i, j :: 0 <= i < j < |turns| ==> turns[i] < turns[j]
  }

  /** If the counters read increase, the counters sent do exactly when they are
      sent in the order they were read. */
  lemma SentIncreaseExactly(w: World, steps: seq<Step>, q: Pair)
    requires Unstarted(w, q) && Exec(w, steps).Some? && NoColon(q.card) && AllPlainly(steps)
    requires AllApart(Blocks(steps, q)) && Fits(ReadPlain(w.durable, q), Blocks(steps, q))
    ensures Increasing(Of(Exec(w, steps).value.sent, q)) <==> InOrder(TurnsOf(steps, q).sent)
  {
    CountersIncreaseExactly(w, steps, q);
    RunTracked(w, steps, q);
    RunMatches(TrackOf(w, q), steps, q);
    PickIncreasing(Of(Exec(w, steps).value.taken, q), TurnsOf(steps, q).sent, Of(Exec(w, steps).value.sent, q));
  }

  lemma PickIncreasing(taken: seq<int>, turns: seq<nat>, sent: seq<int>)
    requires Increasing(taken) && |turns| == |sent|
    requires forall i :: 0 <= i < |turns| ==> turns[i] < |taken| && sent[i] == taken[turns[i]]
    ensures Increasing(sent) <==> InOrder(turns)
  {
    forall i, j | 0 <= i < j < |sent| ensures sent[i] < sent[j] <==> turns[i] < turns[j] {
      assert turns[i] < turns[j] ==> taken[turns[i]] < taken[turns[j]];
      assert turns[j] < turns[i] ==> taken[turns[j]] < taken[turns[i]];
    }
    assert InOrder(turns) ==> Increasing(sent);
    if Increasing(sent) {
      forall i, j | 0 <= i < j < |turns| ensures turns[i] < turns[j] {
        assert sent[i] < sent[j];
      }
    }
  }

  // ------------------------------------------------------------- serial activations

  /** The pair's counter is read only while none of its activations is in hand. */
  ghost predicate SerialRun(t: Track, steps: seq<Step>, q: Pair) {
    steps == [] ||
    (SerialRun(t, steps[..|steps| - 1], q) &&
     var s := steps[|steps| - 1];
     s.Read? && s.Works(q) ==> FollowAll(t, steps[..|steps| - 1], q).hands == map[])
  }

  /** At most one activation is in hand, of the last reading. */
  ghost predicate Solo(o: Turns) {
    && InOrder(o.sent)
    && (forall v :: v in o.hands ==> o.hands[v] == o.readings - 1)
    && (forall u, v :: u in o.hands && v in o.hands ==> u == v)
    && (forall i :: 0 <= i < |o.sent| ==> o.sent[i] < if o.hands == map[] then o.readings else o.readings - 1)
  }

  lemma SoloStep(o: Turns, s: Step, q: Pair)
    requires Solo(o) && (s.Read? && s.Works(q) ==> o.hands == map[])
    ensures Solo(o.Follow(s, q))
  {
    var o' := o.Follow(s, q);
    if s.Works(q) && (s.Send? || s.GiveUp?) {
      assert forall v :: v in o'.hands ==> v in o.hands;
      if s.worker in o.hands {
        assert o'.hands == map[];
      } else {
        assert o'.hands == o.hands;
      }
    }
  }

  lemma {:induction false} SerialSolo(t: Track, steps: seq<Step>, q: Pair)
    requires t.taken == [] && t.hands == map[] && t.sent == [] && SerialRun(t, steps, q)
    ensures Solo(TurnsOf(steps, q))
  {
    if steps != [] {
      var init, s := steps[..|steps| - 1], steps[|steps| - 1];
      SerialSolo(t, init, q);
      RunMatches(t, init, q);
      assert FollowAll(t, init, q).hands == map[] ==> TurnsOf(init, q).hands == map[];
      SoloStep(TurnsOf(init, q), s, q);
    }
  }

  /** The last block's last reading has been followed by an increment, unless one
      is still to come. */
  ghost predicate Followed(t: Track, b: Block) {
    b.readings != [] ==> b.readings[|b.readings| - 1] < b.bumps || exists v :: v in t.hands && !t.hands[v].bumped
  }

  /** An activation leaves the hands only after its increment. */
  ghost predicate Orderly(t: Track, s: Step, q: Pair) {
    s.Works(q) ==>
    match s
    case Read(v, _, _) => v !in t.hands
    case Bump(v, _, _) => v in t.hands && !t.hands[v].bumped
    case Send(v, _, _) => v in t.hands && t.hands[v].bumped
    case GiveUp(v, _, _) => v in t.hands && t.hands[v].bumped
    case _ => true
  }

  lemma EnabledOrderly(w: World, s: Step, q: Pair)
    requires Enabled(w, s)
    ensures Orderly(TrackOf(w, q), s, q)
  {
  }

  ghost predicate OrderlyRun(t: Track, steps: seq<Step>, q: Pair) {
    steps == [] ||
    (OrderlyRun(t, steps[..|steps| - 1], q) && Orderly(FollowAll(t, steps[..|steps| - 1], q), steps[|steps| - 1], q))
  }

  lemma {:induction false} RunOrderly(w: World, steps: seq<Step>, q: Pair)
    requires w.store.Covered() && NoColon(q.card) && AllPlainly(steps) && Exec(w, steps).Some?
    ensures OrderlyRun(TrackOf(w, q), steps, q)
  {
    if steps != [] {
      var init, s := steps[..|steps| - 1], steps[|steps| - 1];
      RunOrderly(w, init, q);
      RunTracked(w, init, q);
      EnabledOrderly(Exec(w, init).value, s, q);
    }
  }

  lemma ReadFollowed(t: Track, b: Block, v: nat)
    requires Followed(t, b) && Counting(b) && t.hands == map[] && Apart(b.readings)
    ensures Apart(b.readings + [b.bumps])
    ensures Followed(t.(taken := t.taken + [t.Now()], hands := t.hands[v := Hand(t.Now(), false)]), b.(readings := b.readings + [b.bumps]))
  {
    var t' := t.(taken := t.taken + [t.Now()], hands := t.hands[v := Hand(t.Now(), false)]);
    assert v in t'.hands && !t'.hands[v].bumped;
  }

  lemma BumpFollowed(t': Track, b: Block)
    requires Counting(b)
    ensures Followed(t', b.(bumps := b.bumps + 1))
  {
    if b.readings != [] {
      assert b.readings[|b.readings| - 1] <= b.bumps;
    }
  }

  lemma LeaveFollowed(t: Track, t': Track, b: Block, v: nat)
    requires Followed(t, b) && v in t.hands && t.hands[v].bumped && t'.hands == t.hands - {v}
    ensures Followed(t', b)
  {
    if u :| u in t.hands && !t.hands[u].bumped {
      assert u in t'.hands && !t'.hands[u].bumped;
    }
  }

  lemma ReadStays(t: Track, bs: seq<Block>, v: nat)
    requires bs != [] && Followed(t, bs[|bs| - 1]) && AllApart(bs) && Counting(bs[|bs| - 1]) && t.hands == map[]
    ensures var b := bs[|bs| - 1];
            var b' := b.(readings := b.readings + [b.bumps]);
            && Followed(t.(taken := t.taken + [t.Now()], hands := t.hands[v := Hand(t.Now(), false)]), b')
            && AllApart(bs[..|bs| - 1] + [b'])
  {
    ReadFollowed(t, bs[|bs| - 1], v);
  }

  ghost predicate Settled(t: Track, bs: seq<Block>) {
    bs != [] && Followed(t, bs[|bs| - 1]) && AllApart(bs)
  }

  lemma WorkSettled(t: Track, bs: seq<Block>, s: Step, q: Pair)
    requires Settled(t, bs) && Counting(bs[|bs| - 1]) && Orderly(t, s, q) && s.Works(q)
    requires s.Read? ==> t.hands == map[]
    ensures Settled(t.Work(s), More(bs, s, q))
  {
    var b := bs[|bs| - 1];
    match s
    case Read(v, _, _) => ReadStays(t, bs, v);
    case Bump(_, _, _) => BumpFollowed(t.Work(s), b);
    case Send(v, _, _) => LeaveFollowed(t, t.Work(s), b, v);
    case GiveUp(v, _, _) => LeaveFollowed(t, t.Work(s), b, v);
    case _ =>
  }

  lemma {:induction false} SerialApart(t: Track, steps: seq<Step>, q: Pair)
    requires SerialRun(t, steps, q) && OrderlyRun(t, steps, q)
    ensures Settled(FollowAll(t, steps, q), Blocks(steps, q))
  {
    if steps != [] {
      var init, s := steps[..|steps| - 1], steps[|steps| - 1];
      SerialApart(t, init, q);
      BlocksCounting(init, q);
      if s.Works(q) {
        WorkSettled(FollowAll(t, init, q), Blocks(init, q), s, q);
      }
    }
  }

  /** Activations of the pair that do not overlap read and send in order. */
  lemma SerialSuffices(w: World, steps: seq<Step>, q: Pair)
    requires Unstarted(w, q) && Exec(w, steps).Some? && NoColon(q.card) && AllPlainly(steps)
    requires SerialRun(TrackOf(w, q), steps, q)
    ensures AllApart(Blocks(steps, q)) && InOrder(TurnsOf(steps, q).sent)
  {
    RunOrderly(w, steps, q);
    SerialApart(TrackOf(w, q), steps, q);
    SerialSolo(TrackOf(w, q), steps, q);
  }

  // --------------------------------------------------------------- enough reserved

  /** Every reading has a reservation in force, and none is overdrawn. */
  ghost predicate Frugal(bs: seq<Block>) {
    forall i :: 0 <= i < |bs| && bs[i].readings != [] ==> bs[i].reserved.Some? && Within(bs[i])
  }

  ghost predicate Within(b: Block)
    requires b.reserved.Some?
  {
    forall i :: 0 <= i < |b.readings| ==> b.readings[i] < b.reserved.value
  }

  /** That is enough. */
  lemma {:induction false} FrugalFits(start: int, bs: seq<Block>)
    requires Frugal(bs)
    ensures Fits(start, bs) && (High(start, bs).Some? ==> High(start, bs).value < start + Total(bs))
  {
    if bs != [] {
      FrugalFits(start, bs[..|bs| - 1]);
      assert bs[|bs| - 1].readings != [] ==> Within(bs[|bs| - 1]);
    }
  }

  /** A reading with no reservation in force, before any increment and after
      anything was read, breaks the order: it is zero again. */
  lemma {:induction false} BareBreaks(start: int, bs: seq<Block>, i: nat)
    requires start >= 0 && i < |bs| && High(start, bs[..i]).Some?
    requires bs[i].reserved.None? && bs[i].readings != [] && bs[i].readings[0] == 0
    ensures !Fits(start, bs)
  {
    var init := bs[..|bs| - 1];
    if i == |bs| - 1 {
      HighPositive(start, init);
    } else {
      assert init[..i] == bs[..i];
      BareBreaks(start, init, i);
    }
  }

  lemma {:induction false} HighPositive(start: int, bs: seq<Block>)
    requires start >= 0 && High(start, bs).Some?
    ensures High(start, bs).value >= 0
  {
    if bs[|bs| - 1].readings == [] {
      HighPositive(start, bs[..|bs| - 1]);
    }
  }

  /** So the five-byte counters a card receives increase in byte order, as long
      as they stay below 2^40, its activations do not overlap and no more
      counters are used than reserved. */
  lemma WireBytesIncrease(w: World, steps: seq<Step>, q: Pair, i: nat, j: nat)
    requires Unstarted(w, q) && Exec(w, steps).Some? && NoColon(q.card) && AllPlainly(steps)
    requires SerialRun(TrackOf(w, q), steps, q) && Frugal(Blocks(steps, q))
    requires var sent := Of(Exec(w, steps).value.sent, q);
             i < j < |sent| && 0 <= sent[i] < WRAP && 0 <= sent[j] < WRAP
    ensures var sent := Of(Exec(w, steps).value.sent, q);
            Less(Encode(sent[i]), Encode(sent[j]))
  {
    FrugalFits(ReadPlain(w.durable, q), Blocks(steps, q));
    SerialSuffices(w, steps, q);
    SentIncreaseExactly(w, steps, q);
    InRangeOrders(Of(Exec(w, steps).value.sent, q)[i], Of(Exec(w, steps).value.sent, q)[j]);
  }

  lemma InRangeOrders(u: int, v: int)
    requires 0 <= u < v < WRAP
    ensures Less(Encode(u), Encode(v))
  {
    SmallRemainder(u, WRAP);
    SmallRemainder(v, WRAP);
    EncodeOrders(u, v);
  }

  lemma SmallRemainder(x: int, m: int)
    requires 0 <= x < m
    ensures x % m == x
  {
    DivideUnique(x, m, 0, x);
  }

  // ----------------------------------------------------------- overlaps do happen

  /** A run of the pair's own steps, one after the other possible, that leads from
      a fresh start to the view t and the blocks bs. */
  ghost predicate Leads(t0: Track, steps: seq<Step>, q: Pair, t: Track, bs: seq<Block>) {
    && (forall i :: 0 <= i < |steps| ==> Own(steps[i], q))
    && OrderlyRun(t0, steps, q) && FollowAll(t0, steps, q) == t && Blocks(steps, q) == bs
  }

  predicate Own(s: Step, q: Pair) {
    s.Works(q) || (s.Reserve? && s.cards == {q.card} && s.app == q.app)
  }

  ghost predicate Reached(t0: Track, q: Pair, t: Track, bs: seq<Block>) {
    exists steps :: Leads(t0, steps, q, t, bs)
  }

  lemma ReachedMore(t0: Track, q: Pair, t: Track, bs: seq<Block>, s: Step)
    requires Reached(t0, q, t, bs) && bs != [] && Own(s, q) && Orderly(t, s, q)
    ensures Reached(t0, q, t.Follow(s, q), More(bs, s, q))
  {
    var steps :| Leads(t0, steps, q, t, bs);
    assert (steps + [s])[..|steps|] == steps;
    assert Leads(t0, steps + [s], q, t.Follow(s, q), More(bs, s, q));
  }

  lemma OwnEnabled(w: World, s: Step, q: Pair)
    requires w.inHand.Keys == HandsOf(w.inHand, q).Keys && Own(s, q) && Orderly(TrackOf(w, q), s, q)
    ensures Enabled(w, s)
    ensures Next(w, s).inHand.Keys == HandsOf(Next(w, s).inHand, q).Keys
  {
  }

  lemma OwnPlainly(steps: seq<Step>, q: Pair)
    requires NoColon(q.card) && forall i :: 0 <= i < |steps| ==> Own(steps[i], q)
    ensures AllPlainly(steps)
  {
    forall i | 0 <= i < |steps| ensures steps[i].Plainly() {
      assert Own(steps[i], q);
    }
  }

  /** Such a run is one of the whole. */
  lemma {:induction false} OwnRuns(w: World, steps: seq<Step>, q: Pair)
    requires Fresh(w) && NoColon(q.card) && (forall i :: 0 <= i < |steps| ==> Own(steps[i], q))
    requires OrderlyRun(TrackOf(w, q), steps, q)
    ensures Exec(w, steps).Some?
    ensures Exec(w, steps).value.inHand.Keys == HandsOf(Exec(w, steps).value.inHand, q).Keys
  {
    if steps != [] {
      var init, s := steps[..|steps| - 1], steps[|steps| - 1];
      OwnRuns(w, init, q);
      OwnPlainly(init, q);
      RunTracked(w, init, q);
      assert Own(s, q);
      OwnEnabled(Exec(w, init).value, s, q);
    }
  }

  /** The same in a world: what is sent, and the blocks. */
  lemma ReachedRuns(w: World, q: Pair, t: Track, bs: seq<Block>) returns (steps: seq<Step>)
    requires Fresh(w) && NoColon(q.card) && Reached(TrackOf(w, q), q, t, bs)
    ensures AllPlainly(steps) && Exec(w, steps).Some? && Blocks(steps, q) == bs
    ensures Of(Exec(w, steps).value.sent, q) == t.sent
  {
    steps :| Leads(TrackOf(w, q), steps, q, t, bs);
    OwnRuns(w, steps, q);
    OwnPlainly(steps, q);
    RunTracked(w, steps, q);
  }

  lemma StartTrack(w: World, q: Pair)
    requires Fresh(w)
    ensures TrackOf(w, q) == Track(ReadPlain(w.durable, q), None, [], map[], [])
  {
    assert HandsOf(map[], q) == map[];
  }

  /** The row at v, two counters being reserved first. */
  function Unused(v: int): Track {
    Track(v, None, [], map[], [])
  }

  /** How the pair stands within those two, b being their block. */
  ghost predicate At(v: int, q: Pair, t: Track, b: Block) {
    Reached(Unused(v), q, t, [BARE, b])
  }

  lemma ReservedAt(v: int, q: Pair)
    ensures At(v, q, Track(v + 2, Some(v), [], map[], []), Block(Some(2), 0, []))
  {
    assert Leads(Unused(v), [], q, Unused(v), [BARE]);
    ReachedMore(Unused(v), q, Unused(v), [BARE], Reserve({q.card}, q.app, 2));
    assert [BARE] + [Block(Some(2), 0, [])] == [BARE, Block(Some(2), 0, [])];
  }

  lemma ReadAt(v: int, q: Pair, t: Track, b: Block, worker: nat)
    requires At(v, q, t, b) && worker !in t.hands
    ensures At(v, q, t.(taken := t.taken + [t.Now()], hands := t.hands[worker := Hand(t.Now(), false)]),
               b.(readings := b.readings + [b.bumps]))
  {
    assert [BARE, b][..1] + [b.(readings := b.readings + [b.bumps])] == [BARE, b.(readings := b.readings + [b.bumps])];
    ReachedMore(Unused(v), q, t, [BARE, b], Read(worker, q.card, q.app));
  }

  lemma BumpAt(v: int, q: Pair, t: Track, b: Block, worker: nat)
    requires At(v, q, t, b) && worker in t.hands && !t.hands[worker].bumped
    ensures At(v, q, t.(local := Some(t.Now() + 1), hands := t.hands[worker := Hand(t.hands[worker].value, true)]),
               b.(bumps := b.bumps + 1))
  {
    assert [BARE, b][..1] + [b.(bumps := b.bumps + 1)] == [BARE, b.(bumps := b.bumps + 1)];
    ReachedMore(Unused(v), q, t, [BARE, b], Bump(worker, q.card, q.app));
  }

  lemma SendAt(v: int, q: Pair, t: Track, b: Block, worker: nat)
    requires At(v, q, t, b) && worker in t.hands && t.hands[worker].bumped
    ensures At(v, q, t.(hands := t.hands - {worker}, sent := t.sent + [t.hands[worker].value]), b)
  {
    ReachedMore(Unused(v), q, t, [BARE, b], Send(worker, q.card, q.app));
  }

  lemma BothRead(v: int, q: Pair)
    ensures At(v, q, Track(v + 2, Some(v), [v, v], map[0 := Hand(v, false), 1 := Hand(v, false)], []),
               Block(Some(2), 0, [0, 0]))
  {
    ReservedAt(v, q);
    ReadAt(v, q, Track(v + 2, Some(v), [], map[], []), Block(Some(2), 0, []), 0);
    assert [] + [v] == [v] && [] + [0] == [0];
    ReadAt(v, q, Track(v + 2, Some(v), [v], map[0 := Hand(v, false)], []), Block(Some(2), 0, [0]), 1);
    assert [v] + [v] == [v, v] && [0] + [0] == [0, 0];
  }

  lemma BothBumped(v: int, q: Pair)
    ensures At(v, q, Track(v + 2, Some(v + 2), [v, v], map[0 := Hand(v, true), 1 := Hand(v, true)], []),
               Block(Some(2), 2, [0, 0]))
  {
    BothRead(v, q);
    var h, h' := Hand(v, false), Hand(v, true);
    BumpAt(v, q, Track(v + 2, Some(v), [v, v], map[0 := h, 1 := h], []), Block(Some(2), 0, [0, 0]), 0);
    assert map[0 := h, 1 := h][0 := h'] == map[0 := h', 1 := h];
    BumpAt(v, q, Track(v + 2, Some(v + 1), [v, v], map[0 := h', 1 := h], []), Block(Some(2), 1, [0, 0]), 1);
    assert map[0 := h', 1 := h][1 := h'] == map[0 := h', 1 := h'];
  }

  /** Two activations in hand, incremented, are sent: `a` before `b`. */
  lemma BothSent(v: int, q: Pair, t: Track, block: Block, a: nat, b: nat, x: int, y: int)
    requires At(v, q, t, block) && t.sent == [] && a != b && t.hands == map[a := Hand(x, true), b := Hand(y, true)]
    ensures At(v, q, t.(hands := map[], sent := [x, y]), block)
  {
    SendAt(v, q, t, block, a);
    assert t.hands - {a} == map[b := Hand(y, true)] && [] + [x] == [x];
    var t1 := t.(hands := map[b := Hand(y, true)], sent := [x]);
    SendAt(v, q, t1, block, b);
    assert t1.hands - {b} == map[] && [x] + [y] == [x, y];
  }

  lemma TwoFrugal(start: int, b: Block)
    requires b.reserved == Some(2) && forall i :: 0 <= i < |b.readings| ==> b.readings[i] < 2
    ensures Frugal([BARE, b]) && Fits(start, [BARE, b])
  {
    assert Within(b);
    FrugalFits(start, [BARE, b]);
  }

  lemma SameSent(v: int, q: Pair)
    ensures At(v, q, Track(v + 2, Some(v + 2), [v, v], map[], [v, v]), Block(Some(2), 2, [0, 0]))
  {
    BothBumped(v, q);
    BothSent(v, q, Track(v + 2, Some(v + 2), [v, v], map[0 := Hand(v, true), 1 := Hand(v, true)], []),
             Block(Some(2), 2, [0, 0]), 0, 1, v, v);
  }

  /** Every pair has runs in which two activations overlap between reading and
      incrementing: one counter is sent twice, although no more are used than
      reserved. */
  lemma OverlapRepeats(w: World, q: Pair)
    requires Fresh(w) && NoColon(q.card)
    ensures exists steps ::
              && AllPlainly(steps) && Exec(w, steps).Some?
              && Frugal(Blocks(steps, q)) && Fits(ReadPlain(w.durable, q), Blocks(steps, q))
              && Of(Exec(w, steps).value.sent, q) == [ReadPlain(w.durable, q), ReadPlain(w.durable, q)]
  {
    var v := ReadPlain(w.durable, q);
    SameSent(v, q);
    TwoFrugal(v, Block(Some(2), 2, [0, 0]));
    StartTrack(w, q);
    var steps := ReachedRuns(w, q, Track(v + 2, Some(v + 2), [v, v], map[], [v, v]), [BARE, Block(Some(2), 2, [0, 0])]);
  }

  lemma FirstTaken(v: int, q: Pair)
    ensures At(v, q, Track(v + 2, Some(v + 1), [v], map[0 := Hand(v, true)], []), Block(Some(2), 1, [0]))
  {
    ReservedAt(v, q);
    ReadAt(v, q, Track(v + 2, Some(v), [], map[], []), Block(Some(2), 0, []), 0);
    assert [] + [v] == [v] && [] + [0] == [0];
    BumpAt(v, q, Track(v + 2, Some(v), [v], map[0 := Hand(v, false)], []), Block(Some(2), 0, [0]), 0);
    assert map[0 := Hand(v, false)][0 := Hand(v, true)] == map[0 := Hand(v, true)];
  }

  lemma BothTaken(v: int, q: Pair)
    ensures At(v, q, Track(v + 2, Some(v + 2), [v, v + 1], map[0 := Hand(v, true), 1 := Hand(v + 1, true)], []),
               Block(Some(2), 2, [0, 1]))
  {
    FirstTaken(v, q);
    var h, h', done := Hand(v + 1, false), Hand(v + 1, true), Hand(v, true);
    ReadAt(v, q, Track(v + 2, Some(v + 1), [v], map[0 := done], []), Block(Some(2), 1, [0]), 1);
    assert [v] + [v + 1] == [v, v + 1] && [0] + [1] == [0, 1];
    assert map[0 := done][1 := h] == map[0 := done, 1 := h];
    BumpAt(v, q, Track(v + 2, Some(v + 1), [v, v + 1], map[0 := done, 1 := h], []), Block(Some(2), 1, [0, 1]), 1);
    assert map[0 := done, 1 := h][1 := h'] == map[0 := done, 1 := h'];
  }

  lemma LaterSentFirst(v: int, q: Pair)
    ensures At(v, q, Track(v + 2, Some(v + 2), [v, v + 1], map[], [v + 1, v]), Block(Some(2), 2, [0, 1]))
  {
    BothTaken(v, q);
    assert map[0 := Hand(v, true), 1 := Hand(v + 1, true)] == map[1 := Hand(v + 1, true), 0 := Hand(v, true)];
    BothSent(v, q, Track(v + 2, Some(v + 2), [v, v + 1], map[1 := Hand(v + 1, true), 0 := Hand(v, true)], []),
             Block(Some(2), 2, [0, 1]), 1, 0, v + 1, v);
  }

  lemma TwoApart(b: Block)
    requires b.readings == [0, 1]
    ensures AllApart([BARE, b])
  {
    assert Apart(b.readings);
  }

  /** And runs in which they overlap only between incrementing and sending: the
      counters read increase, the counters sent do not. */
  lemma OverlapReverses(w: World, q: Pair)
    requires Fresh(w) && NoColon(q.card)
    ensures exists steps ::
              && AllPlainly(steps) && Exec(w, steps).Some? && Frugal(Blocks(steps, q)) && AllApart(Blocks(steps, q))
              && Of(Exec(w, steps).value.sent, q) == [ReadPlain(w.durable, q) + 1, ReadPlain(w.durable, q)]
  {
    var v := ReadPlain(w.durable, q);
    LaterSentFirst(v, q);
    TwoFrugal(v, Block(Some(2), 2, [0, 1]));
    TwoApart(Block(Some(2), 2, [0, 1]));
    StartTrack(w, q);
    var steps := ReachedRuns(w, q, Track(v + 2, Some(v + 2), [v, v + 1], map[], [v + 1, v]), [BARE, Block(Some(2), 2, [0, 1])]);
  }
}
