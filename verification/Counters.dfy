/** Process-local OTA counters, kept under joined card and application ids with
    an index from cards to their applications. */
module Counters {
  import opened Common

  function Key(card: string, app: string): string {
    card + ":" + app
  }

  /** Index of the first colon, or the length. */
  function Colon(s: string): (i: nat)
    ensures i <= |s|
    ensures i < |s| ==> s[i] == ':'
    ensures forall j :: 0 <= j < i ==> s[j] != ':'
  {
    if s == [] || s[0] == ':' then 0 else 1 + Colon(s[1..])
  }

  predicate NoColon(s: string) {
    Colon(s) == |s|
  }

  predicate Splits(k: string) {
    !NoColon(k)
  }

  function CardOf(k: string): string {
    k[..Colon(k)]
  }

  function AppOf(k: string): string
    requires Splits(k)
  {
    k[Colon(k) + 1..]
  }

  /** Cutting a key at its first colon gives the ids back exactly when the card
      id has none. */
  lemma KeySplitsExactly(card: string, app: string)
    ensures Splits(Key(card, app))
    ensures CardOf(Key(card, app)) == card <==> NoColon(card)
    ensures NoColon(card) ==> AppOf(Key(card, app)) == app
  {
    var k := Key(card, app);
    assert k[|card|] == ':';
    assert forall j :: 0 <= j < |card| ==> k[j] == card[j];
    if NoColon(card) {
      assert Colon(k) == |card|;
      assert k[..|card|] == card && k[|card| + 1..] == app;
    } else {
      assert k[Colon(card)] == ':';
      assert |CardOf(k)| < |card|;
    }
  }

  lemma KeyOfSplit(k: string)
    requires Splits(k)
    ensures Key(CardOf(k), AppOf(k)) == k && NoColon(CardOf(k))
  {
    assert k == k[..Colon(k)] + [k[Colon(k)]] + k[Colon(k) + 1..];
  }

  // ------------------------------------------------------------------ the store

  datatype Pair = Pair(card: string, app: string)

  function SplitPair(k: string): Pair
    requires Splits(k)
  {
    Pair(CardOf(k), AppOf(k))
  }

  /** The index as a set of pairs: repeated and reordered entries make no
      difference. */
  datatype Store = Store(counters: map<string, int>, index: set<Pair>) {
    function Value(card: string, app: string): Option<int> {
      if Key(card, app) in counters then Some(counters[Key(card, app)]) else None
    }

    function Get(card: string, app: string): int {
      if Key(card, app) in counters then counters[Key(card, app)] else 0
    }

    function Incr(card: string, app: string): Store {
      Store(counters[Key(card, app) := Get(card, app) + 1],
            if Key(card, app) in counters then index else index + {Pair(card, app)})
    }

    function Evict(card: string): Store {
      Store(counters - KeysOf(index, card), set p | p in index && p.card != card)
    }

    function Load(k: string, v: int): Store {
      Store(counters[k := v], if Splits(k) then index + {SplitPair(k)} else index)
    }

    function Preload(values: map<string, int>): Store {
      Store(counters + values, index + PairsIn(values))
    }

    /** Every counter is in the index under the card its key starts with. */
    ghost predicate Covered() {
      forall k :: k in counters && Splits(k) ==> SplitPair(k) in index
    }
  }

  const EMPTY := Store(map[], {})

  function KeysOf(index: set<Pair>, card: string): set<string> {
    set p | p in index && p.card == card :: Key(card, p.app)
  }

  function PairsIn(values: map<string, int>): set<Pair> {
    set k | k in values && Splits(k) :: SplitPair(k)
  }

  lemma PreloadMore(s: Store, values: map<string, int>, k: string, v: int)
    requires k !in values
    ensures s.Preload(values[k := v]) == s.Preload(values).Load(k, v)
  {
    var values' := values[k := v];
    assert PairsIn(values') == PairsIn(values) + if Splits(k) then {SplitPair(k)} else {};
    assert s.counters + values' == (s.counters + values)[k := v];
  }

  lemma PreloadNothing(s: Store, values: map<string, int>)
    ensures s.Preload(values - values.Keys) == s
  {
    assert values - values.Keys == map[];
    assert PairsIn(map[]) == {};
    assert s.counters + map[] == s.counters;
  }

  lemma PreloadLeft(s: Store, values: map<string, int>, todo: set<string>, k: string)
    requires k in todo && todo <= values.Keys
    ensures s.Preload(values - (todo - {k})) == s.Preload(values - todo).Load(k, values[k])
  {
    PreloadMore(s, values - todo, k, values[k]);
    assert (values - todo)[k := values[k]] == values - (todo - {k});
  }

  class CounterStore {
    var counters: map<string, int>
    var cardApps: map<string, seq<string>>

    ghost function Index(): set<Pair>
      reads this`cardApps
    {
      set card, a | card in cardApps && a in cardApps[card] :: Pair(card, a)
    }

    ghost function Contents(): Store
      reads this
    {
      Store(counters, Index())
    }

    constructor ()
      ensures Contents() == EMPTY
    {
      counters, cardApps := map[], map[];
    }

    method GetCounter(card: string, app: string) returns (v: int)
      ensures v == Contents().Get(card, app)
    {
      v := if Key(card, app) in counters then counters[Key(card, app)] else 0;
    }

    method AddApp(card: string, app: string)
      modifies this`cardApps
      ensures Index() == old(Index()) + {Pair(card, app)}
    {
      var apps := if card in cardApps then cardApps[card] else [];
      cardApps := cardApps[card := apps + [app]];
    }

    method IncrCounter(card: string, app: string) returns (v: int)
      modifies this
      ensures Contents() == old(Contents()).Incr(card, app)
      ensures v == Contents().Get(card, app)
    {
      var key := Key(card, app);
      if key !in counters {
        AddApp(card, app);
      }
      counters := counters[key := (if key in counters then counters[key] else 0) + 1];
      v := counters[key];
    }

    /** The counter an activation sends: read, then incremented, by two calls with
        nothing in between. */
    method TakeCounter(card: string, app: string) returns (v: int)
      modifies this
      ensures v == old(Contents()).Get(card, app) && Contents() == old(Contents()).Incr(card, app)
    {
      v := GetCounter(card, app);
      var next := IncrCounter(card, app);
    }

    /** The counters left after the listed applications are deleted. */
    static method DeleteAll(counters: map<string, int>, card: string, apps: seq<string>) returns (left: map<string, int>)
      ensures left == counters - (set i | 0 <= i < |apps| :: Key(card, apps[i]))
    {
      left := counters;
      var i := 0;
      while i < |apps|
        invariant 0 <= i <= |apps|
        invariant left == counters - (set j | 0 <= j < i :: Key(card, apps[j]))
      {
        left := left - {Key(card, apps[i])};
        i := i + 1;
      }
    }

    method EvictCard(card: string)
      modifies this
      ensures Contents() == old(Contents()).Evict(card)
    {
      var apps := if card in cardApps then cardApps[card] else [];
      counters := DeleteAll(counters, card, apps);
      ghost var index := Index();
      assert forall p :: p in index && p.card == card <==> p.card == card && p.app in apps;
      KeysOfApps(index, card, apps);
      cardApps := cardApps - {card};
    }

    method LoadCounter(k: string, v: int)
      modifies this
      ensures Contents() == old(Contents()).Load(k, v)
    {
      counters := counters[k := v];
      if Colon(k) < |k| {
        AddApp(k[..Colon(k)], k[Colon(k) + 1..]);
      }
    }

    /** Values are visited in whatever order the map gives. */
    method PreloadCounters(values: map<string, int>)
      modifies this
      ensures Contents() == old(Contents()).Preload(values)
    {
      var todo := values.Keys;
      PreloadNothing(Contents(), values);
      while todo != {}
        invariant todo <= values.Keys
        invariant Contents() == old(Contents()).Preload(values - todo)
        decreases todo
      {
        var k :| k in todo;
        PreloadLeft(old(Contents()), values, todo, k);
        LoadCounter(k, values[k]);
        todo := todo - {k};
      }
      assert values - {} == values;
    }
  }

  lemma KeysOfApps(index: set<Pair>, card: string, apps: seq<string>)
    requires forall p :: p in index && p.card == card <==> p.card == card && p.app in apps
    ensures (set i | 0 <= i < |apps| :: Key(card, apps[i])) == KeysOf(index, card)
  {
    forall i | 0 <= i < |apps| ensures Key(card, apps[i]) in KeysOf(index, card) {
      assert Pair(card, apps[i]) in index;
    }
  }

  // ------------------------------------------------- agreement with a plain map

  type Plain = map<Pair, int>

  lemma PairsInKeys(m: map<string, int>)
    ensures forall p :: p in PairsIn(m) <==> NoColon(p.card) && Key(p.card, p.app) in m
  {
    forall p ensures p in PairsIn(m) <==> NoColon(p.card) && Key(p.card, p.app) in m {
      KeySplitsExactly(p.card, p.app);
      if p in PairsIn(m) {
        var k :| k in m && Splits(k) && SplitPair(k) == p;
        KeyOfSplit(k);
      }
    }
  }

  /** The counters by pair. */
  ghost function View(m: map<string, int>): (v: Plain)
    ensures forall p :: p in v <==> NoColon(p.card) && Key(p.card, p.app) in m
    ensures forall p :: p in v ==> v[p] == m[Key(p.card, p.app)]
  {
    PairsInKeys(m);
    map p | p in PairsIn(m) :: m[Key(p.card, p.app)]
  }

  lemma KeyInjective(p: Pair, q: Pair)
    requires NoColon(p.card) && NoColon(q.card) && Key(p.card, p.app) == Key(q.card, q.app)
    ensures p == q
  {
    KeySplitsExactly(p.card, p.app);
    KeySplitsExactly(q.card, q.app);
  }

  datatype Op = PreloadOp(values: map<string, int>) | IncrOp(card: string, app: string) | EvictOp(card: string) {
    predicate Plainly() {
      PreloadOp? || NoColon(card)
    }
  }

  function Apply(s: Store, op: Op): Store {
    match op
    case PreloadOp(values) => s.Preload(values)
    case IncrOp(card, app) => s.Incr(card, app)
    case EvictOp(card) => s.Evict(card)
  }

  function ReadPlain(v: Plain, p: Pair): int {
    if p in v then v[p] else 0
  }

  ghost function ApplyPlain(v: Plain, op: Op): Plain {
    match op
    case PreloadOp(values) => v + View(values)
    case IncrOp(card, app) => v[Pair(card, app) := ReadPlain(v, Pair(card, app)) + 1]
    case EvictOp(card) => map p | p in v && p.card != card :: v[p]
  }

  lemma ViewSet(m: map<string, int>, q: Pair, x: int)
    requires NoColon(q.card)
    ensures View(m[Key(q.card, q.app) := x]) == View(m)[q := x]
  {
    var m' := m[Key(q.card, q.app) := x];
    forall p: Pair | NoColon(p.card) && p != q ensures Key(p.card, p.app) != Key(q.card, q.app) {
      if Key(p.card, p.app) == Key(q.card, q.app) {
        KeyInjective(p, q);
      }
    }
    assert View(m').Keys == View(m)[q := x].Keys;
  }

  lemma GetAgrees(s: Store, p: Pair)
    requires NoColon(p.card)
    ensures s.Get(p.card, p.app) == ReadPlain(View(s.counters), p)
  {
  }

  lemma IncrCovers(s: Store, card: string, app: string)
    requires s.Covered() && NoColon(card)
    ensures s.Incr(card, app).Covered()
  {
    KeySplitsExactly(card, app);
  }

  lemma IncrAgrees(s: Store, card: string, app: string)
    requires s.Covered() && NoColon(card)
    ensures s.Incr(card, app).Covered()
    ensures View(s.Incr(card, app).counters) == ApplyPlain(View(s.counters), IncrOp(card, app))
  {
    IncrCovers(s, card, app);
    GetAgrees(s, Pair(card, app));
    ViewSet(s.counters, Pair(card, app), s.Get(card, app) + 1);
  }

  lemma PreloadAgrees(s: Store, values: map<string, int>)
    requires s.Covered()
    ensures s.Preload(values).Covered()
    ensures View(s.Preload(values).counters) == ApplyPlain(View(s.counters), PreloadOp(values))
  {
  }

  /** The keys eviction deletes are those that start with the card. */
  lemma GoneKeys(s: Store, card: string, k: string)
    requires s.Covered() && NoColon(card) && k in s.counters && Splits(k)
    ensures k in KeysOf(s.index, card) <==> CardOf(k) == card
  {
    KeyOfSplit(k);
    if k in KeysOf(s.index, card) {
      var p :| p in s.index && p.card == card && k == Key(card, p.app);
      KeySplitsExactly(card, p.app);
    }
  }

  lemma EvictCovers(s: Store, card: string)
    requires s.Covered() && NoColon(card)
    ensures s.Evict(card).Covered()
  {
    forall k | k in s.Evict(card).counters && Splits(k) ensures SplitPair(k) in s.Evict(card).index {
      GoneKeys(s, card, k);
    }
  }

  lemma GonePairs(s: Store, card: string, p: Pair)
    requires s.Covered() && NoColon(card) && NoColon(p.card)
    ensures Key(p.card, p.app) in s.Evict(card).counters <==> Key(p.card, p.app) in s.counters && p.card != card
  {
    if Key(p.card, p.app) in s.counters {
      KeySplitsExactly(p.card, p.app);
      GoneKeys(s, card, Key(p.card, p.app));
    }
  }

  /** Evicting a card removes all its counters and no others. */
  lemma EvictAgrees(s: Store, card: string)
    requires s.Covered() && NoColon(card)
    ensures s.Evict(card).Covered()
    ensures View(s.Evict(card).counters) == ApplyPlain(View(s.counters), EvictOp(card))
    ensures forall p :: p in s.Evict(card).index <==> p in s.index && p.card != card
  {
    EvictCovers(s, card);
    var left := s.Evict(card).counters;
    forall p: Pair | NoColon(p.card)
      ensures Key(p.card, p.app) in left <==> Key(p.card, p.app) in s.counters && p.card != card {
      GonePairs(s, card, p);
    }
    ViewWithout(s.counters, left, card);
  }

  lemma ViewWithout(m: map<string, int>, left: map<string, int>, card: string)
    requires forall p: Pair | NoColon(p.card) ::
               Key(p.card, p.app) in left <==> Key(p.card, p.app) in m && p.card != card
    requires forall k :: k in left ==> k in m && left[k] == m[k]
    ensures View(left) == ApplyPlain(View(m), EvictOp(card))
  {
    var v, v' := View(m), View(left);
    assert forall p :: p in v' <==> p in v && p.card != card;
    assert forall p :: p in v' ==> v'[p] == v[p];
  }

  function ApplyAll(s: Store, ops: seq<Op>): Store {
    if ops == [] then s else Apply(ApplyAll(s, ops[..|ops| - 1]), ops[|ops| - 1])
  }

  ghost function ApplyAllPlain(v: Plain, ops: seq<Op>): Plain {
    if ops == [] then v else ApplyPlain(ApplyAllPlain(v, ops[..|ops| - 1]), ops[|ops| - 1])
  }

  /** For card ids without a colon the store is a map from pairs: over every run
      the index covers it and each operation does what it does there. */
  lemma {:induction false} StoreAgrees(ops: seq<Op>)
    requires forall i :: 0 <= i < |ops| ==> ops[i].Plainly()
    ensures ApplyAll(EMPTY, ops).Covered()
    ensures View(ApplyAll(EMPTY, ops).counters) == ApplyAllPlain(map[], ops)
  {
    if ops == [] {
      assert View(map[]) == map[];
    } else {
      var init, op := ops[..|ops| - 1], ops[|ops| - 1];
      StoreAgrees(init);
      var s := ApplyAll(EMPTY, init);
      match op
      case PreloadOp(values) => PreloadAgrees(s, values);
      case IncrOp(card, app) => IncrAgrees(s, card, app);
      case EvictOp(card) => EvictAgrees(s, card);
    }
  }

  lemma SameCardKeys(card: string, a: string, b: string)
    requires Key(card, a) == Key(card, b)
    ensures a == b
  {
    assert Key(card, a)[|card| + 1..] == a && Key(card, b)[|card| + 1..] == b;
  }

  /** Whatever the store held, a preloaded counter goes with its card exactly
      when the card id has no colon, or an increment had indexed it already. */
  lemma PreloadThenEvictExactly(s: Store, values: map<string, int>, card: string, app: string)
    requires Key(card, app) in values
    ensures s.Preload(values).Evict(card).Value(card, app) == None <==> NoColon(card) || Pair(card, app) in s.index
  {
    var k, s' := Key(card, app), s.Preload(values);
    KeySplitsExactly(card, app);
    if NoColon(card) {
      assert SplitPair(k) == Pair(card, app);
      assert SplitPair(k) in PairsIn(values);
    }
    if k in KeysOf(s'.index, card) {
      var p :| p in s'.index && p.card == card && Key(card, p.app) == k;
      SameCardKeys(card, p.app, app);
      assert p == Pair(card, app);
      if p in PairsIn(values) {
        var q :| q in values && Splits(q) && SplitPair(q) == p;
        KeyOfSplit(q);
      }
    } else {
      assert Pair(card, app) !in s'.index;
    }
  }
}
