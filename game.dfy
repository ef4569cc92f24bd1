/** The session state of Gim Grilling Tycoon and the transitions the game
    container applies to it.

    The container keeps one `GameState` record in a React state cell and
    replaces it wholesale with a new record built from the previous one.
    Each transition is therefore a function from the old state to the new.
    Two things the container takes from the host are inputs here: the ids it
    builds from `Date.now()`, and the draws of `Math.random()`, which are
    reals in `[0, 1)`. */
module Game {
  import opened Lists

  datatype Language = En | Ko

  /** The label shown on a seaweed unit. */
  datatype CookState = Raw | Perfect | Burnt

  datatype CustomerType = Normal | Vip

  /** What a customer asks for. `GoodOrder` has no cooking state with the same name. */
  datatype Order = PerfectOrder | GoodOrder | AnyOrder

  datatype Seaweed = Seaweed(id: string, state: CookState, cookingTime: int)

  datatype Customer = Customer(id: string, kind: CustomerType, order: Order,
                               patience: int, satisfaction: int)

  datatype GameState = GameState(
    score: int,
    level: int,
    timeLeft: int,
    isPlaying: bool,
    isPaused: bool,
    language: Language,
    seaweed: seq<Seaweed>,
    customers: seq<Customer>)

  const SessionLength := 60
  /** The grill is refilled up to this many units after a serve. */
  const SeaweedCap := 3
  /** The queue is refilled up to this many customers after a serve. */
  const CustomerCap := 2
  const FullPatience := 100
  const PatienceDecay := 2
  const SatisfactionDecay := 1
  const InitialCustomerId := "customer-1"

  function SeaweedKey(w: Seaweed): string { w.id }
  function CustomerKey(c: Customer): string { c.id }

  /** The state the component mounts with: not playing, both lists empty. */
  const Initial := GameState(0, 1, SessionLength, false, false, En, [], [])

  /** `Math.max`. */
  function Max(a: int, b: int): int { if a >= b then a else b }

  // ---------------------------------------------------------------- cooking

  /** The label for a unit that has been on the grill `t` seconds. */
  function Classify(t: int): (st: CookState)
    ensures st == Raw <==> t <= 3
    ensures st == Perfect <==> 4 <= t <= 6
    ensures st == Burnt <==> 7 <= t
  {
    if t > 3 then (if t > 6 then Burnt else Perfect) else Raw
  }

  /** One second on the grill. The label is computed from the time before
      the increment, so it always trails the clock by one second. */
  function Cook(w: Seaweed): Seaweed {
    w.(cookingTime := w.cookingTime + 1, state := Classify(w.cookingTime))
  }

  /** The tick's `seaweed.map`. */
  function CookAll(ws: seq<Seaweed>): (r: seq<Seaweed>)
    ensures |r| == |ws|
    ensures forall i :: 0 <= i < |ws| ==>
              && r[i].id == ws[i].id
              && r[i].cookingTime == ws[i].cookingTime + 1
              && r[i].state == Classify(ws[i].cookingTime)
  {
    if ws == [] then [] else [Cook(ws[0])] + CookAll(ws[1..])
  }

  /** One second in the queue. */
  function Decay(c: Customer): Customer {
    c.(patience := Max(0, c.patience - PatienceDecay),
       satisfaction := Max(0, c.satisfaction - SatisfactionDecay))
  }

  /** The tick's `customers.map`. */
  function DecayAll(cs: seq<Customer>): (r: seq<Customer>)
    ensures |r| == |cs|
    ensures forall i :: 0 <= i < |cs| ==>
              && r[i].id == cs[i].id && r[i].kind == cs[i].kind && r[i].order == cs[i].order
              && r[i].patience == Max(0, cs[i].patience - PatienceDecay)
              && r[i].satisfaction == Max(0, cs[i].satisfaction - SatisfactionDecay)
  {
    if cs == [] then [] else [Decay(cs[0])] + DecayAll(cs[1..])
  }

  // ---------------------------------------------------------------- clock

  /** The interval callback: one second of play. */
  function Tick(s: GameState): (r: GameState)
    ensures r.timeLeft >= 0
    ensures s.timeLeft >= 1 ==> r.timeLeft == s.timeLeft - 1
    ensures s.timeLeft <= 1 ==> r.timeLeft == 0
    ensures r.seaweed == CookAll(s.seaweed) && r.customers == DecayAll(s.customers)
    ensures r.(timeLeft := s.timeLeft, seaweed := s.seaweed, customers := s.customers) == s
  {
    s.(timeLeft := Max(0, s.timeLeft - 1),
       seaweed := CookAll(s.seaweed),
       customers := DecayAll(s.customers))
  }

  /** The effect watching `timeLeft`: the session ends when the clock reads 0. */
  function EndOfPlay(s: GameState): (r: GameState)
    ensures r.isPlaying <==> s.isPlaying && s.timeLeft != 0
    ensures r.(isPlaying := s.isPlaying) == s
  {
    if s.timeLeft == 0 then s.(isPlaying := false) else s
  }

  /** One elapsed second: the interval runs only while playing and not
      paused, and the end-of-play check follows each tick. */
  function Step(s: GameState): (r: GameState)
    ensures !(s.isPlaying && !s.isPaused) ==> r == s
    ensures s.isPlaying && !s.isPaused ==>
              && r.timeLeft == Max(0, s.timeLeft - 1)
              && (r.isPlaying <==> r.timeLeft != 0)
              && r.seaweed == CookAll(s.seaweed)
              && r.customers == DecayAll(s.customers)
    ensures r.score == s.score && r.level == s.level && r.isPaused == s.isPaused
            && r.language == s.language
  {
    if s.isPlaying && !s.isPaused then EndOfPlay(Tick(s)) else s
  }

  /** `Step` applied `n` times: a stopped or paused session stays as it
      is; a running one loses `n` seconds of clock, never going below 0, and
      is still running exactly when time is left. */
  function Steps(s: GameState, n: nat): (r: GameState)
    ensures !(s.isPlaying && !s.isPaused) ==> r == s
    ensures s.isPlaying && !s.isPaused && n >= 1 ==>
              r.timeLeft == Max(0, s.timeLeft - n) && (r.isPlaying <==> s.timeLeft - n > 0)
    ensures r.score == s.score && r.level == s.level && r.isPaused == s.isPaused
            && r.language == s.language
    ensures |r.seaweed| == |s.seaweed| && |r.customers| == |s.customers|
  {
    if n == 0 then s else Step(Steps(s, n - 1))
  }

  // ---------------------------------------------------------------- buttons

  /** `seaweed-${i}` for a single-digit `i`. */
  function SeaweedLabel(i: nat): string
    requires i < 10
  {
    "seaweed-" + [('0' as int + i) as char]
  }

  /** Different digits give different labels. */
  lemma SeaweedLabelsDistinct(i: nat, j: nat)
    requires i < 10 && j < 10 && i != j
    ensures SeaweedLabel(i) != SeaweedLabel(j)
  {
    assert SeaweedLabel(i)[8] != SeaweedLabel(j)[8];
  }

  /** The three units the grill starts with (`Array.from({ length: 3 }, ...)`). */
  function StartingSeaweed(): (r: seq<Seaweed>)
    ensures |r| == SeaweedCap && UniqueKeys(r, SeaweedKey)
    ensures forall i :: 0 <= i < |r| ==>
              r[i].id == SeaweedLabel(i) && r[i].state == Raw && r[i].cookingTime == 0
    ensures [r[0].id, r[1].id, r[2].id] == ["seaweed-0", "seaweed-1", "seaweed-2"]
  {
    var r := seq(SeaweedCap, i requires 0 <= i < SeaweedCap => Seaweed(SeaweedLabel(i), Raw, 0));
    assert UniqueKeys(r, SeaweedKey) by {
      forall i, j | 0 <= i < j < |r| ensures SeaweedKey(r[i]) != SeaweedKey(r[j]) {
        SeaweedLabelsDistinct(i, j);
      }
    }
    assert SeaweedLabel(0) == "seaweed-0" && SeaweedLabel(1) == "seaweed-1" && SeaweedLabel(2) == "seaweed-2";
    r
  }

  /** The start (and restart) button. Only the language survives. */
  function StartGame(s: GameState): (r: GameState)
    ensures r.score == 0 && r.level == 1 && r.timeLeft == SessionLength
    ensures r.isPlaying && !r.isPaused && r.language == s.language
    ensures |r.seaweed| == SeaweedCap && UniqueKeys(r.seaweed, SeaweedKey)
    ensures forall i :: 0 <= i < |r.seaweed| ==>
              r.seaweed[i].id == SeaweedLabel(i) && r.seaweed[i].state == Raw
              && r.seaweed[i].cookingTime == 0
    ensures r.customers == [Customer(InitialCustomerId, Normal, PerfectOrder, FullPatience, FullPatience)]
  {
    s.(isPlaying := true, isPaused := false, score := 0, level := 1,
       timeLeft := SessionLength,
       seaweed := StartingSeaweed(),
       customers := [Customer(InitialCustomerId, Normal, PerfectOrder, FullPatience, FullPatience)])
  }

  /** The pause / resume button. */
  function TogglePause(s: GameState): (r: GameState)
    ensures r.isPaused != s.isPaused
    ensures r.(isPaused := s.isPaused) == s
  {
    s.(isPaused := !s.isPaused)
  }

  /** The language toggle. */
  function ChangeLanguage(s: GameState, lang: Language): (r: GameState)
    ensures r.language == lang
    ensures r.(language := s.language) == s
  {
    s.(language := lang)
  }

  /** The flip's `seaweed.map`: the clock of every unit with that id goes
      back to 0; its label is left as it was. */
  function FlipAll(ws: seq<Seaweed>, id: string): (r: seq<Seaweed>)
    ensures |r| == |ws|
    ensures forall i :: 0 <= i < |ws| ==>
              r[i] == if ws[i].id == id then Seaweed(ws[i].id, ws[i].state, 0) else ws[i]
  {
    if ws == [] then []
    else [if ws[0].id == id then ws[0].(cookingTime := 0) else ws[0]] + FlipAll(ws[1..], id)
  }

  /** Clicking a seaweed unit. */
  function FlipSeaweed(s: GameState, id: string): (r: GameState)
    ensures r.(seaweed := s.seaweed) == s
    ensures |r.seaweed| == |s.seaweed|
    ensures forall i :: 0 <= i < |s.seaweed| ==>
              && r.seaweed[i].id == s.seaweed[i].id
              && r.seaweed[i].state == s.seaweed[i].state
              && r.seaweed[i].cookingTime == (if s.seaweed[i].id == id then 0 else s.seaweed[i].cookingTime)
    ensures !HasKey(s.seaweed, SeaweedKey, id) ==> r == s
  {
    s.(seaweed := FlipAll(s.seaweed, id))
  }

  // ---------------------------------------------------------------- serving

  /** Whether a served unit fulfils an order: the order's name equals the
      label's name, or the order is `any`. */
  function Matches(o: Order, st: CookState): (m: bool)
    ensures m <==> o == AnyOrder || (o == PerfectOrder && st == Perfect)
  {
    OrderName(o) == StateName(st) || o == AnyOrder
  }

  function OrderName(o: Order): string {
    match o
    case PerfectOrder => "perfect"
    case GoodOrder => "good"
    case AnyOrder => "any"
  }

  function StateName(st: CookState): string {
    match st
    case Raw => "raw"
    case Perfect => "perfect"
    case Burnt => "burnt"
  }

  /** The score change for serving a unit labelled `st` on order `o`. */
  function Points(o: Order, st: CookState): (p: int)
    ensures p == 100 || p == 50 || p == -20
    ensures p == 100 <==> st == Perfect && o != GoodOrder
    ensures p == 50 <==> o == AnyOrder && st != Perfect
    ensures p == -20 <==> o == GoodOrder || (o == PerfectOrder && st != Perfect)
  {
    if Matches(o, st) then (if st == Perfect then 100 else 50) else -20
  }

  /** `Math.random() > 0.7` decides a VIP: the top 30 % of the draws. */
  function DrawType(draw: real): (k: CustomerType)
    ensures k == Vip <==> 0.7 < draw
  {
    if draw > 0.7 then Vip else Normal
  }

  const OrderTable: seq<Order> := [PerfectOrder, GoodOrder, AnyOrder]

  /** `['perfect', 'good', 'any'][Math.floor(Math.random() * 3)]`. */
  function DrawOrder(draw: real): (o: Order)
    requires 0.0 <= draw < 1.0
    ensures o == PerfectOrder <==> draw < 1.0 / 3.0
    ensures o == AnyOrder <==> 2.0 / 3.0 <= draw
  {
    OrderTable[(draw * 3.0).Floor]
  }

  /** Every kind of customer with every kind of order can arrive: some pair
      of draws in `[0, 1)` produces it. */
  lemma EveryArrivalPossible(k: CustomerType, o: Order)
    ensures exists td: real, od: real :: 0.0 <= td < 1.0 && 0.0 <= od < 1.0
              && DrawType(td) == k && DrawOrder(od) == o
  {
    var td := if k == Vip then 0.8 else 0.5;
    var od := match o case PerfectOrder => 0.0 case GoodOrder => 0.5 case AnyOrder => 0.9;
    assert DrawType(td) == k && DrawOrder(od) == o;
  }

  /** Both ids name an entry, so the serve goes ahead. */
  predicate CanServe(s: GameState, customerId: string, seaweedId: string) {
    HasKey(s.customers, CustomerKey, customerId) && HasKey(s.seaweed, SeaweedKey, seaweedId)
  }

  /** Serving seaweed `seaweedId` to customer `customerId`. The new unit and
      the new customer get the ids `newSeaweedId` and `newCustomerId`;
      `typeDraw` and `orderDraw` are the two random draws for the new customer. */
  function ServeCustomer(s: GameState, customerId: string, seaweedId: string,
                         newSeaweedId: string, newCustomerId: string,
                         typeDraw: real, orderDraw: real): (r: GameState)
    requires 0.0 <= typeDraw < 1.0 && 0.0 <= orderDraw < 1.0
    ensures !CanServe(s, customerId, seaweedId) ==> r == s
    ensures r.(score := s.score, seaweed := s.seaweed, customers := s.customers) == s
    ensures CanServe(s, customerId, seaweedId) ==>
              r.score - s.score == Points(Find(s.customers, CustomerKey, customerId).value.order,
                                          Find(s.seaweed, SeaweedKey, seaweedId).value.state)
    ensures CanServe(s, customerId, seaweedId) ==>
              var rest := RemoveKey(s.seaweed, SeaweedKey, seaweedId);
              && |r.seaweed| == (if |rest| < SeaweedCap then |rest| + 1 else |rest|)
              && r.seaweed[..|rest|] == rest
              && (|rest| < SeaweedCap ==> r.seaweed[|rest|] == Seaweed(newSeaweedId, Raw, 0))
    ensures CanServe(s, customerId, seaweedId) ==>
              var rest := RemoveKey(s.customers, CustomerKey, customerId);
              && |r.customers| == (if |rest| < CustomerCap then |rest| + 1 else |rest|)
              && r.customers[..|rest|] == rest
              && (|rest| < CustomerCap ==>
                    r.customers[|rest|] == Customer(newCustomerId, DrawType(typeDraw), DrawOrder(orderDraw),
                                                    FullPatience, FullPatience))
  {
    match (Find(s.customers, CustomerKey, customerId), Find(s.seaweed, SeaweedKey, seaweedId))
    case (Some(c), Some(w)) =>
      var points := Points(c.order, w.state);
      var restC := RemoveKey(s.customers, CustomerKey, customerId);
      var restW := RemoveKey(s.seaweed, SeaweedKey, seaweedId);
      var ws := if |restW| < SeaweedCap then restW + [Seaweed(newSeaweedId, Raw, 0)] else restW;
      var cs := if |restC| < CustomerCap
                then restC + [Customer(newCustomerId, DrawType(typeDraw), DrawOrder(orderDraw),
                                       FullPatience, FullPatience)]
                else restC;
      s.(score := s.score + points, seaweed := ws, customers := cs)
    case _ => s
  }
}
