/** Whole sessions: the intents the page forwards to the game container,
    the states a sequence of them reaches, the invariant every such state
    keeps, and the timeline of a session left to cook. */
module Session {
  import opened Lists
  import opened Game

  /** An intent from the page, or one second of the interval timer. */
  datatype Event =
    | StartPressed
    | PausePressed
    | SeaweedClicked(id: string)
    | ServeClicked(customerId: string, seaweedId: string, newSeaweedId: string,
                   newCustomerId: string, typeDraw: real, orderDraw: real)
    | LanguageChosen(lang: Language)
    | SecondElapsed

  /** The random draws of a serve lie in `[0, 1)`, as `Math.random()` promises. */
  predicate DrawsInRange(e: Event) {
    e.ServeClicked? ==> 0.0 <= e.typeDraw < 1.0 && 0.0 <= e.orderDraw < 1.0
  }

  predicate AllDrawsInRange(es: seq<Event>) {
    forall i :: 0 <= i < |es| ==> DrawsInRange(es[i])
  }

  /** Which intent may touch which part of the state: only a start or a
      serve moves the score, only a start or a timer second moves the clock
      and ends play, only the pause button and a start touch the pause
      flag, only the toggle sets the language, the queue changes only by a start,
      a serve or a timer second, and the grill only by those or a flip. */
  function Apply(s: GameState, e: Event): (r: GameState)
    requires DrawsInRange(e)
    ensures !(e.StartPressed? || e.ServeClicked?) ==> r.score == s.score
    ensures !(e.StartPressed? || e.SecondElapsed?) ==> r.timeLeft == s.timeLeft && r.isPlaying == s.isPlaying
    ensures !(e.StartPressed? || e.PausePressed?) ==> r.isPaused == s.isPaused
    ensures !e.LanguageChosen? ==> r.language == s.language
    ensures !(e.StartPressed? || e.ServeClicked? || e.SecondElapsed?) ==> r.customers == s.customers
    ensures !(e.StartPressed? || e.SeaweedClicked? || e.ServeClicked? || e.SecondElapsed?) ==> r.seaweed == s.seaweed
    ensures r.level == s.level || (e.StartPressed? && r.level == 1)
  {
    match e
    case StartPressed => StartGame(s)
    case PausePressed => TogglePause(s)
    case SeaweedClicked(id) => FlipSeaweed(s, id)
    case ServeClicked(c, w, nw, nc, td, od) => ServeCustomer(s, c, w, nw, nc, td, od)
    case LanguageChosen(lang) => ChangeLanguage(s, lang)
    case SecondElapsed => Step(s)
  }

  /** The state reached from `s` by the events `es`, in order. Without a
      start or a serve the score never moves; without the toggle the
      language never changes. */
  function Run(s: GameState, es: seq<Event>): (r: GameState)
    requires AllDrawsInRange(es)
    ensures (forall i :: 0 <= i < |es| ==> !es[i].StartPressed? && !es[i].ServeClicked?) ==> r.score == s.score
    ensures (forall i :: 0 <= i < |es| ==> !es[i].LanguageChosen?) ==> r.language == s.language
    decreases |es|
  {
    if es == [] then s else Run(Apply(s, es[0]), es[1..])
  }

  /** Running two sequences one after the other is running their concatenation. */
  lemma {:induction false} RunAppend(s: GameState, a: seq<Event>, b: seq<Event>)
    requires AllDrawsInRange(a) && AllDrawsInRange(b)
    ensures AllDrawsInRange(a + b)
    ensures Run(s, a + b) == Run(Run(s, a), b)
    decreases |a|
  {
    assert AllDrawsInRange(a + b) by {
      forall i | 0 <= i < |a + b| ensures DrawsInRange((a + b)[i]) {
        if i < |a| { assert (a + b)[i] == a[i]; } else { assert (a + b)[i] == b[i - |a|]; }
      }
    }
    if a != [] {
      assert (a + b)[0] == a[0] && (a + b)[1..] == a[1..] + b;
      RunAppend(Apply(s, a[0]), a[1..], b);
    } else {
      assert a + b == b;
    }
  }

  /** The id a serve gives the new seaweed unit differs from the ids of the
      units left on the grill. */
  predicate FreshIds(s: GameState, e: Event) {
    e.ServeClicked? ==>
      forall i :: 0 <= i < |s.seaweed| && s.seaweed[i].id != e.seaweedId ==>
        s.seaweed[i].id != e.newSeaweedId
  }

  predicate FreshTrace(s: GameState, es: seq<Event>)
    requires AllDrawsInRange(es)
    decreases |es|
  {
    es == [] || (FreshIds(s, es[0]) && FreshTrace(Apply(s, es[0]), es[1..]))
  }

  /** A unit's label trails its clock by one second; a unit whose clock was
      just reset (by a flip, or because it is new) may carry any label. */
  predicate WellCooked(w: Seaweed) {
    w.cookingTime >= 0 && (w.cookingTime >= 1 ==> w.state == Classify(w.cookingTime - 1))
  }

  predicate InQueueBounds(c: Customer) {
    0 <= c.patience <= FullPatience && 0 <= c.satisfaction <= FullPatience
  }

  /** What holds of every state a session can reach from the initial one. */
  predicate SessionInvariant(s: GameState) {
    && 0 <= s.timeLeft <= SessionLength
    && (s.isPlaying ==> s.timeLeft > 0)
    && s.level == 1
    && UniqueKeys(s.seaweed, SeaweedKey)
    && UniqueKeys(s.customers, CustomerKey)
    && (forall i :: 0 <= i < |s.seaweed| ==> WellCooked(s.seaweed[i]))
    && (forall i :: 0 <= i < |s.customers| ==> InQueueBounds(s.customers[i]))
    && ((s.seaweed == [] && s.customers == [])
        || (|s.seaweed| == SeaweedCap && |s.customers| == 1))
  }

  lemma InitialSatisfiesInvariant()
    ensures SessionInvariant(Initial)
  {}

  lemma StartEstablishesInvariant(s: GameState)
    ensures SessionInvariant(StartGame(s))
  {}

  /** A timer second keeps the invariant. */
  lemma {:induction false} StepKeepsInvariant(s: GameState)
    requires SessionInvariant(s)
    ensures SessionInvariant(Step(s))
  {}

  lemma {:induction false} FlipKeepsInvariant(s: GameState, id: string)
    requires SessionInvariant(s)
    ensures SessionInvariant(FlipSeaweed(s, id))
  {}

  /** The grill after a serve from a full grill: the served unit leaves,
      one raw unit with the new id joins, and the grill is full again. */
  lemma GrillAfterServe(ws: seq<Seaweed>, seaweedId: string, newSeaweedId: string)
    requires |ws| == SeaweedCap && UniqueKeys(ws, SeaweedKey) && HasKey(ws, SeaweedKey, seaweedId)
    requires forall i :: 0 <= i < |ws| ==> WellCooked(ws[i])
    requires forall i :: 0 <= i < |ws| && ws[i].id != seaweedId ==> ws[i].id != newSeaweedId
    ensures var rest := RemoveKey(ws, SeaweedKey, seaweedId);
            var r := rest + [Seaweed(newSeaweedId, Raw, 0)];
            && |rest| == SeaweedCap - 1 && |r| == SeaweedCap && UniqueKeys(r, SeaweedKey)
            && forall i :: 0 <= i < |r| ==> WellCooked(r[i])
  {
    var k :| 0 <= k < |ws| && SeaweedKey(ws[k]) == seaweedId;
    var rest := RemoveKey(ws, SeaweedKey, seaweedId);
    RemoveUniqueKey(ws, SeaweedKey, k);
    RemoveKeepsUnique(ws, SeaweedKey, seaweedId);
    var added := Seaweed(newSeaweedId, Raw, 0);
    assert !HasKey(rest, SeaweedKey, newSeaweedId) by {
      forall i | 0 <= i < |rest| ensures SeaweedKey(rest[i]) != newSeaweedId {
        assert rest[i] in ws;
        var j :| 0 <= j < |ws| && ws[j] == rest[i];
      }
    }
    AppendFreshKeepsUnique(rest, SeaweedKey, added);
    var r := rest + [added];
    forall i | 0 <= i < |r| ensures WellCooked(r[i]) {
      if i < |rest| {
        assert rest[i] in ws;
        var j :| 0 <= j < |ws| && ws[j] == rest[i];
      }
    }
  }

  /** Serving the one queued customer empties the queue before the refill. */
  lemma QueueAfterServe(cs: seq<Customer>, customerId: string)
    requires |cs| == 1 && HasKey(cs, CustomerKey, customerId)
    ensures RemoveKey(cs, CustomerKey, customerId) == []
  {
    RemoveUniqueKey(cs, CustomerKey, 0);
  }

  /** A serve keeps three units on the grill and one customer in the queue. */
  lemma {:induction false} ServeKeepsInvariant(s: GameState, e: Event)
    requires e.ServeClicked? && DrawsInRange(e) && FreshIds(s, e)
    requires SessionInvariant(s)
    ensures SessionInvariant(Apply(s, e))
  {
    var r := ServeCustomer(s, e.customerId, e.seaweedId, e.newSeaweedId, e.newCustomerId,
                           e.typeDraw, e.orderDraw);
    if CanServe(s, e.customerId, e.seaweedId) {
      QueueAfterServe(s.customers, e.customerId);
      GrillAfterServe(s.seaweed, e.seaweedId, e.newSeaweedId);
      var restW := RemoveKey(s.seaweed, SeaweedKey, e.seaweedId);
      assert r.seaweed == restW + [Seaweed(e.newSeaweedId, Raw, 0)];
      assert |r.customers| == 1;
    }
  }

  lemma {:induction false} ApplyKeepsInvariant(s: GameState, e: Event)
    requires DrawsInRange(e) && FreshIds(s, e) && SessionInvariant(s)
    ensures SessionInvariant(Apply(s, e))
  {
    match e
    case StartPressed => StartEstablishesInvariant(s);
    case PausePressed =>
    case SeaweedClicked(id) => FlipKeepsInvariant(s, id);
    case ServeClicked(_, _, _, _, _, _) => ServeKeepsInvariant(s, e);
    case LanguageChosen(_) =>
    case SecondElapsed => StepKeepsInvariant(s);
  }

  /** Every state reachable from an invariant state keeps the invariant. */
  lemma {:induction false} RunKeepsInvariant(s: GameState, es: seq<Event>)
    requires AllDrawsInRange(es) && FreshTrace(s, es) && SessionInvariant(s)
    ensures SessionInvariant(Run(s, es))
    decreases |es|
  {
    if es != [] {
      ApplyKeepsInvariant(s, es[0]);
      RunKeepsInvariant(Apply(s, es[0]), es[1..]);
    }
  }

  /** A state reached after a start: the invariant holds and both lists are full. */
  predicate Started(s: GameState) {
    SessionInvariant(s) && |s.seaweed| == SeaweedCap && |s.customers| == 1
  }

  predicate HasStart(es: seq<Event>) {
    exists i :: 0 <= i < |es| && es[i].StartPressed?
  }

  /** A start fills both lists; every other intent and every timer second
      keeps them full once they are. */
  lemma ApplyKeepsStarted(s: GameState, e: Event)
    requires DrawsInRange(e) && FreshIds(s, e) && SessionInvariant(s)
    requires Started(s) || e.StartPressed?
    ensures Started(Apply(s, e))
  {
    ApplyKeepsInvariant(s, e);
  }

  /** Once a trace has passed a start, the grill holds three units and the
      queue one customer, and it stays so for the rest of the trace. */
  lemma {:induction false} RunKeepsStarted(s: GameState, es: seq<Event>)
    requires AllDrawsInRange(es) && FreshTrace(s, es) && SessionInvariant(s)
    requires Started(s) || HasStart(es)
    ensures Started(Run(s, es))
    decreases |es|
  {
    if es != [] {
      var e, rest := es[0], es[1..];
      if Started(s) || e.StartPressed? {
        ApplyKeepsStarted(s, e);
      } else {
        ApplyKeepsInvariant(s, e);
        var i :| 0 <= i < |es| && es[i].StartPressed?;
        assert rest[i - 1] == es[i];
      }
      RunKeepsStarted(Apply(s, e), rest);
    }
  }

  /** From a start, whatever follows, the grill holds exactly three units and
      the queue exactly one customer, all with distinct ids. */
  lemma FromStartAlwaysFull(s0: GameState, es: seq<Event>)
    requires AllDrawsInRange(es) && FreshTrace(StartGame(s0), es)
    ensures var r := Run(StartGame(s0), es);
            && |r.seaweed| == SeaweedCap && |r.customers| == 1
            && UniqueKeys(r.seaweed, SeaweedKey) && UniqueKeys(r.customers, CustomerKey)
  {
    StartEstablishesInvariant(s0);
    RunKeepsStarted(StartGame(s0), es);
  }

  /** Without a start, the empty grill and queue stay empty. */
  lemma {:induction false} UnstartedStaysEmpty(s: GameState, es: seq<Event>)
    requires AllDrawsInRange(es) && !HasStart(es)
    requires s.seaweed == [] && s.customers == []
    ensures Run(s, es).seaweed == [] && Run(s, es).customers == []
    decreases |es|
  {
    if es != [] {
      var rest := es[1..];
      assert !es[0].StartPressed?;
      assert !HasStart(rest) by {
        forall i | 0 <= i < |rest| ensures !rest[i].StartPressed? {
          assert rest[i] == es[i + 1];
        }
      }
      UnstartedStaysEmpty(Apply(s, es[0]), rest);
    }
  }

  /** From mount, the lists are empty until the first start and full (three
      units, one customer) from then on, with all ids distinct. */
  lemma PopulationIsConstant(es: seq<Event>)
    requires AllDrawsInRange(es) && FreshTrace(Initial, es)
    ensures var r := Run(Initial, es);
            && (HasStart(es) ==> |r.seaweed| == SeaweedCap && |r.customers| == 1)
            && (!HasStart(es) ==> r.seaweed == [] && r.customers == [])
            && UniqueKeys(r.seaweed, SeaweedKey) && UniqueKeys(r.customers, CustomerKey)
  {
    InitialSatisfiesInvariant();
    RunKeepsInvariant(Initial, es);
    if HasStart(es) {
      RunKeepsStarted(Initial, es);
    } else {
      UnstartedStaysEmpty(Initial, es);
    }
  }

  /** In a reachable state no tick raises the clock, a patience or a satisfaction. */
  lemma StepNeverRaises(s: GameState)
    requires SessionInvariant(s)
    ensures var r := Step(s);
            && |r.customers| == |s.customers|
            && 0 <= r.timeLeft <= s.timeLeft
            && forall i :: 0 <= i < |s.customers| ==>
                 && 0 <= r.customers[i].patience <= s.customers[i].patience
                 && 0 <= r.customers[i].satisfaction <= s.customers[i].satisfaction
  {}

  /** A session that has ended does not move however much time passes
      (a corollary of the contract of `Steps`). */
  lemma EndedSessionIsFrozen(s: GameState, n: nat)
    requires !s.isPlaying
    ensures Steps(s, n) == s
  {}

  /** A paused session does not move however much time passes
      (a corollary of the contract of `Steps`). */
  lemma PausedSessionIsFrozen(s: GameState, n: nat)
    requires s.isPaused
    ensures Steps(s, n) == s
  {}

  /** The label a unit started raw at second 0 shows after `n` seconds. */
  function LabelAfter(n: nat): CookState {
    if n == 0 then Raw else Classify(n - 1)
  }

  /** The grill of an untouched session `n` seconds in: three units, each
      cooked `n` seconds and showing the label of second `n - 1`. */
  predicate GrillAfter(ws: seq<Seaweed>, n: nat) {
    && |ws| == SeaweedCap
    && forall i :: 0 <= i < SeaweedCap ==>
         ws[i].id == SeaweedLabel(i) && ws[i].cookingTime == n && ws[i].state == LabelAfter(n)
  }

  /** The one customer of an untouched session `n` seconds in. */
  function CustomerAfter(n: nat): Customer {
    Customer(InitialCustomerId, Normal, PerfectOrder,
             Max(0, FullPatience - PatienceDecay * n), FullPatience - SatisfactionDecay * n)
  }

  /** The queue of an untouched session `n` seconds in. */
  predicate QueueAfter(cs: seq<Customer>, n: nat) {
    |cs| == 1 && cs[0] == CustomerAfter(n)
  }

  /** A session at its first second: playing, unpaused, with its full 60-second clock. */
  predicate JustStarted(s: GameState) {
    s.isPlaying && !s.isPaused && s.timeLeft == SessionLength
  }

  /** A start gives a just-started session with the grill and queue of second 0. */
  lemma StartIsRunning(s0: GameState)
    ensures var s := StartGame(s0);
            JustStarted(s) && GrillAfter(s.seaweed, 0) && QueueAfter(s.customers, 0)
  {}

  /** A session with its full 60-second clock, left alone for fewer than
      60 seconds, is still playing and not paused. */
  lemma StillRunning(s: GameState, m: nat)
    requires JustStarted(s) && m < SessionLength
    ensures Steps(s, m).isPlaying && !Steps(s, m).isPaused
  {}

  /** One second of play moves the untouched grill from second `n` to `n + 1`. */
  lemma GrillAdvances(p: GameState, n: nat)
    requires p.isPlaying && !p.isPaused && GrillAfter(p.seaweed, n)
    ensures GrillAfter(Step(p).seaweed, n + 1)
  {
    var r := CookAll(p.seaweed);
    forall i | 0 <= i < SeaweedCap
      ensures r[i].id == SeaweedLabel(i) && r[i].cookingTime == n + 1 && r[i].state == LabelAfter(n + 1)
    {
      assert r[i].cookingTime == p.seaweed[i].cookingTime + 1;
    }
  }

  /** One second of play moves the untouched queue from second `n` to `n + 1`. */
  lemma QueueAdvances(p: GameState, n: nat)
    requires p.isPlaying && !p.isPaused && QueueAfter(p.customers, n) && n < SessionLength
    ensures QueueAfter(Step(p).customers, n + 1)
  {}

  /** The grill of a just-started session left alone, second by second. */
  lemma {:induction false} UntouchedGrill(s: GameState, n: nat)
    requires JustStarted(s) && GrillAfter(s.seaweed, 0) && n <= SessionLength
    ensures GrillAfter(Steps(s, n).seaweed, n)
  {
    if n > 0 {
      var p := Steps(s, n - 1);
      UntouchedGrill(s, n - 1);
      StillRunning(s, n - 1);
      GrillAdvances(p, n - 1);
    }
  }

  /** The queue of a just-started session left alone, second by second. */
  lemma {:induction false} UntouchedQueue(s: GameState, n: nat)
    requires JustStarted(s) && QueueAfter(s.customers, 0) && n <= SessionLength
    ensures QueueAfter(Steps(s, n).customers, n)
  {
    if n > 0 {
      var p := Steps(s, n - 1);
      UntouchedQueue(s, n - 1);
      StillRunning(s, n - 1);
      QueueAdvances(p, n - 1);
    }
  }

  /** A session started and left alone: after `n` seconds (up to the end)
      the clock reads `60 - n`, every unit has cooked `n` seconds and shows
      the label of second `n - 1`, and the customer has decayed `n` times. */
  lemma UntouchedSession(s0: GameState, n: nat)
    requires n <= SessionLength
    ensures var r := Steps(StartGame(s0), n);
            && r.timeLeft == SessionLength - n
            && (r.isPlaying <==> n < SessionLength)
            && !r.isPaused && r.score == 0 && r.level == 1 && r.language == s0.language
            && |r.seaweed| == SeaweedCap
            && (forall i :: 0 <= i < SeaweedCap ==>
                  r.seaweed[i].id == SeaweedLabel(i) && r.seaweed[i].cookingTime == n
                  && r.seaweed[i].state == LabelAfter(n))
            && r.customers == [CustomerAfter(n)]
  {
    StartIsRunning(s0);
    UntouchedGrill(StartGame(s0), n);
    UntouchedQueue(StartGame(s0), n);
    var cs := Steps(StartGame(s0), n).customers;
    assert cs == [cs[0]];
  }

  /** Left alone, the initial units show `raw` for four seconds, `perfect`
      from the fifth to the seventh, and `burnt` from the eighth on. */
  lemma LabelTimeline(s0: GameState, n: nat, i: nat)
    requires n <= SessionLength && i < SeaweedCap
    ensures var ws := Steps(StartGame(s0), n).seaweed;
            i < |ws| && var w := ws[i];
            && (w.state == Raw <==> n <= 4)
            && (w.state == Perfect <==> 5 <= n <= 7)
            && (w.state == Burnt <==> 8 <= n)
  {
    UntouchedSession(s0, n);
  }

  /** Left alone, the session ends exactly at second 60 and stays ended. */
  lemma {:induction false} SessionEndsAtSixty(s0: GameState, k: nat)
    ensures !Steps(StartGame(s0), SessionLength).isPlaying
    ensures Steps(StartGame(s0), SessionLength + k) == Steps(StartGame(s0), SessionLength)
  {
    UntouchedSession(s0, SessionLength);
    if k > 0 {
      SessionEndsAtSixty(s0, k - 1);
    }
  }

  /** Flipping resets the clock at once but the label only on the next tick:
      one second after the flip the unit is `raw` again. */
  lemma FlipThenTick(s: GameState, k: nat)
    requires k < |s.seaweed| && s.isPlaying && !s.isPaused
    ensures FlipSeaweed(s, s.seaweed[k].id).seaweed[k].state == s.seaweed[k].state
    ensures var w := Step(FlipSeaweed(s, s.seaweed[k].id)).seaweed[k];
            w.cookingTime == 1 && w.state == Raw
  {}

  /** Serving the first customer straight after the start: the raw unit
      misses the `perfect` order, and both lists are refilled. */
  lemma ServeRawOnStart(s0: GameState, newSeaweedId: string, newCustomerId: string,
                        typeDraw: real, orderDraw: real)
    requires 0.0 <= typeDraw < 1.0 && 0.0 <= orderDraw < 1.0
    ensures var r := ServeCustomer(StartGame(s0), InitialCustomerId, SeaweedLabel(0),
                                   newSeaweedId, newCustomerId, typeDraw, orderDraw);
            && r.score == -20
            && |r.seaweed| == 3
            && r.seaweed[..2] == StartGame(s0).seaweed[1..]
            && r.seaweed[2] == Seaweed(newSeaweedId, Raw, 0)
            && r.customers == [Customer(newCustomerId, DrawType(typeDraw), DrawOrder(orderDraw), 100, 100)]
  {}

  /** Serve with an unknown id is a no-op, score included. */
  lemma ServeUnknownIsNoOp(s: GameState, customerId: string, seaweedId: string,
                           newSeaweedId: string, newCustomerId: string,
                           typeDraw: real, orderDraw: real)
    requires 0.0 <= typeDraw < 1.0 && 0.0 <= orderDraw < 1.0
    requires forall i :: 0 <= i < |s.customers| ==> s.customers[i].id != customerId
    ensures ServeCustomer(s, customerId, seaweedId, newSeaweedId, newCustomerId, typeDraw, orderDraw) == s
  {}

  /** With unique ids, a serve removes exactly the served unit and the
      served customer and keeps everyone else in their order. */
  lemma ServeRemovesExactlyServed(s: GameState, c: nat, w: nat,
                                  newSeaweedId: string, newCustomerId: string,
                                  typeDraw: real, orderDraw: real)
    requires 0.0 <= typeDraw < 1.0 && 0.0 <= orderDraw < 1.0
    requires c < |s.customers| && w < |s.seaweed|
    requires UniqueKeys(s.customers, CustomerKey) && UniqueKeys(s.seaweed, SeaweedKey)
    ensures var r := ServeCustomer(s, s.customers[c].id, s.seaweed[w].id,
                                   newSeaweedId, newCustomerId, typeDraw, orderDraw);
            && r.score == s.score + Points(s.customers[c].order, s.seaweed[w].state)
            && |r.seaweed| == (if |s.seaweed| <= SeaweedCap then |s.seaweed| else |s.seaweed| - 1)
            && |r.customers| == (if |s.customers| <= CustomerCap then |s.customers| else |s.customers| - 1)
            && r.seaweed[..|s.seaweed| - 1] == s.seaweed[..w] + s.seaweed[w + 1..]
            && r.customers[..|s.customers| - 1] == s.customers[..c] + s.customers[c + 1..]
  {
    assert SeaweedKey(s.seaweed[w]) == s.seaweed[w].id;
    assert CustomerKey(s.customers[c]) == s.customers[c].id;
    RemoveUniqueKey(s.seaweed, SeaweedKey, w);
    RemoveUniqueKey(s.customers, CustomerKey, c);
  }
}
