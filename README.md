# Gim Grilling Tycoon: the game session as a verified state machine

Gim Grilling Tycoon is a browser game. Seaweed (gim) units cook on a grill,
and the player serves them to a queue of customers before their patience runs
out. All of the game logic lives in one React component,
`components/game/GameContainer.tsx`. It keeps one `GameState` record and
replaces it with a new record on every interaction:

- the one-second interval tick, which runs while playing and not paused;
- the end-of-play effect, which fires when the clock reads 0;
- the start, pause, flip, serve and language buttons.

This project models that record and those transitions as pure Dafny
functions, and proves what they promise.

- `lists.dfy` (module `Lists`): the `find` and `filter` by id that both lists
  use, written once over any element type. It proves that filtering by a
  unique id removes exactly one entry and keeps the others in order.
- `game.dfy` (module `Game`): the datatypes `Seaweed`, `Customer` and
  `GameState`, and the transitions `Tick`, `EndOfPlay`, `Step` (a guarded
  tick followed by the end check), `StartGame`, `TogglePause`, `FlipSeaweed`,
  `ServeCustomer` and `ChangeLanguage`. Each has a contract saying what it
  does to every field.
- `session.dfy` (module `Session`): the page's intents as an `Event` type and
  `Run` over a sequence of them. It holds an invariant every reachable state
  keeps, and the timeline of a session that is started and left alone.

The host's nondeterminism is passed in as inputs:

- the ids built from `Date.now()` are strings given to `ServeCustomer`;
- the two `Math.random()` draws are reals in `[0, 1)`. A draw above 0.7 makes
  the new customer a VIP. `floor(3 * draw)` picks the order from
  `perfect / good / any`.

Three details of the code are modelled as written:

- **The label lags the clock by one second.** The tick computes the label
  from the time before the increment (line 95). A unit started at 0 is `raw`
  for 4 ticks, `perfect` after ticks 5 to 7, and `burnt` only from the 8th tick
  (`Session.LabelTimeline`). A reading where the label follows the new time,
  so that seven ticks burn a unit, does not match the code.
- **A flip resets the clock but not the label** (line 145). The label is
  wrong until the next tick, which makes the unit `raw` again
  (`Session.FlipThenTick`). So the label is not a function of the cooking
  time. The invariant that does hold, `Session.WellCooked`, says the label
  equals the classification of `cookingTime - 1` whenever `cookingTime >= 1`.
- **An order of `good` never matches.** The match test compares the order's
  name with the label's name (line 156). Labels are only
  `raw / perfect / burnt`, so `good` always scores −20 (`Game.Points`). The
  "Good: 50" badge on the instructions card is display text only.

## Model

| member | source | states |
|---|---|---|
| `Lists.IndexOf` | components/game/GameContainer.tsx:151-152 | the position found is the first entry with that id, or the list length when no entry has it |
| `Lists.Find` | components/game/GameContainer.tsx:151-152 | `find` returns an entry iff some entry has the id, and then it is the first such entry |
| `Lists.RemoveKey` | components/game/GameContainer.tsx:164-165 | membership only: every kept entry comes from the input and has a different id, every input entry with a different id is kept, the result is no longer than the input, and it is the identity when the id is absent (order is stated by `RemoveKeyAppend`) |
| `Lists.RemoveKeySingleton` | components/game/GameContainer.tsx:164-165 | `filter` on one entry keeps it exactly when its id differs |
| `Lists.RemoveKeyCons` | components/game/GameContainer.tsx:164-165 | `filter` decides the first entry on its own id and then filters the rest |
| `Lists.RemoveKeyAppend` | components/game/GameContainer.tsx:164-165 | `filter` distributes over concatenation, so with the singleton case it fixes the result and the surviving entries keep their input order, duplicate ids or not |
| `Lists.RemoveUniqueKey` | components/game/GameContainer.tsx:164-165 | with unique ids, filtering out the id at position k gives the list without position k, others in order, one shorter |
| `Lists.RemoveKeepsUnique` | components/game/GameContainer.tsx:164-165 | filtering keeps ids unique |
| `Lists.AppendFreshKeepsUnique` | components/game/GameContainer.tsx:168-175 | appending an entry with an absent id keeps ids unique |
| `Game.Classify` | components/game/GameContainer.tsx:95 | label is raw iff t ≤ 3, perfect iff 4 ≤ t ≤ 6, burnt iff t ≥ 7 |
| `Game.CookAll` | components/game/GameContainer.tsx:92-96 | same length and ids; each cooking time goes up by exactly 1; each label is the classification of the time before the increment |
| `Game.DecayAll` | components/game/GameContainer.tsx:97-101 | same length, ids, types and orders; patience becomes max(0, p−2), satisfaction max(0, s−1) |
| `Game.Tick` | components/game/GameContainer.tsx:89-102 | clock goes down by one and never below 0; every unit cooks (`CookAll`) and every customer decays (`DecayAll`); score, level, playing, paused and language unchanged |
| `Game.EndOfPlay` | components/game/GameContainer.tsx:108-112 | afterwards playing iff playing before and the clock is not 0; nothing else changes |
| `Game.Steps` | components/game/GameContainer.tsx:85-112 | n interval seconds: a stopped or paused session is unchanged; a running one has clock max(0, t−n) and is still running iff t−n > 0; score, level, pause flag, language and list lengths kept |
| `Game.Step` | components/game/GameContainer.tsx:85-112 | when not playing or paused, nothing changes; otherwise one tick, and the session is still playing iff the clock is not 0; score, level, pause flag and language always kept |
| `Game.SeaweedLabelsDistinct` | components/game/GameContainer.tsx:123 | `seaweed-${i}` gives different ids for different digits |
| `Game.StartingSeaweed` | components/game/GameContainer.tsx:122-126 | three units, unit i having id `seaweed-${i}` (so `seaweed-0`, `seaweed-1`, `seaweed-2`), all raw at 0, with unique ids |
| `Game.StartGame` | components/game/GameContainer.tsx:114-135 | score 0, level 1, clock 60, playing, not paused, language kept, units seaweed-0..2 raw at 0, one normal customer-1 ordering perfect at 100/100 |
| `Game.TogglePause` | components/game/GameContainer.tsx:137-139 | the pause flag flips and nothing else changes |
| `Game.ChangeLanguage` | components/game/GameContainer.tsx:199-201 | the language is set and nothing else changes |
| `Game.FlipAll` | components/game/GameContainer.tsx:144-146 | entries with the id get cooking time 0 and keep their label; other entries are unchanged |
| `Game.FlipSeaweed` | components/game/GameContainer.tsx:141-148 | only the grill changes; ids and labels kept; the clock resets exactly on matching entries; an unknown id is a no-op |
| `Game.Matches` | components/game/GameContainer.tsx:156 | an order is met iff it is `any`, or it is `perfect` and the unit is perfect; `good` is never met |
| `Game.Points` | components/game/GameContainer.tsx:155-160 | the delta is one of 100, 50 and −20: 100 iff the unit is perfect and the order is not `good`; 50 iff the order is `any` and the unit is not perfect; −20 iff the order is `good` or it is `perfect` with a non-perfect unit |
| `Game.DrawType` | components/game/GameContainer.tsx:182 | the new customer is a VIP iff the draw exceeds 0.7 |
| `Game.EveryArrivalPossible` | components/game/GameContainer.tsx:182-183 | every customer type with every order is produced by some pair of draws in [0, 1) |
| `Game.DrawOrder` | components/game/GameContainer.tsx:183 | a draw below 1/3 picks `perfect`, a draw of at least 2/3 picks `any`, so the draws in between pick `good` |
| `Game.ServeCustomer` | components/game/GameContainer.tsx:150-197 | an unknown customer or seaweed id is a no-op; otherwise the score changes by `Points` of the first matching customer and unit; each list becomes the filtered list, plus one fresh entry iff fewer than the cap (3 units, 2 customers) remain; the fresh unit is raw at 0, the fresh customer has the drawn type and order at 100/100; only score and lists change |
| `Session.Apply` | components/game/GameContainer.tsx:85-201 | which intent touches what: only start and serve move the score; only start and a timer second move the clock or end play; only start and the pause button touch the pause flag; only the toggle sets the language; only start, serve and a timer second change the queue, and only those or a flip change the grill; level stays or is reset to 1 by start |
| `Session.Run` | components/game/GameContainer.tsx:85-201 | over a sequence of intents and seconds: without start or serve the score never moves; without the toggle the language never changes |
| `Session.RunAppend` | components/game/GameContainer.tsx:85-201 | running two sequences in turn equals running their concatenation |
| `Session.InitialSatisfiesInvariant` | components/game/GameContainer.tsx:72-81 | the mounted state satisfies the session invariant |
| `Session.StartEstablishesInvariant` | components/game/GameContainer.tsx:114-135 | start from any state gives a state satisfying the invariant |
| `Session.StepKeepsInvariant` | components/game/GameContainer.tsx:85-112 | a timer step keeps the invariant: labels trail clocks, bounds of patience and satisfaction, clock in 0..60, playing only with time left, ids unique, population 0/0 or 3/1 |
| `Session.FlipKeepsInvariant` | components/game/GameContainer.tsx:141-148 | a flip keeps the invariant |
| `Session.GrillAfterServe` | components/game/GameContainer.tsx:164-175 | serving from a full grill leaves two units, the refill makes three again, ids stay unique and labels keep trailing the clocks |
| `Session.ServeKeepsInvariant` | components/game/GameContainer.tsx:150-197 | a serve with a new seaweed id not on the grill keeps the invariant |
| `Session.ApplyKeepsInvariant` | components/game/GameContainer.tsx:114-201 | every intent and every timer second keeps the invariant |
| `Session.RunKeepsInvariant` | components/game/GameContainer.tsx:85-201 | any sequence of intents and seconds with fresh new ids keeps the invariant |
| `Session.PopulationIsConstant` | components/game/GameContainer.tsx:114-187 | from mount, the grill and queue are empty iff no start has been pressed, and hold exactly 3 units and exactly 1 customer once one has, with unique ids throughout |
| `Session.ApplyKeepsStarted` | components/game/GameContainer.tsx:114-201 | a start fills the grill to 3 units and the queue to 1 customer; every other intent and every timer second keeps them full |
| `Session.RunKeepsStarted` | components/game/GameContainer.tsx:114-201 | from an invariant state that is already full, or along a trace containing a start, the grill and queue are full at the end |
| `Session.FromStartAlwaysFull` | components/game/GameContainer.tsx:114-187 | whatever fresh-id sequence follows a start, the grill holds exactly 3 units and the queue exactly 1 customer, all ids distinct |
| `Session.UnstartedStaysEmpty` | components/game/GameContainer.tsx:85-201 | without a start, an empty grill and queue stay empty: a flip, a serve or a second has nothing to act on |
| `Session.QueueAfterServe` | components/game/GameContainer.tsx:164 | serving the single queued customer leaves the filtered queue empty before the refill |
| `Session.StepNeverRaises` | components/game/GameContainer.tsx:91-101 | in a reachable state a step never raises the clock, a patience or a satisfaction, and never takes them below 0 |
| `Session.EndedSessionIsFrozen` | components/game/GameContainer.tsx:85-106 | once not playing, any number of seconds leaves the state unchanged (a corollary of the contract of `Game.Steps`) |
| `Session.PausedSessionIsFrozen` | components/game/GameContainer.tsx:85-106 | while paused, any number of seconds leaves the state unchanged (a corollary of the contract of `Game.Steps`) |
| `Session.StartIsRunning` | components/game/GameContainer.tsx:114-135 | a start gives a playing, unpaused session with its full 60-second clock, the grill of second 0 and the queue of second 0 |
| `Session.StillRunning` | components/game/GameContainer.tsx:85-112 | a session with its full 60-second clock, left alone for fewer than 60 seconds, is still playing and not paused |
| `Session.GrillAdvances` | components/game/GameContainer.tsx:92-96 | one second of play takes the untouched grill of second n to that of second n + 1 |
| `Session.QueueAdvances` | components/game/GameContainer.tsx:97-101 | one second of play takes the untouched customer of second n to that of second n + 1 |
| `Session.UntouchedGrill` | components/game/GameContainer.tsx:85-112 | n ≤ 60 seconds after a start with no input, each unit has cooked n seconds and shows the label of second n − 1 |
| `Session.UntouchedQueue` | components/game/GameContainer.tsx:85-112 | n ≤ 60 seconds after a start with no input, the one customer has patience max(0, 100 − 2n) and satisfaction 100 − n |
| `Session.UntouchedSession` | components/game/GameContainer.tsx:85-135 | n ≤ 60 seconds after start with no input: clock 60−n, playing iff n < 60, each unit has cooked n seconds and shows the label of second n−1, the customer is at max(0, 100−2n)/100−n, score 0 |
| `Session.LabelTimeline` | components/game/GameContainer.tsx:92-96 | left alone after start, units are raw iff n ≤ 4, perfect iff 5 ≤ n ≤ 7, burnt iff n ≥ 8 |
| `Session.SessionEndsAtSixty` | components/game/GameContainer.tsx:108-112 | left alone, the session has ended at second 60 and every later second leaves it as it is |
| `Session.FlipThenTick` | components/game/GameContainer.tsx:141-148 | a flip leaves the unit's label as it was; one playing second later the unit has cooked 1 second and is raw |
| `Session.ServeRawOnStart` | components/game/GameContainer.tsx:150-197 | right after start, serving seaweed-0 to customer-1 scores −20; the other two units keep their order and a fresh raw unit is third; the queue is one fresh customer |
| `Session.ServeUnknownIsNoOp` | components/game/GameContainer.tsx:151-154 | a serve naming a customer id that is not queued changes nothing, score included |
| `Session.ServeRemovesExactlyServed` | components/game/GameContainer.tsx:163-187 | with unique ids, a serve scores `Points` of the chosen pair and removes exactly those two entries; the rest keep their order; each list keeps its length iff it was at or below its cap |

## Left out

- Rendering: the JSX and the `translations` tables (lines 36-69 and 203-333) are left out. The panels `CustomerPanel.tsx`, `GrillArea.tsx`, `ScoreDisplay.tsx` and `LanguageToggle.tsx` only map state to images, colours and labels. The same holds for `app/layout.tsx` and `app/page.tsx`, so none of them is modelled. The buttons that show start only when not playing and pause only when playing are part of that rendering. So is the grill and customer area, which is rendered only while `isPlaying` (line 267): flip and serve can only be clicked during play. The modelled transitions are unguarded, like the handlers themselves, so the invariant lemmas cover a superset of the clickable sequences.
- Timing: `setInterval` and `clearInterval` are left out. So is the one-second cadence, and the partial second lost when pausing restarts the interval. `Step` treats a tick and the end-of-play effect as one atomic step, so a render between them is not modelled.
- Serve's two reads of the state are merged into one. The source finds the served customer and unit in the rendered `gameState` (lines 151-152), and so decides there whether to serve and how many points it is worth (lines 154-160). It then filters the lists and adds the points to `prev`, the latest state (lines 163-165 and 191). The model reads everything from one state, so it cannot show a serve whose ids have already left `prev`, as after a repeated click on the same pair. The source then still changes the score. It appends a fresh unit only when fewer than 3 remain (line 168), so after a refill to 3 it adds none. It appends a fresh customer whenever fewer than 2 remain (line 178), so the repeated serve leaves 2 customers queued. In the model that serve is a no-op. The population of 3 units and 1 customer (`Session.PopulationIsConstant`, `Session.FromStartAlwaysFull`) is therefore proved for the atomic serve only.
- Randomness: the draws are exact reals, not IEEE doubles. Their distribution, and so the 30 % VIP rate and the uniform order, is not modelled.
- Ids: `Date.now()` and the format `seaweed-<ms>` / `customer-<ms>` are left out. Ids are inputs. Two serves in the same millisecond could reuse an id in the source; the invariant lemmas assume the new seaweed id is not already on the grill.
- Numbers: JavaScript numbers are modelled as unbounded integers. Every value the component computes is a whole number far below 2^53.
- `level` is never advanced: `startGame` resets it to 1 (line 120) and no other transition touches it. The game-over card's `score > 0` test is display logic.
