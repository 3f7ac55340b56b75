# Typing Speed: the round state machine

A model of the typing-speed mini-game. The game shows a word drawn from a
pool. On every keyup it compares the text in the input box with that word.
A correct word scores a point and resets the countdown to five seconds. When
the countdown runs out, the round ends with a message ranked by the score.

The model covers the logic inside the built `App` component (its
`receive` handler, the body of its one-second interval, `lost` and
`createWord`) and the input-clearing rule of the `Typer` component's `send`.

- `wrappers.dfy`, module `Wrappers`: `Option`, for event runs that get stuck.
- `words.dfy`, module `Words`: the word value `Word`, which is a string or
  `undefined`. It also holds the admissible random indices `ValidPick`,
  strict equality `StrictEquals`, and `CreateWord`.
- `appreciation.dfy`, module `Appreciation`: `Lost`, plus an independent
  definition of the tiers by counting the thresholds a score exceeds
  (`Rank`).
- `round.dfy`, module `Round`: the component's variables as the record
  `State`, and the transitions `Receive` (keyup), `Tick` (interval firing)
  and `Load` (the word list has arrived). It also has event runs `Run`, the
  invariant `Inv` of every reachable state, and the lemmas about them.
- `typer.dfy`, module `Typer`: `Send`, the clearing rule of the input box.
- `page.dfy`, module `Page`: one keyup seen by both components at once.

Modelling choices:
- The armed `setInterval` handle is the boolean `running`. A firing of the
  interval is the explicit `Timer` event, and it can occur only while
  `running` holds.
- `Math.floor(Math.random() * data.length)` is a caller-chosen `pick`. It
  satisfies `pick < |data|`, and `pick == 0` on an empty pool.
- On an empty pool `data[0]` is `undefined`, and the model keeps that as
  the word `Undefined`. The code has no "no words available" condition,
  and the model follows the code. Once the word is `undefined`, no keyup
  scores (`Round.UndefinedWordNeverScores`).
- The `time > 0` test of `receive` never rejects. In an open round the
  time is at least 1, and a keyup after the time has run out first opens a
  new round with time 5. So a correct word typed then scores 1
  (`Round.GuardNeverRejects`, `Page.KeyUpAfterLoss`). The test still
  appears in `Receive` as written.
- The code has no operation that stops the clock early: the interval is
  cleared only by the firing that ends the round (`build/bundle.js:783`).
  The model has none either.
- `send` reads its `word` and `appreciation` props before the framework
  refreshes them. So in `Page.KeyUpScreen` the box compares the text with
  the word and message from before the keyup. The props are assumed
  refreshed before the next event.
- Before the word list arrives, the word is the empty string. A keyup
  with an empty box therefore scores a point and leaves the word
  `undefined` (`Round.EmptyKeyUpBeforeLoadScores`). This is the code's
  behaviour, and the model keeps it.

## Model

| member | source | states |
|---|---|---|
| Words.CreateWord | build/bundle.js:822-825 | the drawn word is defined exactly when the pool is non-empty, and is then a member of the pool |
| Words.EveryWordCanBeDrawn | build/bundle.js:822-825 | every word of the pool is the result of some admissible random index |
| Appreciation.Lost | build/bundle.js:802-820 | the message is one of the seven tiers exactly when the score is non-negative, and is empty for a negative score |
| Appreciation.LostIsRankedTier | build/bundle.js:802-820 | for every score >= 0, `lost` returns the tier indexed by the number of thresholds (3, 7, 10, 15, 20, 30) the score exceeds |
| Appreciation.LostMonotone | build/bundle.js:803-816 | a higher score never gets a lower tier, in listing order from "You can do better" to "excuse me are you a boot" |
| Appreciation.LostBoundaries | build/bundle.js:803-816 | each threshold still gets its own tier, and one point more gets the next one |
| Appreciation.TiersDistinct | build/bundle.js:803-816 | the seven messages differ, so a message identifies its tier |
| Appreciation.LostExamples | build/bundle.js:806-816 | a score of 25 gives "hacker" and a score of 0 gives "You can do better" |
| Round.Receive | build/bundle.js:769-800 | clears both messages. A keyup that opens a round sets time to 5, arms the clock and starts from score 0, so a match on that keyup ends with score 1. A hit raises the score by exactly one, resets time to 5, shows "Correct" and draws a word from the pool. A miss keeps word, score and time |
| Round.Tick | build/bundle.js:780-787 | time goes down by exactly one. Below one second the clock stops, the game waits for a new round and the message is `lost` of the score. Otherwise nothing else changes |
| Round.Load | build/bundle.js:765-766 | the fetched list becomes the pool and the first word is drawn from it; nothing else changes |
| Round.InitInv | build/bundle.js:753-761 | the component's initial variables satisfy the invariant |
| Round.StepPreservesInv | build/bundle.js:769-800 | each keyup, firing and load keeps the invariant |
| Round.RunPreservesInv | build/bundle.js:769-800 | any run of admissible events keeps the invariant |
| Round.ReachableInv | build/bundle.js:753-800 | every reachable state has 0 <= time <= 5, score >= 0, a running clock only with time >= 1, the word in the pool once the pool is non-empty, any end message equal to `lost` of the current score, and "Correct" only with score >= 1 |
| Round.GuardNeverRejects | build/bundle.js:794 | in a reachable state the `time > 0` test passes whenever it is reached, so a keyup scores exactly when the text is the word |
| Round.MissKeepsRound | build/bundle.js:770-794 | in an open round, a keyup whose text is not the word changes only the two messages, which become empty |
| Round.TicksCountDown | build/bundle.js:780-787 | fewer firings than seconds left only lower the time by their number |
| Round.TicksUntilLoss | build/bundle.js:780-787 | with no keyups, an open round ends after exactly as many firings as seconds left: time 0, clock stopped, score kept, message `lost` of the score, and no further firing possible |
| Round.UndefinedWordNeverScores | build/bundle.js:794-799 | in a reachable state whose word is `undefined` (drawn from an empty pool), no keyup scores: the word stays `undefined`, the score is only reset when the keyup opens a round, and no "Correct" is shown |
| Round.EmptyKeyUpBeforeLoadScores | build/bundle.js:753-799 | before the pool arrives, a keyup with an empty box scores 1 and leaves the word `undefined` |
| Typer.Send | build/bundle.js:431-437 | the box is emptied exactly when the text equals the shown word or an end message is showing (an empty text stays empty); otherwise the text is kept |
| Page.Type | build/bundle.js:439-442 | typing replaces the text in the box and leaves the round state unchanged |
| Page.KeyUpScreen | build/bundle.js:431-436 | one keyup as both components see it: the game receives the box's text, and the box is emptied exactly when the text equals the word shown before the keyup or an end message was showing; a scoring keyup always empties the box. `ClearedExactlyOnCorrect` and `KeyUpAfterLoss` state the rest of its behaviour |
| Page.ClearedExactlyOnCorrect | build/bundle.js:431-437 | during a round the box is emptied exactly on the keyups that score |
| Page.KeyUpAfterLoss | build/bundle.js:431-437 | while an end message shows, a keyup opens a new round with time 5, hides the message and empties the box; the new score is 1 if the text was the word and 0 otherwise |
| Page.CatDogScenario | build/bundle.js:431-437 | with the pool ["cat", "dog"] and fixed draws, typing the shown word and releasing the key scores and empties the box; a wrong word stays in the box; after two hits the score is 2 |

## Left out

- The network fetch of the word list (`build/bundle.js:763-764`). `Load`
  takes the list as a parameter. Failure of the fetch is not modelled.
- The real-time `setInterval`/`clearInterval`. They become the `running`
  flag and the `Timer` event. Wall-clock timing between events is not
  modelled.
- `Math.random` and the floating-point index computation. They become the
  chosen index `pick`, so the uniform distribution is not modelled.
- The Svelte runtime (`build/bundle.js:4-327`): scheduling, dirty bits,
  prop propagation and lifecycle. The flush before each event is assumed.
- The view components `Word`, `Score` and `Notice`, and all DOM rendering,
  because they only display the state.
- The `answer` variable of the component. It only carries the typed text
  inside `receive`, and the model passes that text directly.
- `Load` may occur more than once in a run, although the mount hook runs
  once. This only adds runs, and the invariant is proved for all of them.
