/**
  The round state machine of the `App` component.

  The component's variables become the immutable `State` record; its three
  event handlers become pure transitions:
  - `Receive`: the `message` handler run on every keyup of the input box;
  - `Tick`: the body of the one-second interval, while it is armed;
  - `Load`: what the mount hook does once the word list has arrived.
  The interval handle is the boolean `running`; the random draw of
  `createWord` is the index `pick`.
 */
module Round {
  import opened Wrappers
  import opened Words
  import opened Appreciation

  /** Seconds granted for each word. */
  const RoundSeconds: int := 5

  /** Status shown after a correct word. */
  const CorrectNotice: string := "Correct"

  /** The component's variables: `running` stands for the armed `setInterval` handle. */
  datatype State = State(
    word: Word,
    time: int,
    starting: bool,
    score: int,
    appreciation: string,
    handle: string,
    running: bool,
    data: seq<string>
  )

  /** The variables as the component declares them, before the word list arrives. */
  function Init(): State
  {
    State(Text(""), RoundSeconds, true, 0, "", "", false, [])
  }

  /** The score `Receive` compares against: zero when the keyup opens a new round. */
  function StartScore(s: State): int
  {
    if s.starting then 0 else s.score
  }

  /** The time left when `Receive` reaches the word comparison. */
  function StartTime(s: State): int
  {
    if s.starting then RoundSeconds else s.time
  }

  /** Whether the typed text completes the current word while time is left. */
  predicate Hit(s: State, text: string)
  {
    StrictEquals(text, s.word) && StartTime(s) > 0
  }

  /**
    `receive`: clear the status messages; open a round if none is running;
    then, if the text is the word and time remains, draw a new word and score.
   */
  function Receive(s: State, text: string, pick: nat): (t: State)
    requires ValidPick(|s.data|, pick)
    ensures t.appreciation == "" && !t.starting && t.data == s.data
    ensures t.running <==> s.running || s.starting
    ensures s.starting ==> t.time == RoundSeconds && (t.score == 1 <==> StrictEquals(text, s.word)) && 0 <= t.score <= 1
    ensures Hit(s, text) ==> t.score == StartScore(s) + 1 && t.time == RoundSeconds && t.handle == CorrectNotice
    ensures Hit(s, text) ==> (t.word.Text? <==> |s.data| > 0) && (t.word.Text? ==> t.word.s in s.data)
    ensures !Hit(s, text) ==> t.word == s.word && t.score == StartScore(s) && t.time == StartTime(s) && t.handle == ""
  {
    var cleared := s.(appreciation := "", handle := "");
    var armed :=
      if cleared.starting then cleared.(score := 0, time := RoundSeconds, running := true, starting := false)
      else cleared;
    if StrictEquals(text, armed.word) && armed.time > 0 then
      armed.(word := CreateWord(armed.data, pick), handle := CorrectNotice,
             time := RoundSeconds, score := armed.score + 1)
    else
      armed
  }

  /**
    One firing of the interval: count down; below one second, cancel the
    interval, wait for a new round and show the appreciation for the score.
   */
  function Tick(s: State): (t: State)
    requires s.running
    ensures t.time == s.time - 1
    ensures t.word == s.word && t.score == s.score && t.handle == s.handle && t.data == s.data
    ensures s.time - 1 < 1 ==> !t.running && t.starting && t.appreciation == Lost(s.score)
    ensures s.time - 1 >= 1 ==> t == s.(time := s.time - 1)
  {
    var counted := s.(time := s.time - 1);
    if counted.time < 1 then
      counted.(running := false, starting := true, appreciation := Lost(counted.score))
    else
      counted
  }

  /** The mount hook once the fetched list arrives: keep it as the pool and draw the first word. */
  function Load(s: State, words: seq<string>, pick: nat): (t: State)
    requires ValidPick(|words|, pick)
    ensures t.data == words
    ensures t.word.Text? <==> |words| > 0
    ensures t.word.Text? ==> t.word.s in words
    ensures t.(word := s.word, data := s.data) == s
  {
    s.(data := words, word := CreateWord(words, pick))
  }

  /** The events that drive the component. */
  datatype Event =
    | KeyUp(text: string, pick: nat)
    | Timer
    | Loaded(words: seq<string>, pick: nat)

  /** Whether the event can occur: draws stay in range and the timer fires only while armed. */
  predicate Admissible(s: State, e: Event)
  {
    match e
    case KeyUp(_, pick) => ValidPick(|s.data|, pick)
    case Timer => s.running
    case Loaded(words, pick) => ValidPick(|words|, pick)
  }

  function Step(s: State, e: Event): State
    requires Admissible(s, e)
  {
    match e
    case KeyUp(text, pick) => Receive(s, text, pick)
    case Timer => Tick(s)
    case Loaded(words, pick) => Load(s, words, pick)
  }

  /** Apply the events in order; `None` when one of them cannot occur. */
  function Run(s: State, es: seq<Event>): Option<State>
    decreases |es|
  {
    if es == [] then Some(s)
    else if !Admissible(s, es[0]) then None
    else Run(Step(s, es[0]), es[1..])
  }

  /** What holds of every state the component can reach. */
  predicate Inv(s: State)
  {
    && 0 <= s.time <= RoundSeconds
    && s.score >= 0
    && s.running == !s.starting
    && (!s.starting ==> s.time >= 1)
    && (|s.data| > 0 ==> s.word.Text? && s.word.s in s.data)
    && (|s.data| == 0 ==> s.word == Text("") || s.word == Undefined)
    && (s.appreciation != "" ==> s.starting && s.appreciation == Lost(s.score))
    && (s.handle != "" ==> s.handle == CorrectNotice && s.score >= 1)
  }

  lemma InitInv()
    ensures Inv(Init())
  {
  }

  /** Every admissible event keeps the invariant. */
  lemma StepPreservesInv(s: State, e: Event)
    requires Inv(s) && Admissible(s, e)
    ensures Inv(Step(s, e))
  {
  }

  /** Any run of admissible events keeps the invariant. */
  lemma {:induction false} RunPreservesInv(s: State, es: seq<Event>)
    requires Inv(s)
    requires Run(s, es).Some?
    ensures Inv(Run(s, es).value)
    decreases |es|
  {
    if es != [] {
      StepPreservesInv(s, es[0]);
      RunPreservesInv(Step(s, es[0]), es[1..]);
    }
  }

  /**
    Every reachable state keeps `0 <= time <= 5`, a non-negative score, a
    running clock only with at least one second left, the word in the pool
    once the pool is non-empty, any end message equal to `Lost` of the
    current score, and "Correct" only with a score of at least one.
   */
  lemma ReachableInv(es: seq<Event>)
    requires Run(Init(), es).Some?
    ensures Inv(Run(Init(), es).value)
    ensures var t := Run(Init(), es).value; 0 <= t.time <= RoundSeconds && t.score >= 0 && (t.running ==> t.time >= 1)
  {
    InitInv();
    RunPreservesInv(Init(), es);
  }

  /**
    In a reachable state the `time > 0` guard of `receive` never rejects:
    a keyup scores exactly when the text is the word.
   */
  lemma GuardNeverRejects(s: State, text: string, pick: nat)
    requires Inv(s) && ValidPick(|s.data|, pick)
    ensures Hit(s, text) <==> StrictEquals(text, s.word)
    ensures Receive(s, text, pick).handle == CorrectNotice <==> StrictEquals(text, s.word)
  {
  }

  /**
    Once the word is `undefined` (drawn from an empty pool), no keyup
    scores: the word stays `undefined` and no "Correct" is shown.
   */
  lemma UndefinedWordNeverScores(s: State, text: string, pick: nat)
    requires Inv(s) && ValidPick(|s.data|, pick)
    requires s.word == Undefined
    ensures var t := Receive(s, text, pick);
            t.word == Undefined && t.score == StartScore(s) && t.handle == ""
  {
  }

  /** A keyup whose text is not the word changes nothing of an open round but the two messages. */
  lemma MissKeepsRound(s: State, text: string, pick: nat)
    requires !s.starting && ValidPick(|s.data|, pick)
    requires !StrictEquals(text, s.word)
    ensures Receive(s, text, pick) == s.(appreciation := "", handle := "")
  {
  }

  /** `n` firings of the interval in a row. */
  function Ticks(n: nat): (es: seq<Event>)
    ensures |es| == n
    ensures forall i :: 0 <= i < n ==> es[i] == Timer
  {
    seq(n, _ => Timer)
  }

  /** Before the last second, each firing only counts down. */
  lemma {:induction false} TicksCountDown(s: State, k: nat)
    requires Inv(s) && s.running
    requires k < s.time
    ensures Run(s, Ticks(k)) == Some(s.(time := s.time - k))
    decreases k
  {
    if k > 0 {
      var next := Tick(s);
      assert next == s.(time := s.time - 1);
      assert Ticks(k)[1..] == Ticks(k - 1);
      TicksCountDown(next, k - 1);
    }
  }

  /**
    With no keyups, an open round is lost after exactly as many firings as
    seconds remain: the clock stops and `lost` ranks the unchanged score.
    No further firing can follow until a keyup opens a new round.
   */
  lemma TicksUntilLoss(s: State)
    requires Inv(s) && s.running
    ensures Run(s, Ticks(s.time)) ==
            Some(s.(time := 0, running := false, starting := true, appreciation := Lost(s.score)))
    ensures !Admissible(Run(s, Ticks(s.time)).value, Timer)
  {
    var k := s.time - 1;
    TicksCountDown(s, k);
    assert Ticks(s.time) == Ticks(k) + [Timer];
    RunAppend(s, Ticks(k), [Timer]);
  }

  /** Running two event sequences one after the other is running their concatenation. */
  lemma {:induction false} RunAppend(s: State, xs: seq<Event>, ys: seq<Event>)
    ensures Run(s, xs + ys) ==
            (if Run(s, xs).Some? then Run(Run(s, xs).value, ys) else None)
    decreases |xs|
  {
    if xs == [] {
      assert xs + ys == ys;
    } else {
      assert (xs + ys)[0] == xs[0];
      assert (xs + ys)[1..] == xs[1..] + ys;
      if Admissible(s, xs[0]) {
        RunAppend(Step(s, xs[0]), xs[1..], ys);
      }
    }
  }

  /**
    Before the pool arrives the word is the empty string, so a keyup with an
    empty input box counts as correct and leaves the word `undefined`.
   */
  lemma EmptyKeyUpBeforeLoadScores()
    ensures Run(Init(), [KeyUp("", 0)]) ==
            Some(State(Undefined, RoundSeconds, false, 1, "", CorrectNotice, true, []))
  {
  }
}
