/**
  One keyup seen by both components: the input box and the round state.

  The keyup reaches `Receive` with the box's text, and the box applies its
  clearing rule against the word and message shown before the keyup; the
  framework brings the box's props up to date before the next event.
 */
module Page {
  import opened Words
  import opened Round
  import opened Typer

  /** The round state together with the text in the input box. */
  datatype Screen = Screen(app: State, texty: string)

  /** The box holds the user's text (`input_input_handler`). */
  function Type(p: Screen, text: string): (q: Screen)
    ensures q.app == p.app && q.texty == text
  {
    p.(texty := text)
  }

  /**
    A keyup: the game receives the box's text, and the box clears or keeps
    it by comparing with the word and message from before the keyup.
   */
  function KeyUpScreen(p: Screen, pick: nat): (q: Screen)
    requires ValidPick(|p.app.data|, pick)
    ensures q.app.appreciation == "" && !q.app.starting && q.app.data == p.app.data
    ensures q.texty == "" || q.texty == p.texty
    ensures q.texty == "" <==> p.texty == "" || StrictEquals(p.texty, p.app.word) || p.app.appreciation != ""
    ensures q.app.handle == CorrectNotice ==> StrictEquals(p.texty, p.app.word) && q.texty == ""
  {
    Screen(Receive(p.app, p.texty, pick), Send(p.texty, p.app.word, p.app.appreciation))
  }

  /**
    During a round the box is emptied exactly when the keyup scored: the
    box and the game compare the same text against the same word.
   */
  lemma ClearedExactlyOnCorrect(p: Screen, pick: nat)
    requires Inv(p.app) && ValidPick(|p.app.data|, pick)
    requires p.app.appreciation == ""
    ensures var q := KeyUpScreen(p, pick);
            q.texty == (if q.app.handle == CorrectNotice then "" else p.texty)
    ensures var q := KeyUpScreen(p, pick);
            q.app.handle == CorrectNotice ==> q.app.score == StartScore(p.app) + 1
  {
  }

  /**
    While an end-of-round message shows, the next keyup opens a new round,
    hides the message and empties the box whatever was typed.
   */
  lemma KeyUpAfterLoss(p: Screen, pick: nat)
    requires Inv(p.app) && ValidPick(|p.app.data|, pick)
    requires p.app.appreciation != ""
    ensures var q := KeyUpScreen(p, pick);
            && q.texty == ""
            && q.app.appreciation == ""
            && q.app.running && q.app.time == RoundSeconds
            && q.app.score == (if StrictEquals(p.texty, p.app.word) then 1 else 0)
  {
  }

  /**
    With the pool ["cat", "dog"] and draws fixed in advance: typing the shown
    word and releasing a key scores and empties the box; a wrong word stays
    in the box; the second hit brings the score to two.
   */
  lemma CatDogScenario()
    ensures var s0 := Screen(Load(Init(), ["cat", "dog"], 0), "");
            var s1 := KeyUpScreen(Type(s0, "cat"), 1);
            var s2 := KeyUpScreen(Type(s1, "cat"), 1);
            var s3 := KeyUpScreen(Type(s2, "dog"), 0);
            && s1 == Screen(State(Text("dog"), RoundSeconds, false, 1, "", CorrectNotice, true, ["cat", "dog"]), "")
            && s2 == Screen(s1.app.(handle := ""), "cat")
            && s3 == Screen(State(Text("cat"), RoundSeconds, false, 2, "", CorrectNotice, true, ["cat", "dog"]), "")
  {
  }
}
