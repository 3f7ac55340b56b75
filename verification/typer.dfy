/**
  The input box of the `Typer` component.

  On every keyup `send` first hands the current text to the game, then
  empties the box if the text was the word on display or an end-of-round
  message is showing.  It reads its `word` and `appreciation` props, which
  the framework refreshes only after the handler has finished, so they are
  the values from before the keyup.
 */
module Typer {
  import opened Words

  /** `send`'s clearing rule: the text the box holds afterwards. */
  function Send(text: string, word: Word, appreciation: string): (kept: string)
    ensures kept == "" || kept == text
    ensures kept == "" <==> text == "" || StrictEquals(text, word) || appreciation != ""
  {
    if StrictEquals(text, word) || appreciation != "" then "" else text
  }
}
