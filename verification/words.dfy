/**
  The word pool and the JavaScript value held in the game's `word` variable.

  `createWord` indexes the pool with `Math.floor(Math.random() * data.length)`.
  The random draw is replaced by a caller-supplied index `pick`; on an empty
  pool that expression is always 0 and `data[0]` is `undefined`, which the
  model keeps as the `Undefined` word.
 */
module Words {

  /** A JavaScript value that is either a string or `undefined`. */
  datatype Word = Undefined | Text(s: string)

  /** The indices `Math.floor(Math.random() * n)` can produce: `0 <= pick < n`, and only 0 when `n == 0`. */
  predicate ValidPick(n: nat, pick: nat)
  {
    if n == 0 then pick == 0 else pick < n
  }

  /** Strict equality `text === word` between the typed string and the word value. */
  predicate StrictEquals(text: string, w: Word)
  {
    w.Text? && w.s == text
  }

  /** `createWord`: index the pool; an index past the end reads as `undefined`. */
  function CreateWord(data: seq<string>, pick: nat): (w: Word)
    requires ValidPick(|data|, pick)
    ensures w.Text? <==> |data| > 0
    ensures w.Text? ==> w.s in data
  {
    if pick < |data| then Text(data[pick]) else Undefined
  }

  /** Every word of a non-empty pool is drawn by some admissible index, so no word is unreachable. */
  lemma EveryWordCanBeDrawn(data: seq<string>, w: string)
    requires w in data
    ensures exists pick: nat :: ValidPick(|data|, pick) && CreateWord(data, pick) == Text(w)
  {
    var pick :| 0 <= pick < |data| && data[pick] == w;
    assert ValidPick(|data|, pick) && CreateWord(data, pick) == Text(w);
  }
}
