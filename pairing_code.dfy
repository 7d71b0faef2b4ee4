/** The spoken form of a pairing code (`on_pairing_code`): each character replaced by its
    NATO word from the `codes` named values, joined by ". " and closed by ".". */
module PairingCode {
  import opened Wrappers
  import opened Text

  /** `map(self.nato_dict.get, code)`, or `None` when some character has no word (the join
      then fails on the `None` it is given). */
  function CodeWords(code: string, nato: map<char, string>): (words: Option<seq<string>>)
    ensures words.Some? <==> forall i :: 0 <= i < |code| ==> code[i] in nato
    ensures words.Some? ==> |words.value| == |code|
    ensures words.Some? ==> forall i :: 0 <= i < |code| ==> words.value[i] == nato[code[i]]
    decreases |code|
  {
    if code == [] then Some([])
    else if code[0] !in nato then None
    else match CodeWords(code[1..], nato)
      case None => None
      case Some(rest) => Some([nato[code[0]]] + rest)
  }

  /** The text spoken for the words. */
  function Spelled(words: seq<string>): string {
    Join(words, ". ") + "."
  }

  /** Reading the spoken code back: drop the final ".", split on ". ", and each piece is
      the word of one character, in order, provided no word holds a "." itself. */
  lemma SpelledCodeReadsBack(code: string, nato: map<char, string>)
    requires |code| > 0
    requires CodeWords(code, nato).Some?
    requires forall i :: 0 <= i < |code| ==> '.' !in nato[code[i]]
    ensures var s := Spelled(CodeWords(code, nato).value);
      s[|s| - 1] == '.' &&
      var pieces := Split(s[..|s| - 1], ". ");
      |pieces| == |code| && forall i :: 0 <= i < |code| ==> pieces[i] == nato[code[i]]
  {
    var words := CodeWords(code, nato).value;
    var s := Spelled(words);
    assert s[..|s| - 1] == Join(words, ". ");
    SplitJoin(words, ". ");
  }
}
