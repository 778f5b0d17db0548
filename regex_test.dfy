/** `RegExp.prototype.test` as the server uses it. The regular-expression engine
    itself is not modelled: `Searcher` stands for it and answers, for the pattern with
    the given index, where the leftmost match starting at or after a position ends.
    What is modelled is the part of `test` that the engine does not decide: a pattern
    with the `g` flag starts searching at its `lastIndex`, moves `lastIndex` to the end
    of a match, and resets it to 0 on a failure, so the same pattern object can answer
    differently for the same input on two calls. */
module RegexTest {
  import opened Wrappers

  type Searcher = (nat, string, nat) -> Option<nat>

  datatype Pattern = Pattern(source: string, flags: string) {
    predicate Global() {
      'g' in flags
    }

    /** `pattern.toString()`. */
    function Text(): string {
      "/" + source + "/" + flags
    }
  }

  datatype Tested = Tested(matched: bool, lastIndex: nat)

  /** `patterns[p].test(input)` when the pattern object's `lastIndex` is `lastIndex`. */
  function Test(search: Searcher, p: nat, pattern: Pattern, lastIndex: nat, input: string): (r: Tested)
    ensures !pattern.Global() ==> r == Tested(search(p, input, 0).Some?, lastIndex)
    ensures pattern.Global() && lastIndex > |input| ==> r == Tested(false, 0)
    ensures pattern.Global() && !r.matched ==> r.lastIndex == 0
    ensures pattern.Global() && r.matched ==> search(p, input, lastIndex) == Some(r.lastIndex)
  {
    if !pattern.Global() then Tested(search(p, input, 0).Some?, lastIndex)
    else if lastIndex > |input| then Tested(false, 0)
    else match search(p, input, lastIndex)
      case None => Tested(false, 0)
      case Some(e) => Tested(true, e)
  }

  /** A pattern without the `g` flag answers as a pure function of its input. */
  lemma NonGlobalIsStateless(search: Searcher, p: nat, pattern: Pattern, i1: nat, i2: nat, input: string)
    requires !pattern.Global()
    ensures Test(search, p, pattern, i1, input).matched == Test(search, p, pattern, i2, input).matched
  {
  }

  /** With the `g` flag the answer depends on `lastIndex`: an engine that finds a match
      from position 0 but none further on makes a second `test` of the same input fail. */
  lemma GlobalTestAlternates(input: string)
    requires |input| > 0
    ensures
      var search: Searcher := (p, s, from) => if from == 0 then Some(|s|) else None;
      var pattern := Pattern("x", "g");
      var first := Test(search, 0, pattern, 0, input);
      first.matched && !Test(search, 0, pattern, first.lastIndex, input).matched
  {
  }
}
