/**
 * The deterministic variant of the matcher: after the trie and the failure
 * links are built, every transition over the keyword alphabet is computed
 * once into a table, so that the scan makes exactly one table lookup per
 * code point and never follows a failure link.
 *
 * The variant extends the lazy matcher; here it holds one (`base`) and
 * reads the trie, the failure links, the output lists and the keywords
 * from it.
 */
module DeterministicAhoCorasick {
  import opened Text
  import opened Keywords
  import opened Trie
  import opened Failure
  import opened AhoCorasick

  /**
   * The value stored when no edge is found: the failure link of `s`, or the
   * root if `s` has none. It is a state, and on the root, the only state
   * from which the chase reaches this fallback, it is the root.
   */
  function FailOrRoot(ghost path: seq<String>, fail: map<nat, nat>, s: nat): (r: nat)
    requires |path| >= 1 && path[0] == [] && LinksOk(path, fail) && s < |path|
    ensures r < |path|
    ensures s == 0 ==> r == 0
  {
    if s in fail then fail[s] else 0
  }

  /**
   * `table` has an entry exactly for each state below |yes| and each code
   * point of `chars`, and each entry is the lazy transition.
   */
  ghost predicate TableOk(yes: seq<map<char, nat>>, path: seq<String>, fail: map<nat, nat>,
                          chars: seq<char>, table: map<(nat, char), nat>)
    requires Automaton(yes, path, fail) && forall t :: 1 <= t < |yes| ==> t in fail
  {
    && (forall key :: key in table <==> key.0 < |yes| && key.1 in chars)
    && (forall key :: key in table ==> table[key] == Transition(yes, path, fail, key.0, key.1))
  }

  /**
   * Fills the transition table: for each state `r` and each code point `ch`
   * of the alphabet, follows failure links from `r` until a state has an
   * edge on `ch`, and stores its target, or else the fallback.
   */
  method FiniteStateMachine(yes: seq<map<char, nat>>, ghost path: seq<String>, fail: map<nat, nat>, chars: seq<char>)
    returns (table: map<(nat, char), nat>)
    requires Automaton(yes, path, fail) && forall t :: 1 <= t < |yes| ==> t in fail
    ensures TableOk(yes, path, fail, chars, table)
  {
    table := map[];
    var r := 0;
    while r < |yes|
      invariant r <= |yes|
      invariant forall key :: key in table <==> key.0 < r && key.1 in chars
      invariant forall key :: key in table ==> table[key] == Transition(yes, path, fail, key.0, key.1)
    {
      var j := 0;
      while j < |chars|
        invariant j <= |chars|
        invariant forall key :: key in table <==> (key.0 < r && key.1 in chars) || (key.0 == r && key.1 in chars[..j])
        invariant forall key :: key in table ==> table[key] == Transition(yes, path, fail, key.0, key.1)
      {
        var ch := chars[j];
        var state := r;
        while state != 0 && ch !in yes[state]
          invariant state < |yes| && (state == 0 || state in fail)
          invariant Transition(yes, path, fail, state, ch) == Transition(yes, path, fail, r, ch)
          decreases |path[state]|
        {
          assert LinkOk(path, fail, state);
          state := fail[state];
        }
        if ch in yes[state] {
          table := table[(r, ch) := yes[state][ch]];
        } else {
          table := table[(r, ch) := FailOrRoot(path, fail, state)];
        }
        PrefixSnoc(chars, j);
        j := j + 1;
      }
      assert chars[..j] == chars;
      r := r + 1;
    }
  }

  class DeterministicMultiStringMatcher {
    /** The lazy matcher this one extends: keywords, trie, failure links and output lists. */
    const base: MultiStringMatcher
    /** `stateMachine[(r, ch)]`: the state reached from `r` on `ch`. */
    var stateMachine: map<(nat, char), nat>

    /** The lazy matcher is fully built and the table holds its transitions over the alphabet. */
    ghost predicate Valid()
      reads this, base
    {
      && base.Valid()
      && TableOk(base.yesTransitions, base.path, base.noTransitions, base.searchChars, stateMachine)
    }

    /** Builds the lazy matcher for `keywords`, then its transition table. */
    constructor (keywords: seq<String>)
      ensures Valid()
      ensures base.searchKeywords == KeepFirst(keywords)
      ensures base.warned <==> base.searchKeywords == []
    {
      base := new MultiStringMatcher(keywords);
      stateMachine := map[];
      new;
      ComputeFiniteStateMachine();
    }

    /** Computes every transition over the alphabet into the table. */
    method ComputeFiniteStateMachine()
      requires base.Valid()
      modifies this
      ensures Valid()
    {
      stateMachine := FiniteStateMachine(base.yesTransitions, base.path, base.noTransitions, base.searchChars);
    }

    /** The next state: a table lookup, the root when the table has no entry. */
    function NextState(state: nat, ch: char): (r: nat)
      reads this, base
      requires Valid()
      ensures r < base.numStates
      ensures state < base.numStates ==> r == Transition(base.yesTransitions, base.path, base.noTransitions, state, ch)
    {
      if (state, ch) in stateMachine then
        stateMachine[(state, ch)]
      else
        if state < base.numStates then
          MissingEntry(state, ch);
          0
        else
          0
    }

    /** A pair missing from the table has a code point on no edge, so the lazy transition goes to the root too. */
    lemma MissingEntry(state: nat, ch: char)
      requires Valid() && state < base.numStates && (state, ch) !in stateMachine
      ensures Transition(base.yesTransitions, base.path, base.noTransitions, state, ch) == 0
    {
      assert ch !in base.searchChars;
      TransitionOffAlphabet(base.yesTransitions, base.path, base.noTransitions, state, ch);
    }

    /** Without keywords the alphabet is empty, so the table is empty and every lookup gives the root. */
    lemma EmptyTable()
      requires Valid() && base.searchKeywords == []
      ensures stateMachine == map[]
      ensures forall s: nat, c :: NextState(s, c) == 0
    {
      assert forall c :: c !in base.searchChars;
    }

    /** Same scan as the lazy matcher's, with one table lookup per code point. */
    method SearchIn(text: String) returns (results: seq<Match>)
      requires Valid()
      ensures results == base.Results(text)
      ensures forall m :: m in results <==> IsOccurrence(text, m, base.searchKeywords)
      ensures forall i, j :: 0 <= i < j < |results| ==> Before(results[i], results[j])
    {
      if base.searchKeywords == [] || text == [] {
        base.NothingToFind(text);
        return [];
      }
      var state := 0;
      results := [];
      var i := 0;
      while i < |text|
        invariant 0 <= i <= |text|
        invariant state == base.RunState(text[..i])
        invariant results == base.Results(text[..i])
      {
        var ch := text[i];
        state := NextState(state, ch);
        results := ReportAll(results, i, base.outputs[state]);
        base.ScanStep(text, i);
        i := i + 1;
      }
      assert text[..i] == text;
      base.ResultsAreOccurrences(text);
      base.ResultsInScanOrder(text);
    }
  }
}
