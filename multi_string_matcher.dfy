/**
 * The Aho-Corasick matcher (Aho and Corasick, "Efficient string matching:
 * an aid to bibliographic search", CACM 18(6), 1975): a keyword trie with
 * failure links, built once by the constructor and then used to find every
 * occurrence of every keyword in a text in a single left-to-right pass.
 *
 * Text and keywords are sequences of code points. State 0 is the root.
 */
module AhoCorasick {
  import opened Text
  import opened Keywords
  import opened Trie
  import opened Failure

  /** One reported occurrence: the code-point offset where it starts, and the keyword. */
  datatype Match = Match(offset: int, keyword: String)

  /** The offset just past the last code point of a match. */
  function End(m: Match): int
  {
    m.offset + |m.keyword|
  }

  /** `m` is an occurrence in `text` of one of the keywords `ks`. */
  predicate IsOccurrence(text: String, m: Match, ks: seq<String>)
  {
    && m.keyword in ks
    && 0 <= m.offset
    && End(m) <= |text|
    && text[m.offset..End(m)] == m.keyword
  }

  /** The scan's order: by end position, and at one end position longest keyword first. */
  predicate Before(a: Match, b: Match)
  {
    End(a) < End(b) || (End(a) == End(b) && a.offset < b.offset)
  }

  /** The matches reported when the code point at index `i` completes each keyword of `kws`. */
  function Emit(i: int, kws: seq<String>): (r: seq<Match>)
    ensures |r| == |kws|
    ensures forall j :: 0 <= j < |r| ==> r[j].keyword == kws[j] && End(r[j]) == i + 1
  {
    if kws == [] then []
    else Emit(i, kws[..|kws| - 1]) + [Match(i - |kws[|kws| - 1]| + 1, kws[|kws| - 1])]
  }

  /** A match reported at index `i` ends just after `i` and carries one of the listed keywords. */
  lemma {:induction false} EmitMembers(i: int, kws: seq<String>, m: Match)
    decreases |kws|
    ensures m in Emit(i, kws) <==> m.keyword in kws && End(m) == i + 1
  {
    if kws != [] {
      EmitMembers(i, kws[..|kws| - 1], m);
      assert kws == kws[..|kws| - 1] + [kws[|kws| - 1]];
    }
  }

  /** Appends a match for each keyword of `outs`, each ending at index `i`, in list order. */
  method ReportAll(results: seq<Match>, i: int, outs: seq<String>) returns (r: seq<Match>)
    ensures r == results + Emit(i, outs)
  {
    r := results;
    var j := 0;
    assert outs[..0] == [];
    while j < |outs|
      invariant 0 <= j <= |outs|
      invariant r == results + Emit(i, outs[..j])
    {
      var kw := outs[j];
      var offset := i - |kw| + 1;
      assert outs[..j + 1][..j] == outs[..j];
      r := r + [Match(offset, kw)];
      j := j + 1;
    }
    assert outs[..j] == outs;
  }

  /**
   * Reporting a list ordered longest first at index `i` after matches that
   * end no later than `i` keeps the scan's order.
   */
  lemma {:induction false} ScanOrderStep(earlier: seq<Match>, i: int, kws: seq<String>)
    requires forall m :: m in earlier ==> End(m) <= i
    requires forall a, b :: 0 <= a < b < |earlier| ==> Before(earlier[a], earlier[b])
    requires forall a, b :: 0 <= a < b < |kws| ==> |kws[a]| > |kws[b]|
    ensures forall m :: m in earlier + Emit(i, kws) ==> End(m) <= i + 1
    ensures forall a, b :: 0 <= a < b < |earlier + Emit(i, kws)| ==>
      Before((earlier + Emit(i, kws))[a], (earlier + Emit(i, kws))[b])
    decreases |kws|
  {
    if kws != [] {
      var init := kws[..|kws| - 1];
      var last := kws[|kws| - 1];
      var x := Match(i - |last| + 1, last);
      ScanOrderStep(earlier, i, init);
      var r0 := earlier + Emit(i, init);
      assert earlier + Emit(i, kws) == r0 + [x];
      forall y | y in r0
        ensures Before(y, x)
      {
        EmitMembers(i, init, y);
        if y !in earlier {
          var a :| 0 <= a < |init| && init[a] == y.keyword;
          assert |kws[a]| > |kws[|kws| - 1]|;
        }
      }
      forall a, b | 0 <= a < b < |r0 + [x]|
        ensures Before((r0 + [x])[a], (r0 + [x])[b])
      {
        if b == |r0| {
          assert (r0 + [x])[a] in r0;
        }
      }
    }
  }
  /**
   * One step of the scan: if `earlier` holds exactly the occurrences that
   * end before the last code point of `text`, and `outs` exactly the
   * keywords that are suffixes of the longest suffix of `text` in `P`,
   * then reporting `outs` at the last code point completes the occurrences of `text`.
   */
  lemma OccurrenceStep(text: String, m: Match, ks: seq<String>, earlier: seq<Match>, outs: seq<String>, P: set<String>)
    requires text != [] && [] in P
    requires forall k :: k in ks ==> k in P
    requires forall k :: k in outs <==> k in ks && IsSuffix(k, LongestSuffixIn(text, P))
    requires m in earlier <==> IsOccurrence(text[..|text| - 1], m, ks)
    ensures m in earlier + Emit(|text| - 1, outs) <==> IsOccurrence(text, m, ks)
  {
    var n := |text|;
    var u := text[..n - 1];
    var k := m.keyword;
    EmitMembers(n - 1, outs, m);
    if End(m) == n {
      assert !IsOccurrence(u, m, ks);
      if k in ks && IsSuffix(k, text) {
        SuffixOfLongest(k, text, P);
      }
      if k in outs {
        SuffixTransitive(k, LongestSuffixIn(text, P), text);
      }
    } else if End(m) < n {
      assert m !in Emit(n - 1, outs);
      if 0 <= m.offset {
        assert text[m.offset..End(m)] == u[m.offset..End(m)];
      }
    }
  }

  /**
   * The trie built from the keywords `ks` so far, with `chars` the code
   * points collected so far, each once.
   */
  ghost predicate Building(yes: seq<map<char, nat>>, path: seq<String>, parent: seq<nat>, outputs: seq<seq<String>>,
                           chars: seq<char>, ks: seq<String>, alphabet: set<char>)
  {
    && |yes| == |outputs| == |path|
    && (forall t :: 0 <= t < |path| ==> outputs[t] == OwnOutput(path[t], ks))
    && (forall w :: w in ks ==> w in Words(path))
    && NoDuplicates(chars)
    && (forall c :: c in chars <==> c in alphabet)
    && (forall s, c :: 0 <= s < |yes| && c in yes[s] ==> c in chars)
  }

  /** The code points of one more prefix of `w`. */
  lemma PrefixChars(w: String, i: nat)
    requires i < |w|
    ensures w[..i + 1] == w[..i] + [w[i]]
    ensures Chars(w[..i + 1]) == Chars(w[..i]) + {w[i]}
  {
    assert w[..i + 1] == w[..i] + [w[i]];
  }

  /** Collecting `ch`, unless already collected, keeps every code point once. */
  lemma AddChar(yes: seq<map<char, nat>>, path: seq<String>, parent: seq<nat>, outputs: seq<seq<String>>,
                chars: seq<char>, ks: seq<String>, alphabet: set<char>, ch: char)
    requires Building(yes, path, parent, outputs, chars, ks, alphabet)
    ensures Building(yes, path, parent, outputs, if ch in chars then chars else chars + [ch], ks, alphabet + {ch})
  {
  }

  /** A new state below `s` on `c` keeps the trie well formed; it is no keyword yet, so its list is empty. */
  lemma NewState(yes: seq<map<char, nat>>, path: seq<String>, parent: seq<nat>, outputs: seq<seq<String>>,
                 chars: seq<char>, ks: seq<String>, alphabet: set<char>, s: nat, c: char)
    requires Shape(yes, path, parent) && Building(yes, path, parent, outputs, chars, ks, alphabet)
    requires s < |yes| && c !in yes[s] && c in chars
    ensures Shape(WithEdge(yes, s, c, |yes|), path + [path[s] + [c]], parent + [s])
    ensures Building(WithEdge(yes, s, c, |yes|), path + [path[s] + [c]], parent + [s], outputs + [[]], chars, ks, alphabet)
  {
    AddEdge(yes, path, parent, s, c);
    FreshWord(yes, path, parent, s, c);
    var path' := path + [path[s] + [c]];
    forall w | w in ks
      ensures w in Words(path')
    {
      var t :| 0 <= t < |path| && path[t] == w;
      assert path'[t] == w;
    }
    var yes' := WithEdge(yes, s, c, |yes|);
    forall u, d | 0 <= u < |yes'| && d in yes'[u]
      ensures d in chars
    {
      if u != s || d != c {
        assert u < |yes| && d in yes[u];
      }
    }
  }

  /** Recording keyword `ks[k]` at the state that spells it extends the trie to the first k + 1 keywords. */
  lemma RecordKeyword(yes: seq<map<char, nat>>, path: seq<String>, parent: seq<nat>, outputs: seq<seq<String>>,
                      chars: seq<char>, ks: seq<String>, k: nat, s: nat)
    requires k < |ks| && NoDuplicates(ks) && Distinct(path)
    requires Building(yes, path, parent, outputs, chars, ks[..k], CharsOf(ks[..k]) + Chars(ks[k]))
    requires s < |path| && path[s] == ks[k]
    ensures Building(yes, path, parent, outputs[s := outputs[s] + [ks[k]]], chars, ks[..k + 1], CharsOf(ks[..k + 1]))
  {
    var ks' := ks[..k + 1];
    var outputs' := outputs[s := outputs[s] + [ks[k]]];
    PrefixSnoc(ks, k);
    assert ks[k] !in ks[..k];
    forall t | 0 <= t < |path|
      ensures outputs'[t] == OwnOutput(path[t], ks')
    {
      assert outputs[t] == OwnOutput(path[t], ks[..k]);
      if t != s {
        assert path[t] != ks[k];
      }
    }
    forall w | w in ks'
      ensures w in Words(path)
    {
      if w == ks[k] {
        assert path[s] == w;
      } else {
        assert w in ks[..k];
      }
    }
    CharsOfNext(ks, k);
  }

  /** Every state but the root spells a prefix of one of the keywords `ks`: the trie holds no other strings. */
  ghost predicate SpellsPrefixes(path: seq<String>, ks: seq<String>)
  {
    forall t :: 1 <= t < |path| ==> exists j :: 0 <= j < |ks| && IsPrefix(path[t], ks[j])
  }

  /** A prefix of one of the first k keywords is a prefix of one of the first k + 1. */
  lemma SpellsPrefixesNext(path: seq<String>, ks: seq<String>, k: nat)
    requires k < |ks| && SpellsPrefixes(path, ks[..k])
    ensures SpellsPrefixes(path, ks[..k + 1])
  {
    var before, after := ks[..k], ks[..k + 1];
    forall t | 1 <= t < |path|
      ensures exists j :: 0 <= j < |after| && IsPrefix(path[t], after[j])
    {
      var j :| 0 <= j < |before| && IsPrefix(path[t], before[j]);
      assert after[j] == before[j];
    }
  }

  /** A new state spelling a prefix of a keyword keeps every state a keyword prefix. */
  lemma SpellsPrefixesAdd(path: seq<String>, ks: seq<String>, u: String, j: nat)
    requires SpellsPrefixes(path, ks) && j < |ks| && IsPrefix(u, ks[j])
    ensures SpellsPrefixes(path + [u], ks)
  {
    forall t | 1 <= t < |path + [u]|
      ensures exists i :: 0 <= i < |ks| && IsPrefix((path + [u])[t], ks[i])
    {
      if t < |path| {
        assert (path + [u])[t] == path[t];
      } else {
        assert (path + [u])[t] == u;
      }
    }
  }

  /** The trie `yes`, `path` extends `yes0`, `path0`: every old state keeps its string and its edges. */
  ghost predicate Extends(yes0: seq<map<char, nat>>, path0: seq<String>, yes: seq<map<char, nat>>, path: seq<String>)
  {
    && |yes0| <= |yes|
    && |path0| <= |path| && path[..|path0|] == path0
    && forall s, c :: 0 <= s < |yes0| && c in yes0[s] ==> c in yes[s] && yes[s][c] == yes0[s][c]
  }

  /** A new state on an edge that was missing keeps the old trie's strings and edges. */
  lemma ExtendsAdd(yes0: seq<map<char, nat>>, path0: seq<String>, yes: seq<map<char, nat>>, path: seq<String>,
                   s: nat, c: char, u: String)
    requires Extends(yes0, path0, yes, path) && s < |yes| && c !in yes[s]
    ensures Extends(yes0, path0, WithEdge(yes, s, c, |yes|), path + [u])
  {
    assert (path + [u])[..|path0|] == path[..|path0|];
  }

  /** The keyword trie, its keywords and its alphabet are consistent. */
  ghost predicate TrieOk(yes: seq<map<char, nat>>, path: seq<String>, parent: seq<nat>, chars: seq<char>, ks: seq<String>)
  {
    && Shape(yes, path, parent)
    && NoDuplicates(ks) && [] !in ks
    && (forall w :: w in ks ==> w in Words(path))
    && SpellsPrefixes(path, ks)
    && NoDuplicates(chars)
    && (forall c :: c in chars <==> c in CharsOf(ks))
    && (forall s, c :: 0 <= s < |yes| && c in yes[s] ==> c in chars)
  }

  /** Once every keyword is in, the trie under construction is a consistent keyword trie. */
  lemma Built(yes: seq<map<char, nat>>, path: seq<String>, parent: seq<nat>, outputs: seq<seq<String>>,
              chars: seq<char>, ks: seq<String>)
    requires Shape(yes, path, parent) && Building(yes, path, parent, outputs, chars, ks, CharsOf(ks))
    requires SpellsPrefixes(path, ks)
    requires NoDuplicates(ks) && [] !in ks
    ensures TrieOk(yes, path, parent, chars, ks)
    ensures forall t :: 0 <= t < |path| ==> outputs[t] == OwnOutput(path[t], ks)
  {
  }

  /** The trie for keywords `ks`, built from a root-only trie by inserting each keyword in turn. */
  method BuildTrie(ks: seq<String>)
    returns (yes: seq<map<char, nat>>, outs: seq<seq<String>>, chars: seq<char>, ghost p: seq<String>, ghost par: seq<nat>)
    requires NoDuplicates(ks) && [] !in ks
    ensures TrieOk(yes, p, par, chars, ks)
    ensures |outs| == |yes|
    ensures forall t :: 0 <= t < |p| ==> outs[t] == OwnOutput(p[t], ks)
  {
    yes, outs, chars, p, par := [map[]], [[]], [], [[]], [0];
    assert ks[..0] == [];
    var k := 0;
    while k < |ks|
      invariant 0 <= k <= |ks|
      invariant Shape(yes, p, par)
      invariant Building(yes, p, par, outs, chars, ks[..k], CharsOf(ks[..k]))
      invariant SpellsPrefixes(p, ks[..k])
    {
      yes, outs, chars, p, par := InsertKeyword(yes, outs, chars, p, par, ks, k);
      k := k + 1;
    }
    assert ks[..k] == ks;
    Built(yes, p, par, outs, chars, ks);
  }

  /** Inserts keyword `ks[k]`: follows existing edges, adds the missing ones, and records the keyword where it ends. */
  method InsertKeyword(yes0: seq<map<char, nat>>, outs0: seq<seq<String>>, chars0: seq<char>,
                       ghost p0: seq<String>, ghost par0: seq<nat>, ks: seq<String>, k: nat)
    returns (yes: seq<map<char, nat>>, outs: seq<seq<String>>, chars: seq<char>, ghost p: seq<String>, ghost par: seq<nat>)
    requires k < |ks| && NoDuplicates(ks)
    requires Shape(yes0, p0, par0)
    requires Building(yes0, p0, par0, outs0, chars0, ks[..k], CharsOf(ks[..k]))
    requires SpellsPrefixes(p0, ks[..k])
    ensures Shape(yes, p, par)
    ensures Building(yes, p, par, outs, chars, ks[..k + 1], CharsOf(ks[..k + 1]))
    ensures SpellsPrefixes(p, ks[..k + 1])
    ensures Extends(yes0, p0, yes, p)
  {
    yes, outs, chars, p, par := yes0, outs0, chars0, p0, par0;
    var keyword := ks[k];
    var state: nat := 0;
    var length := |keyword|;
    var i := 0;
    assert keyword[..0] == [];
    assert CharsOf(ks[..k]) + Chars(keyword[..0]) == CharsOf(ks[..k]);
    SpellsPrefixesNext(p0, ks, k);
    PrefixSnoc(ks, k);
    while i < length
      invariant 0 <= i <= length
      invariant Shape(yes, p, par)
      invariant Building(yes, p, par, outs, chars, ks[..k], CharsOf(ks[..k]) + Chars(keyword[..i]))
      invariant state < |p| && p[state] == keyword[..i]
      invariant SpellsPrefixes(p, ks[..k + 1])
      invariant Extends(yes0, p0, yes, p)
    {
      yes, outs, chars, p, par, state := InsertChar(yes, outs, chars, p, par, ks, k, i, state, yes0, p0);
      i := i + 1;
    }
    assert keyword[..i] == keyword;
    RecordKeyword(yes, p, par, outs, chars, ks, k, state);
    outs := outs[state := outs[state] + [keyword]];
  }

  /**
   * One step of inserting `ks[k]`: from the state spelling its first i code
   * points, follows the edge on the next one, or adds it with a new state.
   */
  method InsertChar(yes0: seq<map<char, nat>>, outs0: seq<seq<String>>, chars0: seq<char>,
                    ghost p0: seq<String>, ghost par0: seq<nat>, ks: seq<String>, k: nat, i: nat, state0: nat,
                    ghost yesStart: seq<map<char, nat>>, ghost pStart: seq<String>)
    returns (yes: seq<map<char, nat>>, outs: seq<seq<String>>, chars: seq<char>, ghost p: seq<String>, ghost par: seq<nat>,
             state: nat)
    requires k < |ks| && i < |ks[k]|
    requires Shape(yes0, p0, par0)
    requires Building(yes0, p0, par0, outs0, chars0, ks[..k], CharsOf(ks[..k]) + Chars(ks[k][..i]))
    requires state0 < |p0| && p0[state0] == ks[k][..i]
    requires SpellsPrefixes(p0, ks[..k + 1])
    requires Extends(yesStart, pStart, yes0, p0)
    ensures Shape(yes, p, par)
    ensures Extends(yes0, p0, yes, p)
    ensures |p| == |p0| + (if ks[k][i] in yes0[state0] then 0 else 1)
    ensures Building(yes, p, par, outs, chars, ks[..k], CharsOf(ks[..k]) + Chars(ks[k][..i + 1]))
    ensures state < |p| && p[state] == ks[k][..i + 1]
    ensures SpellsPrefixes(p, ks[..k + 1])
    ensures Extends(yesStart, pStart, yes, p)
  {
    yes, outs, chars, p, par, state := yes0, outs0, chars0, p0, par0, state0;
    assert p[..|p0|] == p0;
    var keyword := ks[k];
    var ch := keyword[i];
    ghost var alphabet := CharsOf(ks[..k]) + Chars(keyword[..i]);
    if ch !in chars {
      chars := chars + [ch];
    }
    assert Building(yes, p, par, outs, chars, ks[..k], CharsOf(ks[..k]) + Chars(keyword[..i + 1])) by {
      PrefixChars(keyword, i);
      AddChar(yes, p, par, outs, chars0, ks[..k], alphabet, ch);
      assert alphabet + {ch} == CharsOf(ks[..k]) + Chars(keyword[..i + 1]);
    }
    PrefixSnoc(keyword, i);
    if ch in yes[state] {
      state := yes[state][ch];
    } else {
      var n := |yes|;
      NewState(yes, p, par, outs, chars, ks[..k], CharsOf(ks[..k]) + Chars(keyword[..i + 1]), state, ch);
      PrefixSnoc(ks, k);
      assert IsPrefix(keyword[..i + 1], ks[..k + 1][k]);
      SpellsPrefixesAdd(p, ks[..k + 1], keyword[..i + 1], k);
      ExtendsAdd(yesStart, pStart, yes, p, state, ch, p[state] + [ch]);
      ExtendsAdd(yes0, p0, yes, p, state, ch, p[state] + [ch]);
      yes := WithEdge(yes, state, ch, n);
      p := p + [p[state] + [ch]];
      par := par + [state];
      outs := outs + [[]];
      state := n;
    }
  }

  class MultiStringMatcher {
    /** The keywords searched for: non-empty, each once, in input order. */
    var searchKeywords: seq<String>
    /** Every code point that occurs in a keyword, each once. */
    var searchChars: seq<char>
    var numStates: nat
    /** `outputs[s]`: the keywords reported on entering state `s`. */
    var outputs: seq<seq<String>>
    /** The failure links; the root has none. */
    var noTransitions: map<nat, nat>
    /** `yesTransitions[s]`: the trie edges out of state `s`. */
    var yesTransitions: seq<map<char, nat>>
    /** Set when construction found no keyword to search for. */
    var warned: bool
    /** The string spelled from the root to each state. */
    ghost var path: seq<String>
    /** The state whose edge created each state. */
    ghost var parent: seq<nat>

    /**
     * Keeps the non-empty keywords, each at its first occurrence, and builds
     * the matcher for them; with no keyword left it only sets the warning.
     */
    constructor (keywords: seq<String>)
      ensures Valid()
      ensures searchKeywords == KeepFirst(keywords)
      ensures warned <==> searchKeywords == []
      ensures searchKeywords == [] ==> numStates == 1 && searchChars == []
    {
      var kept: seq<String> := [];
      var i := 0;
      while i < |keywords|
        invariant 0 <= i <= |keywords| && kept == KeepFirst(keywords[..i])
      {
        var keyword := keywords[i];
        assert keywords[..i + 1][..i] == keywords[..i];
        if keyword != [] && keyword !in kept {
          kept := kept + [keyword];
        }
        i := i + 1;
      }
      assert keywords[..i] == keywords;
      KeepFirstMembers(keywords);
      searchKeywords := kept;
      searchChars := [];
      numStates := 1;
      outputs := [[]];
      noTransitions := map[];
      yesTransitions := [map[]];
      path, parent := [[]], [0];
      warned := kept == [];
      new;
      if kept != [] {
        ComputeSuccessTransitions();
        ComputeFailTransitions();
      } else {
        assert OutputsLinked(path, noTransitions, outputs, searchKeywords);
      }
    }

    /** The trie, keyword list and alphabet are consistent. */
    ghost predicate TrieValid()
      reads this
    {
      && numStates == |yesTransitions| == |outputs|
      && TrieOk(yesTransitions, path, parent, searchChars, searchKeywords)
    }

    /** The trie is consistent and the failure links recorded so far are correct. */
    ghost predicate Linked()
      reads this
    {
      TrieValid() && LinksOk(path, noTransitions)
    }

    /** A fully built matcher: every non-root state is linked and every output list is closed. */
    ghost predicate Valid()
      reads this
    {
      && Linked()
      && (forall t :: 1 <= t < numStates ==> t in noTransitions)
      && OutputsLinked(path, noTransitions, outputs, searchKeywords)
    }

    /** The next state after reading `inputChar` in `currentState`. */
    method NextState(currentState: nat, inputChar: char) returns (r: nat)
      requires Linked() && currentState < numStates
      requires currentState == 0 || currentState in noTransitions
      ensures r == Transition(yesTransitions, path, noTransitions, currentState, inputChar) && r < numStates
    {
      var state := currentState;
      while state != 0 && inputChar !in yesTransitions[state]
        invariant state < numStates && (state == 0 || state in noTransitions)
        invariant Transition(yesTransitions, path, noTransitions, state, inputChar)
               == Transition(yesTransitions, path, noTransitions, currentState, inputChar)
        decreases |path[state]|
      {
        assert LinkOk(path, noTransitions, state);
        LinkShallower(path, noTransitions, state);
        state := noTransitions[state];
      }
      r := if inputChar in yesTransitions[state] then yesTransitions[state][inputChar] else 0;
    }

    /** The state reached after reading all of `text` from the root. */
    ghost function RunState(text: String): (s: nat)
      reads this
      requires Valid()
      ensures s < numStates
      decreases |text|
    {
      if text == [] then 0
      else Transition(yesTransitions, path, noTransitions, RunState(text[..|text| - 1]), text[|text| - 1])
    }

    /** After reading `text`, the state spells the longest suffix of `text` that the trie spells. */
    lemma {:induction false} RunStateIsLongestSuffix(text: String)
      requires Valid()
      ensures path[RunState(text)] == LongestSuffixIn(text, Words(path))
      decreases |text|
    {
      if text != [] {
        var u := text[..|text| - 1];
        var c := text[|text| - 1];
        LastSplit(text);
        var q := RunState(u);
        assert q == 0 || q in noTransitions;
        RunStateIsLongestSuffix(u);
        TransitionIsLongestSuffix(yesTransitions, path, parent, noTransitions, q, c);
        WordsPrefixClosed(yesTransitions, path, parent);
        LongestSuffixStep(u, c, Words(path));
      }
    }

    /** The matches the scan reports for `text`, in order. */
    ghost function Results(text: String): (r: seq<Match>)
      reads this
      requires Valid()
      ensures forall m :: m in r ==> End(m) <= |text|
      decreases |text|
    {
      if text == [] then []
      else Results(text[..|text| - 1]) + Emit(|text| - 1, outputs[RunState(text)])
    }

    /** The keywords are strings the trie spells, and none is empty. */
    lemma KeywordsInTrie()
      requires TrieValid()
      ensures [] !in searchKeywords
      ensures forall k :: k in searchKeywords ==> k in Words(path)
    {
    }

    /**
     * The trie holds exactly the prefixes of the keywords: a string is spelled
     * by some state if and only if it is empty or a prefix of a keyword, and
     * no two states spell the same string.
     */
    lemma {:induction false} TrieIsKeywordPrefixes()
      requires TrieValid()
      ensures forall w :: w in Words(path) <==>
        w == [] || exists j :: 0 <= j < |searchKeywords| && IsPrefix(w, searchKeywords[j])
      ensures numStates == |path| && Distinct(path)
    {
      WordsPrefixClosed(yesTransitions, path, parent);
      forall w | w in Words(path)
        ensures w == [] || exists j :: 0 <= j < |searchKeywords| && IsPrefix(w, searchKeywords[j])
      {
        var t :| 0 <= t < |path| && path[t] == w;
        if t != 0 {
          assert 1 <= t < |path|;
        }
      }
      forall w | w == [] || exists j :: 0 <= j < |searchKeywords| && IsPrefix(w, searchKeywords[j])
        ensures w in Words(path)
      {
        if w == [] {
          assert path[0] == w;
        } else {
          var j :| 0 <= j < |searchKeywords| && IsPrefix(w, searchKeywords[j]);
          assert searchKeywords[j] in searchKeywords;
          PrefixOfClosed(w, searchKeywords[j], Words(path));
        }
      }
    }

    /** The scan reports exactly the occurrences of the keywords in `text`. */
    lemma {:induction false} ResultsAreOccurrences(text: String)
      requires Valid()
      ensures forall m :: m in Results(text) <==> IsOccurrence(text, m, searchKeywords)
      decreases |text|
    {
      if text != [] {
        var n := |text|;
        var u := text[..n - 1];
        ResultsAreOccurrences(u);
        var q := RunState(text);
        RunStateIsLongestSuffix(text);
        KeywordsInTrie();
        assert q == 0 || q in noTransitions;
        OutputsAreSuffixKeywords(path, noTransitions, outputs, searchKeywords, q);
        assert Results(text) == Results(u) + Emit(n - 1, outputs[q]);
        forall m
          ensures m in Results(text) <==> IsOccurrence(text, m, searchKeywords)
        {
          OccurrenceStep(text, m, searchKeywords, Results(u), outputs[q], Words(path));
        }
      }
    }

    /** The scan reports matches by end position, longest first at one end position, each once. */
    lemma {:induction false} ResultsInScanOrder(text: String)
      requires Valid()
      ensures forall m :: m in Results(text) ==> End(m) <= |text|
      ensures forall i, j :: 0 <= i < j < |Results(text)| ==> Before(Results(text)[i], Results(text)[j])
      ensures NoDuplicates(Results(text))
      decreases |text|
    {
      if text != [] {
        var n := |text|;
        var u := text[..n - 1];
        ResultsInScanOrder(u);
        var q := RunState(text);
        KeywordsInTrie();
        assert q == 0 || q in noTransitions;
        OutputsLongestFirst(path, noTransitions, outputs, searchKeywords, q);
        assert Results(text) == Results(u) + Emit(n - 1, outputs[q]);
        ScanOrderStep(Results(u), n - 1, outputs[q]);
      }
    }

    /** Reading the code point at index `i` moves the scan one step on. */
    lemma ScanStep(text: String, i: nat)
      requires Valid() && i < |text|
      ensures RunState(text[..i + 1]) == Transition(yesTransitions, path, noTransitions, RunState(text[..i]), text[i])
      ensures Results(text[..i + 1]) == Results(text[..i]) + Emit(i, outputs[RunState(text[..i + 1])])
    {
      assert text[..i + 1][..i] == text[..i];
    }

    /** Without keywords, or in the empty text, the scan reports nothing. */
    lemma NothingToFind(text: String)
      requires Valid() && (searchKeywords == [] || text == [])
      ensures Results(text) == []
    {
      ResultsAreOccurrences(text);
      if Results(text) != [] {
        assert Results(text)[0] in Results(text);
        assert false;
      }
    }

    /**
     * Every non-root state has a failure link to the state spelling the
     * longest proper suffix of its string that the trie spells; the target
     * is strictly shallower, and the root for a state one code point deep.
     */
    lemma FailureLink(t: nat)
      requires Valid() && 1 <= t < numStates
      ensures t in noTransitions && noTransitions[t] < numStates
      ensures path[noTransitions[t]] == LongestSuffixIn(path[t][1..], Words(path))
      ensures |path[noTransitions[t]]| < |path[t]|
      ensures |path[t]| == 1 ==> noTransitions[t] == 0
    {
      assert LinkOk(path, noTransitions, t);
      if |path[t]| == 1 {
        assert path[t][1..] == [];
        RootUnique(yesTransitions, path, parent, noTransitions[t]);
      }
    }

    /** Walking a keyword's code points from the root ends at the state spelling it, whose list starts with that keyword. */
    lemma KeywordWalk(k: String)
      requires Valid() && k in searchKeywords
      ensures Walk(yesTransitions, path, 0, k).Some?
      ensures var t := Walk(yesTransitions, path, 0, k).value;
              path[t] == k && outputs[t] != [] && outputs[t][0] == k
    {
      WalkSpells(yesTransitions, path, parent, 0, k);
      assert path[0] + k == k;
      var t := Walk(yesTransitions, path, 0, k).value;
      assert t != 0;
      Unfold(path, noTransitions, outputs, searchKeywords, t);
    }

    /** The keywords searched for: each non-empty and listed once. */
    function GetKeywords(): (ks: seq<String>)
      reads this
      requires TrieValid()
      ensures NoDuplicates(ks) && [] !in ks
    {
      searchKeywords
    }

    /**
     * Every occurrence of every keyword in `text`, each once, ordered by
     * end position and, at one end position, longest keyword first.
     */
    method SearchIn(text: String) returns (results: seq<Match>)
      requires Valid()
      ensures results == Results(text)
      ensures forall m :: m in results <==> IsOccurrence(text, m, searchKeywords)
      ensures forall i, j :: 0 <= i < j < |results| ==> Before(results[i], results[j])
    {
      if searchKeywords == [] || text == [] {
        NothingToFind(text);
        return [];
      }
      var state := 0;
      results := [];
      var i := 0;
      while i < |text|
        invariant 0 <= i <= |text|
        invariant state == RunState(text[..i])
        invariant results == Results(text[..i])
      {
        var ch := text[i];
        state := NextState(state, ch);
        results := ReportAll(results, i, outputs[state]);
        ScanStep(text, i);
        i := i + 1;
      }
      assert text[..i] == text;
      ResultsAreOccurrences(text);
      ResultsInScanOrder(text);
    }

    /**
     * Builds the keyword trie (the goto function): walks each keyword from
     * the root, adding a new state for each missing edge, and records the
     * keyword as the output of the state where it ends.
     */
    method ComputeSuccessTransitions()
      requires NoDuplicates(searchKeywords) && [] !in searchKeywords
      requires numStates == 1 && yesTransitions == [map[]] && outputs == [[]]
      requires path == [[]] && parent == [0] && searchChars == [] && noTransitions == map[]
      modifies this
      ensures TrieValid()
      ensures searchKeywords == old(searchKeywords) && noTransitions == map[] && warned == old(warned)
      ensures forall t :: 0 <= t < numStates ==> outputs[t] == OwnOutput(path[t], searchKeywords)
    {
      var yes, outs, chars, p, par := BuildTrie(searchKeywords);
      yesTransitions, outputs, searchChars, numStates := yes, outs, chars, |yes|;
      path, parent := p, par;
    }

    /**
     * Computes the failure links breadth first: the root's children fail to
     * the root; each child `t` of a dequeued state `r` on `ch` fails to the
     * state reached from `r`'s failure target on `ch`, and inherits that
     * state's output list after its own.
     */
    method ComputeFailTransitions()
      requires TrieValid() && noTransitions == map[]
      requires forall t :: 0 <= t < numStates ==> outputs[t] == OwnOutput(path[t], searchKeywords)
      modifies this
      ensures Valid()
      ensures yesTransitions == old(yesTransitions) && numStates == old(numStates)
      ensures searchKeywords == old(searchKeywords) && searchChars == old(searchChars) && warned == old(warned)
      ensures path == old(path) && parent == old(parent)
    {
      noTransitions, outputs := LinkAll(yesTransitions, path, parent, outputs, searchKeywords);
    }
  }
}
