/**
 * Failure links and output lists (the failure and output functions of
 * Aho and Corasick), stated over plain values so that the breadth-first
 * construction can be proved one step at a time.
 *
 * `fail` holds the failure link of every state processed so far (the root
 * never gets one); `outputs[t]` is the output list of state `t`.
 */
module Failure {
  import opened Text
  import opened Trie

  /** The state's own keyword, if the string it spells is one. */
  function OwnOutput(w: String, ks: seq<String>): seq<String>
  {
    if w in ks then [w] else []
  }

  /**
   * The failure link of `t` leads from a non-root state to the state
   * spelling the longest proper suffix of its string that the trie spells,
   * and to a state whose own link (if any) is recorded too.
   */
  ghost predicate LinkOk(path: seq<String>, fail: map<nat, nat>, t: nat)
    requires |path| >= 1 && path[0] == [] && t in fail
  {
    && 1 <= t < |path|
    && fail[t] < |path|
    && (fail[t] == 0 || fail[t] in fail)
    && path[t] != []
    && path[fail[t]] == LongestSuffixIn(path[t][1..], Words(path))
  }

  /** Every recorded failure link is correct. */
  ghost predicate LinksOk(path: seq<String>, fail: map<nat, nat>)
    requires |path| >= 1 && path[0] == []
  {
    forall t :: t in fail ==> LinkOk(path, fail, t)
  }

  /** A failure link leads to a strictly shorter string. */
  lemma LinkShallower(path: seq<String>, fail: map<nat, nat>, t: nat)
    requires |path| >= 1 && path[0] == [] && LinksOk(path, fail) && t in fail
    ensures |path[fail[t]]| < |path[t]|
  {
  }

  /**
   * The list of `t` is its own keyword followed by its failure target's
   * list (links that leave the trie do not occur once LinksOk holds).
   */
  ghost predicate OutputLinked(path: seq<String>, fail: map<nat, nat>, outputs: seq<seq<String>>, ks: seq<String>, t: nat)
    requires |outputs| == |path| && t < |path|
  {
    outputs[t] == OwnOutput(path[t], ks) + (if t in fail && fail[t] < |outputs| then outputs[fail[t]] else [])
  }

  /** Every state's list is linked to its failure target's list. */
  ghost predicate OutputsLinked(path: seq<String>, fail: map<nat, nat>, outputs: seq<seq<String>>, ks: seq<String>)
  {
    && |outputs| == |path|
    && forall t :: 0 <= t < |path| ==> OutputLinked(path, fail, outputs, ks, t)
  }

  /**
   * Queue entries are distinct linked non-root states not yet expanded, and
   * every linked state is expanded or queued. A state is `expanded` once it
   * has been taken off the queue to give its children their links.
   */
  ghost predicate QueueOk(n: nat, fail: map<nat, nat>, queue: seq<nat>, expanded: set<nat>)
  {
    && (forall i :: 0 <= i < |queue| ==> 1 <= queue[i] < n && queue[i] in fail && queue[i] !in expanded)
    && NoDuplicates(queue)
    && (forall t :: t in expanded ==> t in fail)
    && (forall t :: t in fail ==> t in expanded || t in queue)
  }

  /**
   * A state has its link exactly when its parent is the root or expanded,
   * except the children of `r` along the edges in `todo`, still to be linked.
   */
  ghost predicate LinkedChildren(path: seq<String>, parent: seq<nat>, fail: map<nat, nat>,
                                 expanded: set<nat>, r: nat, todo: set<char>)
    requires |path| == |parent|
  {
    forall t :: 1 <= t < |path| && path[t] != [] ==>
      (t in fail <==> (parent[t] == 0 || parent[t] in expanded) && !(parent[t] == r && Last(path[t]) in todo))
  }

  /**
   * Queued states are `level` or `level + 1` deep, shallowest first, and
   * every state no deeper than `level` is linked.
   */
  ghost predicate Levels(path: seq<String>, fail: map<nat, nat>, queue: seq<nat>, level: nat)
    requires forall i :: 0 <= i < |queue| ==> queue[i] < |path|
  {
    && (forall i :: 0 <= i < |queue| ==> level <= |path[queue[i]]| <= level + 1)
    && (forall i, j :: 0 <= i < j < |queue| ==> |path[queue[i]]| <= |path[queue[j]]|)
    && (forall t :: 1 <= t < |path| && |path[t]| <= level ==> t in fail)
  }

  /** The state of the breadth-first pass that computes the failure links. */
  ghost predicate Bfs(path: seq<String>, parent: seq<nat>, fail: map<nat, nat>,
                      queue: seq<nat>, expanded: set<nat>, level: nat, r: nat, todo: set<char>)
    requires |path| == |parent|
  {
    && QueueOk(|path|, fail, queue, expanded)
    && LinkedChildren(path, parent, fail, expanded, r, todo)
    && Levels(path, fail, queue, level)
  }

  /** The parent of a state spells one code point less. */
  lemma ParentDepth(yes: seq<map<char, nat>>, path: seq<String>, parent: seq<nat>, t: nat)
    requires Shape(yes, path, parent) && 1 <= t < |path|
    ensures |path[parent[t]]| == |path[t]| - 1
    ensures parent[t] == 0 <==> |path[t]| == 1
  {
    RootUnique(yes, path, parent, parent[t]);
  }

  /** The target of an edge out of `r` has `r` as its parent. */
  lemma ChildOf(yes: seq<map<char, nat>>, path: seq<String>, parent: seq<nat>, r: nat, ch: char)
    requires Shape(yes, path, parent) && r < |yes| && ch in yes[r]
    ensures parent[yes[r][ch]] == r && Last(path[yes[r][ch]]) == ch
  {
    EdgeComplete(yes, path, parent, r, yes[r][ch], ch);
  }

  /** Giving the child `t` of `r` along `ch` its failure link, and appending it to the queue. */
  lemma LinkChild(yes: seq<map<char, nat>>, path: seq<String>, parent: seq<nat>, fail: map<nat, nat>,
                  outputs: seq<seq<String>>, ks: seq<String>,
                  queue: seq<nat>, expanded: set<nat>, level: nat, r: nat, todo: set<char>,
                  ch: char, failState: nat)
    requires Shape(yes, path, parent) && LinksOk(path, fail)
    requires OutputsLinked(path, fail, outputs, ks)
    requires Bfs(path, parent, fail, queue, expanded, level, r, todo)
    requires 1 <= r < |yes| && r in expanded && r in fail && |path[r]| == level
    requires ch in todo && todo <= yes[r].Keys
    requires failState < |path| && path[failState] == LongestSuffixIn(path[fail[r]] + [ch], Words(path))
    ensures var t := yes[r][ch];
            && t !in fail
            && LinksOk(path, fail[t := failState])
            && OutputsLinked(path, fail[t := failState], outputs[t := outputs[t] + outputs[failState]], ks)
            && Bfs(path, parent, fail[t := failState], queue + [t], expanded, level, r, todo - {ch})
  {
    var t := yes[r][ch];
    ChildOf(yes, path, parent, r, ch);
    assert t !in fail by {
      assert path[t] != [];
      assert (t in fail <==> (parent[t] == 0 || parent[t] in expanded) && !(parent[t] == r && Last(path[t]) in todo));
    }
    WordsPrefixClosed(yes, path, parent);
    assert LinkOk(path, fail, r);
    FailTarget(path, fail, r, t, ch, failState);
    assert failState == 0 || failState in fail by {
      assert Levels(path, fail, queue, level);
    }
    LinkChildLinks(path, fail, t, failState);
    LinkChildOutputs(path, fail, outputs, ks, t, failState);
    forall u | 1 <= u < |path| && path[u] != [] && parent[u] == r && Last(path[u]) == ch
      ensures u == t
    {
    }
    LinkChildBfs(path, parent, fail, queue, expanded, level, r, todo, ch, t, failState);
  }

  /**
   * The state reached from the failure target of `r` on `ch` spells the
   * longest proper suffix, in the trie, of the string of `r`'s child on `ch`.
   */
  lemma FailTarget(path: seq<String>, fail: map<nat, nat>, r: nat, t: nat, ch: char, failState: nat)
    requires |path| >= 1 && path[0] == [] && PrefixClosed(Words(path))
    requires r in fail && LinkOk(path, fail, r)
    requires t < |path| && path[t] == path[r] + [ch]
    requires failState < |path| && path[failState] == LongestSuffixIn(path[fail[r]] + [ch], Words(path))
    ensures path[failState] == LongestSuffixIn(path[t][1..], Words(path))
    ensures |path[failState]| < |path[t]|
    ensures failState != t
  {
    ghost var P := Words(path);
    LinkStep(path[r], ch, path[fail[r]], P);
    assert path[t][1..] == (path[r] + [ch])[1..];
  }

  lemma LinkChildLinks(path: seq<String>, fail: map<nat, nat>, t: nat, failState: nat)
    requires |path| >= 1 && path[0] == [] && LinksOk(path, fail)
    requires 1 <= t < |path| && path[t] != []
    requires failState < |path| && (failState == 0 || failState in fail)
    requires path[failState] == LongestSuffixIn(path[t][1..], Words(path))
    ensures LinksOk(path, fail[t := failState])
  {
    var fail' := fail[t := failState];
    assert LinkOk(path, fail', t);
    forall u | u in fail'
      ensures LinkOk(path, fail', u)
    {
      if u != t {
        assert LinkOk(path, fail, u);
      }
    }
  }

  lemma LinkChildOutputs(path: seq<String>, fail: map<nat, nat>, outputs: seq<seq<String>>, ks: seq<String>,
                         t: nat, failState: nat)
    requires |path| >= 1 && path[0] == [] && LinksOk(path, fail)
    requires OutputsLinked(path, fail, outputs, ks)
    requires 1 <= t < |path| && t !in fail && failState < |path| && failState != t
    ensures OutputsLinked(path, fail[t := failState], outputs[t := outputs[t] + outputs[failState]], ks)
  {
    var fail' := fail[t := failState];
    var outputs' := outputs[t := outputs[t] + outputs[failState]];
    forall u | 0 <= u < |path|
      ensures OutputLinked(path, fail', outputs', ks, u)
    {
      assert OutputLinked(path, fail, outputs, ks, u);
      if u == t {
        assert outputs'[u] == OwnOutput(path[t], ks) + outputs[failState];
      } else if u in fail {
        assert LinkOk(path, fail, u);
        assert outputs'[fail[u]] == outputs[fail[u]];
      }
    }
  }

  lemma LinkChildBfs(path: seq<String>, parent: seq<nat>, fail: map<nat, nat>,
                     queue: seq<nat>, expanded: set<nat>, level: nat, r: nat, todo: set<char>,
                     ch: char, t: nat, failState: nat)
    requires |path| == |parent|
    requires Bfs(path, parent, fail, queue, expanded, level, r, todo)
    requires (r == 0 || r in expanded) && ch in todo
    requires 1 <= t < |path| && path[t] != [] && t !in fail && |path[t]| == level + 1
    requires parent[t] == r && Last(path[t]) == ch
    requires forall u :: 1 <= u < |path| && path[u] != [] && parent[u] == r && Last(path[u]) == ch ==> u == t
    ensures Bfs(path, parent, fail[t := failState], queue + [t], expanded, level, r, todo - {ch})
  {
    PushQueue(|path|, fail, queue, expanded, t, failState);
    PushLevels(path, fail, queue, level, t, failState);
  }

  lemma PushQueue(n: nat, fail: map<nat, nat>, queue: seq<nat>, expanded: set<nat>, t: nat, failState: nat)
    requires QueueOk(n, fail, queue, expanded)
    requires 1 <= t < n && t !in fail
    ensures QueueOk(n, fail[t := failState], queue + [t], expanded)
  {
    var queue' := queue + [t];
    assert t !in queue;
    forall i, j | 0 <= i < j < |queue'|
      ensures queue'[i] != queue'[j]
    {
    }
  }

  lemma PushLevels(path: seq<String>, fail: map<nat, nat>, queue: seq<nat>, level: nat, t: nat, failState: nat)
    requires forall i :: 0 <= i < |queue| ==> queue[i] < |path|
    requires Levels(path, fail, queue, level)
    requires t < |path| && |path[t]| == level + 1
    ensures Levels(path, fail[t := failState], queue + [t], level)
  {
    var queue' := queue + [t];
    forall i, j | 0 <= i < j < |queue'|
      ensures |path[queue'[i]]| <= |path[queue'[j]]|
    {
      if j == |queue| {
        assert queue'[i] == queue[i];
      }
    }
  }

  /** Taking the next state off the queue once it is as shallow as `level`. */
  lemma Dequeue(yes: seq<map<char, nat>>, path: seq<String>, parent: seq<nat>, fail: map<nat, nat>,
                queue: seq<nat>, expanded: set<nat>, level: nat)
    requires Shape(yes, path, parent)
    requires Bfs(path, parent, fail, queue, expanded, level, 0, {})
    requires queue != [] && |path[queue[0]]| == level
    ensures 1 <= queue[0] < |yes| && queue[0] !in expanded && queue[0] in fail
    ensures Bfs(path, parent, fail, queue[1..], expanded + {queue[0]}, level, queue[0], yes[queue[0]].Keys)
  {
    var r := queue[0];
    PopQueue(|path|, fail, queue, expanded);
    forall u | 1 <= u < |path| && path[u] != [] && parent[u] == r
      ensures Last(path[u]) in yes[r].Keys
    {
    }
    PopLinkedChildren(path, parent, fail, expanded, r, yes[r].Keys);
    assert Levels(path, fail, queue[1..], level);
  }

  lemma PopQueue(n: nat, fail: map<nat, nat>, queue: seq<nat>, expanded: set<nat>)
    requires QueueOk(n, fail, queue, expanded) && queue != []
    ensures QueueOk(n, fail, queue[1..], expanded + {queue[0]})
  {
    var expanded' := expanded + {queue[0]};
    forall t | t in fail
      ensures t in expanded' || t in queue[1..]
    {
      if t !in expanded' {
        var i :| 0 <= i < |queue| && queue[i] == t;
        assert queue[1..][i - 1] == t;
      }
    }
  }

  lemma PopLinkedChildren(path: seq<String>, parent: seq<nat>, fail: map<nat, nat>,
                          expanded: set<nat>, r: nat, todo: set<char>)
    requires |path| == |parent|
    requires LinkedChildren(path, parent, fail, expanded, 0, {})
    requires r != 0 && r !in expanded
    requires forall u :: 1 <= u < |path| && path[u] != [] && parent[u] == r ==> Last(path[u]) in todo
    ensures LinkedChildren(path, parent, fail, expanded + {r}, r, todo)
  {
  }

  /** Once the queue's head is one level deeper, every state of that depth has its link. */
  lemma RaiseLevel(yes: seq<map<char, nat>>, path: seq<String>, parent: seq<nat>, fail: map<nat, nat>,
                   queue: seq<nat>, expanded: set<nat>, level: nat)
    requires Shape(yes, path, parent)
    requires Bfs(path, parent, fail, queue, expanded, level, 0, {})
    requires queue != [] && |path[queue[0]]| == level + 1
    ensures Bfs(path, parent, fail, queue, expanded, level + 1, 0, {})
  {
    forall t | 1 <= t < |path| && |path[t]| <= level + 1
      ensures t in fail
    {
      if |path[t]| == level + 1 {
        ParentDepth(yes, path, parent, t);
        if parent[t] != 0 {
          assert parent[t] !in queue;
        }
      }
    }
  }

  /** When the queue runs dry every non-root state has its failure link. */
  lemma {:induction false} AllLinked(yes: seq<map<char, nat>>, path: seq<String>, parent: seq<nat>, fail: map<nat, nat>,
                                     expanded: set<nat>, level: nat, t: nat)
    requires Shape(yes, path, parent)
    requires Bfs(path, parent, fail, [], expanded, level, 0, {})
    requires 1 <= t < |path|
    ensures t in fail
    decreases t
  {
    if parent[t] != 0 {
      AllLinked(yes, path, parent, fail, expanded, level, parent[t]);
    }
  }

  /** Once every edge of `r` is handled, `r` counts as fully expanded. */
  lemma Expanded(path: seq<String>, parent: seq<nat>, fail: map<nat, nat>,
                 queue: seq<nat>, expanded: set<nat>, level: nat, r: nat)
    requires |path| == |parent|
    requires Bfs(path, parent, fail, queue, expanded, level, r, {})
    ensures Bfs(path, parent, fail, queue, expanded, level, 0, {})
  {
  }

  /** Linking a child of the root: its failure link is the root, and its output list stays as it is. */
  lemma LinkRootChild(yes: seq<map<char, nat>>, path: seq<String>, parent: seq<nat>, fail: map<nat, nat>,
                      outputs: seq<seq<String>>, ks: seq<String>, queue: seq<nat>, todo: set<char>, ch: char)
    requires Shape(yes, path, parent) && LinksOk(path, fail)
    requires OutputsLinked(path, fail, outputs, ks)
    requires Bfs(path, parent, fail, queue, {}, 0, 0, todo)
    requires ch in todo && todo <= yes[0].Keys && [] !in ks
    ensures var t := yes[0][ch];
            && LinksOk(path, fail[t := 0])
            && OutputsLinked(path, fail[t := 0], outputs, ks)
            && Bfs(path, parent, fail[t := 0], queue + [t], {}, 0, 0, todo - {ch})
  {
    var t := yes[0][ch];
    ChildOf(yes, path, parent, 0, ch);
    assert path[t] == [ch] && path[t][1..] == [];
    assert t !in fail by {
      assert 1 <= t < |path| && path[t] != [] && Last(path[t]) in todo;
    }
    assert outputs[0] == [] by {
      assert OutputLinked(path, fail, outputs, ks, 0);
      assert 0 !in fail;
    }
    assert outputs[t] + outputs[0] == outputs[t];
    assert outputs[t := outputs[t] + outputs[0]] == outputs;
    LinkChildLinks(path, fail, t, 0);
    LinkChildOutputs(path, fail, outputs, ks, t, 0);
    forall u | 1 <= u < |path| && path[u] != [] && parent[u] == 0 && Last(path[u]) == ch
      ensures u == t
    {
    }
    LinkChildBfs(path, parent, fail, queue, {}, 0, 0, todo, ch, t, 0);
  }

  /** A linked state's list is its own keyword, if any, followed by its failure target's list. */
  lemma Unfold(path: seq<String>, fail: map<nat, nat>, outputs: seq<seq<String>>, ks: seq<String>, s: nat)
    requires |path| >= 1 && path[0] == [] && LinksOk(path, fail)
    requires OutputsLinked(path, fail, outputs, ks)
    requires s in fail
    ensures LinkOk(path, fail, s)
    ensures outputs[s] == OwnOutput(path[s], ks) + outputs[fail[s]]
    ensures |path[fail[s]]| < |path[s]|
  {
    assert LinkOk(path, fail, s);
    assert OutputLinked(path, fail, outputs, ks, s);
  }

  /** The root's list is empty: it has no link and spells the empty string, which is no keyword. */
  lemma RootOutputs(path: seq<String>, fail: map<nat, nat>, outputs: seq<seq<String>>, ks: seq<String>)
    requires |path| >= 1 && path[0] == [] && LinksOk(path, fail)
    requires OutputsLinked(path, fail, outputs, ks)
    requires [] !in ks
    ensures 0 !in fail && outputs[0] == []
  {
    assert OutputLinked(path, fail, outputs, ks, 0);
  }

  /** Once every state is linked, a state's list holds exactly the keywords that are suffixes of its string. */
  lemma {:induction false} OutputsAreSuffixKeywords(path: seq<String>, fail: map<nat, nat>, outputs: seq<seq<String>>,
                                                    ks: seq<String>, s: nat)
    requires |path| >= 1 && path[0] == [] && LinksOk(path, fail)
    requires OutputsLinked(path, fail, outputs, ks)
    requires [] !in ks && forall k :: k in ks ==> k in Words(path)
    requires s < |path| && (s == 0 || s in fail)
    ensures forall k :: k in outputs[s] <==> k in ks && IsSuffix(k, path[s])
    decreases |path[s]|
  {
    RootOutputs(path, fail, outputs, ks);
    if s != 0 {
      var f := fail[s];
      Unfold(path, fail, outputs, ks, s);
      OutputsAreSuffixKeywords(path, fail, outputs, ks, f);
      var tail := path[s][1..];
      assert IsSuffix(tail, path[s]);
      forall k
        ensures k in outputs[s] <==> k in ks && IsSuffix(k, path[s])
      {
        if k in outputs[f] {
          SuffixTransitive(k, path[f], tail);
          SuffixTransitive(k, tail, path[s]);
        }
        if k in ks && IsSuffix(k, path[s]) && k != path[s] {
          assert IsSuffix(k, tail) by {
            assert tail[|tail| - |k|..] == path[s][|path[s]| - |k|..];
          }
          SuffixOfLongest(k, tail, Words(path));
        }
      }
    }
  }

  /** A state's list is ordered longest keyword first, so no keyword occurs in it twice. */
  lemma {:induction false} OutputsLongestFirst(path: seq<String>, fail: map<nat, nat>, outputs: seq<seq<String>>,
                                               ks: seq<String>, s: nat)
    requires |path| >= 1 && path[0] == [] && LinksOk(path, fail)
    requires OutputsLinked(path, fail, outputs, ks)
    requires [] !in ks && forall k :: k in ks ==> k in Words(path)
    requires s < |path| && (s == 0 || s in fail)
    ensures forall i, j :: 0 <= i < j < |outputs[s]| ==> |outputs[s][i]| > |outputs[s][j]|
    ensures NoDuplicates(outputs[s])
    decreases |path[s]|
  {
    RootOutputs(path, fail, outputs, ks);
    if s != 0 {
      var f := fail[s];
      Unfold(path, fail, outputs, ks, s);
      OutputsLongestFirst(path, fail, outputs, ks, f);
      OutputsAreSuffixKeywords(path, fail, outputs, ks, f);
      forall k | k in outputs[f]
        ensures |k| < |path[s]|
      {
      }
      LongestFirstAfter(OwnOutput(path[s], ks), outputs[f], path[s]);
    }
  }

  /** A list of at most `w`, followed by a longest-first list of strings shorter than `w`, is longest first. */
  lemma LongestFirstAfter(own: seq<String>, rest: seq<String>, w: String)
    requires own == [] || own == [w]
    requires forall i, j :: 0 <= i < j < |rest| ==> |rest[i]| > |rest[j]|
    requires forall k :: k in rest ==> |k| < |w|
    ensures forall i, j :: 0 <= i < j < |own + rest| ==> |(own + rest)[i]| > |(own + rest)[j]|
  {
    var l := own + rest;
    forall i, j | 0 <= i < j < |l|
      ensures |l[i]| > |l[j]|
    {
      assert l[j] == rest[j - |own|];
      if i >= |own| {
        assert l[i] == rest[i - |own|];
      } else {
        assert rest[j - |own|] in rest;
      }
    }
  }

  /** The trie's edges stay inside it and the failure links recorded so far are correct. */
  ghost predicate Automaton(yes: seq<map<char, nat>>, path: seq<String>, fail: map<nat, nat>)
  {
    && |yes| == |path| >= 1 && path[0] == []
    && EdgesSpell(yes, path)
    && LinksOk(path, fail)
  }

  /**
   * The lazy transition: follow failure links from `s` until a state has
   * an edge on `c`, and take it; fall back to the root.
   */
  ghost function Transition(yes: seq<map<char, nat>>, path: seq<String>, fail: map<nat, nat>, s: nat, c: char): (r: nat)
    requires Automaton(yes, path, fail) && s < |yes| && (s == 0 || s in fail)
    ensures r < |yes|
    decreases |path[s]|
  {
    if c in yes[s] then yes[s][c]
    else if s == 0 then 0
    else
      assert LinkOk(path, fail, s);
      Transition(yes, path, fail, fail[s], c)
  }

  /** The lazy transition reaches the state spelling the longest suffix, in the trie, of path[s] + [c]. */
  lemma {:induction false} TransitionIsLongestSuffix(yes: seq<map<char, nat>>, path: seq<String>, parent: seq<nat>,
                                                     fail: map<nat, nat>, s: nat, c: char)
    requires Shape(yes, path, parent) && LinksOk(path, fail) && s < |yes| && (s == 0 || s in fail)
    ensures path[Transition(yes, path, fail, s, c)] == LongestSuffixIn(path[s] + [c], Words(path))
    decreases |path[s]|
  {
    var P := Words(path);
    WordsPrefixClosed(yes, path, parent);
    if c in yes[s] {
      assert path[yes[s][c]] in P;
    } else {
      FreshWord(yes, path, parent, s, c);
      if s == 0 {
        assert (path[s] + [c])[1..] == [];
      } else {
        assert LinkOk(path, fail, s);
        TransitionIsLongestSuffix(yes, path, parent, fail, fail[s], c);
        LongestSuffixSkip(path[s], c, P);
      }
    }
  }

  /** A code point on no edge of the trie always leads back to the root. */
  lemma {:induction false} TransitionOffAlphabet(yes: seq<map<char, nat>>, path: seq<String>, fail: map<nat, nat>, s: nat, c: char)
    requires Automaton(yes, path, fail) && s < |yes| && (s == 0 || s in fail)
    requires forall t :: 0 <= t < |yes| ==> c !in yes[t]
    ensures Transition(yes, path, fail, s, c) == 0
    decreases |path[s]|
  {
    if s != 0 {
      assert LinkOk(path, fail, s);
      TransitionOffAlphabet(yes, path, fail, fail[s], c);
    }
  }

  /**
   * The failure links and the output lists of a built trie, computed
   * breadth first: the root's children fail to the root; each child `t` of
   * a dequeued state `r` on `ch` fails to the state reached from `r`'s
   * failure target on `ch`, and its list becomes its own list followed by
   * that state's list.
   */
  method LinkAll(yes: seq<map<char, nat>>, ghost path: seq<String>, ghost parent: seq<nat>,
                 outs0: seq<seq<String>>, ghost ks: seq<String>)
    returns (fail: map<nat, nat>, outs: seq<seq<String>>)
    requires Shape(yes, path, parent) && [] !in ks
    requires |outs0| == |path| && forall t :: 0 <= t < |path| ==> outs0[t] == OwnOutput(path[t], ks)
    ensures LinksOk(path, fail) && forall t :: 1 <= t < |path| ==> t in fail
    ensures OutputsLinked(path, fail, outs, ks)
  {
    var queue;
    fail, queue := LinkRootChildren(yes, path, parent, outs0, ks);
    outs := outs0;
    ghost var expanded: set<nat> := {};
    ghost var level: nat := 0;
    while queue != []
      invariant LinksOk(path, fail) && OutputsLinked(path, fail, outs, ks)
      invariant Bfs(path, parent, fail, queue, expanded, level, 0, {})
      invariant forall t :: t in expanded ==> t < |path|
      invariant |expanded| <= |path|
      decreases |path| - |expanded|
    {
      ghost var before, r := expanded, queue[0];
      fail, outs, queue, expanded, level := ExpandNext(yes, path, parent, fail, outs, ks, queue, expanded, level);
      SizeAddOne(before, r);
      BoundedSize(expanded, |path|);
    }
    forall t | 1 <= t < |path|
      ensures t in fail
    {
      AllLinked(yes, path, parent, fail, expanded, level, t);
    }
  }

  /**
   * One round of the second pass: takes the next state `r` off the queue
   * and, unless it has no children, links and queues each of its children.
   */
  method ExpandNext(yes: seq<map<char, nat>>, ghost path: seq<String>, ghost parent: seq<nat>,
                    fail0: map<nat, nat>, outs0: seq<seq<String>>, ghost ks: seq<String>,
                    queue0: seq<nat>, ghost expanded0: set<nat>, ghost level0: nat)
    returns (fail: map<nat, nat>, outs: seq<seq<String>>, queue: seq<nat>, ghost expanded: set<nat>, ghost level: nat)
    requires Shape(yes, path, parent) && LinksOk(path, fail0) && OutputsLinked(path, fail0, outs0, ks)
    requires Bfs(path, parent, fail0, queue0, expanded0, level0, 0, {}) && queue0 != []
    ensures LinksOk(path, fail) && OutputsLinked(path, fail, outs, ks)
    ensures Bfs(path, parent, fail, queue, expanded, level, 0, {})
    ensures queue0[0] !in expanded0 && expanded == expanded0 + {queue0[0]}
    ensures forall t :: t in expanded ==> t < |path|
  {
    level := level0;
    if |path[queue0[0]]| != level {
      RaiseLevel(yes, path, parent, fail0, queue0, expanded0, level);
      level := level + 1;
    }
    Dequeue(yes, path, parent, fail0, queue0, expanded0, level);
    var r := queue0[0];
    queue := queue0[1..];
    expanded := expanded0 + {r};
    if yes[r] == map[] {
      assert yes[r].Keys == {};
      Expanded(path, parent, fail0, queue, expanded, level, r);
      fail, outs := fail0, outs0;
    } else {
      fail, outs, queue := LinkChildren(yes, path, parent, fail0, outs0, ks, queue, expanded, level, r);
    }
  }

  lemma SizeAddOne(s: set<nat>, x: nat)
    requires x !in s
    ensures |s + {x}| == |s| + 1
  {
  }

  /** A set of numbers below `n` has at most `n` elements. */
  lemma {:induction false} BoundedSize(s: set<nat>, n: nat)
    requires forall t :: t in s ==> t < n
    ensures |s| <= n
  {
    if n > 0 {
      BoundedSize(s - {n - 1}, n - 1);
    }
  }

  /** The first pass: every child of the root fails to the root and is queued. */
  method LinkRootChildren(yes: seq<map<char, nat>>, ghost path: seq<String>, ghost parent: seq<nat>,
                          ghost outs: seq<seq<String>>, ghost ks: seq<String>)
    returns (fail: map<nat, nat>, queue: seq<nat>)
    requires Shape(yes, path, parent) && [] !in ks
    requires |outs| == |path| && forall t :: 0 <= t < |path| ==> outs[t] == OwnOutput(path[t], ks)
    ensures LinksOk(path, fail) && OutputsLinked(path, fail, outs, ks)
    ensures Bfs(path, parent, fail, queue, {}, 0, 0, {})
    ensures forall t :: t in fail ==> fail[t] == 0
  {
    fail, queue := map[], [];
    var todo := yes[0].Keys;
    assert OutputsLinked(path, fail, outs, ks);
    while todo != {}
      invariant LinksOk(path, fail) && OutputsLinked(path, fail, outs, ks)
      invariant Bfs(path, parent, fail, queue, {}, 0, 0, todo)
      invariant todo <= yes[0].Keys
      invariant forall t :: t in fail ==> fail[t] == 0
      decreases todo
    {
      var ch :| ch in todo;
      var toState := yes[0][ch];
      LinkRootChild(yes, path, parent, fail, outs, ks, queue, todo, ch);
      queue := queue + [toState];
      fail := fail[toState := 0];
      todo := todo - {ch};
    }
  }

  /** Expanding the dequeued state `r`: each child gets its failure link and its full output list, and is queued. */
  method LinkChildren(yes: seq<map<char, nat>>, ghost path: seq<String>, ghost parent: seq<nat>,
                      fail0: map<nat, nat>, outs0: seq<seq<String>>, ghost ks: seq<String>,
                      queue0: seq<nat>, ghost expanded: set<nat>, ghost level: nat, r: nat)
    returns (fail: map<nat, nat>, outs: seq<seq<String>>, queue: seq<nat>)
    requires Shape(yes, path, parent) && LinksOk(path, fail0) && OutputsLinked(path, fail0, outs0, ks)
    requires 1 <= r < |yes| && r in expanded && r in fail0 && |path[r]| == level
    requires Bfs(path, parent, fail0, queue0, expanded, level, r, yes[r].Keys)
    ensures LinksOk(path, fail) && OutputsLinked(path, fail, outs, ks)
    ensures Bfs(path, parent, fail, queue, expanded, level, 0, {})
  {
    fail, outs, queue := fail0, outs0, queue0;
    var todo := yes[r].Keys;
    while todo != {}
      invariant LinksOk(path, fail) && OutputsLinked(path, fail, outs, ks)
      invariant Bfs(path, parent, fail, queue, expanded, level, r, todo)
      invariant r in fail
      invariant todo <= yes[r].Keys
      decreases todo
    {
      var ch :| ch in todo;
      var toState := yes[r][ch];
      var failState := ChaseFailure(yes, path, parent, fail, r, ch);
      LinkChild(yes, path, parent, fail, outs, ks, queue, expanded, level, r, todo, ch, failState);
      queue := queue + [toState];
      fail := fail[toState := failState];
      outs := outs[toState := outs[toState] + outs[failState]];
      todo := todo - {ch};
    }
    Expanded(path, parent, fail, queue, expanded, level, r);
  }

  /**
   * The failure target of `r`'s child on `ch`: from `r`'s own failure
   * target, follow failure links until a state has an edge on `ch`, and
   * take it; fall back to the root.
   */
  method ChaseFailure(yes: seq<map<char, nat>>, ghost path: seq<String>, ghost parent: seq<nat>,
                      fail: map<nat, nat>, r: nat, ch: char)
    returns (failState: nat)
    requires Shape(yes, path, parent) && LinksOk(path, fail) && r in fail
    ensures failState < |path|
    ensures failState == Transition(yes, path, fail, fail[r], ch)
    ensures path[failState] == LongestSuffixIn(path[fail[r]] + [ch], Words(path))
  {
    assert LinkOk(path, fail, r);
    failState := FollowLinks(yes, path, fail, fail[r], ch);
    TransitionIsLongestSuffix(yes, path, parent, fail, fail[r], ch);
  }

  /** The loop of the lazy transition: from `s`, follow failure links until a state has an edge on `ch`. */
  method FollowLinks(yes: seq<map<char, nat>>, ghost path: seq<String>, fail: map<nat, nat>, s: nat, ch: char)
    returns (r: nat)
    requires Automaton(yes, path, fail) && s < |yes| && (s == 0 || s in fail)
    ensures r == Transition(yes, path, fail, s, ch)
  {
    var state := s;
    while state != 0 && ch !in yes[state]
      invariant state < |yes| && (state == 0 || state in fail)
      invariant Transition(yes, path, fail, state, ch) == Transition(yes, path, fail, s, ch)
      decreases |path[state]|
    {
      assert LinkOk(path, fail, state);
      state := fail[state];
    }
    r := if ch in yes[state] then yes[state][ch] else 0;
  }
}
