/**
 * The keyword trie (the goto function of Aho and Corasick) as plain values:
 * `yes[s]` maps a code point to the child of state `s`; the ghost `path[s]`
 * is the string spelled from the root to `s`; the ghost `parent[s]` is the
 * state whose edge created `s`. State 0 is the root.
 */
module Trie {
  import opened Text

  function Last(w: String): char
    requires w != []
  {
    w[|w| - 1]
  }

  /** `yes` with a new edge from `s` on `c` to `t`, and a new childless state appended. */
  function WithEdge(yes: seq<map<char, nat>>, s: nat, c: char, t: nat): (r: seq<map<char, nat>>)
    requires s < |yes|
    ensures |r| == |yes| + 1 && r[|yes|] == map[]
    ensures forall u :: 0 <= u < |yes| && u != s ==> r[u] == yes[u]
    ensures r[s] == yes[s][c := t]
  {
    var m: map<char, nat> := yes[s][c := t];
    yes[s := m] + [map[]]
  }

  /** The strings spelled by the states of a trie. */
  ghost function Words(path: seq<String>): set<String>
  {
    set s | 0 <= s < |path| :: path[s]
  }

  /** Every edge leads to a non-root state that spells one more code point. */
  ghost predicate EdgesSpell(yes: seq<map<char, nat>>, path: seq<String>)
    requires |yes| == |path|
  {
    forall s, c :: 0 <= s < |yes| && c in yes[s] ==>
      1 <= yes[s][c] < |yes| && path[yes[s][c]] == path[s] + [c]
  }

  /** Every non-root state is the target of the edge from its parent. */
  ghost predicate ParentsLinked(yes: seq<map<char, nat>>, path: seq<String>, parent: seq<nat>)
    requires |yes| == |path| == |parent|
  {
    forall t :: 1 <= t < |yes| ==>
      && parent[t] < t
      && path[t] != []
      && path[parent[t]] == path[t][..|path[t]| - 1]
      && Last(path[t]) in yes[parent[t]]
      && yes[parent[t]][Last(path[t])] == t
  }

  /** No two states spell the same string. */
  ghost predicate Distinct(path: seq<String>)
  {
    forall s, t :: 0 <= s < t < |path| ==> path[s] != path[t]
  }

  /** Well-formedness of a trie with |yes| states. */
  ghost predicate Shape(yes: seq<map<char, nat>>, path: seq<String>, parent: seq<nat>)
  {
    && |yes| == |path| == |parent| >= 1
    && path[0] == []
    && EdgesSpell(yes, path)
    && ParentsLinked(yes, path, parent)
    && Distinct(path)
  }

  /** If some state spells path[s] + [c], then `s` has an edge on `c` to that state. */
  lemma EdgeComplete(yes: seq<map<char, nat>>, path: seq<String>, parent: seq<nat>, s: nat, t: nat, c: char)
    requires Shape(yes, path, parent)
    requires s < |yes| && t < |yes| && path[t] == path[s] + [c]
    ensures c in yes[s] && yes[s][c] == t && parent[t] == s
  {
    assert t != 0;
    assert path[t][..|path[t]| - 1] == path[s];
    assert path[parent[t]] == path[s];
  }

  /** Each non-root state has exactly one incoming edge. */
  lemma IncomingEdgeUnique(yes: seq<map<char, nat>>, path: seq<String>, parent: seq<nat>,
                           s: nat, c: char, s': nat, c': char)
    requires Shape(yes, path, parent)
    requires s < |yes| && s' < |yes| && c in yes[s] && c' in yes[s']
    requires yes[s][c] == yes[s'][c']
    ensures s == s' && c == c'
  {
    var t := yes[s][c];
    assert path[s] + [c] == path[s'] + [c'];
    assert path[s] == (path[s] + [c])[..|path[s]|];
    assert path[s'] == (path[s'] + [c'])[..|path[s']|];
    assert c == (path[s] + [c])[|path[s]|];
  }

  /** The root is the only state spelling the empty string. */
  lemma RootUnique(yes: seq<map<char, nat>>, path: seq<String>, parent: seq<nat>, s: nat)
    requires Shape(yes, path, parent) && s < |yes|
    ensures path[s] == [] <==> s == 0
  {
  }

  /** The strings a trie spells are closed under taking prefixes. */
  lemma WordsPrefixClosed(yes: seq<map<char, nat>>, path: seq<String>, parent: seq<nat>)
    requires Shape(yes, path, parent)
    ensures PrefixClosed(Words(path))
  {
    assert path[0] in Words(path);
    forall w | w in Words(path) && w != []
      ensures w[..|w| - 1] in Words(path)
    {
      var t :| 0 <= t < |path| && path[t] == w;
      assert path[parent[t]] in Words(path);
    }
  }

  /** A missing edge leads to a string the trie does not spell yet. */
  lemma FreshWord(yes: seq<map<char, nat>>, path: seq<String>, parent: seq<nat>, s: nat, c: char)
    requires Shape(yes, path, parent)
    requires s < |yes| && c !in yes[s]
    ensures path[s] + [c] !in Words(path)
  {
    if path[s] + [c] in Words(path) {
      var t :| 0 <= t < |path| && path[t] == path[s] + [c];
      EdgeComplete(yes, path, parent, s, t, c);
    }
  }

  /** Adding a fresh state below `s` along a missing edge `c` keeps the trie well formed. */
  lemma AddEdge(yes: seq<map<char, nat>>, path: seq<String>, parent: seq<nat>, s: nat, c: char)
    requires Shape(yes, path, parent)
    requires s < |yes| && c !in yes[s]
    ensures Shape(WithEdge(yes, s, c, |yes|), path + [path[s] + [c]], parent + [s])
  {
    var n := |yes|;
    var w := path[s] + [c];
    forall t | 0 <= t < n
      ensures path[t] != w
    {
      if path[t] == w {
        EdgeComplete(yes, path, parent, s, t, c);
      }
    }
    AddEdgeSpells(yes, path, s, c);
    AddEdgeLinks(yes, path, parent, s, c);
  }

  lemma AddEdgeSpells(yes: seq<map<char, nat>>, path: seq<String>, s: nat, c: char)
    requires |yes| == |path| && EdgesSpell(yes, path)
    requires s < |yes| && c !in yes[s]
    ensures EdgesSpell(WithEdge(yes, s, c, |yes|), path + [path[s] + [c]])
  {
    var n := |yes|;
    var yes' := WithEdge(yes, s, c, n);
    var path' := path + [path[s] + [c]];
    forall u, d | 0 <= u < n + 1 && d in yes'[u]
      ensures 1 <= yes'[u][d] < n + 1 && path'[yes'[u][d]] == path'[u] + [d]
    {
      if u == s && d == c {
        assert yes'[u][d] == n;
      } else {
        assert u < n && d in yes[u] && yes'[u][d] == yes[u][d];
      }
    }
  }

  lemma AddEdgeLinks(yes: seq<map<char, nat>>, path: seq<String>, parent: seq<nat>, s: nat, c: char)
    requires |yes| == |path| == |parent| && ParentsLinked(yes, path, parent)
    requires s < |yes| && c !in yes[s]
    ensures ParentsLinked(WithEdge(yes, s, c, |yes|), path + [path[s] + [c]], parent + [s])
  {
    var n := |yes|;
    var yes' := WithEdge(yes, s, c, n);
    var w := path[s] + [c];
    var path' := path + [w];
    var parent' := parent + [s];
    assert w[..|w| - 1] == path[s];
    forall t | 1 <= t < n + 1
      ensures && parent'[t] < t
              && path'[t] != []
              && path'[parent'[t]] == path'[t][..|path'[t]| - 1]
              && Last(path'[t]) in yes'[parent'[t]]
              && yes'[parent'[t]][Last(path'[t])] == t
    {
      if t < n && parent[t] == s {
        assert Last(path[t]) != c;
      }
    }
  }

  /** The state reached from `s` along the edges that spell `w`, if all of them exist. */
  ghost function Walk(yes: seq<map<char, nat>>, path: seq<String>, s: nat, w: String): (r: Option<nat>)
    requires |yes| == |path| && EdgesSpell(yes, path) && s < |yes|
    ensures r.Some? ==> r.value < |yes|
    decreases |w|
  {
    if w == [] then Some(s)
    else if w[0] in yes[s] then Walk(yes, path, yes[s][w[0]], w[1..])
    else None
  }

  /** Walking `w` from `s` succeeds exactly when the trie spells path[s] + w, and ends at the state spelling it. */
  lemma {:induction false} WalkSpells(yes: seq<map<char, nat>>, path: seq<String>, parent: seq<nat>, s: nat, w: String)
    requires Shape(yes, path, parent) && s < |yes|
    ensures Walk(yes, path, s, w).Some? <==> path[s] + w in Words(path)
    ensures Walk(yes, path, s, w).Some? ==> path[Walk(yes, path, s, w).value] == path[s] + w
    decreases |w|
  {
    if w == [] {
      assert path[s] + w == path[s];
    } else if w[0] in yes[s] {
      var t := yes[s][w[0]];
      assert path[t] + w[1..] == path[s] + w by {
        assert path[t] == path[s] + [w[0]];
        assert w == [w[0]] + w[1..];
      }
      WalkSpells(yes, path, parent, t, w[1..]);
    } else {
      MissingEdge(yes, path, parent, s, w);
    }
  }

  /** Past a missing edge the trie spells nothing. */
  lemma MissingEdge(yes: seq<map<char, nat>>, path: seq<String>, parent: seq<nat>, s: nat, w: String)
    requires Shape(yes, path, parent) && s < |yes| && w != [] && w[0] !in yes[s]
    ensures path[s] + w !in Words(path)
  {
    if path[s] + w in Words(path) {
      WordsPrefixClosed(yes, path, parent);
      assert (path[s] + w)[..|path[s]| + 1] == path[s] + [w[0]];
      PrefixOfClosed(path[s] + [w[0]], path[s] + w, Words(path));
      FreshWord(yes, path, parent, s, w[0]);
    }
  }
}
