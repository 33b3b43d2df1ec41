# Aho-Corasick multi-keyword matcher, modelled in Dafny

This project models the core of the `AhoCorasick` PHP library: the
multi-keyword string matcher of Aho and Corasick ("Efficient string
matching: an aid to bibliographic search", CACM 18(6), 1975), in the lazy
form (`MultiStringMatcher`) and the deterministic form
(`DeterministicMultiStringMatcher`).

- `keywords.dfy` (module `Keywords`): the constructor's keyword filter.
  Empty keywords are dropped, and only the first occurrence of each keyword
  is kept, in input order.
- `trie.dfy` (module `Trie`): the keyword trie, that is, the goto function.
  State `s` has the edge map `yes[s]`. It carries the ghost string `path[s]`
  spelled from the root and the ghost `parent[s]`.
- `multi_string_matcher.dfy` (module `AhoCorasick`): the class
  `MultiStringMatcher`. It holds the constructor, trie building (`BuildTrie`,
  `InsertKeyword`), the lazy `NextState` loop and the `SearchIn` scan.
  `Results(text)` specifies the scan. It is proved to report exactly the
  keyword occurrences in `text`, each once, by end position, and longest
  first at one end position.
- `failure.dfy` (module `Failure`) covers the failure links and output
  lists:
  - the breadth-first pass (`LinkAll` and its parts), with the BFS queue
    invariants;
  - the lazy transition function `Transition`;
  - the facts about output lists.
- `deterministic_multi_string_matcher.dfy` (module
  `DeterministicAhoCorasick`) holds the full transition table:
  - it has an entry for each state and each alphabet code point, and each
    entry equals the lazy transition;
  - lookup defaults to the root;
  - the scan built on it gives the same results as the lazy matcher.
- `text.dfy` (module `Text`) holds the suffix facts behind the
  construction. `LongestSuffixIn(w, P)` is the longest suffix of `w` in a
  prefix-closed set of strings `P`. A failure link, a transition and the
  scan state are each specified as a longest suffix of this kind.

Text and keywords are sequences of Unicode code points. Offsets count code
points.

## Model

| member | source | states |
|---|---|---|
| Keywords.KeepFirst | src/MultiStringMatcher.php:80-84 | the filter keeps at most as many keywords as it is given, and every kept keyword is a non-empty input keyword |
| Keywords.KeepFirstMembers | src/MultiStringMatcher.php:80-84 | the kept keywords are exactly the non-empty input keywords, each listed once |
| Keywords.KeepFirstOrder | src/MultiStringMatcher.php:80-84 | kept keywords appear in the order of their first occurrence in the input |
| Keywords.KeepFirstOfDistinct | src/MultiStringMatcher.php:80-84 | an input of distinct non-empty keywords is kept unchanged |
| AhoCorasick.MultiStringMatcher.constructor | src/MultiStringMatcher.php:79-93 | the matcher is fully built for `KeepFirst(keywords)`: its trie spells each kept keyword, every non-root state spells a prefix of a kept keyword, no two states spell the same string, and every state has its failure link and linked list; the warning is raised exactly when no keyword is left, and then the machine is the root alone with an empty alphabet |
| AhoCorasick.MultiStringMatcher.GetKeywords | src/MultiStringMatcher.php:101-103 | the keywords returned are non-empty and distinct (the constructor states they are `KeepFirst` of the input) |
| AhoCorasick.BuildTrie | src/MultiStringMatcher.php:175-195 | the trie is well formed: each edge leads to a state in `[1, n)` that spells one more code point, and states spell distinct strings; each keyword is spelled by a state, and every non-root state spells a prefix of some keyword; the alphabet lists each code point of the keywords exactly once; a state's list is its own keyword, if any |
| AhoCorasick.InsertKeyword | src/MultiStringMatcher.php:176-194 | inserting keyword `k` keeps the trie well formed, extends the spelled strings and the alphabet to the first `k + 1` keywords, and records the keyword at the state spelling it; every non-root state spells a prefix of one of the first `k + 1` keywords, and every old state keeps its string and its edges (`Extends`) |
| AhoCorasick.InsertChar | src/MultiStringMatcher.php:181-190 | one step along the keyword: from the state spelling its first `i` code points, the next state spells the first `i + 1`; the code point joins the alphabet once; exactly one new state is added when the edge is missing and none when it exists, and it spells a keyword prefix; every state of the step's input keeps its string and its edges |
| AhoCorasick.MultiStringMatcher.ComputeSuccessTransitions | src/MultiStringMatcher.php:175-195 | from the root-only machine, stores the trie that `BuildTrie` proves well formed: every keyword spelled, only keyword prefixes spelled, the alphabet, and each state's own keyword as its list; the keywords, failure links and warning are unchanged |
| AhoCorasick.MultiStringMatcher.TrieIsKeywordPrefixes | src/MultiStringMatcher.php:175-195 | the trie holds exactly the keyword prefixes: a string is spelled by a state if and only if it is empty or a prefix of a keyword, and there is one state per spelled string |
| AhoCorasick.NewState | src/MultiStringMatcher.php:187-190 | a missing edge gets the next state id, `|yes|`; the new state has an empty list, and the trie stays well formed |
| AhoCorasick.RecordKeyword | src/MultiStringMatcher.php:193 | appending the keyword to the list of the state spelling it makes every list equal to that state's own keyword for the longer keyword prefix |
| Trie.WithEdge | src/MultiStringMatcher.php:188-189 | the new edge from `s` goes to `t`, one empty state is appended, and every other state's edges are unchanged |
| Trie.AddEdge | src/MultiStringMatcher.php:185-190 | adding a state along a missing edge keeps the trie well formed |
| Trie.IncomingEdgeUnique | src/MultiStringMatcher.php:185-190 | no state has two incoming edges |
| Trie.EdgeComplete | src/MultiStringMatcher.php:185-190 | if a state spells `path[s] + [c]`, then the edge from `s` on `c` leads to it |
| Trie.WalkSpells | src/MultiStringMatcher.php:180-191 | following edges along `w` from `s` succeeds exactly when the trie spells `path[s] + w`, and it ends at the state spelling that string |
| AhoCorasick.MultiStringMatcher.KeywordWalk | src/MultiStringMatcher.php:176-193 | walking a keyword from the root ends at the state spelling it, and that state's list starts with the keyword |
| AhoCorasick.MultiStringMatcher.ComputeFailTransitions | src/MultiStringMatcher.php:206-239 | from the built trie with no links, stores the links and lists that `LinkAll` proves correct, so the matcher is valid; the trie, keywords, alphabet and warning are unchanged |
| Failure.LinkAll | src/MultiStringMatcher.php:206-239 | after the pass, every non-root state has a correct failure link, and every list is the state's own keyword followed by its failure target's list |
| Failure.LinkRootChildren | src/MultiStringMatcher.php:207-213 | every child of the root fails to the root and is queued, and the BFS invariant holds |
| Failure.ExpandNext | src/MultiStringMatcher.php:215-236 | one dequeue-and-expand round keeps the links correct, the lists linked and the BFS invariant, and marks exactly the dequeued state as expanded |
| Failure.LinkChildren | src/MultiStringMatcher.php:219-235 | each child of the dequeued state gets its link and its merged list and is queued |
| Failure.ChaseFailure | src/MultiStringMatcher.php:221-228 | the failure target of `r`'s child on `ch` is the lazy transition from `r`'s failure target, and it spells the longest suffix in the trie of `path[fail[r]] + [ch]` |
| Failure.FollowLinks | src/MultiStringMatcher.php:221-228 | the chase loop (follow failure links until a state has an edge on `ch`, take it, else the root) computes the lazy transition |
| Failure.LinkChild | src/MultiStringMatcher.php:219-234 | linking one child keeps every link correct, every list linked and the BFS invariant |
| Failure.LinkRootChild | src/MultiStringMatcher.php:208-212 | linking a root child to the root leaves its list as it is and keeps the invariants |
| Failure.FailTarget | src/MultiStringMatcher.php:221-229 | the state found from `r`'s failure target spells the longest proper suffix in the trie of the child's string, and that suffix is strictly shorter |
| Failure.Dequeue | src/MultiStringMatcher.php:215 | the head of the queue is a linked, not yet expanded, non-root state, and all its edges are still to be handled |
| Failure.RaiseLevel | src/MultiStringMatcher.php:215-220 | once the queue's head is one level deeper, every state at that depth is linked |
| Failure.AllLinked | src/MultiStringMatcher.php:215-236 | when the queue is empty, every non-root state has a failure link |
| AhoCorasick.MultiStringMatcher.FailureLink | src/MultiStringMatcher.php:207-229 | each non-root state fails to the state spelling the longest proper suffix in the trie of its string; that state is strictly shallower, and it is the root for a state one code point deep |
| Failure.OutputsAreSuffixKeywords | src/MultiStringMatcher.php:230-234 | a state's list holds exactly the keywords that are suffixes of its string |
| Failure.OutputsLongestFirst | src/MultiStringMatcher.php:230-234 | a state's list is strictly longest-first, so each keyword appears once |
| Failure.Unfold | src/MultiStringMatcher.php:229-234 | a linked state's list is its own keyword followed by its failure target's list, and the target is shallower |
| Failure.RootOutputs | src/MultiStringMatcher.php:211 | the root has no failure link and an empty list |
| Failure.Transition | src/MultiStringMatcher.php:115-124 | the lazy transition (follow failure links until an edge on `c`, else the root) terminates on the depth measure, and its result is a state |
| Failure.TransitionIsLongestSuffix | src/MultiStringMatcher.php:115-124 | the lazy transition reaches the state spelling the longest suffix in the trie of `path[s] + [c]` |
| Failure.TransitionOffAlphabet | src/MultiStringMatcher.php:115-124 | a code point on no edge always leads to the root |
| AhoCorasick.MultiStringMatcher.NextState | src/MultiStringMatcher.php:115-124 | the loop computes the lazy transition, a state in `[0, numStates)` |
| AhoCorasick.MultiStringMatcher.RunState | src/MultiStringMatcher.php:150-152 | the state after reading `text` one code point at a time with the lazy transition is a state of the machine |
| AhoCorasick.MultiStringMatcher.Results | src/MultiStringMatcher.php:150-159 | the scan's report: at each index, the list of the state reached there; every reported match ends within the text |
| AhoCorasick.MultiStringMatcher.RunStateIsLongestSuffix | src/MultiStringMatcher.php:146-152 | after reading `text`, the scan is in the state spelling the longest suffix of `text` that the trie spells |
| Text.LongestSuffixStep | src/MultiStringMatcher.php:116-123 | the longest suffix in the trie of `u + [c]` can be computed from the longest suffix of `u` |
| Text.LinkStep | src/MultiStringMatcher.php:221-229 | a child's longest proper suffix is found by extending its parent's failure target, and it is strictly shorter |
| Text.SuffixOfLongest | src/MultiStringMatcher.php:116-123 | every suffix of `w` in the trie is a suffix of, and no longer than, the longest one |
| AhoCorasick.Emit | src/MultiStringMatcher.php:154-157 | one match per listed keyword, in list order, carrying that keyword and ending just after index `i` |
| AhoCorasick.EmitMembers | src/MultiStringMatcher.php:154-157 | the matches reported at index `i` are exactly the listed keywords, each ending just after `i` |
| AhoCorasick.ReportAll | src/MultiStringMatcher.php:153-158 | the loop appends one match `(i - |kw| + 1, kw)` for each keyword of the list, in list order |
| AhoCorasick.ScanOrderStep | src/MultiStringMatcher.php:150-159 | appending the matches of one index, longest first, after earlier matches keeps the scan order and adds no duplicate |
| AhoCorasick.MultiStringMatcher.ResultsAreOccurrences | src/MultiStringMatcher.php:150-159 | a match is reported exactly when its keyword occurs in the text at its offset (soundness and completeness) |
| AhoCorasick.MultiStringMatcher.ResultsInScanOrder | src/MultiStringMatcher.php:150-159 | reported matches end within the text, are ordered by end position and then longest first, and none is reported twice |
| AhoCorasick.MultiStringMatcher.NothingToFind | src/MultiStringMatcher.php:141-144 | with no keyword, or with the empty text, the result is empty |
| AhoCorasick.MultiStringMatcher.SearchIn | src/MultiStringMatcher.php:141-162 | the scan returns exactly the occurrences of the keywords, each once, by end position and longest first |
| DeterministicAhoCorasick.FiniteStateMachine | src/DeterministicMultiStringMatcher.php:72-87 | the table has an entry exactly for each state and each alphabet code point, and each entry is the lazy transition; in particular the fallback branch stores the root |
| DeterministicAhoCorasick.FailOrRoot | src/DeterministicMultiStringMatcher.php:82-83 | the fallback value is a state, and on the root, the only state from which the chase reaches the fallback branch, it is the root (0) |
| DeterministicAhoCorasick.DeterministicMultiStringMatcher.ComputeFiniteStateMachine | src/DeterministicMultiStringMatcher.php:72-87 | from a fully built lazy matcher, stores a table with an entry exactly for each state and alphabet code point, each equal to the lazy transition |
| DeterministicAhoCorasick.DeterministicMultiStringMatcher.constructor | src/DeterministicMultiStringMatcher.php:47-50 | the lazy matcher is built for the filtered keywords, and then the table is complete |
| DeterministicAhoCorasick.DeterministicMultiStringMatcher.NextState | src/DeterministicMultiStringMatcher.php:62-65 | a lookup gives a state, and for every state of the machine it equals the lazy transition |
| DeterministicAhoCorasick.DeterministicMultiStringMatcher.MissingEntry | src/DeterministicMultiStringMatcher.php:62-65 | a pair missing from the table has lazy transition 0, the same as the lookup default |
| DeterministicAhoCorasick.DeterministicMultiStringMatcher.EmptyTable | src/DeterministicMultiStringMatcher.php:72-87 | without keywords the table is empty and every lookup gives the root |
| DeterministicAhoCorasick.DeterministicMultiStringMatcher.SearchIn | src/MultiStringMatcher.php:141-162 | the inherited scan, run with table lookups, returns exactly the lazy matcher's results: the same list in the same order |

## Left out

- Keyword comparison: PHP's `in_array` compares loosely, so `"1"` and `"01"` count as the same keyword (src/MultiStringMatcher.php:81, 182). The model compares keywords and code points exactly.
- Unicode decoding with `mb_strlen` and `mb_substr` is not modelled. Text and keywords are taken as already-decoded code-point sequences.
- `trigger_error` is modelled as the boolean field `warned`. Emitting the PHP warning is I/O.
- With no keywords, the source leaves `yesTransitions` and `outputs` as empty arrays. The model keeps a root state with no edges and an empty list. No caller can tell the difference, because `searchIn` returns on its fast path first.
- The `$toState !== 0` guard (src/MultiStringMatcher.php:209) is left out. It always holds, because no edge leads to the root.
- `isset` and `empty` on edge maps are both modelled as key membership. They agree because no edge targets state 0.
- Edge order in the breadth-first pass: the source visits a state's edges in insertion order, the order in which src/MultiStringMatcher.php:188 created them. The model's pass picks any remaining edge. Its links and lists are proved for every order, so also for insertion order.
- Updating fields in place:
  - `ComputeSuccessTransitions`, `ComputeFailTransitions` and `ComputeFiniteStateMachine` compute the new trie, links, lists or table on values (`BuildTrie`, `LinkAll`, `FiniteStateMachine`) and then store them in the fields.
  - Partly updated field states are not modelled. Nothing observes them.
- Loop placement: the failure chase of `computeFailTransitions` (lines 221-228) is the method `ChaseFailure` with its loop in `FollowLinks`, and one round of its queue loop is the method `ExpandNext`. The body of the inner loop of `computeSuccessTransitions` (lines 181-190) is the method `InsertChar`.
- `DeterministicMultiStringMatcher` holds its lazy matcher in the field `base` instead of extending it. The inherited `searchIn` is written again with the table lookup.
- `stateMachine` is a map keyed by (state, code point) instead of nested arrays. When the source leaves it `null`, the model has an empty map.
- AhoCorasick.MultiStringMatcher.NextState: requires `currentState` to be the root or a state of the machine with a failure link. For any other integer, `noTransitions[$currentState]` at src/MultiStringMatcher.php:120 is a missing key: PHP gives `null` with a notice, `null !== 0` then stays true, every later lookup misses too, and `nextState` never returns. The requires thus excludes only inputs on which the source does not terminate.
- State numbers are unbounded naturals. PHP integer overflow cannot happen for any trie that fits in memory.
- The tests' `NaiveMultiStringMatcher` is not modelled. The occurrence predicate `IsOccurrence` is the reference definition instead.
- `MultiStringReplacer` is not part of this model.
