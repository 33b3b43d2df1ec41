/**
 * Filtering of the keyword list given to the matcher's constructor:
 * empty keywords are dropped and only the first occurrence of a keyword
 * is kept, in input order.
 */
module Keywords {
  import opened Text

  /** The keywords kept from `ks`, processed left to right as the constructor does. */
  function KeepFirst(ks: seq<String>): (r: seq<String>)
    ensures |r| <= |ks|
    ensures forall k :: k in r ==> k in ks && k != []
  {
    if ks == [] then []
    else
      var kept := KeepFirst(ks[..|ks| - 1]);
      var k := ks[|ks| - 1];
      if k != [] && k !in kept then kept + [k] else kept
  }

  /** The position of the first occurrence of `k` in `ks`. */
  function FirstIndex(ks: seq<String>, k: String): (i: nat)
    requires k in ks
    ensures i < |ks| && ks[i] == k && k !in ks[..i]
    decreases |ks|
  {
    if k in ks[..|ks| - 1] then
      var i := FirstIndex(ks[..|ks| - 1], k);
      assert ks[..|ks| - 1][..i] == ks[..i];
      i
    else
      |ks| - 1
  }

  /** Kept keywords are exactly the non-empty input keywords, each once. */
  lemma {:induction false} KeepFirstMembers(ks: seq<String>)
    ensures NoDuplicates(KeepFirst(ks))
    ensures forall k :: k in KeepFirst(ks) <==> k in ks && k != []
    decreases |ks|
  {
    if ks != [] {
      var init := ks[..|ks| - 1];
      KeepFirstMembers(init);
      assert ks == init + [ks[|ks| - 1]];
    }
  }

  /** Kept keywords appear in the order of their first occurrence in the input. */
  lemma {:induction false} KeepFirstOrder(ks: seq<String>)
    ensures forall k :: k in KeepFirst(ks) ==> k in ks
    ensures forall i, j :: 0 <= i < j < |KeepFirst(ks)| ==>
      FirstIndex(ks, KeepFirst(ks)[i]) < FirstIndex(ks, KeepFirst(ks)[j])
    decreases |ks|
  {
    KeepFirstMembers(ks);
    if ks != [] {
      var init := ks[..|ks| - 1];
      var kept := KeepFirst(init);
      KeepFirstOrder(init);
      KeepFirstMembers(init);
      forall k | k in kept
        ensures FirstIndex(ks, k) == FirstIndex(init, k)
      {
      }
      var r := KeepFirst(ks);
      forall i, j | 0 <= i < j < |r|
        ensures FirstIndex(ks, r[i]) < FirstIndex(ks, r[j])
      {
        if j == |kept| {
          assert r[j] == ks[|ks| - 1] && r[j] !in init;
          assert FirstIndex(ks, r[j]) == |ks| - 1;
        }
      }
    }
  }

  /** A list of distinct non-empty keywords is kept unchanged. */
  lemma {:induction false} KeepFirstOfDistinct(ks: seq<String>)
    requires NoDuplicates(ks)
    requires forall i :: 0 <= i < |ks| ==> ks[i] != []
    ensures KeepFirst(ks) == ks
    decreases |ks|
  {
    if ks != [] {
      var init := ks[..|ks| - 1];
      KeepFirstOfDistinct(init);
      KeepFirstMembers(init);
      assert ks[|ks| - 1] !in init;
    }
  }

  /** The code points that occur in `w`. */
  function Chars(w: String): set<char>
  {
    set c | c in w
  }

  /** The code points that occur in some keyword of `ks`. */
  ghost function CharsOf(ks: seq<String>): set<char>
  {
    set k, c | k in ks && c in k :: c
  }

  /** Taking one more keyword adds its code points to the alphabet. */
  lemma CharsOfNext(ks: seq<String>, k: nat)
    requires k < |ks|
    ensures forall c :: c in CharsOf(ks[..k + 1]) <==> c in CharsOf(ks[..k]) || c in ks[k]
  {
    assert ks[..k + 1] == ks[..k] + [ks[k]];
    forall c | c in CharsOf(ks[..k + 1])
      ensures c in CharsOf(ks[..k]) || c in ks[k]
    {
      var w :| w in ks[..k + 1] && c in w;
    }
    forall c | c in ks[k]
      ensures c in CharsOf(ks[..k + 1])
    {
      assert ks[k] in ks[..k + 1];
    }
  }
}
