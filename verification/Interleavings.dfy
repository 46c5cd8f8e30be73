/** What it means for one sequence of values to interleave several others. */
module Interleavings {

  function Last<T>(s: seq<T>): T
    requires s != []
  {
    s[|s| - 1]
  }

  function Front<T>(s: seq<T>): seq<T>
    requires s != []
  {
    s[..|s| - 1]
  }

  /** `out` can be dealt back to `parts`, each part getting its values in order and all of them. */
  ghost predicate Interleaving<T>(out: seq<T>, parts: seq<seq<T>>) {
    if out == [] then
      forall k | 0 <= k < |parts| :: parts[k] == []
    else
      exists k | 0 <= k < |parts| :: DealsLastTo(out, parts, k) && Interleaving(Front(out), parts[k := Front(parts[k])])
  }

  ghost predicate DealsLastTo<T>(out: seq<T>, parts: seq<seq<T>>, k: nat)
    requires out != [] && k < |parts|
  {
    parts[k] != [] && Last(parts[k]) == Last(out)
  }

  /** The part that gets the last value. */
  lemma LastDeal<T>(out: seq<T>, parts: seq<seq<T>>) returns (k: nat)
    requires out != [] && Interleaving(out, parts)
    ensures k < |parts| && DealsLastTo(out, parts, k) && Interleaving(Front(out), parts[k := Front(parts[k])])
  {
    k :| 0 <= k < |parts| && DealsLastTo(out, parts, k) && Interleaving(Front(out), parts[k := Front(parts[k])]);
  }

  lemma DealOneMore<T>(out: seq<T>, parts: seq<seq<T>>, k: nat, v: T)
    requires Interleaving(out, parts) && k < |parts|
    ensures Interleaving(out + [v], parts[k := parts[k] + [v]])
  {
    var more := parts[k := parts[k] + [v]];
    assert Front(out + [v]) == out && Front(more[k]) == parts[k];
    assert more[k := Front(more[k])] == parts;
    assert DealsLastTo(out + [v], more, k);
  }

  // ----- nothing is lost and nothing is duplicated -----

  ghost function Bag<T>(parts: seq<seq<T>>): multiset<T> {
    if parts == [] then multiset{} else multiset(parts[0]) + Bag(parts[1..])
  }

  lemma {:induction false} BagOfNothing<T>(parts: seq<seq<T>>)
    requires forall k | 0 <= k < |parts| :: parts[k] == []
    ensures Bag(parts) == multiset{}
  {
    if parts != [] {
      BagOfNothing(parts[1..]);
    }
  }

  /** Appending a value to one part adds it to the bag. */
  lemma {:induction false} BagGrows<T>(parts: seq<seq<T>>, k: nat, v: T)
    requires k < |parts|
    ensures Bag(parts[k := parts[k] + [v]]) == Bag(parts) + multiset{v}
  {
    var more := parts[k := parts[k] + [v]];
    if k == 0 {
      assert more[1..] == parts[1..];
    } else {
      assert more[1..] == parts[1..][k - 1 := parts[1..][k - 1] + [v]];
      BagGrows(parts[1..], k - 1, v);
    }
  }

  /** Taking the last value from one part takes it from the bag. */
  lemma BagShrinks<T>(parts: seq<seq<T>>, k: nat)
    requires k < |parts| && parts[k] != []
    ensures Bag(parts) == Bag(parts[k := Front(parts[k])]) + multiset{Last(parts[k])}
  {
    var less := parts[k := Front(parts[k])];
    BagGrows(less, k, Last(parts[k]));
    assert parts[k] == less[k] + [Last(parts[k])];
    assert less[k := less[k] + [Last(parts[k])]] == parts;
  }

  lemma SnocBag<T>(s: seq<T>)
    requires s != []
    ensures multiset(s) == multiset(Front(s)) + multiset{Last(s)}
  {
    assert s == Front(s) + [Last(s)];
  }

  lemma {:induction false} InterleavingKeepsValues<T>(out: seq<T>, parts: seq<seq<T>>)
    requires Interleaving(out, parts)
    ensures multiset(out) == Bag(parts)
    decreases |out|
  {
    if out == [] {
      BagOfNothing(parts);
    } else {
      var k := LastDeal(out, parts);
      InterleavingKeepsValues(Front(out), parts[k := Front(parts[k])]);
      BagShrinks(parts, k);
      SnocBag(out);
    }
  }

  // ----- each part keeps its order -----

  ghost predicate Subsequence<T>(sub: seq<T>, s: seq<T>) {
    sub == [] ||
    (s != [] && ((Last(sub) == Last(s) && Subsequence(Front(sub), Front(s))) || Subsequence(sub, Front(s))))
  }

  /** Read by positions: the values of a subsequence stand in `s` at increasing places. */
  lemma {:induction false} SubsequenceMeans<T>(sub: seq<T>, s: seq<T>) returns (at: seq<nat>)
    requires Subsequence(sub, s)
    ensures |at| == |sub| && (forall i | 0 <= i < |at| :: at[i] < |s| && s[at[i]] == sub[i])
    ensures forall i, j | 0 <= i < j < |at| :: at[i] < at[j]
    decreases |s|
  {
    if sub == [] {
      at := [];
    } else if Last(sub) == Last(s) && Subsequence(Front(sub), Front(s)) {
      at := SubsequenceMeans(Front(sub), Front(s));
      at := at + [|s| - 1];
    } else {
      at := SubsequenceMeans(sub, Front(s));
    }
  }

  lemma {:induction false} InterleavingKeepsOrder<T>(out: seq<T>, parts: seq<seq<T>>, j: nat)
    requires Interleaving(out, parts) && j < |parts|
    ensures Subsequence(parts[j], out)
    decreases |out|
  {
    if out != [] {
      var k := LastDeal(out, parts);
      InterleavingKeepsOrder(Front(out), parts[k := Front(parts[k])], j);
    }
  }

  /** When only one part has values, the interleaving is that part. */
  lemma {:induction false} OnePartIsAll<T>(out: seq<T>, parts: seq<seq<T>>, k: nat)
    requires Interleaving(out, parts) && k < |parts|
    requires forall j | 0 <= j < |parts| && j != k :: parts[j] == []
    ensures out == parts[k]
    decreases |out|
  {
    if out != [] {
      var j := LastDeal(out, parts);
      OnePartIsAll(Front(out), parts[j := Front(parts[j])], k);
      assert out == Front(out) + [Last(out)];
    }
  }

  // ----- naming the parts differently -----

  predicate Distinct(names: seq<nat>) {
    forall i, j | 0 <= i < j < |names| :: names[i] != names[j]
  }

  /** `others` lists the same parts at the places `names` gives them, and nothing else. */
  ghost predicate Renamed<T>(parts: seq<seq<T>>, names: seq<nat>, others: seq<seq<T>>) {
    && |parts| == |names|
    && (forall i | 0 <= i < |names| :: names[i] < |others| && others[names[i]] == parts[i])
    && (forall c: nat | c < |others| && c !in names :: others[c] == [])
  }

  lemma {:induction false} RenamedInterleaving<T>(out: seq<T>, parts: seq<seq<T>>, names: seq<nat>, others: seq<seq<T>>)
    requires Interleaving(out, parts) && Distinct(names) && Renamed(parts, names, others)
    ensures Interleaving(out, others)
    decreases |out|
  {
    if out != [] {
      var k := LastDeal(out, parts);
      var c := names[k];
      RenamedInterleaving(Front(out), parts[k := Front(parts[k])], names, others[c := Front(others[c])]);
      assert DealsLastTo(out, others, c);
    } else {
      forall c | 0 <= c < |others| ensures others[c] == [] {
        if c in names {
          var i :| 0 <= i < |names| && names[i] == c;
        }
      }
    }
  }
}
