/** Rules sorted into buckets that keep their file order. */
module RuleIndex {

  /** A rule with its position in the file. */
  datatype Indexed<+R> = Indexed(index: nat, rule: R)

  /** The rules that a bucket keeps, with their positions, in file order. */
  function Select<R>(rules: seq<R>, keep: R -> bool): seq<Indexed<R>> {
    if rules == [] then []
    else
      var n := |rules| - 1;
      Select(rules[..n], keep) + if keep(rules[n]) then [Indexed(n, rules[n])] else []
  }

  lemma SelectPrefix<R>(rules: seq<R>, i: nat, keep: R -> bool)
    requires i < |rules|
    ensures Select(rules[..i + 1], keep) == Select(rules[..i], keep) + if keep(rules[i]) then [Indexed(i, rules[i])] else []
  {
    assert rules[..i + 1][..i] == rules[..i];
  }

  /** The bucket of a key; a missing one is empty. */
  function Lookup<V>(m: map<string, seq<V>>, key: string): seq<V> {
    if key in m then m[key] else []
  }

  /** `m` with `v` appended to the bucket of `key`. */
  function AddTo<V>(m: map<string, seq<V>>, key: string, v: V): (r: map<string, seq<V>>)
    ensures forall k :: Lookup(r, k) == if k == key then Lookup(m, k) + [v] else Lookup(m, k)
  {
    m[key := Lookup(m, key) + [v]]
  }

  ghost predicate InFileOrder<R>(bucket: seq<Indexed<R>>) {
    forall i, j :: 0 <= i < j < |bucket| ==> bucket[i].index < bucket[j].index
  }

  /** `bucket` holds exactly the kept rules from position `from` on. */
  ghost predicate Holds<R(!new)>(bucket: seq<Indexed<R>>, rules: seq<R>, keep: R -> bool, from: nat) {
    && InFileOrder(bucket)
    && (forall k :: 0 <= k < |bucket| ==>
          && from <= bucket[k].index < |rules|
          && bucket[k].rule == rules[bucket[k].index]
          && keep(bucket[k].rule))
    && (forall i :: from <= i < |rules| && keep(rules[i]) ==> exists k :: 0 <= k < |bucket| && bucket[k].index == i)
  }

  lemma {:induction false} SelectHolds<R(!new)>(rules: seq<R>, keep: R -> bool)
    ensures Holds(Select(rules, keep), rules, keep, 0)
  {
    if rules != [] {
      var n := |rules| - 1;
      SelectHolds(rules[..n], keep);
      var bucket := Select(rules[..n], keep);
      assert forall i :: 0 <= i < n ==> rules[i] == rules[..n][i];
      if keep(rules[n]) {
        HoldsNext(bucket, rules, keep);
      } else {
        assert Select(rules, keep) == bucket;
      }
    }
  }

  lemma HoldsNext<R(!new)>(bucket: seq<Indexed<R>>, rules: seq<R>, keep: R -> bool)
    requires rules != [] && keep(rules[|rules| - 1])
    requires Holds(bucket, rules[..|rules| - 1], keep, 0)
    ensures Holds(bucket + [Indexed(|rules| - 1, rules[|rules| - 1])], rules, keep, 0)
  {
    var n := |rules| - 1;
    var more := bucket + [Indexed(n, rules[n])];
    forall i | 0 <= i < |rules| && keep(rules[i])
      ensures exists k :: 0 <= k < |more| && more[k].index == i
    {
      if i == n {
        assert more[|bucket|].index == i;
      } else {
        assert rules[i] == rules[..n][i];
        var k :| 0 <= k < |bucket| && bucket[k].index == i;
        assert more[k].index == i;
      }
    }
  }

  /** What the first element of a bucket says about the kept rules before it. */
  lemma HoldsFirst<R(!new)>(bucket: seq<Indexed<R>>, rules: seq<R>, keep: R -> bool, from: nat)
    requires Holds(bucket, rules, keep, from)
    ensures bucket == [] ==> forall i :: from <= i < |rules| ==> !keep(rules[i])
    ensures bucket != [] ==> forall i :: from <= i < bucket[0].index ==> !keep(rules[i])
    ensures bucket != [] ==> Holds(bucket[1..], rules, keep, bucket[0].index + 1)
  {
    if bucket != [] {
      var rest := bucket[1..];
      forall i | bucket[0].index < i < |rules| && keep(rules[i])
        ensures exists k :: 0 <= k < |rest| && rest[k].index == i
      {
        var k :| 0 <= k < |bucket| && bucket[k].index == i;
        assert rest[k - 1].index == i;
      }
    }
  }
}
