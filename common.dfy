/**
 * Values shared by the scheduler models: an optional value, the JavaScript
 * values the schedulers hand to their workers, and a few facts about
 * sequences of task indices.
 */
module Common {

  /** An optional value; `None` stands for a JavaScript `undefined`. */
  datatype Option<+T> = None | Some(value: T)

  /** A JavaScript value as far as the schedulers pass it on (numbers are integral here). */
  datatype Json = JNull | JBool(b: bool) | JNum(n: int) | JStr(s: string)

  /** A plain JavaScript object: property names to values. */
  type Record = map<string, Json>

  /** The task indices 0, 1, ..., k - 1 in increasing order. */
  function Iota(k: nat): (r: seq<nat>)
    ensures |r| == k
    ensures forall i :: 0 <= i < k ==> r[i] == i
  {
    if k == 0 then [] else Iota(k - 1) + [k - 1]
  }

  /** No value occurs twice in `xs`. */
  predicate Distinct(xs: seq<nat>)
  {
    forall i, j :: 0 <= i < j < |xs| ==> xs[i] != xs[j]
  }

  /** The values occurring in `xs`. */
  function Elements(xs: seq<nat>): set<nat>
  {
    set x | x in xs
  }

  /** The set of the indices below `k`. */
  function Below(k: nat): (r: set<nat>)
    ensures forall i: nat :: i in r <==> i < k
  {
    IotaMembers(k);
    Elements(Iota(k))
  }

  lemma IotaMembers(k: nat)
    ensures forall i: nat :: i in Elements(Iota(k)) <==> i < k
  {
    var xs := Iota(k);
    forall i: nat | i < k
      ensures i in Elements(xs)
    {
      assert xs[i] == i;
    }
    forall i: nat | i in Elements(xs)
      ensures i < k
    {
      var j :| 0 <= j < |xs| && xs[j] == i;
    }
  }

  lemma BelowSize(k: nat)
    ensures |Below(k)| == k
  {
    DistinctSize(Iota(k));
  }

  /** A sequence without repetitions has as many distinct elements as it is long. */
  lemma {:induction false} DistinctSize(xs: seq<nat>)
    requires Distinct(xs)
    ensures |Elements(xs)| == |xs|
  {
    if xs != [] {
      var init, last := xs[..|xs| - 1], xs[|xs| - 1];
      assert Distinct(init);
      DistinctSize(init);
      assert xs == init + [last];
      assert last !in Elements(init);
      assert Elements(xs) == Elements(init) + {last};
    }
  }
}
