/** Facts about finite logs of check outcomes, oldest entry first. */
module Logs {

  datatype Option<+T> = None | Some(value: T)

  /** The newest `n` entries of a log, or the whole log while it is shorter. */
  function LastN<T>(log: seq<T>, n: nat): (r: seq<T>)
    ensures |r| == if |log| < n then |log| else n
  {
    if |log| <= n then log else log[|log| - n..]
  }

  /** How many entries are successes. */
  function CountTrue(s: seq<bool>): (c: nat)
    ensures c <= |s|
  {
    if s == [] then 0
    else CountTrue(s[..|s| - 1]) + if s[|s| - 1] then 1 else 0
  }

  /** The length of the run of failures the log ends with. */
  function TrailingFailures(s: seq<bool>): (k: nat)
    ensures k <= |s|
    ensures forall i :: |s| - k <= i < |s| ==> !s[i]
    ensures k < |s| ==> s[|s| - k - 1]
  {
    if s == [] || s[|s| - 1] then 0 else TrailingFailures(s[..|s| - 1]) + 1
  }

  /** No success is counted exactly in an all-failed log, every entry exactly in an all-passed one. */
  lemma {:induction false} CountExtremes(s: seq<bool>)
    ensures CountTrue(s) == 0 <==> forall i :: 0 <= i < |s| ==> !s[i]
    ensures CountTrue(s) == |s| <==> forall i :: 0 <= i < |s| ==> s[i]
  {
    if s != [] {
      var init := s[..|s| - 1];
      CountExtremes(init);
      assert forall i :: 0 <= i < |init| ==> init[i] == s[i];
      assert s[|s| - 1] ==> !(forall i :: 0 <= i < |s| ==> !s[i]);
      assert !s[|s| - 1] ==> !(forall i :: 0 <= i < |s| ==> s[i]);
      assert CountTrue(init) == 0 <==> forall i :: 0 <= i < |s| - 1 ==> !s[i];
      assert CountTrue(init) == |init| <==> forall i :: 0 <= i < |s| - 1 ==> s[i];
    }
  }

  /** A buffer of capacity n that drops its oldest entry tracks the newest n. */
  lemma LastNPush<T>(log: seq<T>, v: T, n: nat)
    requires n > 0
    ensures LastN(log + [v], n) ==
            if |log| < n then LastN(log, n) + [v] else LastN(log, n)[1..] + [v]
  {
  }

  /** Keeping the newest n of the newest n loses nothing. */
  lemma LastNAbsorbs<T>(log: seq<T>, v: T, n: nat)
    ensures LastN(LastN(log, n) + [v], n) == LastN(log + [v], n)
  {
  }

  lemma CountPush(s: seq<bool>, v: bool)
    ensures CountTrue(s + [v]) == CountTrue(s) + if v then 1 else 0
  {
    assert (s + [v])[..|s|] == s;
  }

  lemma {:induction false} CountConcat(s: seq<bool>, t: seq<bool>)
    ensures CountTrue(s + t) == CountTrue(s) + CountTrue(t)
  {
    if t == [] {
      assert s + t == s;
    } else {
      var t' := t[..|t| - 1];
      CountConcat(s, t');
      assert (s + t)[..|s + t| - 1] == s + t';
    }
  }

  /** Sliding a non-empty sequence by one loses exactly its first entry. */
  lemma CountDropFirst(s: seq<bool>)
    requires s != []
    ensures CountTrue(s[1..]) == CountTrue(s) - if s[0] then 1 else 0
  {
    assert s == [s[0]] + s[1..];
    CountConcat([s[0]], s[1..]);
    assert [s[0]][..0] == [];
  }

  /** A rolling success count changes by what enters minus what is evicted. */
  lemma CountAfterPush(log: seq<bool>, v: bool, n: nat)
    requires n > 0
    ensures CountTrue(LastN(log + [v], n)) ==
            CountTrue(LastN(log, n)) + (if v then 1 else 0)
            - (if |log| >= n && log[|log| - n] then 1 else 0)
  {
    var w := LastN(log, n);
    LastNPush(log, v, n);
    CountPush(w, v);
    if |log| >= n {
      CountDropFirst(w);
      CountPush(w[1..], v);
    }
  }

  lemma TrailingPush(s: seq<bool>, v: bool)
    ensures TrailingFailures(s + [v]) == if v then 0 else TrailingFailures(s) + 1
  {
    assert (s + [v])[..|s|] == s;
  }

  /** Reduction of an index below twice the modulus: how a ring position wraps. */
  lemma WrapOnce(x: nat, n: nat)
    requires 0 < n && x < 2 * n
    ensures x % n == if x < n then x else x - n
  {
  }
}
