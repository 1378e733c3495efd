/** The cell layout shared by the rolling window and the history ring: entries
    are written at `head`, and once all cells are used `head` is the oldest. */
module Circular {
  import opened Logs

  /** The entries held by `len` cells written up to position `head`, oldest first. */
  function Held<T>(cells: seq<T>, head: nat, len: nat): (s: seq<T>)
    requires head < |cells| && len <= |cells|
    requires len < |cells| ==> head == len
    ensures |s| == len
  {
    if len < |cells| then cells[..len] else cells[head..] + cells[..head]
  }

  function Next(head: nat, capacity: nat): nat
    requires head < capacity
  {
    (head + 1) % capacity
  }

  /** Writing one entry appends it and, when all cells are in use, drops the oldest. */
  lemma HeldAfterWrite<T>(cells: seq<T>, head: nat, len: nat, v: T)
    requires head < |cells| && len <= |cells|
    requires len < |cells| ==> head == len
    ensures var head', len' := Next(head, |cells|), if len < |cells| then len + 1 else len;
            && (len' < |cells| ==> head' == len')
            && Held(cells[head := v], head', len') ==
               (if len < |cells| then Held(cells, head, len) else Held(cells, head, len)[1..]) + [v]
  {
    WrapOnce(head + 1, |cells|);
    var after := cells[head := v];
    assert after[..head + 1] == cells[..head] + [v];
    if len == |cells| {
      var held := Held(cells, head, len);
      assert cells[head..][1..] == cells[head + 1..] == after[head + 1..];
      assert held[1..] == cells[head + 1..] + cells[..head];
      if head + 1 == |cells| {
        assert after == after[..head + 1];
      }
    }
  }

  /** The modular position of the i-th oldest entry. */
  lemma HeldPosition<T>(cells: seq<T>, head: nat, len: nat, i: nat)
    requires head < |cells| && i < len <= |cells|
    requires len < |cells| ==> head == len
    ensures var start := (head - len + |cells|) % |cells|;
            Held(cells, head, len)[i] == cells[(start + i) % |cells|]
  {
    WrapOnce(head - len + |cells|, |cells|);
    var start := (head - len + |cells|) % |cells|;
    WrapOnce(start + i, |cells|);
  }

  /** A circular buffer that holds the newest entries of a log keeps doing so. */
  lemma HeldTracksLog<T>(cells: seq<T>, head: nat, len: nat, log: seq<T>, v: T)
    requires head < |cells| && len <= |cells|
    requires len < |cells| ==> head == len
    requires Held(cells, head, len) == LastN(log, |cells|)
    ensures var head', len' := Next(head, |cells|), if len < |cells| then len + 1 else len;
            && (len' < |cells| ==> head' == len')
            && Held(cells[head := v], head', len') == LastN(log + [v], |cells|)
  {
    HeldAfterWrite(cells, head, len, v);
    LastNPush(log, v, |cells|);
    assert len == |LastN(log, |cells|)|;
  }

  /** In a full buffer the cell at the head is the one the log drops next. */
  lemma OldestIsAtHead<T>(cells: seq<T>, head: nat, log: seq<T>)
    requires head < |cells| && Held(cells, head, |cells|) == LastN(log, |cells|)
    ensures |log| >= |cells| && cells[head] == log[|log| - |cells|]
  {
    assert Held(cells, head, |cells|)[0] == cells[head];
  }

  lemma HeldLength<T>(cells: seq<T>, head: nat, len: nat, log: seq<T>)
    requires head < |cells| && len <= |cells|
    requires len < |cells| ==> head == len
    requires Held(cells, head, len) == LastN(log, |cells|)
    ensures len == if |log| < |cells| then |log| else |cells|
  {
  }
}
