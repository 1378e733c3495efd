/** The bounded per-unit history (internal/monitor/history.go). */
module History {
  import opened Logs
  import opened Circular

  const HISTORY_CAP: nat := 100

  datatype CheckSample = CheckSample(time: int, success: bool)
  datatype SpeedSample = SpeedSample(time: int, mbps: real)

  /** The source's zero-filled buffer needs a default value to fill it with. */
  class Ring<T(0)> {
    const buf: array<T>
    var head: nat
    var len: nat
    ghost var log: seq<T>  // every sample ever added

    ghost predicate Valid()
      reads this, buf
    {
      && head < buf.Length && len <= buf.Length
      && (len < buf.Length ==> head == len)
      && Held(buf[..], head, len) == LastN(log, buf.Length)
    }

    constructor (capacity: nat)
      requires capacity >= 1
      ensures Valid() && fresh(buf)
      ensures buf.Length == capacity && log == []
    {
      buf := new T[capacity];
      head, len, log := 0, 0, [];
    }

    method Add(v: T)
      requires Valid()
      modifies this, buf
      ensures Valid()
      ensures log == old(log) + [v]
    {
      ghost var cells, h := buf[..], head;
      HeldTracksLog(cells, head, len, log, v);
      buf[head] := v;
      head := (head + 1) % buf.Length;
      if len < buf.Length {
        len := len + 1;
      }
      log := log + [v];
      assert buf[..] == cells[h := v];
    }

    method Slice() returns (out: seq<T>)
      requires Valid()
      ensures out == LastN(log, buf.Length)
    {
      out := [];
      var start := (head - len + buf.Length) % buf.Length;
      for i := 0 to len
        invariant out == Held(buf[..], head, len)[..i]
      {
        HeldPosition(buf[..], head, len, i);
        WrapOnce(head - len + buf.Length, buf.Length);
        WrapOnce(start + i, buf.Length);
        out := out + [buf[(start + i) % buf.Length]];
      }
    }
  }

  /** One unit's two rings; they never share a cell. */
  class UnitHistory {
    const checks: Ring<CheckSample>
    const speeds: Ring<SpeedSample>

    ghost function Repr(): set<object> {
      {this, checks, checks.buf, speeds, speeds.buf}
    }

    ghost predicate Valid()
      reads Repr()
    {
      && checks as object != speeds && checks.buf as object != speeds.buf
      && checks.Valid() && checks.buf.Length == HISTORY_CAP
      && speeds.Valid() && speeds.buf.Length == HISTORY_CAP
    }

    /** Every check sample and every speed sample ever added. */
    ghost function Logs(): (seq<CheckSample>, seq<SpeedSample>)
      reads Repr()
    {
      (checks.log, speeds.log)
    }

    constructor ()
      ensures Valid() && fresh(Repr())
      ensures Logs() == ([], [])
    {
      checks := new Ring<CheckSample>(HISTORY_CAP);
      speeds := new Ring<SpeedSample>(HISTORY_CAP);
    }

    method AddCheck(v: CheckSample)
      requires Valid()
      modifies Repr()
      ensures Valid()
      ensures Logs() == (old(Logs()).0 + [v], old(Logs()).1)
    {
      checks.Add(v);
    }

    method AddSpeed(v: SpeedSample)
      requires Valid()
      modifies Repr()
      ensures Valid()
      ensures Logs() == (old(Logs()).0, old(Logs()).1 + [v])
    {
      speeds.Add(v);
    }
  }
}
