/** Pruning of an endpoint's check history to the retention window. */
module History {
  import opened Types

  /** The records of `h` strictly newer than `cutoff`, in their original order
      (Go's `record.Timestamp.After(cutoff)`). */
  function Retained(h: seq<StatusRecord>, cutoff: Time): seq<StatusRecord>
    decreases |h|
  {
    if h == [] then []
    else Retained(h[..|h| - 1], cutoff) + (if h[|h| - 1].timestamp > cutoff then [h[|h| - 1]] else [])
  }

  /** The filtering loop that rebuilds the history. */
  method RetainAfter(h: seq<StatusRecord>, cutoff: Time) returns (kept: seq<StatusRecord>)
    ensures kept == Retained(h, cutoff)
    ensures forall i :: 0 <= i < |kept| ==> kept[i].timestamp > cutoff
  {
    kept := [];
    var i := 0;
    while i < |h|
      invariant 0 <= i <= |h|
      invariant kept == Retained(h[..i], cutoff)
    {
      assert h[..i + 1][..i] == h[..i];
      if h[i].timestamp > cutoff {
        kept := kept + [h[i]];
      }
      i := i + 1;
    }
    assert h[..|h|] == h;
    RetainedMembers(h, cutoff);
  }

  /** A record survives exactly when it was in the history and is newer than the cutoff. */
  lemma {:induction false} RetainedMembers(h: seq<StatusRecord>, cutoff: Time)
    ensures forall r :: r in Retained(h, cutoff) <==> r in h && r.timestamp > cutoff
    ensures forall i :: 0 <= i < |Retained(h, cutoff)| ==> Retained(h, cutoff)[i].timestamp > cutoff
    decreases |h|
  {
    if h != [] {
      var init := h[..|h| - 1];
      RetainedMembers(init, cutoff);
      assert h == init + [h[|h| - 1]];
    }
  }

  /** Filtering distributes over concatenation, so order is kept. */
  lemma {:induction false} RetainedAppend(a: seq<StatusRecord>, b: seq<StatusRecord>, cutoff: Time)
    ensures Retained(a + b, cutoff) == Retained(a, cutoff) + Retained(b, cutoff)
    decreases |b|
  {
    if b == [] {
      assert a + b == a;
    } else {
      var init := b[..|b| - 1];
      RetainedAppend(a, init, cutoff);
      assert (a + b)[..|a + b| - 1] == a + init;
      assert (a + b)[|a + b| - 1] == b[|b| - 1];
    }
  }

  /** Appending one record and pruning keeps the pruned old history, then the
      new record if it is inside the window. */
  lemma RetainedSnoc(h: seq<StatusRecord>, r: StatusRecord, cutoff: Time)
    ensures Retained(h + [r], cutoff)
         == Retained(h, cutoff) + (if r.timestamp > cutoff then [r] else [])
  {
  }

  /** Pruning with one cutoff and then another is pruning with the later one. */
  lemma {:induction false} RetainedCompose(h: seq<StatusRecord>, c1: Time, c2: Time)
    ensures Retained(Retained(h, c1), c2) == Retained(h, if c1 < c2 then c2 else c1)
    decreases |h|
  {
    if h != [] {
      var init, last := h[..|h| - 1], h[|h| - 1];
      var later := if c1 < c2 then c2 else c1;
      var tail := if last.timestamp > c1 then [last] else [];
      assert Retained(h, c1) == Retained(init, c1) + tail;
      RetainedCompose(init, c1, c2);
      RetainedAppend(Retained(init, c1), tail, c2);
      assert Retained(tail, c2) == if last.timestamp > later then [last] else [] by {
        if tail != [] {
          assert tail[..0] == [];
        }
      }
      assert Retained(h, later) == Retained(init, later) + (if last.timestamp > later then [last] else []);
    }
  }

  /** Pruning twice with the same cutoff equals pruning once. */
  lemma RetainedIdempotent(h: seq<StatusRecord>, cutoff: Time)
    ensures Retained(Retained(h, cutoff), cutoff) == Retained(h, cutoff)
  {
    RetainedCompose(h, cutoff, cutoff);
  }
}
