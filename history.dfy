/** The bounded undo history of the game: saving a snapshot appends it and,
    when that makes the history longer than Capacity, drops the oldest entry;
    undo takes the newest entry off the end. */
module History {

  /** maxUndoStates in the source. */
  const Capacity := 10

  /** The newest Capacity entries of s (all of s when it is short enough). */
  function Newest<T>(s: seq<T>): (r: seq<T>)
    ensures |r| == if |s| <= Capacity then |s| else Capacity
  {
    if |s| <= Capacity then s else s[|s| - Capacity..]
  }

  /** Append a snapshot, then evict the oldest one if the history is over
      capacity. */
  function Push<T>(h: seq<T>, s: T): (r: seq<T>)
    ensures |h| <= Capacity ==> r == Newest(h + [s])
  {
    var pushed := h + [s];
    if |pushed| > Capacity then pushed[1..] else pushed
  }

  /** Saving the snapshots ss one after another, oldest first. */
  function PushAll<T>(h: seq<T>, ss: seq<T>): seq<T> {
    if ss == [] then h else Push(PushAll(h, ss[..|ss| - 1]), ss[|ss| - 1])
  }

  /** Undo right after a push gets the pushed snapshot back, and leaves the
      history as it was, minus the evicted entry when it was full. */
  lemma UndoAfterPush<T>(h: seq<T>, s: T)
    requires |h| <= Capacity
    ensures |Push(h, s)| > 0 && Push(h, s)[|Push(h, s)| - 1] == s
    ensures Push(h, s)[..|Push(h, s)| - 1] == if |h| < Capacity then h else h[1..]
  {
    var r := Push(h, s);
    if |h| < Capacity {
      assert r == h + [s];
      assert r[..|r| - 1] == h;
    } else {
      assert r == (h + [s])[1..];
      assert r[..|r| - 1] == h[1..];
    }
  }

  lemma NewestSnoc<T>(a: seq<T>, x: T)
    ensures Newest(Newest(a) + [x]) == Newest(a + [x])
  {
    if |a| > Capacity {
      assert Newest(a) + [x] == (a + [x])[|a| - Capacity..];
      assert (Newest(a) + [x])[1..] == (a + [x])[|a| + 1 - Capacity..];
    }
  }

  /** However many snapshots are saved, the history holds exactly the newest
      ones that fit: never more than Capacity. */
  lemma {:induction false} PushAllNewest<T>(h: seq<T>, ss: seq<T>)
    requires |h| <= Capacity
    ensures PushAll(h, ss) == Newest(h + ss)
  {
    if ss == [] {
      assert h + ss == h;
    } else {
      var front, x := ss[..|ss| - 1], ss[|ss| - 1];
      PushAllNewest(h, front);
      NewestSnoc(h + front, x);
      assert h + ss == (h + front) + [x];
    }
  }

  /** After saving ss, the j-th undo (counting from 0) restores ss[|ss|-1-j]
      as long as j < Capacity; once Capacity undos have been done the history
      is empty, so the next undo fails. */
  lemma UndoDepth<T>(ss: seq<T>, j: nat)
    requires j < |ss| && j < Capacity
    ensures |PushAll([], ss)| == if |ss| <= Capacity then |ss| else Capacity
    ensures PushAll([], ss)[|PushAll([], ss)| - 1 - j] == ss[|ss| - 1 - j]
  {
    var h: seq<T> := [];
    PushAllNewest(h, ss);
    assert h + ss == ss;
    var r := PushAll(h, ss);
    assert r == Newest(ss);
    assert |r| == if |ss| <= Capacity then |ss| else Capacity;
    var k := |r| - 1 - j;
    assert 0 <= k < |r|;
    if |ss| <= Capacity {
      assert r == ss;
    } else {
      assert r == ss[|ss| - Capacity..];
      assert r[k] == ss[|ss| - Capacity + k];
    }
  }
}
