/** The ring buffer as one thread at a time runs it: a fixed array and two masked indices.
    RingProtocol covers the interleaving of its two threads. */
module EventQueue {
  import opened Numbers
  import opened Options
  import opened RingProtocol

  class EventQueue<T(0)> {
    const k: nat
    const buffer: array<T>
    var head: nat // consumer advances
    var tail: nat // producer advances

    ghost predicate Valid()
      reads this
    {
      buffer.Length == Pow2(k) && head < Pow2(k) && tail < Pow2(k) && Pow2(k) <= 0x8000_0000_0000_0000
    }

    ghost function Contents(): seq<T>
      requires Valid()
      reads this, buffer
    {
      RingContents(buffer[..], head, tail, Pow2(k))
    }

    lemma Bounded()
      requires Valid()
      ensures |Contents()| <= Pow2(k) - 1
    {
    }

    constructor (k: nat)
      requires Pow2(k) <= 0x8000_0000_0000_0000
      ensures Valid() && fresh(buffer) && this.k == k
      ensures Contents() == []
    {
      this.k := k;
      buffer := new T[Pow2(k)];
      head, tail := 0, 0;
      new;
      PoppedContents(buffer[..], 0, 0, k);
    }

    /** Refuses the event, changing nothing, exactly when N-1 events are held. */
    method Push(evt: T) returns (ok: bool)
      requires Valid()
      modifies this`tail, buffer
      ensures Valid()
      ensures ok <==> old(|Contents()|) < Pow2(k) - 1
      ensures Contents() == if ok then old(Contents()) + [evt] else old(Contents())
    {
      PushedContents(buffer[..], head, tail, evt, k);
      var nextTail := And(tail + 1, Pow2(k) - 1);
      if nextTail == head {
        return false;
      }
      buffer[tail] := evt;
      tail := nextTail;
      return true;
    }

    /** Removes and returns the oldest event, or nothing exactly when the queue is empty. */
    method Pop() returns (r: Option<T>)
      requires Valid()
      modifies this`head
      ensures Valid()
      ensures r.None? <==> old(Contents()) == []
      ensures r.Some? ==> [r.value] + Contents() == old(Contents())
      ensures r.None? ==> Contents() == old(Contents())
    {
      PoppedContents(buffer[..], head, tail, k);
      if head == tail {
        return None;
      }
      var evt := buffer[head];
      head := And(head + 1, Pow2(k) - 1);
      return Some(evt);
    }

    /** Pops; when the queue is empty, waits a bounded time and pops again. What the other thread
        pushes during the wait, if anything, is given from outside; the second pop finds it. */
    method PopWait(meanwhile: Option<T>) returns (r: Option<T>)
      requires Valid()
      modifies this`head, this`tail, buffer
      ensures Valid()
      ensures old(Contents()) != [] ==> r.Some? && [r.value] + Contents() == old(Contents())
      ensures old(Contents()) == [] ==> Contents() == [] && r == if k == 0 then None else meanwhile
    {
      hide RingContents, Pow2;
      RoomIff(k);
      r := Pop();
      if r.None? {
        if meanwhile.Some? {
          var ok := Push(meanwhile.value);
          assert Contents() == if ok then [meanwhile.value] else [];
        }
        ghost var before := Contents();
        r := Pop();
        OnlyOne(r, Contents(), before);
      }
    }

    method Empty() returns (r: bool)
      requires Valid()
      ensures r <==> Contents() == []
    {
      PoppedContents(buffer[..], head, tail, k);
      r := head == tail;
    }

    /** The wrapping subtraction and the mask recover the number of events held. */
    method Size() returns (r: u64)
      requires Valid()
      ensures r == |Contents()|
      ensures r <= Pow2(k) - 1
    {
      WrappedDistance(tail - head, Pow2(k));
      MaskIsMod(tail - head + Pow2(k), k);
      r := And(Wrap64(Wrap64(tail - head) + Pow2(k)), Pow2(k) - 1);
    }
  }

  lemma RoomIff(k: nat)
    ensures Pow2(k) > 1 <==> k > 0
  {
  }

  /** Taking the oldest of at most one leaves none. */
  lemma OnlyOne<T>(r: Option<T>, after: seq<T>, before: seq<T>)
    requires |before| <= 1 && (r.None? <==> before == []) && (r.None? ==> after == before)
    requires r.Some? ==> [r.value] + after == before
    ensures after == [] && r == if before == [] then None else Some(before[0])
  {
    if r.Some? {
      assert |[r.value] + after| == 1 && ([r.value] + after)[0] == r.value;
    }
  }

  /** A negative difference wraps and the capacity wraps it back. */
  lemma WrappedDistance(d: int, n: int)
    requires -n < d < n <= 0x8000_0000_0000_0000
    ensures Wrap64(Wrap64(d) + n) == d + n
  {
  }

  /** Lays the slots out without wrapping: position j of the result sits in slot j mod n. */
  lemma Unwrapped<T>(buffer: seq<T>, head: nat, tail: nat, n: nat) returns (items: seq<T>)
    requires |buffer| == n && head < n && tail < n
    ensures head <= |items| < head + n && |items| % n == tail
    ensures forall j | head <= j < |items| :: buffer[j % n] == items[j]
    ensures RingContents(buffer, head, tail, n) == items[head..]
  {
    SmallMod(head, n);
    SmallMod(tail, n);
    LapSameSlot(tail, n);
    items := seq(if head <= tail then tail else tail + n, j requires 0 <= j => buffer[j % n]);
    MaskedContents(buffer, items, head, n);
  }

  lemma PushedContents<T>(buffer: seq<T>, head: nat, tail: nat, evt: T, k: nat)
    requires |buffer| == Pow2(k) && head < Pow2(k) && tail < Pow2(k)
    ensures var n := Pow2(k);
      var next := And(tail + 1, n - 1);
      var contents := RingContents(buffer, head, tail, n);
      && next < n
      && (next == head <==> |contents| == n - 1)
      && (next != head ==> RingContents(buffer[tail := evt], head, next, n) == contents + [evt])
  {
    var n := Pow2(k);
    var items := Unwrapped(buffer, head, tail, n);
    MaskedSuccessor(|items|, k);
    SmallMod(head, n);
    if |items| - head == n - 1 {
      LapSameSlot(head, n);
    } else {
      SlotsDiffer(head, |items| + 1, n);
      AppendedSlot(buffer, items, head, evt, n);
    }
  }

  lemma AppendedSlot<T>(buffer: seq<T>, items: seq<T>, h: nat, evt: T, n: nat)
    requires |buffer| == n && h < n && h <= |items| && |items| + 1 < h + n
    requires forall j | h <= j < |items| :: buffer[j % n] == items[j]
    ensures RingContents(buffer[|items| % n := evt], h, (|items| + 1) % n, n) == items[h..] + [evt]
  {
    var written, longer := buffer[|items| % n := evt], items + [evt];
    forall j | h <= j < |longer|
      ensures written[j % n] == longer[j]
    {
      if j < |items| {
        SlotsDiffer(j, |items|, n);
      }
    }
    SmallMod(h, n);
    MaskedContents(written, longer, h, n);
    assert longer[h..] == items[h..] + [evt];
  }

  lemma PoppedContents<T>(buffer: seq<T>, head: nat, tail: nat, k: nat)
    requires |buffer| == Pow2(k) && head < Pow2(k) && tail < Pow2(k)
    ensures var n := Pow2(k);
      var next := And(head + 1, n - 1);
      var contents := RingContents(buffer, head, tail, n);
      && next < n
      && (head == tail <==> contents == [])
      && (head != tail ==> [buffer[head]] + RingContents(buffer, next, tail, n) == contents)
  {
    var n := Pow2(k);
    var items := Unwrapped(buffer, head, tail, n);
    SmallMod(head, n);
    MaskedSuccessor(head, k);
    if head < |items| {
      SlotsDiffer(head, |items|, n);
      MaskedContents(buffer, items, head + 1, n);
      assert items[head..] == [items[head]] + items[head + 1..];
    }
  }

  // ---------------------------------------------------------------- the protocol, undisturbed

  lemma TwoSteps<T>(s: Ring<T>, a: Action<T>, b: Action<T>)
    requires Enabled(s, a) && Enabled(Apply(s, a), b)
    ensures RingProtocol.Legal(s, [a, b]) && Run(s, [a, b]) == Apply(Apply(s, a), b)
  {
    assert [a, b][1..] == [b] && [b][1..] == [];
    assert RingProtocol.Legal(Apply(s, a), [b]);
    assert Run(Apply(s, a), [b]) == Run(Apply(Apply(s, a), b), []);
  }

  lemma FourSteps<T>(s: Ring<T>, a: Action<T>, b: Action<T>, c: Action<T>, d: Action<T>)
    requires Enabled(s, a) && Enabled(Apply(s, a), b)
    requires Enabled(Apply(Apply(s, a), b), c) && Enabled(Apply(Apply(Apply(s, a), b), c), d)
    ensures RingProtocol.Legal(s, [a, b, c, d]) && Run(s, [a, b, c, d]) == Apply(Apply(Apply(Apply(s, a), b), c), d)
  {
    hide Apply, Enabled;
    TwoSteps(Apply(Apply(s, a), b), c, d);
    assert [a, b, c, d][1..] == [b, c, d] && [b, c, d][1..] == [c, d];
    assert RingProtocol.Legal(Apply(s, a), [b, c, d]);
  }

  /** Push is what the protocol's producer does when the consumer stands still and its load of
      head_ is up to date. */
  lemma UndisturbedPush<T>(s: Ring<T>, evt: T)
    requires Inv(s) && s.producer.PIdle?
    ensures var fits := |s.accepted| - |s.popped| < s.N() - 1;
      var steps := if fits then [LoadOwnTail(evt), LoadHead(|s.popped|), WriteSlot, StoreTail]
                   else [LoadOwnTail(evt), LoadHead(|s.popped|)];
      && RingProtocol.Legal(s, steps)
      && Inv(Run(s, steps)) && Run(s, steps).producer.PIdle? && Run(s, steps).popped == s.popped
      && Run(s, steps).accepted == s.accepted + (if fits then [evt] else [])
  {
    var s1 := Apply(s, LoadOwnTail(evt));
    StepKeepsInv(s, LoadOwnTail(evt));
    RejectedIffFull(s1, |s.popped|);
    StepKeepsInv(s1, LoadHead(|s.popped|));
    var s2 := Apply(s1, LoadHead(|s.popped|));
    if |s.accepted| - |s.popped| < s.N() - 1 {
      StepKeepsInv(s2, WriteSlot);
      StepKeepsInv(Apply(s2, WriteSlot), StoreTail);
      FourSteps(s, LoadOwnTail(evt), LoadHead(|s.popped|), WriteSlot, StoreTail);
    } else {
      TwoSteps(s, LoadOwnTail(evt), LoadHead(|s.popped|));
    }
  }

  /** Pop is what the protocol's consumer does when the producer stands still and its load of
      tail_ is up to date. */
  lemma UndisturbedPop<T>(s: Ring<T>)
    requires Inv(s) && s.consumer.CIdle?
    ensures var empty := |s.accepted| == |s.popped|;
      var steps := if empty then [LoadOwnHead, LoadTail(|s.accepted|)]
                   else [LoadOwnHead, LoadTail(|s.accepted|), ReadSlot, StoreHead];
      && RingProtocol.Legal(s, steps)
      && Inv(Run(s, steps)) && Run(s, steps).consumer.CIdle? && Run(s, steps).accepted == s.accepted
      && Run(s, steps).popped == s.popped + (if empty then [] else [s.accepted[|s.popped|]])
  {
    var s1 := Apply(s, LoadOwnHead);
    StepKeepsInv(s, LoadOwnHead);
    EmptyIffNothingSeen(s, |s.accepted|);
    StepKeepsInv(s1, LoadTail(|s.accepted|));
    var s2 := Apply(s1, LoadTail(|s.accepted|));
    if |s.accepted| != |s.popped| {
      StepKeepsInv(s2, ReadSlot);
      StepKeepsInv(Apply(s2, ReadSlot), StoreHead);
      FourSteps(s, LoadOwnHead, LoadTail(|s.accepted|), ReadSlot, StoreHead);
    } else {
      TwoSteps(s, LoadOwnHead, LoadTail(|s.accepted|));
    }
  }
}
