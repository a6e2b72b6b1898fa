/** Schedules of the free list put together from whole calls: runs in sequence, and a call nobody interrupts. */
module FreeListRuns {
  import opened Options
  import opened FreeList

  lemma {:induction false} RunAppend(s: State, a: seq<Action>, b: seq<Action>)
    ensures Run(s, a + b) == Run(Run(s, a), b)
    decreases |a|
  {
    if a == [] {
      assert a + b == b;
    } else {
      assert (a + b)[1..] == a[1..] + b;
      RunAppend(Step(s, a[0]), a[1..], b);
    }
  }

  lemma RunFour(s: State, a: Action, b: Action, c: Action, d: Action)
    ensures Run(s, [a, b, c, d]) == Step(Step(Step(Step(s, a), b), c), d)
  {
    var s1, s2, s3 := Step(s, a), Step(Step(s, a), b), Step(Step(Step(s, a), b), c);
    assert Run(s, [a, b, c, d]) == Run(s1, [a, b, c, d][1..]) && [a, b, c, d][1..] == [b, c, d];
    assert Run(s1, [b, c, d]) == Run(s2, [b, c, d][1..]) && [b, c, d][1..] == [c, d];
    assert Run(s2, [c, d]) == Run(s3, [c, d][1..]) && [c, d][1..] == [d];
    assert Run(s3, [d]) == Run(Step(s3, d), [d][1..]) && [d][1..] == [];
  }

  function PopBy(t: Thread): seq<Action> {
    [Wait(t), LoadForPop(t), Follow(t), SwapPop(t, false)]
  }

  function PushBy(t: Thread, p: Node): seq<Action> {
    [StartPush(t, p), LoadForPush(t), Link(t), SwapPush(t, false)]
  }

  /** A pop up to its compare-and-exchange. */
  function Stall(t: Thread): seq<Action> {
    [Wait(t), LoadForPop(t), Follow(t), Follow(t)]
  }

  /** A pop up to its compare-and-exchange has the head and its successor in its locals. */
  lemma Peek(s: State, t: Thread)
    requires t !in s.poppers && s.sem > 0 && s.head.Some? && s.head.value < |s.next|
    ensures Step(Step(Step(s, Wait(t)), LoadForPop(t)), Follow(t)) ==
            s.(sem := s.sem - 1, poppers := s.poppers[t := Cutting(s.head, s.next[s.head.value])])
  {
    var s1 := Step(s, Wait(t));
    var s2 := Step(s1, LoadForPop(t));
    assert s2.poppers == s.poppers[t := Following(s.head)];
    var s3 := Step(s2, Follow(t));
    assert s3.poppers == s.poppers[t := Cutting(s.head, s.next[s.head.value])];
  }

  lemma StallAlone(s: State, t: Thread)
    requires t !in s.poppers && s.sem > 0 && s.head.Some? && s.head.value < |s.next|
    ensures Run(s, Stall(t)) ==
            s.(sem := s.sem - 1, poppers := s.poppers[t := Cutting(s.head, s.next[s.head.value])])
  {
    RunFour(s, Wait(t), LoadForPop(t), Follow(t), Follow(t));
    Peek(s, t);
  }

  /** Uninterrupted, a pop takes the head; another popper's locals do not matter to it. */
  lemma PopAlone(s: State, t: Thread)
    requires t !in s.poppers && s.sem > 0 && s.head.Some? && s.head.value < |s.next|
    ensures Run(s, PopBy(t)) ==
            s.(sem := s.sem - 1, head := s.next[s.head.value], held := s.held + {s.head.value})
  {
    RunFour(s, Wait(t), LoadForPop(t), Follow(t), SwapPop(t, false));
    Peek(s, t);
    assert s.poppers[t := Cutting(s.head, s.next[s.head.value])] - {t} == s.poppers;
  }

  lemma PushAlone(s: State, t: Thread, p: Node)
    requires t !in s.pushers && p in s.held && p < |s.next|
    ensures Run(s, PushBy(t, p)) ==
            s.(next := s.next[p := s.head], head := Some(p), held := s.held - {p}, pushers := s.pushers[t := Posting])
  {
    RunFour(s, StartPush(t, p), LoadForPush(t), Link(t), SwapPush(t, false));
    var s1 := Step(s, StartPush(t, p));
    var s2 := Step(s1, LoadForPush(t));
    var s3 := Step(s2, Link(t));
    assert s3.pushers == s.pushers[t := Swapping(p, s.head)];
    var s4 := Step(s3, SwapPush(t, false));
    assert s4.pushers == s.pushers[t := Posting];
  }
}
