/**
 * ya_count: every hook adds its weight on entry and takes it off on exit; remove_inception waits
 * until the sum is zero.
 */
module UsageCount {
  import opened Addresses

  datatype Hook = Execve | EnterExit | SchedTail | DoFork | Pgfault | EnterSched | LeaveSched | Timer

  function Weight(h: Hook): (w: int)
    ensures 0 < w <= 104711
  {
    match h
    case Execve => 100333
    case EnterExit => 787
    case SchedTail => 47111
    case DoFork => 65719
    case Pgfault => 95597
    case EnterSched => 104711
    case LeaveSched => 102233
    case Timer => 100801
  }

  // The weights tell the hooks apart: a counter with one execution inside says which hook it is.
  lemma WeightsTell(g: Hook, h: Hook)
    ensures Weight(g) == Weight(h) ==> g == h
    ensures Weight(EnterExit) == 787 && Weight(SchedTail) == 47111
    ensures Weight(DoFork) == 65719 && Weight(Pgfault) == 95597
    ensures Weight(Execve) == 100333 && Weight(Timer) == 100801
    ensures Weight(LeaveSched) == 102233 && Weight(EnterSched) == 104711
  {
  }

  // One execution of a hook between its add and its sub.
  datatype Bracket = Bracket(thread: int, hook: Hook)

  function Total(bs: seq<Bracket>): (n: int)
    ensures 0 <= n && |bs| <= n <= 104711 * |bs|
  {
    if bs == [] then 0 else Weight(bs[0].hook) + Total(bs[1..])
  }
  lemma {:induction false} TotalSplit(a: seq<Bracket>, b: seq<Bracket>)
    ensures Total(a + b) == Total(a) + Total(b)
  {
    if a == [] {
      assert a + b == b;
    } else {
      assert (a + b)[1..] == a[1..] + b;
      TotalSplit(a[1..], b);
    }
  }

  // A thread leaves the hook it entered last: hooks nest, as when a tick interrupts a fork.
  function Innermost(bs: seq<Bracket>, t: int): (i: int)
    ensures -1 <= i < |bs|
    ensures i >= 0 ==> bs[i].thread == t
    ensures forall k :: i < k < |bs| ==> bs[k].thread != t
  {
    if bs == [] then -1 else if bs[|bs| - 1].thread == t then |bs| - 1 else Innermost(bs[..|bs| - 1], t)
  }

  datatype Event = Enter(t: int, h: Hook) | Exit(t: int, h: Hook)

  function Active(bs: seq<Bracket>, e: Event): seq<Bracket> {
    match e
    case Enter(t, h) => bs + [Bracket(t, h)]
    case Exit(t, _) => var i := Innermost(bs, t); if i < 0 then bs else bs[..i] + bs[i + 1..]
  }
  function ActiveAfter(bs: seq<Bracket>, es: seq<Event>): seq<Bracket>
    decreases |es|
  {
    if es == [] then bs else ActiveAfter(Active(bs, es[0]), es[1..])
  }

  // A run of hooks: a thread only leaves the hook it is innermost in, and never 2^32 run at once.
  ghost predicate Legal(bs: seq<Bracket>, es: seq<Event>)
    decreases |es|
  {
    Few(bs) && (es == [] ||
      ((es[0].Exit? ==> Innermost(bs, es[0].t) >= 0 && bs[Innermost(bs, es[0].t)].hook == es[0].h)
       && Legal(Active(bs, es[0]), es[1..])))
  }

  // Taking one execution off the list takes its weight off the total.
  lemma TotalWithout(bs: seq<Bracket>, i: int)
    requires 0 <= i < |bs|
    ensures Total(bs[..i] + bs[i + 1..]) == Total(bs) - Weight(bs[i].hook)
  {
    TotalSplit(bs[..i], bs[i..]);
    TotalSplit(bs[..i], bs[i + 1..]);
    assert bs == bs[..i] + bs[i..] && bs[i..][1..] == bs[i + 1..];
  }
  lemma TotalWith(bs: seq<Bracket>, b: Bracket)
    ensures Total(bs + [b]) == Total(bs) + Weight(b.hook)
  {
    TotalSplit(bs, [b]);
    assert [b][1..] == [];
  }
  lemma AddWraps(n: int, w: int)
    ensures Wrap64(Wrap64(n) + w) == Wrap64(n + w) && Wrap64(Wrap64(n) - w) == Wrap64(n - w)
  {
    var q := n / P64;
    assert n == q * P64 + Wrap64(n);
    WrapShift(Wrap64(n) + w, q);
    WrapShift(Wrap64(n) - w, q);
    assert n + w == Wrap64(n) + w + q * P64 && n - w == Wrap64(n) - w + q * P64;
  }
  lemma SmallStays(n: int)
    requires 0 <= n < P64
    ensures Wrap64(n) == n
  {
  }

  // Far fewer executions than it would take to wrap the counter.
  predicate Few(bs: seq<Bracket>) { |bs| < 0x1_0000_0000 }

  // The counter is zero exactly when no execution is inside.
  lemma ZeroMeansNobody(bs: seq<Bracket>)
    requires Few(bs)
    ensures Wrap64(Total(bs)) == 0 <==> bs == []
  {
    hide Wrap64, Weight, Total;
    var n := Total(bs);
    assert |bs| <= n <= 104711 * |bs|;
    assert n < P64;
    SmallStays(n);
    if bs == [] { EmptyTotal(); }
  }
  lemma EmptyTotal()
    ensures Total([]) == 0
  {
  }

  /** The counter, with the executions it stands for. */
  class Usage {
    var count: int  // ya_count, as an unsigned 64-bit value
    ghost var inside: seq<Bracket>

    ghost predicate Valid()
      reads this
    {
      count == Wrap64(Total(inside))
    }
    constructor ()
      ensures Valid() && inside == []
    {
      count, inside := 0, [];
    }

    // atomic64_add on the way into a hook.
    method Add(t: int, h: Hook)
      requires Valid()
      modifies this
      ensures Valid() && inside == Active(old(inside), Enter(t, h))
      ensures count == Wrap64(old(count) + Weight(h))
    {
      hide Wrap64, Weight, Total;
      AddWraps(Total(inside), Weight(h));
      TotalWith(inside, Bracket(t, h));
      count := Wrap64(count + Weight(h));
      inside := Active(inside, Enter(t, h));
    }

    // atomic64_sub on the way out of the hook the thread entered last.
    method Sub(t: int, h: Hook)
      requires Valid() && Innermost(inside, t) >= 0 && inside[Innermost(inside, t)].hook == h
      modifies this
      ensures Valid() && inside == Active(old(inside), Exit(t, h))
      ensures count == Wrap64(old(count) - Weight(h))
    {
      hide Wrap64, Weight, Total;
      AddWraps(Total(inside), Weight(h));
      TotalWithout(inside, Innermost(inside, t));
      count := Wrap64(count - Weight(h));
      inside := Active(inside, Exit(t, h));
    }

    // A stretch of hook executions on all processors.
    method Interleave(es: seq<Event>)
      requires Valid() && Legal(inside, es)
      modifies this
      ensures Valid() && Few(inside) && inside == ActiveAfter(old(inside), es)
    {
      hide Wrap64, Weight, Total, Few, Active, Innermost;
      var i := 0;
      while i < |es|
        invariant 0 <= i <= |es|
        invariant Valid() && Legal(inside, es[i..])
        invariant ActiveAfter(inside, es[i..]) == ActiveAfter(old(inside), es)
      {
        assert es[i..][0] == es[i] && es[i..][1..] == es[i + 1..];
        ghost var next := Active(inside, es[i]);
        match es[i] {
          case Enter(t, h) => Add(t, h);
          case Exit(t, h) => Sub(t, h);
        }
        assert inside == next;
        i := i + 1;
      }
    }

    // The wait at the end of remove_inception: naps[k] is what runs during the k-th sleep. It ends
    // at the first poll that finds nobody inside, and runs on while somebody is.
    method Drain(naps: seq<seq<Event>>) returns (done: bool, k: nat)
      requires Valid() && LegalNaps(inside, naps)
      modifies this
      ensures Valid() && k <= |naps| && inside == AfterNaps(old(inside), naps[..k])
      ensures done <==> inside == []
      ensures !done ==> k == |naps|
      ensures forall i :: 0 <= i < k ==> AfterNaps(old(inside), naps[..i]) != []
    {
      hide Wrap64, Weight, Total, Few, Active, Innermost, ActiveAfter, Legal;
      k := 0;
      assert naps[..0] == [];
      while count != 0 && k < |naps|
        invariant k <= |naps|
        invariant Valid() && LegalNaps(inside, naps[k..])
        invariant inside == AfterNaps(old(inside), naps[..k])
        invariant forall i :: 0 <= i < k ==> AfterNaps(old(inside), naps[..i]) != []
        decreases |naps| - k
      {
        ZeroMeansNobody(inside);
        assert naps[k..][0] == naps[k] && naps[k..][1..] == naps[k + 1..];
        AfterNapsStep(old(inside), naps, k);
        Interleave(naps[k]);
        k := k + 1;
      }
      ZeroMeansNobody(inside);
      done := count == 0;
    }
  }

  function AfterNaps(bs: seq<Bracket>, naps: seq<seq<Event>>): seq<Bracket>
    decreases |naps|
  {
    if naps == [] then bs else AfterNaps(ActiveAfter(bs, naps[0]), naps[1..])
  }
  lemma {:induction false} AfterNapsStep(bs: seq<Bracket>, naps: seq<seq<Event>>, k: nat)
    requires k < |naps|
    ensures AfterNaps(bs, naps[..k + 1]) == ActiveAfter(AfterNaps(bs, naps[..k]), naps[k])
    decreases k
  {
    if k == 0 {
      assert naps[..1][1..] == [] && naps[..0] == [];
    } else {
      assert naps[..k + 1][1..] == naps[1..][..k] && naps[..k][1..] == naps[1..][..k - 1];
      AfterNapsStep(ActiveAfter(bs, naps[0]), naps[1..], k - 1);
    }
  }
  ghost predicate LegalNaps(bs: seq<Bracket>, naps: seq<seq<Event>>)
    decreases |naps|
  {
    Few(bs) && (naps == [] || (Legal(bs, naps[0]) && LegalNaps(ActiveAfter(bs, naps[0]), naps[1..])))
  }

  // Over any run of nested hooks the counter is the sum of the weights of those inside, and reads
  // zero exactly when there is none.
  lemma {:induction false} CounterReadsZero(bs: seq<Bracket>, es: seq<Event>)
    requires Legal(bs, es)
    ensures Wrap64(Total(ActiveAfter(bs, es))) == 0 <==> ActiveAfter(bs, es) == []
    decreases |es|
  {
    if es == [] {
      ZeroMeansNobody(bs);
    } else {
      CounterReadsZero(Active(bs, es[0]), es[1..]);
    }
  }
}
