/**
 The discipline both socket transports keep with events raised while nothing is
 connected: buffer in order, give up only the oldest, and only when full.
 */
module Outbox {
  import opened Common

  /** Events accepted so far, which of them were given up, which reached a connection
      and which are still waiting. */
  datatype Ledger<M> = Ledger(accepted: seq<M>, lost: set<nat>, wire: seq<M>, outbox: seq<M>)

  function Nothing<M>(): Ledger<M> {
    Ledger([], {}, [], [])
  }

  /** Even a buffer sized zero holds the event just pushed. */
  function Capacity(maxOutbox: nat): nat {
    if maxOutbox == 0 then 1 else maxOutbox
  }

  /** A full buffer gives up its oldest event first. */
  function Pushed<M>(outbox: seq<M>, m: M, maxOutbox: nat): seq<M> {
    (if |outbox| >= maxOutbox && |outbox| > 0 then outbox[1..] else outbox) + [m]
  }

  function Queue<M>(l: Ledger<M>, m: M, maxOutbox: nat): Ledger<M> {
    var oldest := |l.accepted| - |l.outbox|;
    l.(accepted := l.accepted + [m],
       outbox := Pushed(l.outbox, m, maxOutbox),
       lost := if |l.outbox| >= maxOutbox && |l.outbox| > 0 && oldest >= 0 then l.lost + {oldest} else l.lost)
  }

  function Hand<M>(l: Ledger<M>, m: M): Ledger<M> {
    l.(accepted := l.accepted + [m], wire := l.wire + [m])
  }

  function Flushed<M>(l: Ledger<M>): Ledger<M> {
    l.(wire := l.wire + l.outbox, outbox := [])
  }

  /** The first `n` accepted events without those given up. */
  function Kept<M>(accepted: seq<M>, lost: set<nat>, n: nat): seq<M>
    requires n <= |accepted|
  {
    if n == 0 then []
    else Kept(accepted, lost, n - 1) + if n - 1 in lost then [] else [accepted[n - 1]]
  }

  /** What reached connections, then what is waiting, is what was accepted less what
      was given up, in order. */
  ghost predicate Fair<M>(l: Ledger<M>) {
    && |l.outbox| <= |l.accepted|
    && var settled := |l.accepted| - |l.outbox|;
       && l.outbox == l.accepted[settled..]
       && (forall i :: i in l.lost ==> i < settled)
       && l.wire == Kept(l.accepted, l.lost, settled)
  }

  lemma {:induction false} KeptStays<M>(accepted: seq<M>, lost: set<nat>, n: nat, more: seq<M>, gone: set<nat>)
    requires n <= |accepted| && forall i :: i in gone ==> n <= i
    ensures Kept(accepted + more, lost + gone, n) == Kept(accepted, lost, n)
  {
    if n > 0 {
      KeptStays(accepted, lost, n - 1, more, gone);
    }
  }

  lemma {:induction false} KeptAll<M>(accepted: seq<M>, lost: set<nat>, from: nat, n: nat)
    requires from <= n <= |accepted| && forall i :: i in lost ==> i < from
    ensures Kept(accepted, lost, n) == Kept(accepted, lost, from) + accepted[from..n]
  {
    if from < n {
      KeptAll(accepted, lost, from, n - 1);
      assert accepted[from..n] == accepted[from..n - 1] + [accepted[n - 1]];
    }
  }

  /** Wire and buffer together: exactly the accepted events not given up. */
  lemma FairMeans<M>(l: Ledger<M>)
    requires Fair(l)
    ensures l.wire + l.outbox == Kept(l.accepted, l.lost, |l.accepted|)
  {
    KeptAll(l.accepted, l.lost, |l.accepted| - |l.outbox|, |l.accepted|);
  }

  lemma QueueFair<M>(l: Ledger<M>, m: M, maxOutbox: nat)
    requires Fair(l) && |l.outbox| <= Capacity(maxOutbox)
    ensures Fair(Queue(l, m, maxOutbox))
    ensures |Queue(l, m, maxOutbox).outbox| <= Capacity(maxOutbox)
  {
    var settled := |l.accepted| - |l.outbox|;
    var z := Queue(l, m, maxOutbox);
    if |l.outbox| >= maxOutbox && |l.outbox| > 0 {
      KeptStays(l.accepted, l.lost, settled, [m], {settled});
      assert l.outbox[1..] == l.accepted[settled + 1..];
    } else {
      KeptStays(l.accepted, l.lost, settled, [m], {});
      assert l.lost + {} == l.lost;
    }
  }

  /** Straight onto a connection, which keeps order because nothing is waiting. */
  lemma HandFair<M>(l: Ledger<M>, m: M)
    requires Fair(l) && l.outbox == []
    ensures Fair(Hand(l, m))
  {
    KeptStays(l.accepted, l.lost, |l.accepted|, [m], {});
    assert l.lost + {} == l.lost;
  }

  lemma FlushFair<M>(l: Ledger<M>)
    requires Fair(l)
    ensures Fair(Flushed(l))
  {
    FairMeans(l);
  }

  /** Events pushed one after another while nothing is connected. */
  function Outage<M>(outbox: seq<M>, ms: seq<M>, maxOutbox: nat): seq<M>
    decreases |ms|
  {
    if ms == [] then outbox else Outage(Pushed(outbox, ms[0], maxOutbox), ms[1..], maxOutbox)
  }

  function Newest<M>(ms: seq<M>, n: nat): seq<M> {
    if |ms| <= n then ms else ms[|ms| - n..]
  }

  /** However long the outage, the newest events are the ones kept. */
  lemma {:induction false} OutageKeepsNewest<M>(outbox: seq<M>, ms: seq<M>, maxOutbox: nat)
    requires |outbox| <= Capacity(maxOutbox)
    ensures Outage(outbox, ms, maxOutbox) == Newest(outbox + ms, Capacity(maxOutbox))
    decreases |ms|
  {
    if ms == [] {
      assert outbox + ms == outbox;
    } else {
      OutageKeepsNewest(Pushed(outbox, ms[0], maxOutbox), ms[1..], maxOutbox);
      assert outbox + ms == (outbox + [ms[0]]) + ms[1..];
    }
  }
}
