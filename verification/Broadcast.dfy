/** A bounded broadcast channel: every sent event is logged, the last `cap` are retained,
    and each receiver reads at its own position. A receiver that falls further behind than
    `cap` is told so and resumes at the oldest retained event. */
module Broadcast {
  import opened Prelude

  /** Events received without a gap, starting at log position `from`. */
  datatype Stretch<E> = Stretch(from: nat, events: seq<E>)

  /** A receiver: where it subscribed, its next log position, and what it has received, one
      stretch per lag. */
  datatype Sub<E> = Sub(start: nat, pos: nat, stretches: seq<Stretch<E>>)

  function Subscribe<E>(log: seq<E>): Sub<E> {
    Sub(|log|, |log|, [Stretch(|log|, [])])
  }

  /** One `recv`: nothing yet, a lag, or the next event. */
  function Recv<E>(log: seq<E>, cap: nat, s: Sub<E>): Sub<E>
    requires s.stretches != []
  {
    if s.pos >= |log| then s
    else if |log| - s.pos > cap then
      Sub(s.start, |log| - cap, s.stretches + [Stretch(|log| - cap, [])])
    else
      var n := |s.stretches| - 1;
      var last := s.stretches[n];
      Sub(s.start, s.pos + 1, s.stretches[n := Stretch(last.from, last.events + [log[s.pos]])])
  }

  function EndOf<E>(t: Stretch<E>): nat {
    t.from + |t.events|
  }

  /** Everything received, in order. */
  function Received<E>(s: seq<Stretch<E>>): seq<E> {
    if s == [] then [] else s[0].events + Received(s[1..])
  }

  predicate InLog<E(==)>(log: seq<E>, t: Stretch<E>) {
    EndOf(t) <= |log| && t.events == log[t.from..EndOf(t)]
  }

  /** A receiver's stretches are stretches of the log, in order, each after a real gap. */
  predicate SubInv<E(==)>(log: seq<E>, s: Sub<E>) {
    && s.stretches != [] && s.stretches[0].from == s.start
    && EndOf(s.stretches[|s.stretches| - 1]) == s.pos <= |log|
    && (forall i :: 0 <= i < |s.stretches| ==> InLog(log, s.stretches[i]))
    && (forall i, j :: 0 <= i < j < |s.stretches| ==> EndOf(s.stretches[i]) < s.stretches[j].from)
  }

  lemma SubscribeInv<E>(log: seq<E>)
    ensures SubInv(log, Subscribe(log))
  {
  }

  /** Sending never disturbs a receiver. */
  lemma SendInv<E>(log: seq<E>, more: seq<E>, s: Sub<E>)
    requires SubInv(log, s)
    ensures SubInv(log + more, s)
  {
  }

  /** Adding a stretch after a gap. */
  lemma LagInv<E>(log: seq<E>, s: Sub<E>, pos: nat)
    requires SubInv(log, s) && s.pos < pos <= |log|
    ensures SubInv(log, Sub(s.start, pos, s.stretches + [Stretch(pos, [])]))
  {
  }

  /** Growing the last stretch by the next event. */
  lemma NextInv<E>(log: seq<E>, s: Sub<E>)
    requires SubInv(log, s) && s.pos < |log|
    ensures var n := |s.stretches| - 1;
            var t := Stretch(s.stretches[n].from, s.stretches[n].events + [log[s.pos]]);
            SubInv(log, Sub(s.start, s.pos + 1, s.stretches[n := t]))
  {
  }

  lemma RecvInv<E>(log: seq<E>, cap: nat, s: Sub<E>)
    requires SubInv(log, s)
    ensures SubInv(log, Recv(log, cap, s))
  {
    if s.pos < |log| {
      if |log| - s.pos > cap {
        LagInv(log, s, |log| - cap);
      } else {
        NextInv(log, s);
      }
    }
  }

  lemma RecvKeepsStart<E>(log: seq<E>, cap: nat, s: Sub<E>)
    requires s.stretches != []
    ensures Recv(log, cap, s).start == s.start
  {
  }

  lemma {:induction false} ReceivedSnoc<E>(s: seq<Stretch<E>>, t: Stretch<E>)
    ensures Received(s + [t]) == Received(s) + t.events
  {
    if s == [] {
      assert [] + [t] == [t] && [t][1..] == [];
    } else {
      assert (s + [t])[1..] == s[1..] + [t];
      ReceivedSnoc(s[1..], t);
    }
  }

  lemma SplitLast<E>(s: Sub<E>) returns (before: seq<Stretch<E>>, last: Stretch<E>)
    requires s.stretches != []
    ensures s.stretches == before + [last] && |before| == |s.stretches| - 1
    ensures Received(s.stretches) == Received(before) + last.events
  {
    var n := |s.stretches| - 1;
    before, last := s.stretches[..n], s.stretches[n];
    assert s.stretches == before + [last];
    ReceivedSnoc(before, last);
  }

  /** One receive: nothing at the end of the log; the next event if it is among the last `cap`;
      otherwise nothing but a jump to the oldest of those, which opens another stretch. */
  lemma RecvIs<E>(log: seq<E>, cap: nat, s: Sub<E>)
    requires s.stretches != [] && s.pos <= |log|
    ensures var t := Recv(log, cap, s);
            && (s.pos == |log| ==> t == s)
            && (s.pos < |log| <= s.pos + cap ==>
                  && t.pos == s.pos + 1 && |t.stretches| == |s.stretches|
                  && Received(t.stretches) == Received(s.stretches) + [log[s.pos]])
            && (s.pos + cap < |log| ==>
                  && t.pos == |log| - cap && |t.stretches| == |s.stretches| + 1
                  && Received(t.stretches) == Received(s.stretches))
  {
    hide Received;
    if s.pos < |log| <= s.pos + cap {
      var before, last := SplitLast(s);
      var t := Stretch(last.from, last.events + [log[s.pos]]);
      ReceivedSnoc(before, t);
      AppendAssoc(Received(before), last.events, [log[s.pos]]);
      assert s.stretches[|before| := t] == before + [t];
    } else if s.pos + cap < |log| {
      ReceivedSnoc(s.stretches, Stretch(|log| - cap, []));
      assert Received(s.stretches) + [] == Received(s.stretches);
    }
  }

  /** `n` receives in a row. */
  function RecvTimes<E>(log: seq<E>, cap: nat, s: Sub<E>, n: nat): Sub<E>
    requires SubInv(log, s)
    decreases n
  {
    if n == 0 then s
    else
      RecvInv(log, cap, s);
      RecvTimes(log, cap, Recv(log, cap, s), n - 1)
  }

  lemma SliceCons<E>(s: seq<E>, i: nat, j: nat)
    requires i < j <= |s|
    ensures [s[i]] + s[i + 1..j] == s[i..j]
  {
  }

  /** A receiver that is not too far behind gets all that is left, in order, one at a time. */
  lemma {:induction false} CatchesUp<E>(log: seq<E>, cap: nat, s: Sub<E>, n: nat)
    requires SubInv(log, s) && n <= |log| - s.pos <= cap
    ensures Received(RecvTimes(log, cap, s, n).stretches) == Received(s.stretches) + log[s.pos..s.pos + n]
    ensures RecvTimes(log, cap, s, n).pos == s.pos + n
    decreases n
  {
    assert s.stretches != [];
    hide Recv, Received, SubInv;
    if n == 0 {
      assert Received(s.stretches) + log[s.pos..s.pos + 0] == Received(s.stretches);
    } else {
      RecvIs(log, cap, s);
      var t := Recv(log, cap, s);
      RecvInv(log, cap, s);
      CatchesUp(log, cap, t, n - 1);
      SliceCons(log, s.pos, s.pos + n);
      AppendAssoc(Received(s.stretches), [log[s.pos]], log[s.pos + 1..s.pos + n]);
    }
  }

  /** With no lag there is one stretch, and it is everything since the subscription. */
  lemma NoLagIsContiguous<E>(log: seq<E>, s: Sub<E>)
    requires SubInv(log, s) && |s.stretches| == 1
    ensures Received(s.stretches) == log[s.start..s.pos]
  {
  }

  // ---- subsequences ------------------------------------------------------------------------

  /** `sub` is `full` with some elements left out. */
  predicate IsSubsequence<E(==)>(sub: seq<E>, full: seq<E>)
    decreases |full|
  {
    sub == [] ||
    (full != [] && (IsSubsequence(sub, full[1..]) || (sub[0] == full[0] && IsSubsequence(sub[1..], full[1..]))))
  }

  lemma EmptySubsequence<E>(full: seq<E>)
    ensures IsSubsequence([], full)
  {
  }

  lemma {:induction false} SubsequenceSkip<E>(sub: seq<E>, skip: seq<E>, full: seq<E>)
    requires IsSubsequence(sub, full)
    ensures IsSubsequence(sub, skip + full)
    decreases |skip|
  {
    if skip == [] {
      assert skip + full == full;
    } else {
      assert (skip + full)[1..] == skip[1..] + full;
      SubsequenceSkip(sub, skip[1..], full);
    }
  }

  lemma {:induction false} SubsequenceKeep<E>(keep: seq<E>, sub: seq<E>, full: seq<E>)
    requires IsSubsequence(sub, full)
    ensures IsSubsequence(keep + sub, keep + full)
    decreases |keep|
  {
    if keep == [] {
      assert keep + sub == sub && keep + full == full;
    } else {
      assert (keep + full)[1..] == keep[1..] + full && (keep + sub)[1..] == keep[1..] + sub;
      SubsequenceKeep(keep[1..], sub, full);
    }
  }

  lemma {:induction false} SubsequenceAppend<E>(a: seq<E>, x: seq<E>, b: seq<E>, y: seq<E>)
    requires IsSubsequence(a, x) && IsSubsequence(b, y)
    ensures IsSubsequence(a + b, x + y)
    decreases |x|
  {
    if a == [] {
      assert a + b == b;
      SubsequenceSkip(b, x, y);
    } else {
      assert (x + y)[1..] == x[1..] + y;
      if IsSubsequence(a, x[1..]) {
        SubsequenceAppend(a, x[1..], b, y);
      } else {
        SubsequenceAppend(a[1..], x[1..], b, y);
        assert (a + b)[1..] == a[1..] + b;
      }
    }
  }

  lemma {:induction false} SubsequenceIn<E>(sub: seq<E>, full: seq<E>, e: E)
    requires IsSubsequence(sub, full) && e in sub
    ensures e in full
    decreases |full|
  {
    if IsSubsequence(sub, full[1..]) {
      SubsequenceIn(sub, full[1..], e);
    } else if e != sub[0] {
      assert e in sub[1..];
      SubsequenceIn(sub[1..], full[1..], e);
    }
  }

  lemma {:induction false} EverySubsequence<E>(s: seq<E>)
    ensures IsSubsequence(s, s)
  {
    if s != [] {
      EverySubsequence(s[1..]);
    }
  }

  lemma {:induction false} SubsequenceTwice<E>(a: seq<E>, b: seq<E>, c: seq<E>)
    requires IsSubsequence(a, b) && IsSubsequence(b, c)
    ensures IsSubsequence(a, c)
    decreases |c|
  {
    if a != [] {
      if IsSubsequence(b, c[1..]) {
        SubsequenceTwice(a, b, c[1..]);
      } else if IsSubsequence(a, b[1..]) {
        SubsequenceTwice(a, b[1..], c[1..]);
      } else {
        SubsequenceTwice(a[1..], b[1..], c[1..]);
      }
    }
  }

  lemma {:induction false} SubsequencePrefix<E>(sub: seq<E>, full: seq<E>, n: nat)
    requires IsSubsequence(sub, full) && n <= |sub|
    ensures IsSubsequence(sub[..n], full)
    decreases |full|
  {
    if n > 0 {
      if IsSubsequence(sub, full[1..]) {
        SubsequencePrefix(sub, full[1..], n);
      } else {
        SubsequencePrefix(sub[1..], full[1..], n - 1);
        assert sub[..n][1..] == sub[1..][..n - 1];
      }
    }
  }

  lemma {:induction false} StretchesAreSubsequence<E>(log: seq<E>, s: seq<Stretch<E>>, from: nat)
    requires from <= |log|
    requires forall i :: 0 <= i < |s| ==> InLog(log, s[i]) && from <= s[i].from
    requires forall i, j :: 0 <= i < j < |s| ==> EndOf(s[i]) < s[j].from
    ensures IsSubsequence(Received(s), log[from..])
    decreases |s|
  {
    hide IsSubsequence;
    if s == [] {
      EmptySubsequence(log[from..]);
    } else {
      var t := s[0];
      assert InLog(log, t);
      StretchesAreSubsequence(log, s[1..], EndOf(t));
      SubsequenceKeep(t.events, Received(s[1..]), log[EndOf(t)..]);
      assert t.events + log[EndOf(t)..] == log[t.from..];
      SubsequenceSkip(Received(s), log[from..t.from], log[t.from..]);
      assert log[from..t.from] + log[t.from..] == log[from..];
    }
  }

  /** Whatever it missed, a receiver sees a subsequence of what was sent since it subscribed. */
  lemma ReceivedIsSubsequence<E>(log: seq<E>, s: Sub<E>)
    requires SubInv(log, s)
    ensures s.start <= |log| && IsSubsequence(Received(s.stretches), log[s.start..])
  {
    assert InLog(log, s.stretches[0]);
    StretchesAreSubsequence(log, s.stretches, s.start);
  }
}
