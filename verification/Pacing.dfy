/** The send schedule of the kernel-UDP closed loop (src/transport/udp.rs): a query is
    sent when the clock has reached `next_send`, which then advances by one step; a
    loop that fell behind may catch up, but one more than 2 ms behind starts over. */
module Pacing {
  import opened Machine

  const CATCH_UP_NS: nat := 2_000_000

  /** One send: when it was due, when it went out, the clock reading after it, and when the
      next one is due. */
  datatype Send = Send(due: nat, at: nat, read: nat, next: nat)

  /** The next one is due a step later, unless that was more than 2 ms ago already. */
  ghost predicate Timely(s: Send, step: nat) {
    && s.due <= s.at <= s.read
    && s.next == if s.due + step + 2_000_000 < s.read then s.read else s.due + step
  }

  /** The sends made at one fixed rate since `start`, oldest first. */
  ghost predicate Paced(sends: seq<Send>, step: nat, start: nat, nextSend: nat) {
    && (forall i :: 0 <= i < |sends| ==> Timely(sends[i], step))
    && (forall i :: 0 < i < |sends| ==> sends[i].due == sends[i - 1].next)
    && (if sends == [] then nextSend == start else sends[0].due == start && sends[|sends| - 1].next == nextSend)
  }

  lemma PacedSnoc(sends: seq<Send>, step: nat, start: nat, nextSend: nat, send: Send)
    requires Paced(sends, step, start, nextSend) && Timely(send, step) && send.due == nextSend
    ensures Paced(sends + [send], step, start, send.next)
  {
  }

  lemma {:induction false} DueSpacing(sends: seq<Send>, step: nat, start: nat, nextSend: nat, i: nat, j: nat)
    requires Paced(sends, step, start, nextSend) && i <= j < |sends|
    ensures sends[j].due >= sends[i].due + (j - i) * step
    decreases j - i
  {
    if i < j {
      DueSpacing(sends, step, start, nextSend, i, j - 1);
      assert Timely(sends[j - 1], step) && sends[j].due == sends[j - 1].next;
      assert (j - i) * step == (j - 1 - i) * step + step;
    } else {
      assert (j - i) * step == 0;
    }
  }

  /** Over a whole run: the k-th send is at least (k - 1) steps after the start, so a
      run of length `t` at a fixed rate makes at most t / step + 1 sends. */
  lemma RunBound(sends: seq<Send>, step: nat, start: nat, nextSend: nat, t: nat)
    requires Paced(sends, step, start, nextSend) && step > 0 && sends != []
    requires sends[|sends| - 1].at <= start + t
    ensures |sends| <= t / step + 1
  {
    var n := |sends| - 1;
    DueSpacing(sends, step, start, nextSend, 0, n);
    assert Timely(sends[n], step);
    QuotientAtLeast(t, step, n);
  }

  /** In any window of length `l`, whatever the stalls and catch-ups before and in it:
      at most (l + 2 ms) / step + 2 sends. */
  lemma WindowBound(sends: seq<Send>, step: nat, start: nat, nextSend: nat, i: nat, j: nat, l: nat)
    requires Paced(sends, step, start, nextSend) && step > 0 && i <= j < |sends|
    requires sends[j].at <= sends[i].at + l
    ensures j - i + 1 <= (l + CATCH_UP_NS) / step + 2
  {
    assert Timely(sends[i], step) && Timely(sends[j], step);
    assert sends[i].at <= sends[i].next + CATCH_UP_NS;
    if i < j {
      DueSpacing(sends, step, start, nextSend, i + 1, j);
      assert sends[i + 1].due == sends[i].next;
      QuotientAtLeast(l + CATCH_UP_NS, step, j - i - 1);
    }
  }

  // ---- The rate is reached ----------------------------------------------------------------

  /** No send was followed by a stall of more than 2 ms. */
  ghost predicate NoStall(sends: seq<Send>, step: nat) {
    forall i :: 0 <= i < |sends| ==> sends[i].read <= sends[i].due + step + 2_000_000
  }

  /** Without a stall the k-th send (from 0) is due exactly k steps after the start, however
      late it went out. */
  lemma {:induction false} DueExactly(sends: seq<Send>, step: nat, start: nat, nextSend: nat, k: nat)
    requires Paced(sends, step, start, nextSend) && NoStall(sends, step) && k <= |sends|
    ensures (if k < |sends| then sends[k].due else nextSend) == start + k * step
    decreases k
  {
    if k > 0 {
      DueExactly(sends, step, start, nextSend, k - 1);
      assert Timely(sends[k - 1], step) && sends[k - 1].read <= sends[k - 1].due + step + 2_000_000;
      assert k * step == (k - 1) * step + step;
    }
  }

  /** So a worker that at time `t` has nothing left to send has made all the sends that the
      rate asks for until then. */
  lemma RateReached(sends: seq<Send>, step: nat, start: nat, nextSend: nat, t: nat)
    requires Paced(sends, step, start, nextSend) && NoStall(sends, step) && step > 0 && start <= t < nextSend
    ensures |sends| >= (t - start) / step + 1
  {
    DueExactly(sends, step, start, nextSend, |sends|);
    QuotientBelow(t - start, step, |sends|);
  }

  /** With the bound from above: exactly as many. */
  lemma RateExact(sends: seq<Send>, step: nat, start: nat, nextSend: nat, t: nat)
    requires Paced(sends, step, start, nextSend) && NoStall(sends, step) && step > 0 && start <= t < nextSend
    requires sends != [] && sends[|sends| - 1].at <= t
    ensures |sends| == (t - start) / step + 1
  {
    RateReached(sends, step, start, nextSend, t);
    RunBound(sends, step, start, nextSend, t - start);
  }

  lemma QuotientBelow(a: nat, b: nat, k: nat)
    requires b > 0 && a < k * b
    ensures a / b + 1 <= k
  {
    assert a == b * (a / b) + a % b;
    var d := k - a / b;
    assert b * d == k * b - b * (a / b);
    MulSign(b, d);
  }

  lemma QuotientAtLeast(a: nat, b: nat, k: nat)
    requires b > 0 && k * b <= a
    ensures k <= a / b
  {
    var d := a / b + 1 - k;
    assert a < b * (a / b) + b by { assert a == b * (a / b) + a % b; }
    assert b * d == b * (a / b) + b - k * b;
    MulSign(b, d);
  }
}
