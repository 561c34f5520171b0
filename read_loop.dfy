/**
 * The retry-driven accumulation loop behind `readUntilStringReceived` and
 * `readAllAvailable`, as a state machine driven by the replies the local
 * service gives to successive `read` requests.
 *
 * The loop's state is a retry budget and the text accumulated so far. Each
 * reply to a `read` either ends the loop or issues the next `read`. The
 * replies are a finite sequence, so `RunLoop` terminates on its length; when
 * they run out before the loop has ended, the outcome is `Awaiting`, the
 * state the source would wait in for the next reply (with an empty
 * terminator and a service that always has data, it waits there forever).
 */
module ReadLoop {
  import opened DeviceTypes

  /**
   * Where the loop stands after the replies it was given: it delivered a
   * value, or handed a read error on, or it is waiting for the reply to its
   * latest `read` with the budget and accumulation that read was issued
   * with. `issued` counts the `read` requests issued so far.
   */
  datatype LoopOutcome =
    | Delivered(value: string, issued: nat)
    | Errored(error: string, issued: nat)
    | Awaiting(retries: int, acc: string, issued: nat)

  /** `t` occurs in `s` starting at index `i`. */
  ghost predicate OccursAt(s: string, t: string, i: int)
  {
    0 <= i && i + |t| <= |s| && s[i..i + |t|] == t
  }

  ghost predicate Occurs(s: string, t: string)
  {
    exists i :: OccursAt(s, t, i)
  }

  lemma OccursAtTail(s: string, t: string)
    requires |s| >= 1
    ensures forall i :: 1 <= i ==> (OccursAt(s, t, i) <==> OccursAt(s[1..], t, i - 1))
  {
    forall i | 1 <= i
      ensures OccursAt(s, t, i) <==> OccursAt(s[1..], t, i - 1)
    {
      if i + |t| <= |s| {
        var a, b := s[i..i + |t|], s[1..][i - 1..i - 1 + |t|];
        assert |a| == |b| && forall m :: 0 <= m < |a| ==> a[m] == s[i + m] == b[m];
      }
    }
  }

  /**
   * The string search the loop uses to spot the terminator: the index of the
   * first occurrence of `t` in `s`, or -1 when there is none.
   */
  function IndexOf(s: string, t: string): (r: int)
    ensures -1 <= r
    ensures r >= 0 ==> OccursAt(s, t, r) && forall j :: 0 <= j < r ==> !OccursAt(s, t, j)
    ensures r == -1 <==> !Occurs(s, t)
    decreases |s|
  {
    if |s| < |t| then -1
    else if s[..|t|] == t then 0
    else
      OccursAtTail(s, t);
      var k := IndexOf(s[1..], t);
      if k == -1 then -1 else k + 1
  }

  /** Counts `k` more `read` requests issued before the outcome `o`. */
  function AddReads(o: LoopOutcome, k: nat): (r: LoopOutcome)
  {
    o.(issued := o.issued + k)
  }

  /** What one reply does to the loop: end it with an outcome, or issue the next `read` from a new state. */
  datatype StepResult = Finish(outcome: LoopOutcome) | Next(retries: int, acc: string)

  /**
   * The continuation each `read` of the loop is issued with, applied to that
   * read's reply. A read error ends the loop. A non-empty chunk resets the
   * budget to 0; an empty chunk with the budget spent delivers the
   * accumulation as it was; otherwise the chunk is appended, and the loop
   * delivers if a non-empty terminator now occurs in the accumulation, or
   * issues the next `read` with one less budget.
   */
  function Step(term: string, retries: int, acc: string, reply: Reply): (r: StepResult)
    ensures r.Finish? ==> r.outcome.issued == 1 && !r.outcome.Awaiting?
    ensures reply.Failed? <==> r.Finish? && r.outcome.Errored?
    ensures reply.Failed? ==> r == Finish(Errored(reply.error, 1))
    ensures reply == Done("") && retries <= 0 ==> r == Finish(Delivered(acc, 1))
    ensures r.Finish? && r.outcome.Delivered? ==>
      reply.Done? &&
      ((reply.response == "" && retries <= 0 && r.outcome.value == acc)
       || (term != "" && r.outcome.value == acc + reply.response && Occurs(r.outcome.value, term)))
    ensures r.Next? ==>
      && reply.Done? && (reply.response == "" ==> retries > 0)
      && r.acc == acc + reply.response
      && !(term != "" && Occurs(r.acc, term))
      && r.retries == (if reply.response != "" then -1 else retries - 1)
  {
    match reply
    case Failed(e) => Finish(Errored(e, 1))
    case Done(chunk) =>
      var budget := if chunk != "" then 0 else retries;
      if chunk == "" && retries <= 0 then Finish(Delivered(acc, 1))
      else
        var next := acc + chunk;
        if term != "" && IndexOf(next, term) > -1 then Finish(Delivered(next, 1))
        else Next(budget - 1, next)
  }

  /**
   * The loop, from a `read` issued with budget `retries` and accumulation
   * `acc`, given the replies `rs` to it and to every later `read`.
   */
  function RunLoop(term: string, retries: int, acc: string, rs: seq<Reply>): (o: LoopOutcome)
    ensures 1 <= o.issued <= |rs| + 1
    ensures o.Awaiting? <==> o.issued == |rs| + 1
    decreases |rs|
  {
    if rs == [] then Awaiting(retries, acc, 1)
    else match Step(term, retries, acc, rs[0])
      case Finish(o) => o
      case Next(budget, next) => AddReads(RunLoop(term, budget, next, rs[1..]), 1)
  }

  /** The loop after its `i`-th reply, when that reply did not end it. */
  lemma ContinueStep(term: string, retries: int, acc: string, rs: seq<Reply>, i: nat)
    requires i < |rs| && Step(term, retries, acc, rs[i]).Next?
    ensures var st := Step(term, retries, acc, rs[i]);
      RunLoop(term, retries, acc, rs[i..]) == AddReads(RunLoop(term, st.retries, st.acc, rs[i + 1..]), 1)
  {
    assert rs[i..][1..] == rs[i + 1..];
  }

  lemma AddReadsTwice(o: LoopOutcome, j: nat, k: nat)
    ensures AddReads(AddReads(o, j), k) == AddReads(o, j + k)
  {
  }

  /** The text a sequence of replies carries, errors contributing nothing. */
  function Joined(rs: seq<Reply>): string
  {
    if rs == [] then "" else (if rs[0].Done? then rs[0].response else "") + Joined(rs[1..])
  }

  ghost predicate AllDone(rs: seq<Reply>)
  {
    forall k :: 0 <= k < |rs| ==> rs[k].Done?
  }

  lemma JoinedFront(rs: seq<Reply>, n: nat)
    requires 1 <= n <= |rs| && rs[0].Done?
    ensures Joined(rs[..n]) == rs[0].response + Joined(rs[1..][..n - 1])
    ensures AllDone(rs[..n]) <==> AllDone(rs[1..][..n - 1])
  {
    assert rs[..n][1..] == rs[1..][..n - 1];
  }

  lemma JoinedOne(rs: seq<Reply>)
    requires 1 <= |rs| && rs[0].Done?
    ensures Joined(rs[..1]) == rs[0].response && AllDone(rs[..1])
  {
    JoinedFront(rs, 1);
    assert rs[1..][..0] == [];
  }

  /**
   * The accumulation is always the starting text followed by every chunk
   * read so far, in order: what is delivered is the prefix and every chunk
   * of the replies consumed.
   */
  lemma {:induction false} DeliveredAccumulates(term: string, retries: int, acc: string, rs: seq<Reply>)
    ensures var o := RunLoop(term, retries, acc, rs);
      o.Delivered? ==> o.issued <= |rs| && AllDone(rs[..o.issued]) && o.value == acc + Joined(rs[..o.issued])
    decreases |rs|
  {
    if rs != [] && rs[0].Done? {
      var st := Step(term, retries, acc, rs[0]);
      JoinedOne(rs);
      if st.Next? {
        var o := RunLoop(term, st.retries, st.acc, rs[1..]);
        DeliveredAccumulates(term, st.retries, st.acc, rs[1..]);
        if o.Delivered? {
          JoinedFront(rs, o.issued + 1);
          assert acc + Joined(rs[..o.issued + 1]) == st.acc + Joined(rs[1..][..o.issued]);
        }
      } else if st.outcome.value == acc {
        assert acc + "" == acc;
      }
    }
  }

  /** A read error ends the loop at once, without retry, after replies that all carried data. */
  lemma {:induction false} ErroredAtFailedRead(term: string, retries: int, acc: string, rs: seq<Reply>)
    ensures var o := RunLoop(term, retries, acc, rs);
      o.Errored? ==> o.issued <= |rs| && AllDone(rs[..o.issued - 1]) && rs[o.issued - 1] == Failed(o.error)
    decreases |rs|
  {
    if rs != [] {
      var st := Step(term, retries, acc, rs[0]);
      assert rs[..0] == [];
      if st.Next? {
        var o := RunLoop(term, st.retries, st.acc, rs[1..]);
        ErroredAtFailedRead(term, st.retries, st.acc, rs[1..]);
        if o.Errored? {
          JoinedFront(rs, o.issued);
        }
      }
    }
  }

  /** A loop still waiting has read data from every reply, and accumulated all of it after the prefix. */
  lemma {:induction false} AwaitingAccumulates(term: string, retries: int, acc: string, rs: seq<Reply>)
    ensures var o := RunLoop(term, retries, acc, rs);
      o.Awaiting? ==> AllDone(rs) && o.acc == acc + Joined(rs)
    decreases |rs|
  {
    if rs != [] {
      var st := Step(term, retries, acc, rs[0]);
      if st.Next? {
        var o := RunLoop(term, st.retries, st.acc, rs[1..]);
        AwaitingAccumulates(term, st.retries, st.acc, rs[1..]);
        if o.Awaiting? {
          JoinedFront(rs, |rs|);
          assert rs[..|rs|] == rs && rs[1..][..|rs| - 1] == rs[1..];
        }
      }
    }
  }

  /**
   * With a non-empty terminator the loop stops at the first reply after
   * which the accumulation contains it: after every earlier reply, it did not.
   */
  lemma {:induction false} NoEarlierMatch(term: string, retries: int, acc: string, rs: seq<Reply>, j: nat)
    requires term != ""
    requires 1 <= j < RunLoop(term, retries, acc, rs).issued
    ensures j <= |rs| && AllDone(rs[..j]) && !Occurs(acc + Joined(rs[..j]), term)
    decreases |rs|
  {
    var st := Step(term, retries, acc, rs[0]);
    assert st.Next?;
    JoinedFront(rs, j);
    if j > 1 {
      NoEarlierMatch(term, st.retries, st.acc, rs[1..], j - 1);
      assert acc + Joined(rs[..j]) == st.acc + Joined(rs[1..][..j - 1]);
    } else {
      JoinedOne(rs);
    }
  }

  /**
   * The loop delivers only by one of its two rules: the last reply was empty
   * (with the budget spent), and what is delivered is the accumulation before
   * it; or a non-empty terminator occurs in what is delivered.
   */
  lemma {:induction false} DeliveredByRule(term: string, retries: int, acc: string, rs: seq<Reply>)
    ensures var o := RunLoop(term, retries, acc, rs);
      o.Delivered? ==>
        && o.issued <= |rs|
        && ((rs[o.issued - 1] == Done("") && o.value == acc + Joined(rs[..o.issued - 1]))
            || (term != "" && Occurs(o.value, term)))
    decreases |rs|
  {
    if rs != [] {
      var st := Step(term, retries, acc, rs[0]);
      assert rs[..0] == [];
      if st.Next? {
        var o := RunLoop(term, st.retries, st.acc, rs[1..]);
        DeliveredByRule(term, st.retries, st.acc, rs[1..]);
        if o.Delivered? && rs[1..][o.issued - 1] == Done("") {
          JoinedFront(rs, o.issued);
          assert acc + Joined(rs[..o.issued]) == st.acc + Joined(rs[1..][..o.issued - 1]);
        }
      }
    }
  }

  /** An empty terminator never matches, so `readAllAvailable` delivers only on an empty read. */
  lemma {:induction false} EmptyTerminatorEndsOnEmptyRead(retries: int, acc: string, rs: seq<Reply>)
    ensures var o := RunLoop("", retries, acc, rs);
      o.Delivered? ==> o.issued <= |rs| && rs[o.issued - 1] == Done("")
  {
    DeliveredByRule("", retries, acc, rs);
  }

  function Max0(r: int): nat
  {
    if r <= 0 then 0 else r
  }

  /**
   * With nothing but empty replies (and no terminator already in the
   * starting text), a budget of r issues Max0(r) + 1 reads and then delivers
   * the starting text unchanged; with fewer replies it is still waiting.
   */
  lemma {:induction false} OnlyEmptyReads(term: string, retries: int, acc: string, rs: seq<Reply>)
    requires forall k :: 0 <= k < |rs| ==> rs[k] == Done("")
    requires term == "" || !Occurs(acc, term)
    ensures RunLoop(term, retries, acc, rs) ==
      if |rs| > Max0(retries) then Delivered(acc, Max0(retries) + 1)
      else Awaiting(retries - |rs|, acc, |rs| + 1)
    decreases |rs|
  {
    if rs != [] && retries > 0 {
      assert acc + "" == acc;
      assert Step(term, retries, acc, rs[0]) == Next(retries - 1, acc);
      OnlyEmptyReads(term, retries - 1, acc, rs[1..]);
    }
  }

  /**
   * Once a non-empty chunk has arrived, the next empty reply ends the loop:
   * no retries are made after data.
   */
  lemma {:induction false} NoRetryAfterData(term: string, retries: int, acc: string, rs: seq<Reply>, k: nat)
    requires k + 1 < |rs|
    requires rs[k].Done? && rs[k].response != "" && rs[k + 1] == Done("")
    ensures RunLoop(term, retries, acc, rs).issued <= k + 2
    decreases k
  {
    var st := Step(term, retries, acc, rs[0]);
    if st.Next? {
      if k > 0 {
        NoRetryAfterData(term, st.retries, st.acc, rs[1..], k - 1);
      } else {
        assert rs[1..][0] == Done("");
        assert Step(term, st.retries, st.acc, rs[1..][0]).Finish?;
      }
    }
  }

  lemma {:induction false} SpentBudgetStaysSpent(term: string, retries: int, acc: string, rs: seq<Reply>)
    requires retries <= 0 && rs != []
    ensures var o := RunLoop(term, retries, acc, rs); o.Awaiting? ==> o.retries == -1
    decreases |rs|
  {
    var st := Step(term, retries, acc, rs[0]);
    if st.Next? && |rs| > 1 {
      SpentBudgetStaysSpent(term, st.retries, st.acc, rs[1..]);
    }
  }

  /**
   * Once a non-empty chunk has arrived, the budget is spent for good: a loop
   * still waiting afterwards waits with budget -1.
   */
  lemma {:induction false} DataSpendsBudget(term: string, retries: int, acc: string, rs: seq<Reply>, k: nat)
    requires k < |rs| && rs[k].Done? && rs[k].response != ""
    ensures var o := RunLoop(term, retries, acc, rs); o.Awaiting? ==> o.retries == -1
    decreases k
  {
    var st := Step(term, retries, acc, rs[0]);
    if st.Next? {
      if k > 0 {
        DataSpendsBudget(term, st.retries, st.acc, rs[1..], k - 1);
      } else if |rs| > 1 {
        SpentBudgetStaysSpent(term, st.retries, st.acc, rs[1..]);
      }
    }
  }

  /**
   * With an empty terminator and a service that always has data, the loop
   * never delivers: it keeps reading, having accumulated everything.
   */
  lemma {:induction false} EndlessDataNeverDelivers(retries: int, acc: string, rs: seq<Reply>)
    requires forall k :: 0 <= k < |rs| ==> rs[k].Done? && rs[k].response != ""
    ensures RunLoop("", retries, acc, rs) ==
      Awaiting(if rs == [] then retries else -1, acc + Joined(rs), |rs| + 1)
    decreases |rs|
  {
    if rs != [] {
      assert Step("", retries, acc, rs[0]) == Next(-1, acc + rs[0].response);
      EndlessDataNeverDelivers(-1, acc + rs[0].response, rs[1..]);
    }
  }

  lemma NoTerminatorInAb()
    ensures IndexOf("ab", "X") == -1
  {
    assert "ab"[..1] != "X" by { assert "ab"[..1][0] == 'a'; }
    assert "ab"[1..] == "b" && "b"[1..] == "";
    assert "b"[..1] != "X" by { assert "b"[..1][0] == 'b'; }
    assert IndexOf("", "X") == -1;
    assert IndexOf("b", "X") == -1;
  }

  lemma TerminatorInAbcX()
    ensures IndexOf("abcX", "X") > -1
  {
    assert OccursAt("abcX", "X", 3);
  }

  /** Replies "ab", "cX", "" with terminator "X": "abcX" is delivered after two reads; the third is never issued. */
  lemma TerminatorExample()
    ensures RunLoop("X", 2, "", [Done("ab"), Done("cX"), Done("")]) == Delivered("abcX", 2)
  {
    var rs := [Done("ab"), Done("cX"), Done("")];
    NoTerminatorInAb();
    TerminatorInAbcX();
    assert "" + "ab" == "ab" && "ab" + "cX" == "abcX";
    assert Step("X", 2, "", rs[0]) == Next(-1, "ab");
    assert Step("X", -1, "ab", rs[1]) == Finish(Delivered("abcX", 1));
    assert rs[1..][0] == rs[1];
  }

  /** Replies "data1", "data2", "" with an empty terminator: everything is delivered on the empty read. */
  lemma ReadAllExample()
    ensures RunLoop("", 0, "", [Done("data1"), Done("data2"), Done("")]) == Delivered("data1data2", 3)
  {
  }

  /** Three empty replies with budget 2: three reads, then the empty prefix is delivered. */
  lemma EmptyRepliesExample(term: string)
    ensures RunLoop(term, 2, "", [Done(""), Done(""), Done("")]) == Delivered("", 3)
  {
  }

  /** The `read` requests a loop issues: `n` of them, each carrying the public projection. */
  function Reads(device: DeviceFields, n: nat): (es: seq<Event>)
    ensures |es| == n
    ensures forall k :: 0 <= k < n ==> es[k] == Posted(ReadEndpoint, DeviceEnvelope(device))
  {
    seq(n, _ => Posted(ReadEndpoint, DeviceEnvelope(device)))
  }

  lemma ReadsSnoc(device: DeviceFields, n: nat)
    ensures Reads(device, n) + [Posted(ReadEndpoint, DeviceEnvelope(device))] == Reads(device, n + 1)
  {
    var a, b := Reads(device, n) + [Posted(ReadEndpoint, DeviceEnvelope(device))], Reads(device, n + 1);
    assert |a| == |b| && forall m :: 0 <= m < |a| ==> a[m] == b[m];
  }

  /**
   * How a loop with outcome `o` ends: the finished callback with the
   * delivered value or the error callback with the read error, exactly once;
   * nothing while it is waiting.
   */
  function Final(o: LoopOutcome, onFinished: Callback, onError: Callback): (es: seq<Event>)
    ensures |es| == if o.Awaiting? then 0 else 1
    ensures o.Delivered? ==> es == [Called(onFinished, o.value)]
    ensures o.Errored? ==> es == [Called(onError, o.error)]
  {
    match o
    case Delivered(v, _) => [Called(onFinished, v)]
    case Errored(e, _) => [Called(onError, e)]
    case Awaiting(_, _, _) => []
  }

  /** The events of a loop with outcome `o`: its `read` requests, then how it ended. */
  function LoopTrace(device: DeviceFields, o: LoopOutcome, onFinished: Callback, onError: Callback): (es: seq<Event>)
    ensures |es| == if o.Awaiting? then o.issued else o.issued + 1
    ensures forall k :: 0 <= k < o.issued ==> es[k] == Posted(ReadEndpoint, DeviceEnvelope(device))
    ensures o.Delivered? ==> es[o.issued] == Called(onFinished, o.value)
    ensures o.Errored? ==> es[o.issued] == Called(onError, o.error)
    ensures !ReadIssued(es[o.issued..])
  {
    Reads(device, o.issued) + Final(o, onFinished, onError)
  }
}
