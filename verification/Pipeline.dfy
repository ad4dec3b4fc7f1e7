/**
 The monitor's main loop: every line read from the log goes through a cheap
 `sshd` substring test and then through `parse_log_line`, which may call
 `send_notification`. The state carried from line to line is the dedup cache
 and, for the proofs, the list of delivery attempts made so far.
 */
module Pipeline {
  import opened Text
  import opened Events
  import opened Classifier
  import opened Config
  import opened Notify

  /** The dedup cache and every attempt made so far, oldest first. */
  datatype State = State(seen: set<string>, sent: seq<Delivery>)

  /** The cache starts empty at process start. */
  const Start: State := State({}, [])

  /** The attempt made for event `e` as attempt number `n`: its key, its request and the answer to it. */
  function Attempt(cfg: Settings, e: Event, net: (nat, Request) -> Reply, n: nat): Delivery {
    Delivery(Key(e), MakeRequest(cfg, e), OutcomeOf(net(n, MakeRequest(cfg, e))))
  }

  /**
   `send_notification` on the loop's state: the cache check and insert, and
   for a new key one attempt appended, numbered by the attempts made before.
   A key already cached leaves the state exactly as it was.
   */
  function Deliver(cfg: Settings, st: State, e: Event, net: (nat, Request) -> Reply): (r: State)
    ensures Key(e) in r.seen
    ensures |st.sent| <= |r.sent| <= |st.sent| + 1
    ensures forall i :: 0 <= i < |st.sent| ==> r.sent[i] == st.sent[i]
    ensures |r.sent| == |st.sent| <==> Key(e) in st.seen
    ensures Key(e) in st.seen ==> r == st
    ensures Key(e) !in st.seen ==>
      && r.seen == st.seen + {Key(e)}
      && r.sent[|st.sent|] == Attempt(cfg, e, net, |st.sent|)
  {
    var n := SendNotification(cfg, st.seen, e, net, |st.sent|);
    match n.attempt
    case None => State(n.seen, st.sent)
    case Some(d) => State(n.seen, st.sent + [d])
  }

  /** One call of `parse_log_line`: classify the line and hand an event to `send_notification`. */
  function ParseLogLine(cfg: Settings, st: State, line: string, net: (nat, Request) -> Reply): (r: State)
    ensures Classify(cfg.events, line).None? ==> r == st
    ensures Classify(cfg.events, line).Some? ==> Key(Classify(cfg.events, line).value) in r.seen
    ensures st.seen <= r.seen && |st.sent| <= |r.sent| <= |st.sent| + 1
  {
    match Classify(cfg.events, line)
    case None => st
    case Some(e) => Deliver(cfg, st, e, net)
  }

  /** One line of the loop: lines without `sshd` are dropped before parsing. */
  function Step(cfg: Settings, st: State, line: string, net: (nat, Request) -> Reply): (r: State)
    ensures !Contains(line, "sshd") ==> r == st
    ensures st.seen <= r.seen && |st.sent| <= |r.sent| <= |st.sent| + 1
  {
    if Contains(line, "sshd") then ParseLogLine(cfg, st, line, net) else st
  }

  /** The loop over the lines read, in order. */
  function Run(cfg: Settings, st: State, lines: seq<string>, net: (nat, Request) -> Reply): (r: State)
    ensures st.seen <= r.seen
    ensures |st.sent| <= |r.sent| && r.sent[..|st.sent|] == st.sent
    decreases |lines|
  {
    if |lines| == 0 then st else Run(cfg, Step(cfg, st, lines[0], net), lines[1..], net)
  }

  /** The `sshd` pre-filter only saves work: parsing such a line would do nothing either. */
  lemma StepIsParse(cfg: Settings, st: State, line: string, net: (nat, Request) -> Reply)
    ensures Step(cfg, st, line, net) == ParseLogLine(cfg, st, line, net)
  {
    if !Contains(line, "sshd") {
      NoMarkerNoEvent(cfg.events, line);
    }
  }

  /** A step never rewrites an earlier attempt: it can only add one at the end. */
  lemma StepKeepsEarlier(cfg: Settings, st: State, line: string, net: (nat, Request) -> Reply)
    ensures var r := Step(cfg, st, line, net);
      && |st.sent| <= |r.sent| <= |st.sent| + 1
      && forall i :: 0 <= i < |st.sent| ==> r.sent[i] == st.sent[i]
  {
    StepIsParse(cfg, st, line, net);
  }

  /** The lines that pass the pre-filter. */
  function Marked(lines: seq<string>): (r: seq<string>)
    ensures |r| <= |lines|
    ensures forall k :: 0 <= k < |r| ==> Contains(r[k], "sshd")
  {
    if |lines| == 0 then []
    else if Contains(lines[0], "sshd") then [lines[0]] + Marked(lines[1..])
    else Marked(lines[1..])
  }

  /** Dropping every line without `sshd` beforehand changes nothing. */
  lemma {:induction false} RunSkipsUnmarked(cfg: Settings, st: State, lines: seq<string>, net: (nat, Request) -> Reply)
    ensures Run(cfg, st, Marked(lines), net) == Run(cfg, st, lines, net)
    decreases |lines|
  {
    if |lines| > 0 {
      var st' := Step(cfg, st, lines[0], net);
      RunSkipsUnmarked(cfg, st', lines[1..], net);
      if Contains(lines[0], "sshd") {
        assert Marked(lines) == [lines[0]] + Marked(lines[1..]);
        assert Marked(lines)[1..] == Marked(lines[1..]);
      } else {
        assert Marked(lines) == Marked(lines[1..]);
        RunSkipsUnmarked(cfg, st, lines[1..], net);
      }
    }
  }

  /** Reading `a` then `b` is reading `a` to its end and going on with `b`. */
  lemma {:induction false} RunAppend(cfg: Settings, st: State, a: seq<string>, b: seq<string>, net: (nat, Request) -> Reply)
    ensures Run(cfg, st, a + b, net) == Run(cfg, Run(cfg, st, a, net), b, net)
    decreases |a|
  {
    if |a| > 0 {
      assert (a + b)[0] == a[0];
      assert (a + b)[1..] == a[1..] + b;
      RunAppend(cfg, Step(cfg, st, a[0], net), a[1..], b, net);
    } else {
      assert a + b == b;
    }
  }

  /** A line whose event is already in the cache does nothing at all. */
  lemma RepeatSuppressed(cfg: Settings, st: State, line: string, net: (nat, Request) -> Reply)
    requires Classify(cfg.events, line).Some? && Key(Classify(cfg.events, line).value) in st.seen
    ensures Step(cfg, st, line, net) == st
  {
    StepIsParse(cfg, st, line, net);
  }

  /**
   The first enabled category that matches decides the line, even when its
   event is a duplicate: a later category that would report a new event is
   not tried, and the line does nothing.
   */
  lemma DuplicateHidesLaterMatch(cfg: Settings, st: State, line: string, net: (nat, Request) -> Reply, c: Category)
    requires Classify(cfg.events, line).Some? && Key(Classify(cfg.events, line).value) in st.seen
    requires Enabled(cfg.events, c) && Recognize(c, line).Some? && Key(Recognize(c, line).value) !in st.seen
    ensures Rank(Classify(cfg.events, line).value.category) < Rank(c)
    ensures Step(cfg, st, line, net) == st
  {
    RepeatSuppressed(cfg, st, line, net);
  }

  /** Feeding the same line twice in a row is the same as feeding it once. */
  lemma StepIdempotent(cfg: Settings, st: State, line: string, net: (nat, Request) -> Reply)
    ensures Step(cfg, Step(cfg, st, line, net), line, net) == Step(cfg, st, line, net)
  {
    var st1 := Step(cfg, st, line, net);
    StepIsParse(cfg, st, line, net);
    if Classify(cfg.events, line).Some? {
      RepeatSuppressed(cfg, st1, line, net);
    } else {
      StepIsParse(cfg, st1, line, net);
    }
  }

  /** A line seen again, however much later, is suppressed. */
  lemma SeenAgainSuppressed(cfg: Settings, st: State, a: seq<string>, line: string, b: seq<string>,
                            net: (nat, Request) -> Reply)
    ensures Run(cfg, st, a + [line] + b + [line], net) == Run(cfg, st, a + [line] + b, net)
  {
    var mid := Run(cfg, st, a + [line], net);
    var before := Run(cfg, mid, b, net);
    RunAppend(cfg, st, a + [line] + b, [line], net);
    RunAppend(cfg, st, a + [line], b, net);
    RunAppend(cfg, st, a, [line], net);
    var pre := Run(cfg, st, a, net);
    assert Run(cfg, pre, [line], net) == Run(cfg, Step(cfg, pre, line, net), [], net);
    StepIsParse(cfg, pre, line, net);
    StepIsParse(cfg, before, line, net);
    if Classify(cfg.events, line).Some? {
      RepeatSuppressed(cfg, before, line, net);
    }
    assert Run(cfg, before, [line], net) == Run(cfg, Step(cfg, before, line, net), [], net);
  }

  /**
   What the loop keeps true of its state: one attempt per cached key, and a
   cached key for every attempt.
   */
  predicate Consistent(st: State) {
    && (forall i, j :: 0 <= i < j < |st.sent| ==> st.sent[i].key != st.sent[j].key)
    && (forall i :: 0 <= i < |st.sent| ==> st.sent[i].key in st.seen)
    && (forall k :: k in st.seen ==> exists i :: 0 <= i < |st.sent| && st.sent[i].key == k)
  }

  lemma StartConsistent()
    ensures Consistent(Start)
  {
  }

  lemma DeliverConsistent(cfg: Settings, st: State, e: Event, net: (nat, Request) -> Reply)
    requires Consistent(st)
    ensures Consistent(Deliver(cfg, st, e, net))
  {
    if Key(e) !in st.seen {
      AddAttemptConsistent(st, Deliver(cfg, st, e, net), Key(e));
    }
  }

  /** Recording a fresh key together with one attempt for it keeps the state consistent. */
  lemma AddAttemptConsistent(st: State, r: State, k: string)
    requires Consistent(st) && k !in st.seen
    requires r.seen == st.seen + {k} && |r.sent| == |st.sent| + 1
    requires forall i :: 0 <= i < |st.sent| ==> r.sent[i] == st.sent[i]
    requires r.sent[|st.sent|].key == k
    ensures Consistent(r)
  {
    forall x | x in r.seen
      ensures exists i :: 0 <= i < |r.sent| && r.sent[i].key == x
    {
      if x in st.seen {
        var i :| 0 <= i < |st.sent| && st.sent[i].key == x;
        assert r.sent[i].key == x;
      } else {
        assert r.sent[|st.sent|].key == x;
      }
    }
  }

  lemma StepConsistent(cfg: Settings, st: State, line: string, net: (nat, Request) -> Reply)
    requires Consistent(st)
    ensures Consistent(Step(cfg, st, line, net))
  {
    StepIsParse(cfg, st, line, net);
    if Classify(cfg.events, line).Some? {
      DeliverConsistent(cfg, st, Classify(cfg.events, line).value, net);
    }
  }

  /** The loop keeps its state consistent, whatever the lines and the replies. */
  lemma {:induction false} RunConsistent(cfg: Settings, st: State, lines: seq<string>, net: (nat, Request) -> Reply)
    requires Consistent(st)
    ensures Consistent(Run(cfg, st, lines, net))
    decreases |lines|
  {
    if |lines| > 0 {
      StepConsistent(cfg, st, lines[0], net);
      RunConsistent(cfg, Step(cfg, st, lines[0], net), lines[1..], net);
    }
  }

  /**
   At most one attempt per key over the whole run: in particular an attempt
   that failed is never retried for the same key.
   */
  lemma AtMostOnePerKey(cfg: Settings, lines: seq<string>, net: (nat, Request) -> Reply, i: nat, j: nat)
    requires i < j < |Run(cfg, Start, lines, net).sent|
    ensures Run(cfg, Start, lines, net).sent[i].key != Run(cfg, Start, lines, net).sent[j].key
  {
    StartConsistent();
    RunConsistent(cfg, Start, lines, net);
  }

  /** Every key in the cache had exactly one attempt made for it. */
  lemma CachedKeysWereAttempted(cfg: Settings, lines: seq<string>, net: (nat, Request) -> Reply, k: string)
    requires k in Run(cfg, Start, lines, net).seen
    ensures exists i :: 0 <= i < |Run(cfg, Start, lines, net).sent| && Run(cfg, Start, lines, net).sent[i].key == k
  {
    StartConsistent();
    RunConsistent(cfg, Start, lines, net);
  }

  /** Each attempt's outcome is the network's answer to that attempt's own request. */
  predicate Answered(st: State, net: (nat, Request) -> Reply) {
    forall i :: 0 <= i < |st.sent| ==> st.sent[i].outcome == OutcomeOf(net(i, st.sent[i].request))
  }

  lemma DeliverAnswered(cfg: Settings, st: State, e: Event, net: (nat, Request) -> Reply)
    requires Answered(st, net)
    ensures Answered(Deliver(cfg, st, e, net), net)
  {
  }

  lemma {:induction false} RunAnswered(cfg: Settings, st: State, lines: seq<string>, net: (nat, Request) -> Reply)
    requires Answered(st, net)
    ensures Answered(Run(cfg, st, lines, net), net)
    decreases |lines|
  {
    if |lines| > 0 {
      StepIsParse(cfg, st, lines[0], net);
      if Classify(cfg.events, lines[0]).Some? {
        DeliverAnswered(cfg, st, Classify(cfg.events, lines[0]).value, net);
      }
      RunAnswered(cfg, Step(cfg, st, lines[0], net), lines[1..], net);
    }
  }

  /** Two states that made the same requests for the same keys, whatever came back. */
  predicate SameRequests(a: State, b: State) {
    && a.seen == b.seen
    && |a.sent| == |b.sent|
    && forall i :: 0 <= i < |a.sent| ==> a.sent[i].key == b.sent[i].key && a.sent[i].request == b.sent[i].request
  }

  lemma DeliverIgnoresReplies(cfg: Settings, a: State, b: State, e: Event,
                              net1: (nat, Request) -> Reply, net2: (nat, Request) -> Reply)
    requires SameRequests(a, b)
    ensures SameRequests(Deliver(cfg, a, e, net1), Deliver(cfg, b, e, net2))
  {
  }

  lemma StepIgnoresReplies(cfg: Settings, a: State, b: State, line: string,
                           net1: (nat, Request) -> Reply, net2: (nat, Request) -> Reply)
    requires SameRequests(a, b)
    ensures SameRequests(Step(cfg, a, line, net1), Step(cfg, b, line, net2))
  {
    StepIsParse(cfg, a, line, net1);
    StepIsParse(cfg, b, line, net2);
    if Classify(cfg.events, line).Some? {
      DeliverIgnoresReplies(cfg, a, b, Classify(cfg.events, line).value, net1, net2);
    }
  }

  /**
   The replies never steer the loop: which keys get cached and which
   requests get sent depend on the lines alone. A failed delivery is not
   rolled back and not retried.
   */
  lemma {:induction false} RunIgnoresReplies(cfg: Settings, a: State, b: State, lines: seq<string>,
                                             net1: (nat, Request) -> Reply, net2: (nat, Request) -> Reply)
    requires SameRequests(a, b)
    ensures SameRequests(Run(cfg, a, lines, net1), Run(cfg, b, lines, net2))
    decreases |lines|
  {
    if |lines| > 0 {
      StepIgnoresReplies(cfg, a, b, lines[0], net1, net2);
      RunIgnoresReplies(cfg, Step(cfg, a, lines[0], net1), Step(cfg, b, lines[0], net2), lines[1..], net1, net2);
    }
  }

  /** Reading a single line is one step. */
  lemma RunOne(cfg: Settings, st: State, line: string, net: (nat, Request) -> Reply)
    ensures Run(cfg, st, [line], net) == Step(cfg, st, line, net)
  {
    assert Run(cfg, st, [line], net) == Run(cfg, Step(cfg, st, line, net), [], net);
  }

  /** Reading two lines is two steps. */
  lemma RunTwo(cfg: Settings, st: State, l1: string, l2: string, net: (nat, Request) -> Reply)
    ensures Run(cfg, st, [l1, l2], net) == Step(cfg, Step(cfg, st, l1, net), l2, net)
  {
    assert [l1, l2][1..] == [l2];
    RunOne(cfg, Step(cfg, st, l1, net), l2, net);
  }

  /** A reportable line read first makes one attempt. */
  lemma FirstLineAttempted(cfg: Settings, line: string, e: Event, net: (nat, Request) -> Reply)
    requires Classify(cfg.events, line) == Some(e)
    ensures Step(cfg, Start, line, net) == State({Key(e)}, [Attempt(cfg, e, net, 0)])
  {
    StepIsParse(cfg, Start, line, net);
  }

  /** A reportable line read twice from a fresh start leads to exactly one attempt. */
  lemma DuplicateLineOneAttempt(cfg: Settings, line: string, net: (nat, Request) -> Reply)
    requires Classify(cfg.events, line).Some?
    ensures |Run(cfg, Start, [line, line], net).sent| == 1
  {
    RunTwo(cfg, Start, line, line, net);
    StepIdempotent(cfg, Start, line, net);
    FirstLineAttempted(cfg, line, Classify(cfg.events, line).value, net);
  }

  /**
   Two reportable lines with different keys from a fresh start: two attempts,
   numbered 0 and 1, whatever the first one's outcome.
   */
  lemma TwoEventsTwoAttempts(cfg: Settings, l1: string, l2: string, e1: Event, e2: Event, net: (nat, Request) -> Reply)
    requires Classify(cfg.events, l1) == Some(e1) && Classify(cfg.events, l2) == Some(e2)
    requires Key(e1) != Key(e2)
    ensures Run(cfg, Start, [l1, l2], net).sent == [Attempt(cfg, e1, net, 0), Attempt(cfg, e2, net, 1)]
  {
    RunTwo(cfg, Start, l1, l2, net);
    StepDelivers(cfg, Start, l1, e1, net);
    StepDelivers(cfg, Step(cfg, Start, l1, net), l2, e2, net);
    DeliverTwice(cfg, e1, e2, net);
  }

  /** A line classified as `e` is `send_notification` of `e`. */
  lemma StepDelivers(cfg: Settings, st: State, line: string, e: Event, net: (nat, Request) -> Reply)
    requires Classify(cfg.events, line) == Some(e)
    ensures Step(cfg, st, line, net) == Deliver(cfg, st, e, net)
  {
    StepIsParse(cfg, st, line, net);
  }

  /** Two events with different keys, delivered from a fresh start, make attempts 0 and 1. */
  lemma DeliverTwice(cfg: Settings, e1: Event, e2: Event, net: (nat, Request) -> Reply)
    requires Key(e1) != Key(e2)
    ensures Deliver(cfg, Deliver(cfg, Start, e1, net), e2, net).sent == [Attempt(cfg, e1, net, 0), Attempt(cfg, e2, net, 1)]
  {
    var st1 := Deliver(cfg, Start, e1, net);
    var st2 := Deliver(cfg, st1, e2, net);
    assert st2.sent == [st2.sent[0], st2.sent[1]];
  }

  /** A reportable line with a key not yet cached appends one attempt, numbered by the attempts before it. */
  lemma NextLineAttempted(cfg: Settings, st: State, line: string, e: Event, net: (nat, Request) -> Reply)
    requires Classify(cfg.events, line) == Some(e) && Key(e) !in st.seen
    ensures Step(cfg, st, line, net).sent == st.sent + [Attempt(cfg, e, net, |st.sent|)]
  {
    StepIsParse(cfg, st, line, net);
    var r := Step(cfg, st, line, net);
    assert r.sent[..|st.sent|] == st.sent;
    assert r.sent == r.sent[..|st.sent|] + [r.sent[|st.sent|]];
  }
}
