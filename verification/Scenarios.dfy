/**
 Worked examples: concrete sshd log lines run through the classifier and the
 loop, with an endpoint that always answers the same way. Each line is
 written as the pattern it should match, filled in, followed by the rest of
 the line; the comment shows the text.
 */
module Scenarios {
  import opened Text
  import opened Events
  import opened Patterns
  import opened Classifier
  import opened Config
  import opened Notify
  import opened Pipeline

  const PartsA := Parts("123", "publickey", "alice", "10.0.0.5")
  const PartsB := Parts("456", "password", "root", "203.0.113.9")
  const PartsE := Parts("789", "", "bob", "198.51.100.2")

  /** `sshd[123]: Accepted publickey for alice from 10.0.0.5 port 2222` */
  const LineA := Render(Accepted, PartsA) + " port 2222"
  /** `sshd[456]: Failed password for root from 203.0.113.9 port 22` */
  const LineB := Render(Failed, PartsB) + " port 22"
  /** `sshd[789]: Disconnected from authenticating user bob 198.51.100.2` */
  const LineE := Render(Disconnected, PartsE)

  const EventA := Event(Accepted, "alice", "10.0.0.5")
  const EventB := Event(Failed, "root", "203.0.113.9")

  /** An endpoint that accepts every request. */
  const Accepting: (nat, Request) -> Reply := (n: nat, r: Request) => Status(200, "OK")

  /** An endpoint that fails every request with an internal error. */
  const Failing: (nat, Request) -> Reply := (n: nat, r: Request) => Status(500, "error")

  /** The settings when only NTFY_URL is set: every category enabled, no token. */
  function Defaults(url: string): (cfg: Settings)
    ensures forall c :: Enabled(cfg.events, c)
    ensures cfg.url == url && cfg.token == None
  {
    Load(Some(url), None, None)
  }

  lemma LineAParts()
    ensures LineA == "sshd[123]: " + ("Accepted " + "publickey" + (" for " + "alice" + " from " + "10.0.0.5")) + " port 2222"
  {
    assert Head("123") == "sshd[123]: ";
  }

  lemma RecognizeA()
    ensures Recognize(Accepted, LineA) == Some(EventA)
  {
    assert WellFormed(Accepted, PartsA);
    RecognizeAtStart(Accepted, PartsA, " port 2222");
  }

  lemma RecognizeB()
    ensures Recognize(Failed, LineB) == Some(EventB)
    ensures Recognize(Accepted, LineB) == None
  {
    assert WellFormed(Failed, PartsB);
    RecognizeAtStart(Failed, PartsB, " port 22");
    NoCapitalA();
    VerbAbsent(Accepted, LineB);
  }

  /** A successful login, all categories enabled: one high-priority attempt, delivered on status 200. */
  lemma ScenarioA(url: string)
    ensures Classify(Defaults(url).events, LineA) == Some(EventA)
    ensures var st := Pipeline.Run(Defaults(url), Start, [LineA], Accepting);
      && |st.sent| == 1
      && st.sent[0].request.headers == map["Priority" := "high"]
      && st.sent[0].outcome == Delivered
  {
    RecognizeA();
    StepIsParse(Defaults(url), Start, LineA, Accepting);
  }

  /** A failed login, all categories enabled: the failed pattern decides, with priority `min`. */
  lemma ScenarioB(url: string)
    ensures Classify(Defaults(url).events, LineB) == Some(EventB)
    ensures MakeRequest(Defaults(url), EventB).headers["Priority"] == "min"
  {
    RecognizeB();
  }

  /** The same line twice: the second is suppressed and only one attempt is made. */
  lemma ScenarioC(url: string, net: (nat, Request) -> Reply)
    ensures |Pipeline.Run(Defaults(url), Start, [LineA, LineA], net).sent| == 1
  {
    RecognizeA();
    DuplicateLineOneAttempt(Defaults(url), LineA, net);
  }

  /** An endpoint answering 500: the attempt is rejected and the next line is still handled. */
  lemma ScenarioD(url: string)
    ensures var st := Pipeline.Run(Defaults(url), Start, [LineA, LineB], Failing);
      && |st.sent| == 2
      && st.sent[0].outcome == Rejected(500, "error")
      && st.sent[1].outcome == Rejected(500, "error")
      && st.sent[1].key == Key(EventB)
  {
    RecognizeA();
    RecognizeB();
    DistinctKeysAB();
    TwoEventsTwoAttempts(Defaults(url), LineA, LineB, EventA, EventB, Failing);
  }

  lemma DistinctKeysAB()
    ensures Key(EventA) != Key(EventB)
  {
    if Key(EventA) == Key(EventB) {
      KeyKeepsCategory(EventA, EventB);
    }
  }

  /** A disconnection with only `failed` enabled: nothing is reported. */
  lemma ScenarioE(url: Option<string>, token: Option<string>)
    ensures Classify(Load(url, token, Some("failed")).events, LineE) == None
  {
    LoadOne(url, token, "failed");
    NoCapitalF();
    VerbAbsent(Failed, LineE);
    OnlyFailed(Load(url, token, Some("failed")).events, LineE);
  }

  /** With only `failed` enabled, a line the failed pattern misses is not classified. */
  lemma OnlyFailed(events: seq<string>, line: string)
    requires events == ["failed"] && Recognize(Failed, line).None?
    ensures Classify(events, line) == None
  {
    assert !Enabled(events, Accepted) && !Enabled(events, Disconnected);
  }

  /*
   The lemmas below show that a pattern misses a line because the first
   letter of its verb is absent from the line (`VerbAbsent`). This is a
   cheap way to show that the verb itself does not occur in the line.
   */

  lemma NoCapitalA()
    ensures 'A' !in LineB
  {
    LineBParts();
    NoCapitalAInPartsB();
  }

  lemma LineBParts()
    ensures LineB == "sshd[456]: " + ("Failed " + "password" + (" for " + "root" + " from " + "203.0.113.9")) + " port 22"
  {
    assert Head("456") == "sshd[456]: ";
  }

  lemma NoCapitalAInPartsB()
    ensures 'A' !in "sshd[456]: " && 'A' !in "Failed " && 'A' !in "password"
    ensures 'A' !in " for " && 'A' !in "root" && 'A' !in " from "
    ensures 'A' !in "203.0.113.9" && 'A' !in " port 22"
  {
  }

  lemma NoCapitalF()
    ensures 'F' !in LineE
  {
    LineEParts();
    NoCapitalFInDiscText();
    assert 'F' !in "sshd[789]: " && 'F' !in "bob 198.51.100.2";
  }

  lemma LineEParts()
    ensures LineE == "sshd[789]: " + DiscText + "bob 198.51.100.2"
  {
    assert Head("789") == "sshd[789]: ";
    assert Groups("", "bob", " ", "198.51.100.2") == "bob 198.51.100.2";
  }

  lemma NoCapitalFInDiscText()
    ensures 'F' !in DiscText
  {
  }
}
