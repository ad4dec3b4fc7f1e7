/**
 `parse_log_line`: which event, if any, one log line reports, given the list
 of enabled category names.
 */
module Classifier {
  import opened Text
  import opened Events
  import opened Patterns

  /** `"<name>" in MONITOR_EVENTS or "all" in MONITOR_EVENTS`: exact list membership. */
  predicate Enabled(events: seq<string>, c: Category): (b: bool)
    ensures "all" in events ==> b
    ensures b ==> exists k :: 0 <= k < |events| && (events[k] == Name(c) || events[k] == "all")
  {
    Name(c) in events || "all" in events
  }

  /** The event the pattern of `c` reports on `line`, ignoring whether `c` is enabled. */
  function Recognize(c: Category, line: string): (r: Option<Event>)
    ensures r.Some? ==> r.value.category == c && Token(r.value.user) && Token(r.value.ip)
  {
    match Find(c, line)
    case None => None
    case Some(h) => Some(Event(c, h.parts.user, h.parts.ip))
  }

  /**
   The categories are tried in the order accepted, failed, disconnected; a
   disabled category is skipped, and the first enabled one whose pattern
   matches decides the event.
   */
  function Classify(events: seq<string>, line: string): (r: Option<Event>)
    ensures r.Some? ==>
      && Enabled(events, r.value.category)
      && Recognize(r.value.category, line) == r
      && Token(r.value.user) && Token(r.value.ip)
    ensures r.Some? ==> forall c :: Rank(c) < Rank(r.value.category) ==>
      !Enabled(events, c) || Recognize(c, line).None?
    ensures r.None? <==> forall c :: !Enabled(events, c) || Recognize(c, line).None?
  {
    if Enabled(events, Accepted) && Recognize(Accepted, line).Some? then
      Recognize(Accepted, line)
    else if Enabled(events, Failed) && Recognize(Failed, line).Some? then
      Recognize(Failed, line)
    else if Enabled(events, Disconnected) && Recognize(Disconnected, line).Some? then
      Recognize(Disconnected, line)
    else
      None
  }

  /**
   Reference reading of the classifier: walk an ordered list of categories and
   stop at the first enabled one whose pattern matches.
   */
  function FirstMatch(cats: seq<Category>, events: seq<string>, line: string): Option<Event>
    decreases |cats|
  {
    if |cats| == 0 then None
    else if Enabled(events, cats[0]) && Recognize(cats[0], line).Some? then Recognize(cats[0], line)
    else FirstMatch(cats[1..], events, line)
  }

  /** The classifier is the first-match walk over the fixed order. */
  lemma ClassifyIsFirstMatch(events: seq<string>, line: string)
    ensures Classify(events, line) == FirstMatch(Order, events, line)
  {
    assert Order[1..][1..] == [Disconnected];
    assert FirstMatch([Disconnected][1..], events, line) == None;
  }

  /** A category that is not enabled never comes out, even when its pattern matches. */
  lemma DisabledNeverReported(events: seq<string>, line: string, c: Category)
    requires Name(c) !in events && "all" !in events
    ensures Classify(events, line).Some? ==> Classify(events, line).value.category != c
  {
  }

  /** An enabled category whose pattern matches is reported unless an earlier category already is. */
  lemma EnabledMatchReported(events: seq<string>, line: string, c: Category)
    requires Enabled(events, c) && Recognize(c, line).Some?
    ensures Classify(events, line).Some?
    ensures Rank(Classify(events, line).value.category) <= Rank(c)
  {
  }

  /**
   Wherever a pattern matches, the line holds `sshd[<digits>]: `: the
   returned position and digits say where.
   */
  lemma RecognizedHasHead(c: Category, line: string) returns (j: nat, pid: string)
    requires Recognize(c, line).Some?
    ensures Plus(Digit, pid) && OccursAt(line, j, Head(pid))
  {
    FindSound(c, line);
    var h := Find(c, line).value;
    j, pid := h.start, h.parts.pid;
    OccursAtAppend(line, j, Head(pid), Body(ShapeOf(c), h.parts));
  }

  /** The head of every pattern contains the marker `sshd`. */
  lemma HeadHasMarker(line: string, j: nat, pid: string)
    requires OccursAt(line, j, Head(pid))
    ensures Contains(line, "sshd")
  {
    OccursAtPrefix(line, j, Head(pid), 4);
    assert Head(pid)[..4] == "sshd";
  }

  /** A line without the substring `sshd` is never classified. */
  lemma NoMarkerNoEvent(events: seq<string>, line: string)
    requires !Contains(line, "sshd")
    ensures Classify(events, line) == None
  {
    forall c: Category ensures Recognize(c, line).None? {
      if Recognize(c, line).Some? {
        var j, pid := RecognizedHasHead(c, line);
        HeadHasMarker(line, j, pid);
      }
    }
  }

  /** Where a pattern matches, its body (everything after `sshd[<digits>]: `) is in the line. */
  lemma BodyFound(c: Category, line: string) returns (k: nat)
    requires Recognize(c, line).Some?
    ensures var e := Recognize(c, line).value;
      var q := Find(c, line).value.parts;
      && q.user == e.user && q.ip == e.ip
      && OccursAt(line, k, Body(ShapeOf(c), q))
  {
    FindSound(c, line);
    var h := Find(c, line).value;
    k := OccursAfter(line, h.start, Head(h.parts.pid), Body(ShapeOf(c), h.parts));
  }

  /**
   An authentication pattern's user is the single token right after `for `
   and is followed immediately by ` from ` and the ip: the line holds
   `" for " + user + " from " + ip`.
   */
  lemma AuthUserFollowedByFrom(c: Category, line: string)
    requires c != Disconnected && Recognize(c, line).Some?
    ensures var e := Recognize(c, line).value;
      Contains(line, " for " + e.user + " from " + e.ip)
  {
    var e := Recognize(c, line).value;
    var k := BodyFound(c, line);
    var q := Find(c, line).value.parts;
    var sh := ShapeOf(c);
    var m := OccursAfter(line, k, sh.verb + q.auth, Groups(sh.lead, e.user, sh.mid, e.ip));
  }

  /**
   The user of an authentication pattern is the one token after ` for `, and
   it has to be followed by ` from `: when ` for ` occurs only at `k` and the
   token after it is followed by anything else (as in `for invalid user bob
   from ...`), the pattern does not match anywhere in the line.
   */
  lemma UserIsTokenAfterFor(c: Category, line: string, k: nat, u: string)
    requires c != Disconnected
    requires forall j :: OccursAt(line, j, " for ") ==> j == k
    requires Token(u) && OccursAt(line, k + 5, u + " ")
    requires !OccursAt(line, k + 5 + |u|, " from ")
    ensures Recognize(c, line).None?
  {
    if Recognize(c, line).Some? {
      var e := Recognize(c, line).value;
      AuthUserFollowedByFrom(c, line);
      FromAfterOnlyFor(line, k, u, e.user, e.ip);
    }
  }

  /** Where ` for ` occurs only at `k`, any ` for <user> from ` puts ` from ` right after the token at `k + 5`. */
  lemma FromAfterOnlyFor(line: string, k: nat, u: string, user: string, ip: string)
    requires forall j :: OccursAt(line, j, " for ") ==> j == k
    requires Token(u) && OccursAt(line, k + 5, u + " ")
    requires Token(user) && Contains(line, " for " + user + " from " + ip)
    ensures OccursAt(line, k + 5 + |u|, " from ")
  {
    var j: nat :| j + |" for " + user + " from " + ip| <= |line| && OccursAt(line, j, " for " + user + " from " + ip);
    ForUserFrom(line, j, user, ip);
    SameToken(line, k + 5, user, " from " + ip, u, " ");
    var m := OccursAfter(line, k + 5, user, " from " + ip);
    OccursAtAppend(line, m, " from ", ip);
  }

  /** ` for <user> from <ip>` at `j`: ` for ` there, and the user and the rest after it. */
  lemma ForUserFrom(s: string, j: nat, user: string, ip: string)
    requires OccursAt(s, j, " for " + user + " from " + ip)
    ensures OccursAt(s, j, " for ") && OccursAt(s, j + 5, user + (" from " + ip))
  {
    AppendAssoc(" for ", user, " from ");
    AppendAssoc(" for ", user + " from ", ip);
    AppendAssoc(user, " from ", ip);
    OccursAtAppend(s, j, " for ", user + (" from " + ip));
  }

  /** Two tokens found at the same place, each followed by whitespace, are the same token. */
  lemma SameToken(s: string, i: nat, a: string, x: string, b: string, y: string)
    requires Token(a) && OccursAt(s, i, a + x) && |x| > 0 && IsSpace(x[0])
    requires Token(b) && OccursAt(s, i, b + y) && |y| > 0 && IsSpace(y[0])
    ensures a == b
  {
    RunThen(s, i, NonSpace, a, x);
    RunThen(s, i, NonSpace, b, y);
  }

  /**
   The disconnection pattern's user is the token right after `Disconnected
   from authenticating user ` and its ip the very next token.
   */
  lemma DisconnectUserThenIp(line: string)
    requires Recognize(Disconnected, line).Some?
    ensures var e := Recognize(Disconnected, line).value;
      Contains(line, DiscText + e.user + " " + e.ip)
  {
    var e := Recognize(Disconnected, line).value;
    var k := BodyFound(Disconnected, line);
    FindSound(Disconnected, line);
    DisconnectBody(Find(Disconnected, line).value.parts);
  }

  /** A filled disconnection body has no method part between the verb and the groups. */
  lemma DisconnectBody(q: Parts)
    requires WellFormed(Disconnected, q)
    ensures Body(ShapeOf(Disconnected), q) == DiscText + q.user + " " + q.ip
  {
    assert Groups("", q.user, " ", q.ip) == q.user + " " + q.ip;
  }

  /**
   A line that starts with a filled pattern, ended by the end of the line or
   by whitespace, reports exactly the user and ip of that filling.
   */
  lemma RecognizeAtStart(c: Category, p: Parts, rest: string)
    requires WellFormed(c, p)
    requires |rest| == 0 || IsSpace(rest[0])
    ensures Recognize(c, Render(c, p) + rest) == Some(Event(c, p.user, p.ip))
  {
    var s := Render(c, p) + rest;
    assert s[0..|Render(c, p)|] == Render(c, p);
    FindComplete(c, s, 0, p);
    MatchAtComplete(c, s, 0, p);
    assert |rest| == 0 || s[|Render(c, p)|] == rest[0];
  }

  /** Wherever a pattern matches, its verb (`Accepted `, `Failed `, ...) is in the line. */
  lemma RecognizedHasVerb(c: Category, line: string)
    requires Recognize(c, line).Some?
    ensures Contains(line, ShapeOf(c).verb)
  {
    var k := BodyFound(c, line);
    var q := Find(c, line).value.parts;
    var sh := ShapeOf(c);
    OccursAtPrefix(line, k, Body(sh, q), |sh.verb|);
    assert Body(sh, q)[..|sh.verb|] == sh.verb;
    assert OccursAt(line, k, sh.verb);
  }

  /**
   A line without the first letter of a pattern's verb never matches that
   pattern. A cheap test that the verb does not occur in the line, as
   `RecognizedHasVerb` requires it to.
   */
  lemma VerbAbsent(c: Category, line: string)
    requires ShapeOf(c).verb[0] !in line
    ensures Recognize(c, line).None?
  {
    if Recognize(c, line).Some? {
      RecognizedHasVerb(c, line);
      ContainsFirstChar(line, ShapeOf(c).verb);
    }
  }
}
