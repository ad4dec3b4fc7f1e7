/**
 The three regular expressions of `parse_log_line`, as greedy matchers.

   accepted:      sshd\[\d+\]: Accepted \w+ for (\S+) from (\S+)
   failed:        sshd\[\d+\]: Failed \w+ for (\S+) from (\S+)
   disconnected:  sshd\[\d+\]: Disconnected from authenticating user (\S+) (\S+)

 Every `+` run except the last is followed by a literal whose first character
 is outside the run's class, so greedy matching never has to backtrack. The
 reference meaning of a pattern is `Render`: the pattern read as a template,
 whose well-formed fillings are exactly the strings the pattern matches.
 */
module Patterns {
  import opened Text
  import opened Events

  /**
   The literal parts that tell the three patterns apart. Each pattern reads
   `sshd\[\d+\]: <verb>` then, when `word` is set, `\w+`, then
   `<lead>(\S+)<mid>(\S+)`.
   */
  datatype Shape = Shape(verb: string, word: bool, lead: string, mid: string)

  function ShapeOf(cat: Category): (sh: Shape)
    ensures ShapeOk(sh)
  {
    match cat
    case Accepted => Shape("Accepted ", true, " for ", " from ")
    case Failed => Shape("Failed ", true, " for ", " from ")
    case Disconnected => Shape(DiscText, false, "", " ")
  }

  const DiscText := "Disconnected from authenticating user "

  /**
   What makes greedy matching exact: the `\w+` run is followed by a non-word
   character and the user group by whitespace.
   */
  predicate ShapeOk(sh: Shape) {
    && |sh.mid| > 0 && IsSpace(sh.mid[0])
    && (sh.word ==> |sh.lead| > 0 && !IsWordChar(sh.lead[0]))
  }

  /**
   The fillings of a pattern: the digits, the `\w+` authentication method
   (empty for the disconnection pattern, which has none) and the two groups.
   */
  datatype Parts = Parts(pid: string, auth: string, user: string, ip: string)

  /** The filling satisfies the pattern's character classes. */
  predicate Fills(sh: Shape, p: Parts) {
    && Plus(Digit, p.pid)
    && (if sh.word then Plus(Word, p.auth) else p.auth == "")
    && Token(p.user)
    && Token(p.ip)
  }

  predicate WellFormed(cat: Category, p: Parts) {
    Fills(ShapeOf(cat), p)
  }

  /** `sshd[<pid>]: `, the part all three patterns share. */
  function Head(pid: string): string {
    "sshd[" + pid + "]: "
  }

  /** The two capture groups with the literals that lead into them. */
  function Groups(lead: string, user: string, mid: string, ip: string): string {
    lead + user + mid + ip
  }

  /** What follows the head in a pattern filled with `p`. */
  function Body(sh: Shape, p: Parts): string {
    sh.verb + p.auth + Groups(sh.lead, p.user, sh.mid, p.ip)
  }

  /** The pattern of `cat` read as a template and filled with `p`. */
  function Render(cat: Category, p: Parts): string {
    Head(p.pid) + Body(ShapeOf(cat), p)
  }

  /** The greedy `(\S+)` at the end of a pattern stops at the end of the line or at whitespace. */
  predicate Stops(s: string, e: nat) {
    e <= |s| && (e == |s| || IsSpace(s[e]))
  }

  /** A greedy non-empty run of `cls` at `i`: the text and where it ends. */
  function Run(s: string, i: nat, cls: CharClass): (r: Option<(string, nat)>)
    requires i <= |s|
    ensures r.Some? ==> var (t, e) := r.value;
      && Plus(cls, t) && e == i + |t| && OccursAt(s, i, t)
      && (e == |s| || !cls.Has(s[e]))
  {
    var e := RunEnd(s, i, cls);
    if e == i then None else Some((s[i..e], e))
  }

  /** The literal `t` at `i`: where it ends. */
  function Lit(s: string, i: nat, t: string): (r: Option<nat>)
    ensures r.Some? ==> OccursAt(s, i, t) && r.value == i + |t| && r.value <= |s|
  {
    if OccursAt(s, i, t) then Some(i + |t|) else None
  }

  /** `sshd\[\d+\]: ` at `i`: the digits and where the prefix ends. */
  function MatchHead(s: string, i: nat): (r: Option<(string, nat)>)
    requires i <= |s|
    ensures r.Some? ==> Plus(Digit, r.value.0) && r.value.1 <= |s|
  {
    match Lit(s, i, "sshd[")
    case None => None
    case Some(j) =>
      match Run(s, j, Digit)
      case None => None
      case Some((pid, k)) =>
        match Lit(s, k, "]: ")
        case None => None
        case Some(p) => Some((pid, p))
  }

  /** The optional `\w+` at `m0`: the method and where it ends. */
  function MatchWord(sh: Shape, s: string, m0: nat): (r: Option<(string, nat)>)
    requires m0 <= |s|
    ensures r.Some? ==> r.value.1 == m0 + |r.value.0| <= |s| && OccursAt(s, m0, r.value.0)
  {
    if sh.word then Run(s, m0, Word) else Some(("", m0))
  }

  /** `<lead>(\S+)<mid>(\S+)` at `j`: the two groups. */
  function MatchGroups(s: string, j: nat, lead: string, mid: string): (r: Option<(string, string)>)
    requires j <= |s|
    ensures r.Some? ==> Token(r.value.0) && Token(r.value.1)
  {
    match Lit(s, j, lead)
    case None => None
    case Some(u0) =>
      match Run(s, u0, NonSpace)
      case None => None
      case Some((user, u1)) =>
        match Lit(s, u1, mid)
        case None => None
        case Some(a0) =>
          match Run(s, a0, NonSpace)
          case None => None
          case Some((ip, _)) => Some((user, ip))
  }

  /** A pattern of shape `sh` anchored at position `i`, as `re` matches it from there. */
  function MatchShape(sh: Shape, s: string, i: nat): (r: Option<Parts>)
    requires i <= |s|
    ensures r.Some? ==> Fills(sh, r.value)
  {
    match MatchHead(s, i)
    case None => None
    case Some((pid, p)) =>
      match Lit(s, p, sh.verb)
      case None => None
      case Some(m0) =>
        match MatchWord(sh, s, m0)
        case None => None
        case Some((auth, m1)) =>
          match MatchGroups(s, m1, sh.lead, sh.mid)
          case None => None
          case Some((user, ip)) => Some(Parts(pid, auth, user, ip))
  }

  /** The pattern of `cat` anchored at position `i`. */
  function MatchAt(cat: Category, s: string, i: nat): (r: Option<Parts>)
    requires i <= |s|
    ensures r.Some? ==> WellFormed(cat, r.value)
  {
    MatchShape(ShapeOf(cat), s, i)
  }

  /** What the head matcher finds is there. */
  lemma MatchHeadSound(s: string, i: nat, pid: string, p: nat)
    requires i <= |s|
    requires MatchHead(s, i) == Some((pid, p))
    ensures OccursAt(s, i, Head(pid)) && p == i + |Head(pid)|
  {
    OccursAtAppend(s, i, "sshd[", pid);
    OccursAtAppend(s, i, "sshd[" + pid, "]: ");
  }

  /** What the group matcher finds is there, and the second group is maximal. */
  lemma MatchGroupsSound(s: string, j: nat, lead: string, mid: string, user: string, ip: string)
    requires j <= |s|
    requires MatchGroups(s, j, lead, mid) == Some((user, ip))
    ensures OccursAt(s, j, Groups(lead, user, mid, ip))
    ensures Stops(s, j + |Groups(lead, user, mid, ip)|)
  {
    var u0, u1, a0 := MatchGroupsParts(s, j, lead, mid, user, ip);
    OccursAtAppend(s, j, lead, user);
    OccursAtAppend(s, j, lead + user, mid);
    OccursAtAppend(s, j, lead + user + mid, ip);
  }

  /** The positions where the group matcher moves from one part to the next. */
  lemma MatchGroupsParts(s: string, j: nat, lead: string, mid: string, user: string, ip: string)
    returns (u0: nat, u1: nat, a0: nat)
    requires j <= |s|
    requires MatchGroups(s, j, lead, mid) == Some((user, ip))
    ensures j <= u0 <= u1 <= a0 <= |s|
    ensures Lit(s, j, lead) == Some(u0)
    ensures Run(s, u0, NonSpace) == Some((user, u1))
    ensures Lit(s, u1, mid) == Some(a0)
    ensures Run(s, a0, NonSpace).Some? && Run(s, a0, NonSpace).value.0 == ip
  {
    u0 := Lit(s, j, lead).value;
    u1 := Run(s, u0, NonSpace).value.1;
    a0 := Lit(s, u1, mid).value;
  }

  /**
   Soundness of the matcher: a match at `i` is the pattern filled with the
   captured parts, found at `i`, and the last group is maximal.
   */
  lemma MatchShapeSound(sh: Shape, s: string, i: nat, q: Parts)
    requires i <= |s|
    requires MatchShape(sh, s, i) == Some(q)
    ensures OccursAt(s, i, Head(q.pid) + Body(sh, q))
    ensures Stops(s, i + |Head(q.pid) + Body(sh, q)|)
  {
    var p, m0, m1 := MatchShapeParts(sh, s, i, q);
    PartsSound(sh, s, i, q, p, m0, m1);
  }

  /** `MatchShapeSound` once the positions between the parts are known. */
  lemma PartsSound(sh: Shape, s: string, i: nat, q: Parts, p: nat, m0: nat, m1: nat)
    requires i <= p <= m0 <= m1 <= |s|
    requires MatchHead(s, i) == Some((q.pid, p))
    requires Lit(s, p, sh.verb) == Some(m0)
    requires MatchWord(sh, s, m0) == Some((q.auth, m1))
    requires MatchGroups(s, m1, sh.lead, sh.mid) == Some((q.user, q.ip))
    ensures OccursAt(s, i, Head(q.pid) + Body(sh, q))
    ensures Stops(s, i + |Head(q.pid) + Body(sh, q)|)
  {
    MatchHeadSound(s, i, q.pid, p);
    BodyGroupsSound(sh, s, q, p, m0, m1);
    Assemble(s, i, Head(q.pid), p, Body(sh, q));
  }

  /** What follows the head: the body is found at `p` and its last group is maximal. */
  lemma BodyGroupsSound(sh: Shape, s: string, q: Parts, p: nat, m0: nat, m1: nat)
    requires p <= m0 <= m1 <= |s|
    requires Lit(s, p, sh.verb) == Some(m0)
    requires MatchWord(sh, s, m0) == Some((q.auth, m1))
    requires MatchGroups(s, m1, sh.lead, sh.mid) == Some((q.user, q.ip))
    ensures OccursAt(s, p, Body(sh, q)) && Stops(s, p + |Body(sh, q)|)
  {
    MatchGroupsSound(s, m1, sh.lead, sh.mid, q.user, q.ip);
    BodySound(sh, s, p, m0, m1, q);
  }

  /** A head and then a body that ends where the last group stops. */
  lemma Assemble(s: string, i: nat, head: string, p: nat, body: string)
    requires OccursAt(s, i, head) && p == i + |head|
    requires OccursAt(s, p, body) && Stops(s, p + |body|)
    ensures OccursAt(s, i, head + body)
    ensures Stops(s, i + |head + body|)
  {
    OccursAtAppend(s, i, head, body);
  }

  /** The positions at which a successful `MatchShape` passed from one part to the next. */
  lemma MatchShapeParts(sh: Shape, s: string, i: nat, q: Parts) returns (p: nat, m0: nat, m1: nat)
    requires i <= |s|
    requires MatchShape(sh, s, i) == Some(q)
    ensures i <= p <= m0 <= m1 <= |s|
    ensures MatchHead(s, i) == Some((q.pid, p))
    ensures Lit(s, p, sh.verb) == Some(m0)
    ensures MatchWord(sh, s, m0) == Some((q.auth, m1))
    ensures MatchGroups(s, m1, sh.lead, sh.mid) == Some((q.user, q.ip))
  {
    p := MatchHead(s, i).value.1;
    m0 := Lit(s, p, sh.verb).value;
    m1 := MatchWord(sh, s, m0).value.1;
  }

  /** The body part of `MatchShapeSound`: verb, method and groups, one after the other. */
  lemma BodySound(sh: Shape, s: string, p: nat, m0: nat, m1: nat, q: Parts)
    requires p <= m0 <= m1 <= |s|
    requires Lit(s, p, sh.verb) == Some(m0)
    requires MatchWord(sh, s, m0) == Some((q.auth, m1))
    requires OccursAt(s, m1, Groups(sh.lead, q.user, sh.mid, q.ip))
    ensures OccursAt(s, p, Body(sh, q))
    ensures p + |Body(sh, q)| == m1 + |Groups(sh.lead, q.user, sh.mid, q.ip)|
  {
    var groups := Groups(sh.lead, q.user, sh.mid, q.ip);
    OccursAtAppend(s, p, sh.verb, q.auth);
    OccursAtAppend(s, p, sh.verb + q.auth, groups);
  }

  lemma MatchAtSound(cat: Category, s: string, i: nat)
    requires i <= |s|
    requires MatchAt(cat, s, i).Some?
    ensures var q := MatchAt(cat, s, i).value;
      && WellFormed(cat, q)
      && OccursAt(s, i, Render(cat, q))
      && Stops(s, i + |Render(cat, q)|)
  {
    MatchShapeSound(ShapeOf(cat), s, i, MatchAt(cat, s, i).value);
  }

  /** The first character of a literal found at `j`. */
  lemma FirstChar(s: string, j: nat, t: string)
    requires OccursAt(s, j, t) && |t| > 0
    ensures j < |s| && s[j] == t[0]
  {
    assert s[j..j + |t|][0] == s[j];
  }

  /** A well-formed run found at `j` and followed by `t` is the greedy run there. */
  lemma RunAt(s: string, j: nat, cls: CharClass, run: string, t: string)
    requires Plus(cls, run) && OccursAt(s, j, run + t)
    requires |t| > 0 && !cls.Has(t[0])
    ensures Run(s, j, cls) == Some((run, j + |run|))
  {
    OccursAtAppend(s, j, run, t);
    FirstChar(s, j + |run|, t);
    assert s[j..j + |run|] == run;
    RunEndUnique(s, j, j + |run|, cls);
  }

  /** A literal followed by more text: the literal is read and the rest starts right after it. */
  lemma LitThen(s: string, i: nat, t: string, rest: string)
    requires OccursAt(s, i, t + rest)
    ensures Lit(s, i, t) == Some(i + |t|)
    ensures OccursAt(s, i + |t|, rest)
  {
    OccursAtAppend(s, i, t, rest);
  }

  /** A run followed by a character outside its class: the run is read whole and the rest starts right after it. */
  lemma RunThen(s: string, i: nat, cls: CharClass, run: string, rest: string)
    requires Plus(cls, run) && OccursAt(s, i, run + rest)
    requires |rest| > 0 && !cls.Has(rest[0])
    ensures Run(s, i, cls) == Some((run, i + |run|))
    ensures OccursAt(s, i + |run|, rest)
  {
    RunAt(s, i, cls, run, rest);
    OccursAtAppend(s, i, run, rest);
  }

  /** A well-formed final run found at `j` is a prefix of the greedy `\S+` run there. */
  lemma LastRunAt(s: string, j: nat, run: string)
    requires Token(run) && OccursAt(s, j, run)
    ensures Run(s, j, NonSpace).Some?
    ensures run <= Run(s, j, NonSpace).value.0
    ensures Stops(s, j + |run|) ==> Run(s, j, NonSpace) == Some((run, j + |run|))
  {
    var e := RunEnd(s, j, NonSpace);
    RunEndCovers(s, j, run, NonSpace);
    assert s[j..e][..|run|] == s[j..j + |run|];
    if Stops(s, j + |run|) {
      RunEndUnique(s, j, j + |run|, NonSpace);
    }
  }

  /** Wherever `sshd[<digits>]: ` occurs, the head matcher reads those digits. */
  lemma MatchHeadComplete(s: string, i: nat, pid: string, rest: string)
    requires i <= |s|
    requires Plus(Digit, pid) && OccursAt(s, i, Head(pid) + rest)
    ensures MatchHead(s, i) == Some((pid, i + |Head(pid)|))
  {
    AppendAssoc("sshd[" + pid, "]: ", rest);
    AppendAssoc("sshd[", pid, "]: " + rest);
    LitThen(s, i, "sshd[", pid + ("]: " + rest));
    RunThen(s, i + 5, Digit, pid, "]: " + rest);
    LitThen(s, i + 5 + |pid|, "]: ", rest);
  }

  /**
   Wherever `<lead><user><mid><ip>` occurs with whitespace-free groups and a
   `mid` that starts with whitespace, the group matcher captures that user and
   an ip that extends the given one.
   */
  lemma MatchGroupsComplete(s: string, j: nat, lead: string, user: string, mid: string, ip: string)
    requires j <= |s|
    requires Token(user) && Token(ip) && |mid| > 0 && IsSpace(mid[0])
    requires OccursAt(s, j, Groups(lead, user, mid, ip))
    ensures MatchGroups(s, j, lead, mid).Some?
    ensures MatchGroups(s, j, lead, mid).value.0 == user
    ensures ip <= MatchGroups(s, j, lead, mid).value.1
    ensures Stops(s, j + |Groups(lead, user, mid, ip)|) ==> MatchGroups(s, j, lead, mid) == Some((user, ip))
  {
    var u1 := UserComplete(s, j, lead, user, mid, ip);
    OccursAtAppend(s, u1, mid, ip);
    var a0 := u1 + |mid|;
    MatchGroupsSteps(s, j, lead, mid, user, u1, a0);
    LastRunAt(s, a0, ip);
  }

  /** The part of `MatchGroupsComplete` up to the first group: returns where that group ends. */
  lemma UserComplete(s: string, j: nat, lead: string, user: string, mid: string, ip: string) returns (u1: nat)
    requires j <= |s|
    requires Token(user) && |mid| > 0 && IsSpace(mid[0])
    requires OccursAt(s, j, Groups(lead, user, mid, ip))
    ensures u1 + |mid + ip| == j + |Groups(lead, user, mid, ip)|
    ensures OccursAt(s, u1, mid + ip)
    ensures Lit(s, j, lead) == Some(j + |lead|)
    ensures Run(s, j + |lead|, NonSpace) == Some((user, u1))
  {
    AppendAssoc(lead + user, mid, ip);
    AppendAssoc(lead, user, mid + ip);
    LitThen(s, j, lead, user + (mid + ip));
    RunThen(s, j + |lead|, NonSpace, user, mid + ip);
    u1 := j + |lead| + |user|;
  }

  /** `MatchGroups` once the lead, the first group and `mid` have been read. */
  lemma MatchGroupsSteps(s: string, j: nat, lead: string, mid: string, user: string, u1: nat, a0: nat)
    requires j <= |s| && u1 <= |s| && a0 <= |s|
    requires Lit(s, j, lead).Some? && Lit(s, j, lead).value <= |s|
    requires Run(s, Lit(s, j, lead).value, NonSpace) == Some((user, u1))
    requires Lit(s, u1, mid) == Some(a0)
    ensures MatchGroups(s, j, lead, mid) ==
      match Run(s, a0, NonSpace)
      case None => None
      case Some((ip, _)) => Some((user, ip))
  {
  }

  /**
   Completeness of the matcher: wherever a well-formed filling of the pattern
   occurs, the matcher anchored there succeeds with the same pid, method and
   user, and an ip that extends the filling's ip (the same ip when the
   occurrence already ends at whitespace or at the end of the line).
   */
  lemma MatchShapeComplete(sh: Shape, s: string, i: nat, p: Parts)
    requires i <= |s|
    requires ShapeOk(sh) && Fills(sh, p)
    requires OccursAt(s, i, Head(p.pid) + Body(sh, p))
    ensures MatchShape(sh, s, i).Some?
    ensures var q := MatchShape(sh, s, i).value;
      q.pid == p.pid && q.auth == p.auth && q.user == p.user && p.ip <= q.ip
    ensures Stops(s, i + |Head(p.pid) + Body(sh, p)|) ==> MatchShape(sh, s, i) == Some(p)
  {
    var m1 := LeadComplete(sh, s, i, p);
    MatchGroupsComplete(s, m1, sh.lead, p.user, sh.mid, p.ip);
  }

  /** The part of `MatchShapeComplete` before the groups: head, verb and method. */
  lemma LeadComplete(sh: Shape, s: string, i: nat, p: Parts) returns (m1: nat)
    requires i <= |s|
    requires ShapeOk(sh) && Fills(sh, p)
    requires OccursAt(s, i, Head(p.pid) + Body(sh, p))
    ensures m1 <= |s|
    ensures OccursAt(s, m1, Groups(sh.lead, p.user, sh.mid, p.ip))
    ensures m1 + |Groups(sh.lead, p.user, sh.mid, p.ip)| == i + |Head(p.pid) + Body(sh, p)|
    ensures MatchShape(sh, s, i) ==
      match MatchGroups(s, m1, sh.lead, sh.mid)
      case None => None
      case Some((user, ip)) => Some(Parts(p.pid, p.auth, user, ip))
  {
    var pos := i + |Head(p.pid)|;
    MatchHeadComplete(s, i, p.pid, Body(sh, p));
    OccursAtAppend(s, i, Head(p.pid), Body(sh, p));
    var m0;
    m0, m1 := BodyLeadComplete(sh, s, pos, p);
    MatchShapeSteps(sh, s, i, p.pid, pos, m0, p.auth, m1);
  }

  /** Reading the verb and the method at the start of a filled body. */
  lemma BodyLeadComplete(sh: Shape, s: string, pos: nat, p: Parts) returns (m0: nat, m1: nat)
    requires pos <= |s|
    requires ShapeOk(sh) && Fills(sh, p)
    requires OccursAt(s, pos, Body(sh, p))
    ensures m0 <= m1 <= |s|
    ensures Lit(s, pos, sh.verb) == Some(m0)
    ensures MatchWord(sh, s, m0) == Some((p.auth, m1))
    ensures OccursAt(s, m1, Groups(sh.lead, p.user, sh.mid, p.ip))
    ensures m1 + |Groups(sh.lead, p.user, sh.mid, p.ip)| == pos + |Body(sh, p)|
  {
    var groups := Groups(sh.lead, p.user, sh.mid, p.ip);
    AppendAssoc(sh.verb, p.auth, groups);
    LitThen(s, pos, sh.verb, p.auth + groups);
    m0 := pos + |sh.verb|;
    m1 := AuthComplete(sh, s, m0, p.auth, groups);
  }

  /** Reading the method: `\w+` for the authentication patterns, nothing for the disconnection one. */
  lemma AuthComplete(sh: Shape, s: string, m0: nat, auth: string, groups: string) returns (m1: nat)
    requires OccursAt(s, m0, auth + groups)
    requires sh.word ==> Plus(Word, auth) && |groups| > 0 && !IsWordChar(groups[0])
    requires !sh.word ==> auth == ""
    ensures m1 == m0 + |auth| && m1 + |groups| <= |s|
    ensures MatchWord(sh, s, m0) == Some((auth, m1))
    ensures OccursAt(s, m1, groups)
  {
    OccursAtAppend(s, m0, auth, groups);
    if sh.word {
      RunThen(s, m0, Word, auth, groups);
    }
    m1 := m0 + |auth|;
  }

  /** `MatchShape` once the head, the verb and the method have been read. */
  lemma MatchShapeSteps(sh: Shape, s: string, i: nat, pid: string, pos: nat, m0: nat, auth: string, m1: nat)
    requires i <= |s| && pos <= |s| && m0 <= |s| && m1 <= |s|
    requires MatchHead(s, i) == Some((pid, pos))
    requires Lit(s, pos, sh.verb) == Some(m0)
    requires MatchWord(sh, s, m0) == Some((auth, m1))
    ensures MatchShape(sh, s, i) ==
      match MatchGroups(s, m1, sh.lead, sh.mid)
      case None => None
      case Some((user, ip)) => Some(Parts(pid, auth, user, ip))
  {
  }

  lemma MatchAtComplete(cat: Category, s: string, i: nat, p: Parts)
    requires i <= |s|
    requires WellFormed(cat, p)
    requires OccursAt(s, i, Render(cat, p))
    ensures MatchAt(cat, s, i).Some?
    ensures var q := MatchAt(cat, s, i).value;
      q.pid == p.pid && q.auth == p.auth && q.user == p.user && p.ip <= q.ip
    ensures Stops(s, i + |Render(cat, p)|) ==> MatchAt(cat, s, i) == Some(p)
  {
    MatchShapeComplete(ShapeOf(cat), s, i, p);
  }

  /** A successful search: where the match starts and what it captured. */
  datatype Hit = Hit(start: nat, parts: Parts)

  /** The anchored matcher of `cat` on `s`, as a function of the start position. */
  function Anchored(cat: Category, s: string): nat -> Option<Parts> {
    (j: nat) => if j <= |s| then MatchAt(cat, s, j) else None
  }

  /**
   `re.search`: the first position from `k` to `n` at which the anchored
   matcher `m` succeeds, or nothing when it succeeds nowhere.
   */
  function Search(m: nat -> Option<Parts>, n: nat, k: nat): (r: Option<Hit>)
    requires k <= n
    ensures r.Some? ==> k <= r.value.start <= n && m(r.value.start) == Some(r.value.parts)
    decreases n - k
  {
    if m(k).Some? then Some(Hit(k, m(k).value))
    else if k == n then None
    else Search(m, n, k + 1)
  }

  /**
   The search takes the leftmost match: no position before the one it
   returns matches, and when it returns nothing no position matches at all.
   */
  lemma {:induction false} SearchLeftmost(m: nat -> Option<Parts>, n: nat, k: nat)
    requires k <= n
    ensures Search(m, n, k).Some? ==> forall j :: k <= j < Search(m, n, k).value.start ==> m(j).None?
    ensures Search(m, n, k).None? ==> forall j :: k <= j <= n ==> m(j).None?
    decreases n - k
  {
    if m(k).None? && k < n {
      SearchLeftmost(m, n, k + 1);
    }
  }

  /** `re.search` of the pattern of `cat` over the whole line. */
  function Find(cat: Category, s: string): (r: Option<Hit>)
    ensures r.Some? ==> r.value.start <= |s| && MatchAt(cat, s, r.value.start) == Some(r.value.parts)
  {
    Search(Anchored(cat, s), |s|, 0)
  }

  /** `re.search` reports the leftmost anchored match, and nothing only when no position matches. */
  lemma FindLeftmost(cat: Category, s: string)
    ensures Find(cat, s).Some? ==> forall j :: 0 <= j < Find(cat, s).value.start ==> MatchAt(cat, s, j).None?
    ensures Find(cat, s).None? ==> forall j :: 0 <= j <= |s| ==> MatchAt(cat, s, j).None?
  {
    SearchLeftmost(Anchored(cat, s), |s|, 0);
    forall j | 0 <= j <= |s| ensures Anchored(cat, s)(j) == MatchAt(cat, s, j) {
    }
  }

  /**
   The search misses nothing: when a well-formed filling of the pattern occurs
   anywhere in the line, the search succeeds, no later than that occurrence.
   */
  lemma FindComplete(cat: Category, s: string, j: nat, p: Parts)
    requires WellFormed(cat, p)
    requires OccursAt(s, j, Render(cat, p))
    ensures Find(cat, s).Some? && Find(cat, s).value.start <= j
  {
    MatchAtComplete(cat, s, j, p);
    SearchLeftmost(Anchored(cat, s), |s|, 0);
    assert Anchored(cat, s)(j) == MatchAt(cat, s, j);
  }

  /** What the search finds is a well-formed filling of the pattern, found in the line. */
  lemma FindSound(cat: Category, s: string)
    requires Find(cat, s).Some?
    ensures var h := Find(cat, s).value;
      && WellFormed(cat, h.parts)
      && OccursAt(s, h.start, Render(cat, h.parts))
      && Stops(s, h.start + |Render(cat, h.parts)|)
  {
    var h := Find(cat, s).value;
    assert MatchAt(cat, s, h.start) == Some(h.parts);
    MatchAtSound(cat, s, h.start);
  }
}
