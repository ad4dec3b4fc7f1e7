/**
 `send_notification`: the message, the dedup key and its check-then-insert on
 the seen set, the request headers, and how the reply of the push endpoint
 is read. The HTTP call is an oracle `net`, asked once per attempt with the
 attempt's number and the request.
 */
module Notify {
  import opened Text
  import opened Events
  import opened Config

  /** The notification text: the event label, then the user and the ip on their own lines. */
  function Message(e: Event): (m: string)
    ensures OccursAt(m, 0, "\U{1F511} " + Label(e.category))
    ensures |m| > 0 && m[|m| - 1] == '\n'
  {
    "\U{1F511} " + Label(e.category) + "\n\n" + "\U{1F464} User: " + e.user + "\n" + "\U{1F30D} IP: " + e.ip + "\n"
  }

  /** The dedup key: a string, not a tuple. */
  function Key(e: Event): (k: string)
    ensures |k| == |Label(e.category)| + |e.user| + |e.ip| + 2
    ensures OccursAt(k, 0, Label(e.category))
  {
    Label(e.category) + "-" + e.user + "-" + e.ip
  }

  /** `Priority` always; `Authorization` only for a token that is set and non-empty. */
  function Headers(priority: string, token: Option<string>): (h: map<string, string>)
    ensures "Priority" in h && h["Priority"] == priority
    ensures "Authorization" in h <==> token.Some? && token.value != ""
    ensures "Authorization" in h ==> h["Authorization"] == "Bearer " + token.value
    ensures h.Keys <= {"Priority", "Authorization"}
  {
    var base := map["Priority" := priority];
    if token.Some? && token.value != "" then base["Authorization" := "Bearer " + token.value] else base
  }

  /** What is posted: to the configured url, with the headers, the message as body. */
  datatype Request = Request(url: string, headers: map<string, string>, body: string)

  function MakeRequest(cfg: Settings, e: Event): (r: Request)
    ensures r.url == cfg.url && r.body == Message(e)
    ensures "Priority" in r.headers && r.headers["Priority"] == Priority(e.category)
    ensures "Authorization" in r.headers <==> cfg.token.Some? && cfg.token.value != ""
    ensures "Authorization" in r.headers ==> r.headers["Authorization"] == "Bearer " + cfg.token.value
  {
    Request(cfg.url, Headers(Priority(e.category), cfg.token), Message(e))
  }

  /** What the endpoint answers: a status code with a body, or a raised `RequestException`. */
  datatype Reply = Status(code: int, text: string) | Raised(detail: string)

  /** The logged outcome of one attempt. */
  datatype Outcome = Delivered | Rejected(code: int, text: string) | Unreachable(detail: string)

  /** Status 200 is success; every other status is a failure, and so is an exception. */
  function OutcomeOf(reply: Reply): (o: Outcome)
    ensures o.Delivered? <==> reply.Status? && reply.code == 200
    ensures o.Rejected? <==> reply.Status? && reply.code != 200
    ensures o.Rejected? ==> o.code == reply.code && o.text == reply.text
    ensures o.Unreachable? <==> reply.Raised?
    ensures o.Unreachable? ==> o.detail == reply.detail
  {
    match reply
    case Status(code, text) => if code != 200 then Rejected(code, text) else Delivered
    case Raised(detail) => Unreachable(detail)
  }

  /** One attempt: the key it was made for, the request and its outcome. */
  datatype Delivery = Delivery(key: string, request: Request, outcome: Outcome)

  /** The seen set after a call, and the attempt the call made, if any. */
  datatype Notified = Notified(seen: set<string>, attempt: Option<Delivery>)

  /**
   Check-then-insert, then deliver. A key already seen ends the call with no
   attempt; otherwise the key is recorded first and the attempt made after,
   so its outcome cannot undo the record.
   */
  function SendNotification(cfg: Settings, seen: set<string>, e: Event,
                            net: (nat, Request) -> Reply, n: nat): (r: Notified)
    ensures Key(e) in r.seen
    ensures seen <= r.seen && r.seen - seen <= {Key(e)}
    ensures Key(e) in seen <==> r.attempt.None?
    ensures Key(e) in seen ==> r.seen == seen
    ensures r.attempt.Some? ==>
      var d := r.attempt.value;
      && d.key == Key(e)
      && d.request == MakeRequest(cfg, e)
      && d.outcome == OutcomeOf(net(n, d.request))
  {
    var key := Key(e);
    if key in seen then Notified(seen, None)
    else
      var seen' := seen + {key};
      var request := MakeRequest(cfg, e);
      Notified(seen', Some(Delivery(key, request, OutcomeOf(net(n, request)))))
  }

  /** Events of different categories never share a key: the labels differ in their first two characters. */
  lemma KeyKeepsCategory(e1: Event, e2: Event)
    requires Key(e1) == Key(e2)
    ensures e1.category == e2.category
  {
    var t1 := e1.user + "-" + e1.ip;
    var t2 := e2.user + "-" + e2.ip;
    KeyRegroup(e1);
    KeyRegroup(e2);
    AppendAssoc(Label(e1.category), "-", t1);
    AppendAssoc(Label(e2.category), "-", t2);
    LabelStart(e1.category, "-" + t1);
    LabelStart(e2.category, "-" + t2);
  }

  /** The first two characters of anything that starts with a label identify the category. */
  lemma LabelStart(c: Category, rest: string)
    ensures (Label(c) + rest)[..2] ==
      match c
      case Accepted => "Su"
      case Failed => "Fa"
      case Disconnected => "SS"
  {
    assert (Label(c) + rest)[..2] == Label(c)[..2];
  }

  /** When the users contain no `-`, equal keys mean equal events. */
  lemma KeyInjectiveWithoutDash(e1: Event, e2: Event)
    requires Key(e1) == Key(e2)
    requires '-' !in e1.user && '-' !in e2.user
    ensures e1 == e2
  {
    KeyKeepsCategory(e1, e2);
    var l := Label(e1.category) + "-";
    KeyRegroup(e1);
    KeyRegroup(e2);
    DropPrefix(l, e1.user + "-" + e1.ip, e2.user + "-" + e2.ip);
    CutAtSeparator(e1.user, e1.ip, e2.user, e2.ip, '-');
  }

  /** The key as the label and its dash, then the user, a dash and the ip. */
  lemma KeyRegroup(e: Event)
    ensures Key(e) == (Label(e.category) + "-") + (e.user + "-" + e.ip)
  {
    var a := Label(e.category) + "-";
    AppendAssoc(a, e.user, "-");
    AppendAssoc(a, e.user + "-", e.ip);
  }

  /**
   The string key is not injective: a user and an ip that both may contain
   `-` can trade a segment. Both events are ones the patterns can extract,
   and the second is suppressed as a duplicate of the first.
   */
  lemma KeyCollision() returns (e1: Event, e2: Event)
    ensures Token(e1.user) && Token(e1.ip) && Token(e2.user) && Token(e2.ip)
    ensures e1 != e2 && Key(e1) == Key(e2)
  {
    e1 := Event(Failed, "a-b", "c");
    e2 := Event(Failed, "a", "b-c");
    assert e1.user != e2.user;
    assert Key(e1) == "Failed SSH login-a-b-c";
    assert Key(e2) == "Failed SSH login-a-b-c";
  }

  /** The message, regrouped so that each field is followed by its own line break. */
  lemma MessageLines(e: Event)
    ensures Message(e) ==
      "\U{1F511} " + (Label(e.category) + "\n" +
      ("\n\U{1F464} User: " + (e.user + "\n" + ("\U{1F30D} IP: " + (e.ip + "\n")))))
  {
  }

  /** A common prefix can be dropped. */
  lemma DropPrefix(p: string, x: string, y: string)
    requires p + x == p + y
    ensures x == y
  {
    assert x == (p + x)[|p|..];
  }

  /** Unlike the key, the message tells events apart: it puts each field on its own line. */
  lemma MessageInjective(e1: Event, e2: Event)
    requires Token(e1.user) && Token(e1.ip) && Token(e2.user) && Token(e2.ip)
    requires Message(e1) == Message(e2)
    ensures e1 == e2
  {
    var p1 := "\n\U{1F464} User: ";
    var p2 := "\U{1F30D} IP: ";
    assert IsSpace('\n');
    assert '\n' !in e1.user && '\n' !in e2.user;
    MessageLines(e1);
    MessageLines(e2);
    var t1 := p2 + (e1.ip + "\n");
    var t2 := p2 + (e2.ip + "\n");
    var r1 := p1 + (e1.user + "\n" + t1);
    var r2 := p1 + (e2.user + "\n" + t2);
    DropPrefix("\U{1F511} ", Label(e1.category) + "\n" + r1, Label(e2.category) + "\n" + r2);
    LabelOnOneLine(e1.category);
    LabelOnOneLine(e2.category);
    CutAtSeparator(Label(e1.category), r1, Label(e2.category), r2, '\n');
    LabelInjective(e1.category, e2.category);
    DropPrefix(p1, e1.user + "\n" + t1, e2.user + "\n" + t2);
    CutAtSeparator(e1.user, t1, e2.user, t2, '\n');
    DropPrefix(p2, e1.ip + "\n", e2.ip + "\n");
    assert e1.ip == (e1.ip + "\n")[..|e1.ip|];
    assert e2.ip == (e2.ip + "\n")[..|e2.ip|];
  }

  /**
   A request tells its event apart: two events with whitespace-free users and
   ips that lead to the same request are the same event.
   */
  lemma RequestInjective(cfg: Settings, e1: Event, e2: Event)
    requires Token(e1.user) && Token(e1.ip) && Token(e2.user) && Token(e2.ip)
    requires MakeRequest(cfg, e1) == MakeRequest(cfg, e2)
    ensures e1 == e2
  {
    MessageInjective(e1, e2);
  }

  /** A label holds no line break. */
  lemma LabelOnOneLine(c: Category)
    ensures '\n' !in Label(c)
  {
    match c
    case Accepted =>
    case Failed =>
    case Disconnected =>
  }

  lemma LabelInjective(c1: Category, c2: Category)
    requires Label(c1) == Label(c2)
    ensures c1 == c2
  {
    LabelStart(c1, "");
    LabelStart(c2, "");
    assert Label(c1) + "" == Label(c1);
    assert Label(c2) + "" == Label(c2);
  }
}
