# monitor-ssh: the event pipeline, modelled in Dafny

`main.py` of monitor-ssh follows `/var/log/auth.log` and sends a push
notification to an ntfy endpoint for three kinds of sshd lines: successful
logins, failed logins and disconnections during authentication. This project
models the part of the program that decides things:

- the three regular expressions of `parse_log_line`, written as greedy,
  deterministic matchers with `re.search` (leftmost match) semantics
  (`Patterns`);
- the classifier: fixed order accepted, failed, disconnected, each gated by
  the `MONITOR_EVENTS` list (`Classifier`);
- reading the settings, where `MONITOR_EVENTS` is split on `,` (`Config`);
- `send_notification`: the message, the string dedup key, the
  check-then-insert on the seen set, the headers and how a reply is read
  (`Notify`);
- the main loop as a fold over the lines read, with its `sshd` pre-filter
  (`Pipeline`);
- worked examples on concrete log lines (`Scenarios`).

The three patterns are `sshd\[\d+\]: Accepted \w+ for (\S+) from (\S+)`,
`sshd\[\d+\]: Failed \w+ for (\S+) from (\S+)` and
`sshd\[\d+\]: Disconnected from authenticating user (\S+) (\S+)`. In each of
them, every `+` run except the last is followed by a literal whose first
character is outside the run's class. So a greedy matcher never needs to
backtrack.

The reference meaning of a pattern is `Patterns.Render`: the pattern read as
a template and filled with a pid, an authentication method, a user and an ip
that satisfy the character classes. The matchers are proved both ways
against this reference:

- soundness (`MatchAtSound`, `FindSound`): what is found is a filled
  template;
- completeness (`MatchAtComplete`, `FindComplete`): every occurrence of a
  filled template is found, no later than where it occurs;
- leftmost match (`SearchLeftmost`, `FindLeftmost`): the search returns the
  first position where the pattern matches.

The HTTP call is an oracle `net: (nat, Request) -> Reply`. It is asked once
per delivery attempt, with the attempt's number and the request, and answers
with either a status code and a body or a raised `RequestException`. The
environment variables arrive as `Option<string>` parameters. The log is a
finite `seq<string>` of lines.

Facts about `main.py` that the model keeps:

- The dedup key is the string `label + "-" + user + "-" + ip` (main.py:59),
  not a tuple. It is not injective (`Notify.KeyCollision`).
- A failed login is sent with priority `min` (main.py:98).
- Only status 200 is a success (main.py:76). Other 2xx codes count as
  failures.
- The `sshd` substring test is in the loop (main.py:114), not in
  `parse_log_line`. `Pipeline.StepIsParse` shows that the test never changes
  the outcome.
- Lines reach `parse_log_line` as `readline` returns them, which may include
  the trailing newline. The model takes each line as given. A trailing
  newline is whitespace, so the last `(\S+)` stops there, as it does at the
  end of the line.

## Model

| member | source | states |
|---|---|---|
| Text.RunEnd | main.py:87 | a greedy `\d+`/`\w+`/`\S+` run from `i` covers only characters of the class and stops at the end of the line or at the first character outside it |
| Text.RunEndUnique | main.py:87 | any run of the class that ends at the end of the line or before a character outside the class is the greedy one |
| Text.RunEndCovers | main.py:87 | a run of the class found at `i` lies inside the greedy run from `i` |
| Text.IsSpace | main.py:87-103 | `\s` holds for space, tab, line feed and carriage return, and never for a printable ASCII character |
| Text.Contains | main.py:114 | the empty string occurs in every line, and a line contains only substrings no longer than itself |
| Text.Split | main.py:21 | `str.split(",")` yields at least one piece, and no piece contains the separator |
| Text.JoinSplit | main.py:21 | splitting loses nothing: joining the pieces with the separator gives back the setting |
| Text.SplitJoin | main.py:21 | pieces without the separator, joined and split again, come back unchanged, so `Split` is the inverse of `Join` |
| Text.SplitCount | main.py:21 | the number of pieces is the number of separators plus one |
| Events.Rank | main.py:85-107 | each category has a position in the fixed order accepted, failed, disconnected |
| Events.Name | main.py:86-102 | each category's name in `MONITOR_EVENTS` is non-empty, differs from `all` and holds no comma, so one setting piece can name it |
| Events.Label | main.py:90-106 | each category's notification title holds no line break and no `-` |
| Events.Priority | main.py:90-106 | a successful login has priority `high`, a failed login `min`, a disconnection `default`, and each priority belongs to exactly one category |
| Patterns.ShapeOf | main.py:87-103 | in all three patterns, the `\w+` run is followed by a non-word character and the user group by whitespace, so greedy matching is exact |
| Patterns.Run | main.py:87 | a greedy run read at `i` is non-empty, made of the class, occurs at `i`, and is maximal |
| Patterns.MatchHead | main.py:87 | `sshd\[\d+\]: ` read at `i` yields non-empty digits |
| Patterns.MatchGroups | main.py:87 | both captured groups are non-empty and whitespace-free |
| Patterns.MatchAt | main.py:87-103 | whatever the anchored pattern captures is a well-formed filling of that pattern |
| Patterns.MatchShapeSound | main.py:87-103 | a match at `i` is the pattern filled with the captured parts, found at `i`, and the last group ends at whitespace or at the end of the line |
| Patterns.MatchAtSound | main.py:87-103 | soundness of each category's anchored pattern against its template |
| Patterns.MatchHeadComplete | main.py:87 | wherever `sshd[<digits>]: ` occurs, the head matcher reads exactly those digits |
| Patterns.MatchGroupsComplete | main.py:87 | wherever the two groups occur, the matcher captures that user and an ip that extends the given one, and exactly that ip when the occurrence ends at whitespace |
| Patterns.MatchShapeComplete | main.py:87-103 | wherever a filled pattern occurs, the anchored matcher succeeds with the same pid, method and user, and the same ip when the occurrence ends at whitespace |
| Patterns.MatchAtComplete | main.py:87-103 | completeness of each category's anchored pattern against its template |
| Patterns.Search | main.py:87 | a position the search returns lies in range and the anchored matcher succeeds there with the returned parts |
| Patterns.SearchLeftmost | main.py:87 | no position before the returned one matches; when nothing is returned, no position matches |
| Patterns.Find | main.py:87-103 | `re.search` over the whole line returns a start within the line where the anchored pattern matches |
| Patterns.FindLeftmost | main.py:87-103 | `re.search` returns the leftmost match, and returns nothing only when no position of the line matches |
| Patterns.FindComplete | main.py:87-103 | whenever a filled pattern occurs anywhere in the line, the search succeeds no later than that occurrence |
| Patterns.FindSound | main.py:87-103 | what the search finds is a well-formed filling of the pattern, occurring in the line and ending at whitespace or at the end of the line |
| Classifier.Enabled | main.py:86-102 | a category is tried when `all` is in the list, and only when the list holds its name or `all` |
| Classifier.Recognize | main.py:87-89 | a recognised event has the pattern's category, and its user and ip are non-empty and whitespace-free |
| Classifier.Classify | main.py:84-107 | a reported event's category is enabled and its pattern matches; every earlier category is disabled or does not match; nothing is reported exactly when every category is disabled or does not match |
| Classifier.ClassifyIsFirstMatch | main.py:84-107 | the classifier equals a first-match walk over the ordered list of categories |
| Classifier.DisabledNeverReported | main.py:86-107 | a category whose name and `all` are both missing from the list is never reported, even when its pattern matches |
| Classifier.EnabledMatchReported | main.py:84-107 | an enabled category whose pattern matches leads to a report of that category or of an earlier one |
| Classifier.RecognizedHasHead | main.py:87-103 | every match contains `sshd[`, one or more digits and `]: ` |
| Classifier.HeadHasMarker | main.py:87 | the head of every pattern contains the substring `sshd` |
| Classifier.NoMarkerNoEvent | main.py:84-107 | a line without the substring `sshd` is never classified |
| Classifier.BodyFound | main.py:87-103 | the text after the head, holding the reported user and ip, is in the line |
| Classifier.AuthUserFollowedByFrom | main.py:87-95 | for accepted and failed logins, the line holds ` for <user> from <ip>` with the reported user and ip |
| Classifier.UserIsTokenAfterFor | main.py:87-95 | when ` for ` occurs only once and the token after it is not followed by ` from ` (as in `for invalid user bob from ...`), neither authentication pattern matches |
| Classifier.SameToken | main.py:87-95 | two whitespace-free tokens at the same place, each followed by whitespace, are equal, so the user group has exactly one possible value |
| Classifier.DisconnectUserThenIp | main.py:103 | for disconnections, the line holds `Disconnected from authenticating user <user> <ip>` with the reported user and ip |
| Classifier.RecognizeAtStart | main.py:87-103 | a line that starts with a filled pattern, ended by whitespace or by the end of the line, reports exactly that user and ip |
| Classifier.RecognizedHasVerb | main.py:87-103 | a match contains its pattern's verb (`Accepted `, `Failed `, `Disconnected from ...`) |
| Classifier.VerbAbsent | main.py:87-103 | a line lacking the first letter of a pattern's verb never matches that pattern |
| Config.Load | main.py:19-21 | unset variables take their defaults; the events setting is split on `,` into at least one piece that joins back to the setting; with the variable unset, every category is enabled |
| Config.EmptySettingEnablesNothing | main.py:21 | `MONITOR_EVENTS=""` enables no category |
| Config.SpacesAreNotTrimmed | main.py:21 | `accepted, failed` enables accepted but not failed: pieces are not trimmed |
| Config.LoadOne | main.py:21 | a setting without a comma is a list of exactly that one name |
| Notify.Message | main.py:52-56 | the message starts with the key emoji and the category's title and ends with a line break |
| Notify.Key | main.py:59 | the key starts with the category's title and is as long as title, user and ip joined by two separators |
| Notify.Headers | main.py:65-67 | `Priority` is always present with the given value; `Authorization` is present exactly when the token is set and non-empty, and is then `Bearer <token>`; no other header |
| Notify.MakeRequest | main.py:65-75 | the request goes to the configured url, carries the message, and its `Priority` is the category's priority; `Authorization` is present exactly when the token is set and non-empty, and is then `Bearer <token>` |
| Notify.OutcomeOf | main.py:76-81 | status 200 means delivered; any other status is rejected, keeping the code and the text; a raised exception is unreachable, keeping its detail |
| Notify.SendNotification | main.py:58-62 | after the call the key is cached; a key already cached means no attempt and an unchanged cache; otherwise exactly the key is added, and the one attempt uses the request and the oracle's answer |
| Notify.KeyKeepsCategory | main.py:59 | events with equal keys have the same category |
| Notify.KeyInjectiveWithoutDash | main.py:59 | when neither user contains `-`, equal keys mean equal events |
| Notify.KeyCollision | main.py:59 | two different events with valid users and ips share a key, so the second is suppressed as a duplicate |
| Notify.MessageInjective | main.py:52-56 | events whose users and ips are tokens have equal messages only when they are the same event |
| Notify.RequestInjective | main.py:52-75 | events whose users and ips are tokens lead to equal requests only when they are the same event |
| Notify.LabelInjective | main.py:90-106 | different categories have different labels |
| Pipeline.ParseLogLine | main.py:84-107 | a line that classifies to nothing leaves the state unchanged; a classified line leaves its key cached; the cache only grows and at most one attempt is added |
| Pipeline.Step | main.py:113-115 | a line without `sshd` leaves the state unchanged; otherwise the cache only grows and at most one attempt is added |
| Pipeline.Deliver | main.py:58-81 | the key is cached; earlier attempts are kept; an attempt is appended exactly when the key was new, with the next attempt number's answer; a cached key leaves the state unchanged |
| Pipeline.Run | main.py:113-115 | the loop only grows the cache and never rewrites an earlier attempt |
| Pipeline.StepIsParse | main.py:113-115 | the `sshd` pre-filter never changes the outcome of a line |
| Pipeline.StepDelivers | main.py:84-115 | a line that classifies to an event is handled as `send_notification` for that event |
| Pipeline.StepKeepsEarlier | main.py:113-115 | one line adds at most one attempt, at the end |
| Pipeline.Marked | main.py:114 | the lines kept by the pre-filter all contain `sshd` |
| Pipeline.RunSkipsUnmarked | main.py:113-115 | dropping every line without `sshd` beforehand gives the same final state |
| Pipeline.RunAppend | main.py:113-115 | reading `a` then `b` is reading `a` to its end and continuing with `b` |
| Pipeline.RepeatSuppressed | main.py:59-61 | a line whose event is already cached does nothing |
| Pipeline.DuplicateHidesLaterMatch | main.py:86-107 | when the first matching category's event is a duplicate, a later category that would report a new event is not tried, and the line does nothing |
| Pipeline.StepIdempotent | main.py:59-62 | the same line twice in a row has the effect of once |
| Pipeline.SeenAgainSuppressed | main.py:59-62 | a line read again, however much later, does nothing |
| Pipeline.AddAttemptConsistent | main.py:59-62 | recording a fresh key together with one attempt for it keeps one attempt per cached key and a cached key for every attempt |
| Pipeline.DeliverConsistent | main.py:58-81 | `send_notification` keeps one attempt per cached key and a cached key for every attempt |
| Pipeline.RunConsistent | main.py:113-115 | the loop keeps one attempt per cached key, whatever the lines and the replies |
| Pipeline.AtMostOnePerKey | main.py:59-62 | over a whole run, no two attempts have the same key: a failed attempt is never retried |
| Pipeline.CachedKeysWereAttempted | main.py:59-62 | every cached key had an attempt: the key is recorded only together with one |
| Pipeline.DeliverAnswered | main.py:69-81 | each attempt's outcome is the oracle's answer to that attempt's own request |
| Pipeline.RunAnswered | main.py:69-81 | over a whole run, each attempt's outcome is the oracle's answer to its own request |
| Pipeline.DeliverIgnoresReplies | main.py:59-81 | the cache and the requests sent do not depend on the replies |
| Pipeline.StepIgnoresReplies | main.py:59-81 | one line's effect on the cache and the requests does not depend on the replies |
| Pipeline.RunIgnoresReplies | main.py:59-81 | over a whole run, the cache and the requests depend on the lines alone: a failed delivery is neither rolled back nor retried |
| Pipeline.RunOne | main.py:113-115 | reading one line is one step |
| Pipeline.RunTwo | main.py:113-115 | reading two lines is two steps |
| Pipeline.FirstLineAttempted | main.py:58-81 | a reportable line read first leaves exactly its key cached and exactly one attempt, number 0, with its request and the answer to it |
| Pipeline.NextLineAttempted | main.py:58-81 | a line whose event's key is new appends exactly one attempt, numbered after the earlier ones, for that event |
| Pipeline.DeliverTwice | main.py:58-81 | two events with different keys sent from the start lead to attempts 0 and 1, in that order |
| Pipeline.DuplicateLineOneAttempt | main.py:59-62 | a reportable line read twice from the start leads to exactly one attempt |
| Pipeline.TwoEventsTwoAttempts | main.py:58-81 | two reportable lines with different keys lead to attempts 0 and 1, whatever the first outcome |
| Scenarios.Defaults | main.py:19-21 | with only `NTFY_URL` set, every category is enabled and there is no token |
| Scenarios.LineAParts | main.py:87 | the example accepted line is `sshd[123]: ` followed by `Accepted publickey for alice from 10.0.0.5` and ` port 2222` |
| Scenarios.RecognizeA | main.py:87-89 | `sshd[123]: Accepted publickey for alice from 10.0.0.5 port 2222` is a successful login by alice from 10.0.0.5 |
| Scenarios.RecognizeB | main.py:87-97 | `sshd[456]: Failed password for root from 203.0.113.9 port 22` is a failed login by root and does not match the accepted pattern |
| Scenarios.ScenarioA | main.py:84-91 | with all categories enabled, that accepted line leads to one attempt with priority `high`, delivered on status 200 |
| Scenarios.ScenarioB | main.py:93-99 | with all categories enabled, the failed line is a failed login sent with priority `min` |
| Scenarios.ScenarioC | main.py:59-62 | the accepted line twice leads to one attempt |
| Scenarios.ScenarioD | main.py:76-81 | with an endpoint answering 500, both lines are rejected and the second is still handled |
| Scenarios.ScenarioE | main.py:94-107 | `sshd[789]: Disconnected from authenticating user bob 198.51.100.2` with only `failed` enabled is not reported |

## Left out

- The lock file, the PID check in `/proc`, the signal handlers and `cleanup` (main.py:23-42): process plumbing with no effect on which notifications are sent.
- `load_dotenv` and the `os.getenv` reads (main.py:13, main.py:19-21): the values are parameters of `Config.Load`, with the same defaults.
- Logging configuration and log messages (main.py:45, main.py:77-81, main.py:117, main.py:129): the logged result is kept only as `Notify.Outcome`.
- `tail -f` and the `readline` loop (main.py:111-120): the input is a finite sequence of lines.
- `requests.post` itself, its 5-second timeout and the UTF-8 encoding of the body (main.py:70-75): the network is the oracle `net`, and a timeout is one of its `Raised` answers.
- An exception other than `RequestException` ends the loop in the source (main.py:116-117, main.py:128-130). The model has no such exceptions, so its loop always reads every line.
- Text.IsDigit: `\d` on a Python `str` matches every Unicode decimal digit; the model accepts only `0`-`9`.
- Text.IsWordChar: `\w` on a Python `str` matches every Unicode letter and digit; the model accepts only ASCII letters, digits and `_`.
- The Python regular expression engine in general: only the three fixed patterns are modelled, each as its own matcher.
- Classifier.UserIsTokenAfterFor: stated for any line where ` for ` occurs once, rather than proved on the concrete line `Failed password for invalid user bob from ...`.
