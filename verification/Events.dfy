/**
 The three SSH event categories the monitor knows, with the fixed strings
 attached to each: the name used in the MONITOR_EVENTS setting, the label put
 in the notification, and the ntfy priority.
 */
module Events {

  datatype Category = Accepted | Failed | Disconnected

  /** The order in which the categories are tried on a line. */
  const Order: seq<Category> := [Accepted, Failed, Disconnected]

  /** Position of a category in `Order`. */
  function Rank(c: Category): (r: nat)
    ensures r < |Order| && Order[r] == c
  {
    match c
    case Accepted => 0
    case Failed => 1
    case Disconnected => 2
  }

  /**
   The name that enables the category in the comma-separated setting; it
   holds no comma, so a single piece of the setting can name it.
   */
  function Name(c: Category): (n: string)
    ensures |n| > 0 && n != "all" && ',' !in n
  {
    match c
    case Accepted => "accepted"
    case Failed => "failed"
    case Disconnected => "disconnected"
  }

  /** The event type shown in the notification and used in the dedup key. */
  function Label(c: Category): (l: string)
    ensures |l| >= 2 && '\n' !in l && '-' !in l
  {
    match c
    case Accepted => "Successful SSH login"
    case Failed => "Failed SSH login"
    case Disconnected => "SSH disconnection"
  }

  /** The value of the ntfy `Priority` header. */
  function Priority(c: Category): (p: string)
    ensures p == "high" <==> c == Accepted
    ensures p == "min" <==> c == Failed
    ensures p == "default" <==> c == Disconnected
  {
    match c
    case Accepted => "high"
    case Failed => "min"
    case Disconnected => "default"
  }

  /** An event recognised in one log line. */
  datatype Event = Event(category: Category, user: string, ip: string)
}
