/**
 The three settings the monitor reads at start-up (main.py lines 19-21). The
 environment lookup itself is not modelled: each value arrives as an Option,
 `None` when the variable is unset.
 */
module Config {
  import opened Text
  import opened Events
  import opened Classifier

  const DefaultUrl := "https://ntfy.sh/topic"

  datatype Settings = Settings(url: string, token: Option<string>, events: seq<string>)

  /**
   Defaults applied as `os.getenv` applies them; MONITOR_EVENTS is split on
   `,` with no trimming and no case folding.
   */
  function Load(url: Option<string>, token: Option<string>, monitor: Option<string>): (cfg: Settings)
    ensures cfg.url == url.GetOr(DefaultUrl) && cfg.token == token
    ensures |cfg.events| >= 1 && Join(cfg.events, ',') == monitor.GetOr("all")
    ensures forall k :: 0 <= k < |cfg.events| ==> ',' !in cfg.events[k]
    ensures monitor.None? ==> forall c :: Enabled(cfg.events, c)
  {
    var raw := monitor.GetOr("all");
    JoinSplit(raw, ',');
    SplitNoSeparator("all", ',');
    Settings(url.GetOr(DefaultUrl), token, Split(raw, ','))
  }

  /** MONITOR_EVENTS set to the empty string enables no category at all. */
  lemma EmptySettingEnablesNothing(url: Option<string>, token: Option<string>, c: Category)
    ensures !Enabled(Load(url, token, Some("")).events, c)
  {
    assert Split("", ',') == [""];
  }

  /** Names are compared exactly: `accepted, failed` enables `accepted` but not `failed`. */
  lemma SpacesAreNotTrimmed(url: Option<string>, token: Option<string>)
    ensures Enabled(Load(url, token, Some("accepted, failed")).events, Accepted)
    ensures !Enabled(Load(url, token, Some("accepted, failed")).events, Failed)
  {
    SplitWithSpace();
    var events := Load(url, token, Some("accepted, failed")).events;
    assert events == ["accepted", " failed"];
    ExactNames(events);
  }

  lemma ExactNames(events: seq<string>)
    requires events == ["accepted", " failed"]
    ensures Enabled(events, Accepted) && !Enabled(events, Failed)
  {
    assert |Name(Failed)| != |events[1]|;
  }

  lemma SplitWithSpace()
    ensures Split("accepted, failed", ',') == ["accepted", " failed"]
  {
    SplitTwo("accepted", " failed", ',');
    assert "accepted" + [','] + " failed" == "accepted, failed";
  }

  lemma SplitTwo(a: string, b: string, sep: char)
    requires sep !in a && sep !in b
    ensures Split(a + [sep] + b, sep) == [a, b]
  {
    SplitFirstPiece(a, b, sep);
    SplitNoSeparator(b, sep);
  }

  /** A setting that names a single category, with no comma, is that one name. */
  lemma LoadOne(url: Option<string>, token: Option<string>, name: string)
    requires ',' !in name
    ensures Load(url, token, Some(name)).events == [name]
  {
    SplitNoSeparator(name, ',');
  }
}
