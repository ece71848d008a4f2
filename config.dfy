/**
 * Configuration.cs: the `EventLevel` enumeration of syslog severities and the
 * `Configuration` struct, whose `Level` property parses and prints the list
 * of enabled levels. Level names are matched case-sensitively and any value
 * containing "All" enables every level.
 */
module Config {
  import opened Wrappers
  import opened Text

  datatype EventLevel = Critical | Error | Warning | Notice | Information

  /** The enumeration's numeric values, which are RFC 3164 severity codes. */
  function Value(l: EventLevel): (v: int)
    ensures 2 <= v <= 6
  {
    match l
    case Critical => 2
    case Error => 3
    case Warning => 4
    case Notice => 5
    case Information => 6
  }

  /** Distinct levels have distinct codes, so the code identifies the level. */
  lemma ValueInjective(l: EventLevel, m: EventLevel)
    ensures Value(l) == Value(m) ==> l == m
  {}

  /**
   * Parses a level name exactly as written (`Enum.Parse` without ignoreCase):
   * the inverse of `Name`.
   */
  function ParseEventLevel(s: string): (r: Option<EventLevel>)
    ensures r.Some? ==> Name(r.value) == s
    ensures r.None? ==> forall l :: Name(l) != s
  {
    if s == "Critical" then Some(Critical)
    else if s == "Error" then Some(Error)
    else if s == "Warning" then Some(Warning)
    else if s == "Notice" then Some(Notice)
    else if s == "Information" then Some(Information)
    else None
  }

  /** The name `ToString` gives a level: never empty, no comma, no capital A. */
  function Name(l: EventLevel): (r: string)
    ensures r != "" && ',' !in r && 'A' !in r
  {
    match l
    case Critical => "Critical"
    case Error => "Error"
    case Warning => "Warning"
    case Notice => "Notice"
    case Information => "Information"
  }

  /** `Enum.GetValues`: every level, in ascending order of its code. */
  const AllLevels: seq<EventLevel> := [Critical, Error, Warning, Notice, Information]

  lemma AllLevelsComplete(l: EventLevel)
    ensures l in AllLevels
    ensures forall i, j :: 0 <= i < j < |AllLevels| ==> Value(AllLevels[i]) < Value(AllLevels[j])
  {}

  function Names(levels: seq<EventLevel>): seq<string>
  {
    seq(|levels|, i requires 0 <= i < |levels| => Name(levels[i]))
  }

  /** The `Level` getter's text for a list of levels: names joined by commas. */
  function Render(levels: seq<EventLevel>): string
  {
    Join(Names(levels), ',')
  }

  /**
   * What the `Level` setter assigns to `Levels` for `value` (`None` is null),
   * or `None` when it throws because a piece names no level.
   */
  function ParseLevel(value: Option<string>): (r: Option<seq<EventLevel>>)
    ensures Contains(value.GetOr("All"), "All") ==> r == Some(AllLevels)
    ensures !Contains(value.GetOr("All"), "All") && r.Some? ==>
      Names(r.value) == NonEmpty(Split(value.GetOr("All"), ','))
    ensures r.None? ==>
      exists p :: p in NonEmpty(Split(value.GetOr("All"), ',')) && forall l :: Name(l) != p
  {
    var v := value.GetOr("All");
    if Contains(v, "All") then Some(AllLevels)
    else
      var pieces := NonEmpty(Split(v, ','));
      var r := ParseEach(pieces, ParseEventLevel);
      if r.Some? then
        assert forall i :: 0 <= i < |pieces| ==> Name(r.value[i]) == pieces[i];
        r
      else
        var i :| 0 <= i < |pieces| && ParseEventLevel(pieces[i]).None?;
        assert pieces[i] in pieces;
        r
  }

  /** Setting null is the same as setting "All": every level. */
  lemma NullIsAll()
    ensures ParseLevel(None) == ParseLevel(Some("All")) == Some(AllLevels)
  {
    assert StartsWith("All", "All");
  }

  /** Any value containing "All", even inside a list or a longer word, enables every level. */
  lemma AllAnywhere()
    ensures ParseLevel(Some("Error,All")) == Some(AllLevels)
    ensures ParseLevel(Some("Allx")) == Some(AllLevels)
  {
    assert StartsWith("Allx", "All");
    assert "Error,All"[1..][1..][1..][1..][1..][1..] == "All";
    assert StartsWith("All", "All");
  }

  /** A single piece that is no level's exact name makes the setter throw. */
  lemma UnknownNameRejected(p: string)
    requires p != "" && ',' !in p && !Contains(p, "All")
    requires forall l :: Name(l) != p
    ensures ParseLevel(Some(p)) == None
  {
    SplitWithoutSeparator(p, ',');
    NonEmptyIdle([p]);
    assert ParseEventLevel(p).None?;
  }

  /** Names are case-sensitive: a wrongly cased name, "all" included, makes the setter throw. */
  lemma WrongCaseRejected()
    ensures ParseLevel(Some("error")) == None
    ensures ParseLevel(Some("all")) == None
  {
    NotContainsFirst("error", "All");
    UnknownNameRejected("error");
    NotContainsFirst("all", "All");
    UnknownNameRejected("all");
  }

  /** A value made only of separators, "" included, enables no level at all. */
  lemma NoPiecesNoLevels(v: string)
    requires forall i :: 0 <= i < |v| ==> v[i] == ','
    ensures ParseLevel(Some(v)) == Some([])
  {
    NotContainsFirst(v, "All");
    OnlySeparators(v, ',');
  }

  /** Parsing the names of levels one by one gives the levels back. */
  lemma ParseNames(levels: seq<EventLevel>)
    ensures ParseEach(Names(levels), ParseEventLevel) == Some(levels)
  {
    var names := Names(levels);
    var r := ParseEach(names, ParseEventLevel);
    assert forall i :: 0 <= i < |levels| ==> ParseEventLevel(names[i]) == Some(levels[i]);
    assert r.Some?;
    forall i | 0 <= i < |levels|
      ensures r.value[i] == levels[i]
    {
      assert ParseEventLevel(names[i]) == Some(levels[i]);
    }
    assert |r.value| == |names| == |levels|;
    assert r.value == levels;
  }

  /** The getter's text, set again, gives back the same levels in the same order. */
  lemma RenderRoundTrip(levels: seq<EventLevel>)
    ensures ParseLevel(Some(Render(levels))) == Some(levels)
  {
    var names := Names(levels);
    JoinAvoids(names, ',', 'A');
    NotContainsFirst(Render(levels), "All");
    if levels == [] {
      assert Render(levels) == "";
    } else {
      SplitJoin(names, ',');
      NonEmptyIdle(names);
      ParseNames(levels);
    }
  }

  /** The `Configuration` struct: the fields the forwarder reads. */
  class Configuration {
    var test: bool
    var server: Option<string>
    var port: Option<string>
    var verbose: bool
    /** `Levels`; `None` until `Level` is first set. */
    var levels: Option<seq<EventLevel>>

    /** A default-initialised struct: flags off, references null. */
    constructor ()
      ensures !test && server.None? && port.None? && !verbose && levels.None?
    {
      test, server, port, verbose, levels := false, None, None, false, None;
    }

    /** The `Level` getter: "" while unset; otherwise text that sets the same levels again. */
    function Level(): (r: string)
      reads this
      ensures levels.None? ==> r == ""
      ensures levels.Some? ==> ParseLevel(Some(r)) == levels
    {
      if levels.Some? then RenderRoundTrip(levels.value); Render(levels.value)
      else Render([])
    }

    /**
     * The `Level` setter; `ok` is false where it throws, and then `Levels`
     * keeps its old value.
     */
    method SetLevel(value: Option<string>) returns (ok: bool)
      modifies this
      ensures ok <==> ParseLevel(value).Some?
      ensures levels == if ok then ParseLevel(value) else old(levels)
      ensures test == old(test) && server == old(server) && port == old(port) && verbose == old(verbose)
    {
      var parsed := ParseLevel(value);
      ok := parsed.Some?;
      if ok {
        levels := parsed;
      }
    }
  }
}
