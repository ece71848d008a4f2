/**
 * DaemonConfiguration.cs: the settings the command line produces. Its `Level`
 * property parses a list of `EventLogEntryType` names; the names and the
 * "All" alias are matched without regard to case, and "All" counts only as
 * the whole value.
 */
module DaemonConfig {
  import opened Wrappers
  import opened Text

  /** The platform's `EventLogEntryType`. */
  datatype EntryType = Error | Warning | Information | SuccessAudit | FailureAudit

  /** The enumeration's numeric values (flag bits). */
  function Code(t: EntryType): int
  {
    match t
    case Error => 1
    case Warning => 2
    case Information => 4
    case SuccessAudit => 8
    case FailureAudit => 16
  }

  /** The name `ToString` gives an entry type: at least five letters, no comma. */
  function Name(t: EntryType): (r: string)
    ensures |r| >= 5 && ',' !in r
  {
    match t
    case Error => "Error"
    case Warning => "Warning"
    case Information => "Information"
    case SuccessAudit => "SuccessAudit"
    case FailureAudit => "FailureAudit"
  }

  /**
   * Parses an entry type name ignoring case (`Enum.Parse` with ignoreCase):
   * the type whose name matches, or `None` when no name matches.
   */
  function ParseEntryType(s: string): (r: Option<EntryType>)
    ensures r.Some? ==> EqualsIgnoreCase(Name(r.value), s)
    ensures r.None? ==> forall t :: !EqualsIgnoreCase(Name(t), s)
  {
    if EqualsIgnoreCase(s, "Error") then Some(Error)
    else if EqualsIgnoreCase(s, "Warning") then Some(Warning)
    else if EqualsIgnoreCase(s, "Information") then Some(Information)
    else if EqualsIgnoreCase(s, "SuccessAudit") then Some(SuccessAudit)
    else if EqualsIgnoreCase(s, "FailureAudit") then Some(FailureAudit)
    else None
  }

  /** Every name, in any case, parses back to its own entry type. */
  lemma ParseName(t: EntryType, s: string)
    requires EqualsIgnoreCase(s, Name(t))
    ensures ParseEntryType(s) == Some(t)
  {
    var l := Lower(s);
    assert |l| == |Name(t)|;
    assert Lower("SuccessAudit")[0] == 's' && Lower("FailureAudit")[0] == 'f';
  }

  /** `Enum.GetValues`: every entry type, in ascending order of its code. */
  const AllEntryTypes: seq<EntryType> := [Error, Warning, Information, SuccessAudit, FailureAudit]

  lemma AllEntryTypesComplete(t: EntryType)
    ensures t in AllEntryTypes
    ensures forall i, j :: 0 <= i < j < |AllEntryTypes| ==> Code(AllEntryTypes[i]) < Code(AllEntryTypes[j])
  {}

  function Names(levels: seq<EntryType>): seq<string>
  {
    seq(|levels|, i requires 0 <= i < |levels| => Name(levels[i]))
  }

  /** The `Level` getter's text for a list of entry types: names joined by commas. */
  function Render(levels: seq<EntryType>): string
  {
    Join(Names(levels), ',')
  }

  /**
   * What the `Level` setter assigns to `Levels` for `value` (`None` is null),
   * or `None` when it throws because a piece names no entry type.
   */
  function ParseLevel(value: Option<string>): (r: Option<seq<EntryType>>)
    ensures EqualsIgnoreCase(value.GetOr("All"), "All") ==> r == Some(AllEntryTypes)
    ensures !EqualsIgnoreCase(value.GetOr("All"), "All") && r.Some? ==>
      var pieces := NonEmpty(Split(value.GetOr("All"), ','));
      |r.value| == |pieces| && forall i :: 0 <= i < |pieces| ==> EqualsIgnoreCase(Name(r.value[i]), pieces[i])
    ensures r.None? ==>
      exists p :: p in NonEmpty(Split(value.GetOr("All"), ',')) && forall t :: !EqualsIgnoreCase(Name(t), p)
  {
    var v := value.GetOr("All");
    if EqualsIgnoreCase(v, "All") then Some(AllEntryTypes)
    else
      var pieces := NonEmpty(Split(v, ','));
      var r := ParseEach(pieces, ParseEntryType);
      if r.Some? then
        assert forall i :: 0 <= i < |pieces| ==> EqualsIgnoreCase(Name(r.value[i]), pieces[i]);
        r
      else
        var i :| 0 <= i < |pieces| && ParseEntryType(pieces[i]).None?;
        assert pieces[i] in pieces;
        r
  }

  /** Setting null is the same as setting "All": every entry type. */
  lemma NullIsAll()
    ensures ParseLevel(None) == ParseLevel(Some("All")) == Some(AllEntryTypes)
  {}

  /** "All" is recognised in any case. */
  lemma AllIgnoresCase()
    ensures ParseLevel(Some("all")) == Some(AllEntryTypes)
    ensures ParseLevel(Some("ALL")) == Some(AllEntryTypes)
  {
    assert Lower("all") == Lower("All") == Lower("ALL");
  }

  /** No entry type is named "All", in any case. */
  lemma AllIsNoName(p: string)
    requires EqualsIgnoreCase(p, "All")
    ensures ParseEntryType(p) == None
  {
    assert |Lower(p)| == 3;
  }

  /** "All" inside a list is not the alias: the setter throws. */
  lemma AllInsideListRejected(v: string, i: nat)
    requires !EqualsIgnoreCase(v, "All")
    requires i < |NonEmpty(Split(v, ','))| && EqualsIgnoreCase(NonEmpty(Split(v, ','))[i], "All")
    ensures ParseLevel(Some(v)) == None
  {
    AllIsNoName(NonEmpty(Split(v, ','))[i]);
  }

  lemma ErrorAllRejected()
    ensures ParseLevel(Some("Error,All")) == None
  {
    assert "Error,All" == "Error" + [','] + "All";
    SplitAfterPiece("Error", ',', "All");
    SplitWithoutSeparator("All", ',');
    assert NonEmpty(["Error", "All"]) == ["Error", "All"];
    assert |Lower("Error,All")| == 9;
    AllInsideListRejected("Error,All", 1);
  }

  /** A value made only of separators, "" included, enables no entry type at all. */
  lemma NoPiecesNoLevels(v: string)
    requires forall i :: 0 <= i < |v| ==> v[i] == ','
    ensures ParseLevel(Some(v)) == Some([])
  {
    OnlySeparators(v, ',');
    if |v| == 3 {
      assert Lower(v)[0] == ',';
    }
  }

  /** A single name sets exactly that entry type. */
  lemma SingleName(t: EntryType)
    ensures ParseLevel(Some(Name(t))) == Some([t])
  {
    assert Render([t]) == Name(t);
    RenderRoundTrip([t]);
  }

  /** Parsing the names of entry types one by one gives them back. */
  lemma ParseNames(levels: seq<EntryType>)
    ensures ParseEach(Names(levels), ParseEntryType) == Some(levels)
  {
    var names := Names(levels);
    forall i | 0 <= i < |levels|
      ensures ParseEntryType(names[i]) == Some(levels[i])
    {
      ParseName(levels[i], names[i]);
    }
    var r := ParseEach(names, ParseEntryType);
    forall i | 0 <= i < |levels|
      ensures r.value[i] == levels[i]
    {
      assert ParseEntryType(names[i]) == Some(levels[i]);
    }
    assert |r.value| == |names| == |levels|;
    assert r.value == levels;
  }

  /** The getter's text, set again, gives back the same entry types in the same order. */
  lemma RenderRoundTrip(levels: seq<EntryType>)
    ensures ParseLevel(Some(Render(levels))) == Some(levels)
  {
    var names := Names(levels);
    if levels == [] {
      assert Render(levels) == "";
      assert |Lower("")| != |Lower("All")|;
    } else {
      JoinStartsWithFirst(names, ',');
      assert |Lower(Render(levels))| != |Lower("All")|;
      SplitJoin(names, ',');
      NonEmptyIdle(names);
      ParseNames(levels);
    }
  }

  /** The `DaemonConfiguration` struct built by the command line. */
  class DaemonConfiguration {
    var test: bool
    /** The resolved server address, kept as text. */
    var server: Option<string>
    var port: int
    var verbose: bool
    /** `Levels`; `None` until `Level` is first set. */
    var levels: Option<seq<EntryType>>

    /** A default-initialised struct. */
    constructor ()
      ensures !test && server.None? && port == 0 && !verbose && levels.None?
    {
      test, server, port, verbose, levels := false, None, 0, false, None;
    }

    /** The `Level` getter: "" while unset; otherwise text that sets the same levels again. */
    function Level(): (r: string)
      reads this
      ensures levels.None? ==> r == ""
      ensures levels.Some? ==> ParseLevel(Some(r)) == levels
      ensures r == "" <==> levels.None? || levels == Some([])
    {
      if levels.Some? then
        RenderRoundTrip(levels.value);
        if levels.value == [] then Render([])
        else
          JoinStartsWithFirst(Names(levels.value), ',');
          Render(levels.value)
      else Render([])
    }

    /**
     * The `Level` setter; `ok` is false where it throws, and then `Levels`
     * keeps its old value.
     */
    method SetLevel(value: Option<string>) returns (ok: bool)
      modifies this
      ensures ok <==> ParseLevel(value).Some?
      ensures levels == if ok then ParseLevel(value) else old(levels)
      ensures test == old(test) && server == old(server) && port == old(port) && verbose == old(verbose)
    {
      var parsed := ParseLevel(value);
      ok := parsed.Some?;
      if ok {
        levels := parsed;
      }
    }
  }
}
