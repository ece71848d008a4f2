/**
 * Winlogd.cs: turning an event-log entry into an RFC 3164 (BSD syslog)
 * datagram, and the `Winlogd` daemon object that hooks every event log on
 * `Start`, forwards each written entry over UDP and unhooks on `Stop`.
 */
module WinlogdCore {
  import opened Wrappers
  import opened Text
  import C = Config
  import D = DaemonConfig

  // ---------------------------------------------------------------- severity

  /** An event-type code that no `EventLogEntryType` member has (0, EVENTLOG_SUCCESS, among them). */
  type UnnamedCode = c: int | c != 1 && c != 2 && c != 4 && c != 8 && c != 16 witness 0

  /**
   * `EventLogEntry.EntryType`: a cast of the record's event type, so either
   * one of the five named members or a code without a name.
   */
  datatype EntryKind = Named(t: D.EntryType) | Unnamed(code: UnnamedCode)

  /**
   * The severity switch: a named entry type maps to the syslog level of the
   * same name when there is one; every other entry type, named or not, keeps
   * the initial Critical.
   */
  function Severity(k: EntryKind): (l: C.EventLevel)
    ensures k.Named? && C.ParseEventLevel(D.Name(k.t)).Some? ==> l == C.ParseEventLevel(D.Name(k.t)).value
    ensures k.Named? && C.ParseEventLevel(D.Name(k.t)).None? ==> l == C.Critical
    ensures k.Unnamed? ==> l == C.Critical
  {
    match k
    case Named(Error) => C.Error
    case Named(Warning) => C.Warning
    case Named(Information) => C.Information
    case _ => C.Critical
  }

  /** Notice is never produced, and Critical exactly for the audit types and the unnamed codes. */
  lemma SeverityRange(k: EntryKind)
    ensures Severity(k) != C.Notice
    ensures Severity(k) == C.Critical <==> k.Unnamed? || k.t == D.SuccessAudit || k.t == D.FailureAudit
  {}

  /** Facility 16, local use 0. */
  const Facility: nat := 16

  /** PRI = facility * 8 + severity code. */
  function Priority(k: EntryKind): (pri: nat)
    ensures pri == 130 || pri == 131 || pri == 132 || pri == 134
    ensures pri / 8 == Facility && pri % 8 == C.Value(Severity(k))
  {
    Facility * 8 + C.Value(Severity(k))
  }

  // ---------------------------------------------------------------- header

  /** Month abbreviations by month number; entry 0 is a placeholder. */
  const Months: seq<string> :=
    ["NUL", "Jan", "Feb", "Mar", "Apr", "May", "Jun", "Jul", "Aug", "Sep", "Oct", "Nov", "Dec"]

  datatype DateTime = DateTime(month: int, day: int, hour: int, minute: int, second: int)

  /** The fields of `TimeGenerated` that the header uses, within their calendar ranges. */
  type Time = t: DateTime | 1 <= t.month <= 12 && 1 <= t.day <= 31 && 0 <= t.hour <= 23
                            && 0 <= t.minute <= 59 && 0 <= t.second <= 59
    witness DateTime(1, 1, 0, 0, 0)

  /** TIMESTAMP and the space after it: "Mmm DD HH:MM:SS ", with the day zero-padded. */
  function Timestamp(t: Time): (r: string)
    ensures |r| == 16 && r[15] == ' '
  {
    Months[t.month] + " " + Pad2(t.day) + " " + Pad2(t.hour) + ":" + Pad2(t.minute) + ":" + Pad2(t.second) + " "
  }

  /** HOSTNAME: the machine name lower-cased, every space replaced by an underscore. */
  function Hostname(machineName: string): (r: string)
    ensures |r| == |machineName| && ' ' !in r
    ensures forall i :: 0 <= i < |r| ==> r[i] == if machineName[i] == ' ' then '_' else LowerChar(machineName[i])
    ensures forall i :: 0 <= i < |r| ==> !('A' <= r[i] <= 'Z')
  {
    ReplaceByChar(Lower(machineName), ' ', '_');
    Replace(Lower(machineName), ' ', "_")
  }

  // ---------------------------------------------------------------- message

  /** The source name with every space replaced by an underscore. */
  function Underscored(source: string): (r: string)
    ensures |r| == |source| && ' ' !in r
    ensures forall i :: 0 <= i < |r| ==> r[i] == if source[i] == ' ' then '_' else source[i]
  {
    ReplaceByChar(source, ' ', '_');
    Replace(source, ' ', "_")
  }

  /** TAG: "source[instance id]: ". */
  function Tag(source: string, instanceId: int): string
  {
    Underscored(source) + "[" + IntToDecimal(instanceId) + "]: "
  }

  /** CONTENT: the message with carriage returns and tabs removed. */
  function Content(message: string): (r: string)
    ensures r == Without(message, {'\r', '\t'})
  {
    ReplaceByNothing(message, '\r');
    ReplaceByNothing(Replace(message, '\r', ""), '\t');
    WithoutTwice(message, {'\r'}, {'\t'});
    assert {'\r'} + {'\t'} == {'\r', '\t'};
    Replace(Replace(message, '\r', ""), '\t', "")
  }

  /**
   * The content holds no carriage return or tab, every other character of
   * the message (newlines too) as often as before, and stripping again
   * changes nothing.
   */
  lemma ContentStrips(message: string)
    ensures '\r' !in Content(message) && '\t' !in Content(message)
    ensures forall c :: c != '\r' && c != '\t' ==> multiset(Content(message))[c] == multiset(message)[c]
    ensures Content(Content(message)) == Content(message)
  {
    var cs := {'\r', '\t'};
    WithoutKeepsTheRest(message, cs);
    WithoutIdle(Content(message), cs);
  }

  /** Stripping works piece by piece, so the kept characters keep their order. */
  lemma ContentAppend(a: string, b: string)
    ensures Content(a + b) == Content(a) + Content(b)
  {
    WithoutAppend(a, b, {'\r', '\t'});
  }

  /** An event-log entry, as the `EntryWritten` callback receives it. */
  datatype Entry = Entry(
    entryType: EntryKind,
    time: Time,
    machineName: string,
    source: string,
    instanceId: int,
    message: string)

  /** The text the event hook builds for an entry: PRI, HEADER, then MSG. */
  function Message(e: Entry): string
  {
    "<" + NatToDecimal(Priority(e.entryType)) + ">"
    + Timestamp(e.time)
    + Hostname(e.machineName) + " "
    + Tag(e.source, e.instanceId)
    + Content(e.message)
  }

  newtype byte = x: int | 0 <= x < 256

  /** `Encoding.ASCII.GetBytes`: one byte per character, '?' for anything outside ASCII. */
  function AsciiBytes(s: string): seq<byte>
  {
    seq(|s|, i requires 0 <= i < |s| => if s[i] as int < 128 then s[i] as int as byte else '?' as int as byte)
  }

  /** Reading bytes back as characters. */
  function AsciiText(b: seq<byte>): string
  {
    seq(|b|, i requires 0 <= i < |b| => b[i] as int as char)
  }

  /** ASCII text survives the encoding unchanged, one byte per character. */
  lemma AsciiRoundTrip(s: string)
    requires forall i :: 0 <= i < |s| ==> s[i] as int < 128
    ensures |AsciiBytes(s)| == |s| && AsciiText(AsciiBytes(s)) == s
  {}

  /** The datagram sent for an entry. */
  function Packet(e: Entry): (pkt: seq<byte>)
    ensures |pkt| == |Message(e)|
  {
    AsciiBytes(Message(e))
  }

  // ---------------------------------------------------------------- reading a message back

  /** The fields a collector reads back from a datagram of this layout. */
  datatype Fields = Fields(pri: nat, time: Time, host: string, app: string, instanceId: int, content: string)

  /** "<digits>" at the front: the PRI value and what follows. */
  function ParsePri(s: string): Option<(nat, string)>
  {
    if |s| == 0 || s[0] != '<' then None
    else
      var body := s[1..];
      match IndexOf(body, '>')
      case None => None
      case Some(k) =>
        if k >= 1 && AllDigits(body[..k]) then Some((DecimalValue(body[..k]), body[k + 1..])) else None
  }

  /** The month number whose abbreviation is `name`, searching from `from` to 12. */
  function MonthNumber(name: string, from: nat): (r: Option<int>)
    requires from >= 1
    ensures r.Some? ==> from <= r.value <= 12 && Months[r.value] == name
    decreases 13 - from
  {
    if from > 12 then None
    else if Months[from] == name then Some(from)
    else MonthNumber(name, from + 1)
  }

  lemma {:induction false} MonthFound(m: int, from: nat)
    requires 1 <= from <= m <= 12
    ensures MonthNumber(Months[m], from) == Some(m)
    decreases 13 - from
  {
    if from < m {
      assert Months[from] != Months[m];
      MonthFound(m, from + 1);
    }
  }

  /** Two digits at `s[i..i + 2]`, as a number. */
  function TwoDigits(s: string, i: nat): Option<nat>
    requires i + 2 <= |s|
  {
    if AllDigits(s[i..i + 2]) then Some(DecimalValue(s[i..i + 2])) else None
  }

  /** "Mmm DD HH:MM:SS " at the front: the time and what follows. */
  function ParseTimestamp(s: string): Option<(Time, string)>
  {
    if |s| < 16 || s[3] != ' ' || s[6] != ' ' || s[9] != ':' || s[12] != ':' || s[15] != ' ' then None
    else
      match (MonthNumber(s[..3], 1), TwoDigits(s, 4), TwoDigits(s, 7), TwoDigits(s, 10), TwoDigits(s, 13))
      case (Some(mo), Some(d), Some(h), Some(mi), Some(se)) =>
        var t := DateTime(mo, d, h, mi, se);
        if 1 <= d <= 31 && h <= 23 && mi <= 59 && se <= 59 then Some((t, s[16..])) else None
      case _ => None
  }

  /** The text up to the first space, and the text after that space. */
  function ParseWord(s: string): Option<(string, string)>
  {
    match IndexOf(s, ' ')
    case None => None
    case Some(j) => Some((s[..j], s[j + 1..]))
  }

  /** "app[id]:" split at its last '[': the application name and the instance id. */
  function ParseTag(w: string): Option<(string, int)>
  {
    if |w| < 2 || w[|w| - 2..] != "]:" then None
    else
      var front := w[..|w| - 2];
      match LastIndexOf(front, '[')
      case None => None
      case Some(k) =>
        match ParseInt(front[k + 1..])
        case None => None
        case Some(id) => Some((front[..k], id))
  }

  /** Reads every field of a datagram back, as a collector parses it by position. */
  function ParseMessage(m: string): Option<Fields>
  {
    match ParsePri(m)
    case None => None
    case Some((pri, afterPri)) =>
      match ParseTimestamp(afterPri)
      case None => None
      case Some((t, afterTime)) =>
        match ParseWord(afterTime)
        case None => None
        case Some((host, afterHost)) =>
          match ParseWord(afterHost)
          case None => None
          case Some((tag, content)) =>
            match ParseTag(tag)
            case None => None
            case Some((app, id)) => Some(Fields(pri, t, host, app, id, content))
  }

  lemma PriRoundTrip(n: nat, rest: string)
    ensures ParsePri("<" + NatToDecimal(n) + ">" + rest) == Some((n, rest))
  {
    var digits := NatToDecimal(n);
    var s := "<" + digits + ">" + rest;
    assert '>' !in digits;
    assert s[1..] == digits + ['>'] + rest;
    IndexOfAt(digits, '>', rest);
    assert s[1..][..|digits|] == digits;
    assert s[1..][|digits| + 1..] == rest;
  }

  lemma TimestampRoundTrip(t: Time, rest: string)
    ensures ParseTimestamp(Timestamp(t) + rest) == Some((t, rest))
  {
    var s := Timestamp(t) + rest;
    assert s[..3] == Months[t.month];
    MonthFound(t.month, 1);
    assert s[4..6] == Pad2(t.day);
    assert s[7..9] == Pad2(t.hour);
    assert s[10..12] == Pad2(t.minute);
    assert s[13..15] == Pad2(t.second);
    assert s[16..] == rest;
  }

  lemma WordRoundTrip(w: string, rest: string)
    requires ' ' !in w
    ensures ParseWord(w + " " + rest) == Some((w, rest))
  {
    IndexOfAt(w, ' ', rest);
    assert (w + " " + rest)[..|w|] == w;
    assert (w + " " + rest)[|w| + 1..] == rest;
  }

  lemma NoBracketInNumber(i: int)
    ensures '[' !in IntToDecimal(i) && ' ' !in IntToDecimal(i)
  {
    var r := IntToDecimal(i);
    var digits := NatToDecimal(if i < 0 then -i else i);
    assert r == if i < 0 then "-" + digits else digits;
    forall j | 0 <= j < |r|
      ensures r[j] != '[' && r[j] != ' '
    {
      if i < 0 && j > 0 {
        assert r[j] == digits[j - 1];
      }
    }
  }

  lemma TagRoundTrip(app: string, instanceId: int)
    ensures ParseTag(app + "[" + IntToDecimal(instanceId) + "]:") == Some((app, instanceId))
  {
    var id := IntToDecimal(instanceId);
    var w := app + "[" + id + "]:";
    assert w[|w| - 2..] == "]:";
    var front := w[..|w| - 2];
    assert front == app + ['['] + id;
    NoBracketInNumber(instanceId);
    LastIndexOfAt(app, '[', id);
    assert front[|app| + 1..] == id;
    assert front[..|app|] == app;
    IntRoundTrip(instanceId);
  }

  /** Every field of the layout is read back, given a hostname and an application name without spaces. */
  lemma LayoutRoundTrip(pri: nat, t: Time, host: string, app: string, id: int, content: string)
    requires ' ' !in host && ' ' !in app
    ensures ParseMessage("<" + NatToDecimal(pri) + ">" + (Timestamp(t) + (host + " " + ((app + "[" + IntToDecimal(id) + "]:") + " " + content))))
         == Some(Fields(pri, t, host, app, id, content))
  {
    var tagWord := app + "[" + IntToDecimal(id) + "]:";
    var afterHost := tagWord + " " + content;
    var afterTime := host + " " + afterHost;
    var afterPri := Timestamp(t) + afterTime;
    PriRoundTrip(pri, afterPri);
    assert ParsePri("<" + NatToDecimal(pri) + ">" + afterPri) == Some((pri, afterPri));
    TimestampRoundTrip(t, afterTime);
    assert ParseTimestamp(afterPri) == Some((t, afterTime));
    WordRoundTrip(host, afterHost);
    assert ParseWord(afterTime) == Some((host, afterHost));
    NoBracketInNumber(id);
    assert ' ' !in tagWord;
    WordRoundTrip(tagWord, content);
    assert ParseWord(afterHost) == Some((tagWord, content));
    TagRoundTrip(app, id);
    assert ParseTag(tagWord) == Some((app, id));
  }

  /** Rewriting step: regroups the tag as the parser splits it at its space. */
  lemma TagLayout(app: string, id: string)
    ensures app + "[" + id + "]: " == (app + "[" + id + "]:") + " "
  {}

  /** Rewriting step: regroups the message's parts as the parser reads them. */
  lemma Reassociate(p: string, t: string, h: string, w: string, c: string)
    ensures p + t + h + " " + (w + " ") + c == p + (t + (h + " " + (w + " " + c)))
  {}

  /** Rewriting step: `Message` with the tag written out and regrouped for the parser. */
  lemma MessageLayout(e: Entry)
    ensures Message(e) ==
      "<" + NatToDecimal(Priority(e.entryType)) + ">"
      + (Timestamp(e.time) + (Hostname(e.machineName) + " "
      + ((Underscored(e.source) + "[" + IntToDecimal(e.instanceId) + "]:") + " " + Content(e.message))))
  {
    var w := Underscored(e.source) + "[" + IntToDecimal(e.instanceId) + "]:";
    TagLayout(Underscored(e.source), IntToDecimal(e.instanceId));
    assert Tag(e.source, e.instanceId) == w + " ";
    Reassociate("<" + NatToDecimal(Priority(e.entryType)) + ">", Timestamp(e.time), Hostname(e.machineName),
                w, Content(e.message));
  }

  /**
   * Format exactness: a collector that reads the datagram by position gets
   * back the priority, the time, the hostname, the tag's name and instance
   * id, and the stripped content, each exactly as built.
   */
  lemma MessageRoundTrip(e: Entry)
    ensures ParseMessage(Message(e)) ==
      Some(Fields(Priority(e.entryType), e.time, Hostname(e.machineName), Underscored(e.source),
                  e.instanceId, Content(e.message)))
  {
    MessageLayout(e);
    LayoutRoundTrip(Priority(e.entryType), e.time, Hostname(e.machineName), Underscored(e.source),
                    e.instanceId, Content(e.message));
  }

  // ---------------------------------------------------------------- a worked example

  /** Carriage return and tab are dropped between and after two clean pieces. */
  lemma StripsBetween(a: string, b: string)
    requires '\r' !in a && '\t' !in a && '\r' !in b && '\t' !in b
    ensures Content(a + "\r" + b + "\t") == a + b
  {
    var cs := {'\r', '\t'};
    var r, t := "\r", "\t";
    assert Without(r, cs) == [] && Without(t, cs) == [] by {
      assert r[1..] == [] && t[1..] == [];
    }
    WithoutIdle(a, cs);
    WithoutIdle(b, cs);
    WithoutAppend(a, r, cs);
    assert Without(a + r, cs) == a;
    WithoutAppend(a + r, b, cs);
    assert Without(a + r + b, cs) == a + b;
    WithoutAppend(a + r + b, t, cs);
    assert Without(a + r + b + t, cs) == a + b;
  }

  lemma ExampleHost(m: string)
    requires m == "MY HOST"
    ensures Hostname(m) == "my_host"
  {
    var r := Hostname(m);
    forall i | 0 <= i < 7 ensures r[i] == "my_host"[i] {}
  }

  lemma ExampleApp(s: string)
    requires s == "App Name"
    ensures Underscored(s) == "App_Name"
  {
    var r := Underscored(s);
    forall i | 0 <= i < 8 ensures r[i] == "App_Name"[i] {}
  }

  lemma ExampleContent(m: string)
    requires m == "Disk failure\r\ndetected\t"
    ensures Content(m) == "Disk failure\ndetected"
  {
    var a, b := "Disk failure", "\ndetected";
    assert m == a + "\r" + b + "\t";
    StripsBetween(a, b);
  }

  lemma ExampleNumbers(e: Entry)
    requires e.entryType == Named(D.Error) && e.instanceId == 42
    ensures NatToDecimal(Priority(e.entryType)) == "131" && IntToDecimal(e.instanceId) == "42"
  {
    assert Priority(e.entryType) == 131;
    assert NatToDecimal(13) == "13";
  }

  lemma ExampleTime(t: Time)
    requires t == DateTime(1, 5, 8, 3, 4)
    ensures Timestamp(t) == "Jan 05 08:03:04 "
  {
    assert Pad2(t.day) == "05" && Pad2(t.hour) == "08" && Pad2(t.minute) == "03" && Pad2(t.second) == "04";
  }

  /** Rewriting step: the example's fields put together. */
  lemma ExampleAssembly(pri: string, t: string, h: string, app: string, id: string, c: string)
    requires pri == "131" && t == "Jan 05 08:03:04 " && h == "my_host" && app == "App_Name" && id == "42"
    requires c == "Disk failure\ndetected"
    ensures "<" + pri + ">" + (t + (h + " " + ((app + "[" + id + "]:") + " " + c)))
         == "<131>" + "Jan 05 08:03:04 " + "my_host " + "App_Name[42]: " + "Disk failure\ndetected"
  {
    assert (app + "[" + id + "]:") + " " == "App_Name[42]: ";
    assert h + " " == "my_host ";
    assert "<" + pri + ">" == "<131>";
  }

  /**
   * An Error entry written on 5 January at 08:03:04 by "App Name" (instance
   * 42) on machine "MY HOST" gives this datagram, field by field.
   */
  lemma Example(e: Entry)
    requires e == Entry(Named(D.Error), DateTime(1, 5, 8, 3, 4), "MY HOST", "App Name", 42, "Disk failure\r\ndetected\t")
    ensures Message(e) == "<131>" + "Jan 05 08:03:04 " + "my_host " + "App_Name[42]: " + "Disk failure\ndetected"
  {
    ExampleContent(e.message);
    ExampleHost(e.machineName);
    ExampleApp(e.source);
    ExampleNumbers(e);
    ExampleTime(e.time);
    MessageLayout(e);
    ExampleAssembly(NatToDecimal(Priority(e.entryType)), Timestamp(e.time), Hostname(e.machineName),
                    Underscored(e.source), IntToDecimal(e.instanceId), Content(e.message));
  }

  // ---------------------------------------------------------------- the daemon object

  /** An event log, by name. */
  type LogName = string

  /** The exceptions `Start` lets escape. */
  datatype StartError =
    | PortMissing     // int.Parse(null): ArgumentNullException
    | PortNotNumber   // int.Parse: FormatException or OverflowException
    | PortOutOfRange  // new UdpClient(port): ArgumentOutOfRangeException
    | AuditDenied     // EventLogPermission.Demand: SecurityException

  datatype StartResult = AlreadyStarted | Started | Failed(error: StartError)

  /**
   * What becomes of one event: not sent in test mode, sent, or `Send` throws
   * because there is no usable client — before the first `Start` the client
   * is null (NullReferenceException), and after `Stop` it has been disposed
   * (ObjectDisposedException).
   */
  datatype HookResult = Suppressed | Sent | SendThrows

  /** The local port `new UdpClient(int.Parse(Port))` binds, or the exception it throws. */
  function ClientPort(port: Option<string>): (r: Result<int, StartError>)
    ensures r.Ok? ==> 0 <= r.value <= 65535 && port.Some? && ParseInt32(port.value) == Some(r.value)
    ensures r == Err(PortMissing) <==> port.None?
    ensures r == Err(PortNotNumber) <==> port.Some? && ParseInt32(port.value).None?
    ensures port.Some? && ParseInt32(port.value).Some? ==>
      (r == Ok(ParseInt32(port.value).value) <==> 0 <= ParseInt32(port.value).value <= 65535)
    ensures r == Err(PortOutOfRange) <==>
      port.Some? && ParseInt32(port.value).Some? && !(0 <= ParseInt32(port.value).value <= 65535)
    ensures r != Err(AuditDenied)
  {
    match port
    case None => Err(PortMissing)
    case Some(text) =>
      match ParseInt32(text)
      case None => Err(PortNotNumber)
      case Some(p) => if 0 <= p <= 65535 then Ok(p) else Err(PortOutOfRange)
  }

  /** The logs of `logs` whose hook-up succeeds. */
  function Hooked(logs: seq<LogName>, hooks: LogName -> bool): set<LogName>
  {
    set l | l in logs && hooks(l)
  }

  /**
   * The `Winlogd` daemon. `subscribed` is the set of logs whose `EntryWritten`
   * event calls the hook; `sent` records every datagram handed to the UDP client.
   */
  class Winlogd {
    const test: bool
    const port: Option<string>
    var started: bool
    /** The local port of the open UDP client; `None` when there is none, or it was disposed. */
    var server: Option<int>
    var subscribed: set<LogName>
    ghost var sent: seq<seq<byte>>

    ghost predicate Valid()
      reads this
    {
      started ==> server.Some?
    }

    /** Keeps its own copy of the configuration struct. */
    constructor (configuration: C.Configuration)
      ensures Valid()
      ensures test == configuration.test && port == configuration.port
      ensures !started && server.None? && subscribed == {} && sent == []
    {
      test := configuration.test;
      port := configuration.port;
      started := false;
      server := None;
      subscribed := {};
      sent := [];
    }

    /**
     * Does nothing when already started. Otherwise opens the UDP client,
     * demands audit permission, then hooks every log in `logs` (the host's
     * event logs) on its own; a log whose hook-up fails (`hooks` is false for
     * it) is skipped and the others are still hooked. Started afterwards
     * however many logs failed.
     */
    method Start(logs: seq<LogName>, hooks: LogName -> bool, auditAllowed: bool) returns (result: StartResult)
      requires Valid()
      modifies this
      ensures Valid() && sent == old(sent)
      ensures old(started) ==> result == AlreadyStarted && started && server == old(server) && subscribed == old(subscribed)
      ensures !old(started) && ClientPort(port).Err? ==>
        result == Failed(ClientPort(port).error) && !started && server == old(server) && subscribed == old(subscribed)
      ensures !old(started) && ClientPort(port).Ok? && !auditAllowed ==>
        result == Failed(AuditDenied) && !started && server == Some(ClientPort(port).value) && subscribed == old(subscribed)
      ensures !old(started) && ClientPort(port).Ok? && auditAllowed ==>
        result == Started && started && server == Some(ClientPort(port).value)
        && subscribed == old(subscribed) + Hooked(logs, hooks)
    {
      if started {
        return AlreadyStarted;
      }
      var client := ClientPort(port);
      if client.Err? {
        return Failed(client.error);
      }
      server := Some(client.value);
      if !auditAllowed {
        return Failed(AuditDenied);
      }
      var i := 0;
      while i < |logs|
        invariant 0 <= i <= |logs|
        invariant subscribed == old(subscribed) + Hooked(logs[..i], hooks)
        invariant sent == old(sent) && !started && server == Some(client.value)
      {
        assert logs[..i + 1] == logs[..i] + [logs[i]];
        if hooks(logs[i]) {
          subscribed := subscribed + {logs[i]};
        }
        i := i + 1;
      }
      assert logs[..i] == logs;
      started := true;
      result := Started;
    }

    /**
     * The `EntryWritten` handler: builds the datagram for `e`; in test mode
     * sends nothing, otherwise hands the whole datagram to the UDP client
     * exactly once. No level filter is applied. `Sent` is the intended
     * delivery: the client is only bound to a local port and never given a
     * remote endpoint, and .NET's `UdpClient.Send(bytes, length)` throws on
     * an unconnected client.
     */
    method EventHook(e: Entry) returns (result: HookResult)
      requires Valid()
      modifies this`sent
      ensures test ==> result == Suppressed && sent == old(sent)
      ensures !test && server.Some? ==> result == Sent && sent == old(sent) + [Packet(e)]
      ensures !test && server.None? ==> result == SendThrows && sent == old(sent)
      ensures started && !test ==> result == Sent
    {
      var pkt := AsciiBytes(Message(e));
      if test {
        return Suppressed;
      }
      if server.None? {
        return SendThrows;
      }
      sent := sent + [pkt];
      result := Sent;
    }

    /**
     * Does nothing when not started. Otherwise unhooks every log in `logs`
     * (the host's event logs, enumerated again), marks the daemon stopped and
     * disposes of the UDP client.
     */
    method Stop(logs: seq<LogName>)
      requires Valid()
      modifies this
      ensures Valid() && sent == old(sent)
      ensures !old(started) ==> !started && server == old(server) && subscribed == old(subscribed)
      ensures old(started) ==>
        !started && server.None? && subscribed == old(subscribed) - (set l | l in logs)
    {
      if !started {
        return;
      }
      var i := 0;
      while i < |logs|
        invariant 0 <= i <= |logs|
        invariant subscribed == old(subscribed) - (set l | l in logs[..i])
        invariant started && sent == old(sent) && server == old(server)
      {
        assert logs[..i + 1] == logs[..i] + [logs[i]];
        subscribed := subscribed - {logs[i]};
        i := i + 1;
      }
      assert logs[..i] == logs;
      started := false;
      server := None;
    }
  }

  /**
   * Three logs of which the second cannot be hooked: the first and third are
   * still hooked and their events are sent; a second Start changes nothing;
   * Stop releases every log and a later Start hooks them again.
   */
  method PartialFailureScenario(e: Entry)
  {
    var configuration := new C.Configuration();
    configuration.port := Some(IntToDecimal(514));
    IntRoundTrip(514);
    var daemon := new Winlogd(configuration);
    var logs := ["Application", "Security", "System"];
    var hooks := (l: LogName) => l != "Security";
    var result := daemon.Start(logs, hooks, true);
    assert Hooked(logs, hooks) == {"Application", "System"};
    assert result == Started && daemon.subscribed == {"Application", "System"};
    var hooked := daemon.EventHook(e);
    assert hooked == Sent && daemon.sent == [Packet(e)];
    result := daemon.Start(logs, hooks, true);
    assert result == AlreadyStarted && daemon.subscribed == {"Application", "System"};
    daemon.Stop(logs);
    assert !daemon.started && daemon.subscribed == {};
    result := daemon.Start(logs, hooks, true);
    assert result == Started && daemon.subscribed == {"Application", "System"};
  }
}
