# winlogd in Dafny

winlogd is a Windows daemon that forwards event-log entries to a syslog server
over UDP. This project models four parts of it:

- The `Winlogd` service object: `Start`, the `EventHook` callback and `Stop`.
- How an entry becomes an RFC 3164 (BSD syslog) packet:
  - `<PRI>`, where PRI is facility 16 (local0) × 8 plus the severity;
  - a timestamp "Mmm dd hh:mm:ss ";
  - the lower-cased host name with spaces replaced by `_`;
  - the tag `Source[InstanceId]: `;
  - the message, with carriage returns and tabs removed;
  - ASCII encoding of the whole.
- The two configuration records, `Configuration` and `DaemonConfiguration`,
  with their `Level` property. Its getter joins the enabled levels with
  commas; its setter parses such a list back.
- The command line of `Program`:
  - the `Has`, `HasStr` and `HasUnique` scanners;
  - the decisions `Main` takes before it hands a configuration to the
    daemon: exit codes for help, version and a missing `-d`, and the
    defaults "localhost", 514 and "Error".

Modules:

| Module | File | What it models |
|---|---|---|
| `Wrappers` | `wrappers.dfy` | `Option` (null) and `Result` |
| `Text` | `text.dfy` | The .NET string operations the code relies on |
| `Config` | `config.dfy` | `Configuration.cs` |
| `DaemonConfig` | `daemon_config.dfy` | `DaemonConfiguration.cs` |
| `WinlogdCore` | `winlogd.dfy` | `Winlogd.cs` |
| `CommandLine` | `program.dfy` | `Program.cs` |

`Text` covers these .NET operations:

- `Split` with `RemoveEmptyEntries`;
- `string.Join`;
- `Replace`;
- ASCII `ToLower`;
- `int.Parse`;
- ordinal `StartsWith` and `Contains`.

The main results:

- A syslog message parses back into the fields it was built from (`WinlogdCore.MessageRoundTrip`).
- The `Level` text the getter produces is parsed back by the setter into the same list, in both configuration records.
- Splitting and joining are inverse to each other.
- `Start` subscribes exactly the logs whose hook succeeds, and keeps any already subscribed.
- `EventHook` hands the packet of the entry to the UDP client exactly once when test mode is off and a client exists (see the `EventHook` line under "## Left out" for what .NET then does with it).
- `Stop` unsubscribes every log it enumerates.
- The exit codes of `Main` follow the order help, then version, then `-d`.

Notes on what the code does (the model follows it):

- `EventHook` does not filter by the configured levels: nothing in it reads `Levels`. Only test mode, or a missing or disposed client, stops a send.
- The day of the month is zero-padded (`{t.Day:00}`). Section 4.1.2 of RFC 3164 asks for a space instead.
- Audit entries (`SuccessAudit`, `FailureAudit`) get severity `Critical` (2). The switch has no case for them, so the initial value stays. So does an entry whose event-type code has no `EventLogEntryType` name (0, for one); the model keeps such codes as `WinlogdCore.EntryKind.Unnamed`.
- The setter of `Configuration.Level` takes every level when "All" occurs anywhere in the text (`Contains`). It parses level names case-sensitively.
- The setter of `DaemonConfiguration.Level` compares the whole text with "All", ignoring case. It parses entry-type names ignoring case.
- `Winlogd` takes a `Configuration`, whose port is text. `Program` builds a `DaemonConfiguration`, whose port is an integer. So the service is modelled over `Configuration`, and `Main` is modelled up to the `DaemonConfiguration` it builds.

## Model

| member | source | states |
|---|---|---|
| Text.NatToDecimal | winlogd/Winlogd.cs:81-82 | The decimal rendering has at least one digit and no leading zero, and reads back as the number. |
| Text.IntToDecimal | winlogd/Winlogd.cs:93 | Rendering an `InstanceId` starts with '-' exactly for negative numbers, and is otherwise all digits. |
| Text.ParseInt | winlogd/Program.cs:45 | Definition: `int.Parse` with the invariant culture reads an optional sign and at least one ASCII digit; anything else gives `None`. `Text.IntRoundTrip` carries its property. |
| Text.IntRoundTrip | winlogd/Program.cs:45 | `int.Parse` reads back every rendered integer. |
| Text.ParseInt32 | winlogd/Program.cs:45 | `int.Parse` succeeds exactly on well-formed decimals within the 32-bit range, and gives their value. |
| Text.Pad2 | winlogd/Winlogd.cs:86 | The `:00` format gives two digits that read back as the number. |
| Text.Replace | winlogd/Winlogd.cs:89-97 | Definition: every occurrence of a character is replaced by a text. `Text.ReplaceRemovesAll`, `Text.ReplaceByChar` and `Text.ReplaceByNothing` carry its properties. |
| Text.ReplaceRemovesAll | winlogd/Winlogd.cs:97 | After `Replace(c, "")` the character no longer occurs. |
| Text.ReplaceByChar | winlogd/Winlogd.cs:93 | `Replace(' ', '_')` keeps the length, and changes exactly the replaced positions. |
| Text.ReplaceByNothing | winlogd/Winlogd.cs:97 | Replacing a character by "" is the same as filtering it out. |
| Text.WithoutAppend | winlogd/Winlogd.cs:97 | Filtering distributes over concatenation. |
| Text.WithoutTwice | winlogd/Winlogd.cs:97 | Filtering by one set and then another equals filtering by their union. |
| Text.WithoutKeepsTheRest | winlogd/Winlogd.cs:97 | Filtering removes the chosen characters, and keeps the count of every other character. |
| Text.WithoutIdle | winlogd/Winlogd.cs:97 | Filtering a text that has none of the characters leaves it unchanged. |
| Text.Lower | winlogd/Winlogd.cs:89 | Definition: `ToLower` on ASCII letters, character by character. `WinlogdCore.Hostname` states its effect position by position. |
| Text.EqualsIgnoreCase | winlogd/DaemonConfiguration.cs:28 | Definition: `OrdinalIgnoreCase` equality, as equality after lowering. `DaemonConfig.ParseEntryType` and `DaemonConfig.ParseLevel` state their results through it. |
| Text.Split | winlogd/DaemonConfiguration.cs:32 | `Split` always yields at least one piece. |
| Text.NonEmpty | winlogd/DaemonConfiguration.cs:32 | `RemoveEmptyEntries` keeps no empty piece, and never adds pieces. |
| Text.Join | winlogd/Configuration.cs:18 | Definition: `string.Join`, the pieces separated by the character, "" for no pieces. `Text.JoinSplit` and `Text.SplitJoin` tie it to `Split`. |
| Text.JoinSplit | winlogd/Configuration.cs:18-25 | Joining the pieces of a split with the same separator gives back the text. |
| Text.SplitWithoutSeparator | winlogd/Configuration.cs:25 | A text without the separator splits into just itself. |
| Text.SplitAfterPiece | winlogd/Configuration.cs:25 | Splitting a piece, the separator and a rest gives the piece followed by the split of the rest. |
| Text.SplitJoin | winlogd/Configuration.cs:18-25 | Splitting the join of separator-free pieces gives back the pieces. |
| Text.NonEmptyIdle | winlogd/Configuration.cs:25 | `RemoveEmptyEntries` leaves a list of non-empty pieces unchanged. |
| Text.OnlySeparators | winlogd/DaemonConfiguration.cs:32 | A text made only of separators leaves no entries. |
| Text.JoinAvoids | winlogd/Configuration.cs:18 | A joined text contains no character that is absent from both the pieces and the separator. |
| Text.JoinStartsWithFirst | winlogd/DaemonConfiguration.cs:24 | A join starts with its first piece. |
| Text.ParseEach | winlogd/DaemonConfiguration.cs:33 | `Select(Enum.Parse).ToArray()` succeeds exactly when every piece parses. It then gives one value per piece, in order. |
| Text.StartsWith | winlogd/Program.cs:111 | Definition: ordinal prefix test. `CommandLine.HasStr` states its result through it. |
| Text.Contains | winlogd/Configuration.cs:22 | Definition: ordinal substring test, the pattern starting at some position. `Text.NotContainsFirst` and `Config.ParseLevel` carry its properties. |
| Text.NotContainsFirst | winlogd/Configuration.cs:22 | A text that lacks the first character of a pattern does not contain the pattern. |
| Text.IndexOfAt | winlogd/Winlogd.cs:89-90 | The first space after a space-free prefix is the one that ends the prefix. |
| Text.LastIndexOfAt | winlogd/Winlogd.cs:93 | The last '[' before a bracket-free suffix is the one that starts the suffix. |
| Config.Value | winlogd/Configuration.cs:32-39 | The numeric values of the levels lie between 2 (Critical) and 6 (Information). |
| Config.ValueInjective | winlogd/Configuration.cs:32-39 | Distinct levels have distinct values. |
| Config.Name | winlogd/Configuration.cs:32-39 | Level names are non-empty, and contain neither ',' nor 'A'. |
| Config.ParseEventLevel | winlogd/Configuration.cs:25 | Case-sensitive `Enum.Parse`: it gives the level with exactly that name, and `None` when no level has it. |
| Config.AllLevelsComplete | winlogd/Configuration.cs:23 | `AllLevels`, standing for `Enum.GetValues`, lists every level, ordered by value. |
| Config.Render | winlogd/Configuration.cs:18 | Definition: the getter text, level names joined with ','. `Config.RenderRoundTrip` shows the setter reads it back. |
| Config.ParseLevel | winlogd/Configuration.cs:19-26 | A null text, or one containing "All", gives every level. Otherwise each non-empty comma piece must name a level, and the result lists exactly those levels; failure names a bad piece. |
| Config.NullIsAll | winlogd/Configuration.cs:21-23 | Setting null gives the same levels as "All", namely all of them. |
| Config.AllAnywhere | winlogd/Configuration.cs:22 | "Error,All" and "Allx" enable every level. |
| Config.UnknownNameRejected | winlogd/Configuration.cs:25 | A single-piece value that names no level makes the setter fail. |
| Config.WrongCaseRejected | winlogd/Configuration.cs:25 | "error" is rejected, because parsing is case-sensitive. |
| Config.NoPiecesNoLevels | winlogd/Configuration.cs:25 | A text of commas only gives an empty list of levels. |
| Config.ParseNames | winlogd/Configuration.cs:25 | Parsing the names of a list of levels gives back that list. |
| Config.RenderRoundTrip | winlogd/Configuration.cs:16-27 | Setting the text the getter produced restores the same levels. |
| Config.Configuration.constructor | winlogd/Configuration.cs:8-14 | A default struct: no test mode, no server, no port, not verbose, no levels. |
| Config.Configuration.Level | winlogd/Configuration.cs:18 | The getter gives "" without levels. Otherwise it gives a text that the setter maps back to the same levels. |
| Config.Configuration.SetLevel | winlogd/Configuration.cs:19-26 | Assigns the parsed levels when parsing succeeds, and throws (changing nothing) otherwise. Other fields are untouched. |
| DaemonConfig.Name | winlogd/DaemonConfiguration.cs:20 | Entry-type names have at least five characters and no ','. |
| DaemonConfig.ParseEntryType | winlogd/DaemonConfiguration.cs:33 | Case-insensitive `Enum.Parse`: it gives a type whose name equals the text ignoring case, and `None` when no name does. |
| DaemonConfig.ParseName | winlogd/DaemonConfiguration.cs:33 | Every name, in any letter case, parses to its entry type. |
| DaemonConfig.AllEntryTypesComplete | winlogd/DaemonConfiguration.cs:29 | `AllEntryTypes`, standing for `Enum.GetValues`, lists every entry type, ordered by value. |
| DaemonConfig.Render | winlogd/DaemonConfiguration.cs:24 | Definition: the getter text, entry-type names joined with ','. `DaemonConfig.RenderRoundTrip` shows the setter reads it back. |
| DaemonConfig.ParseLevel | winlogd/DaemonConfiguration.cs:25-35 | Null, or "All" in any case, gives every type. Otherwise each non-empty comma piece must name a type ignoring case, and the result lists those types in order; failure names a bad piece. |
| DaemonConfig.NullIsAll | winlogd/DaemonConfiguration.cs:27-29 | Setting null is the same as setting "All", namely every type. |
| DaemonConfig.AllIgnoresCase | winlogd/DaemonConfiguration.cs:28 | "all" and "ALL" enable every type. |
| DaemonConfig.AllIsNoName | winlogd/DaemonConfiguration.cs:28-33 | "All" is not the name of any entry type. |
| DaemonConfig.AllInsideListRejected | winlogd/DaemonConfiguration.cs:28-33 | "All" as one piece of a longer list makes the setter fail. |
| DaemonConfig.ErrorAllRejected | winlogd/DaemonConfiguration.cs:28-33 | "Error,All" is rejected. |
| DaemonConfig.NoPiecesNoLevels | winlogd/DaemonConfiguration.cs:32-33 | A text of commas only gives an empty list of types. |
| DaemonConfig.SingleName | winlogd/Program.cs:49 | Setting a single name enables just that type. |
| DaemonConfig.ParseNames | winlogd/DaemonConfiguration.cs:33 | Parsing the names of a list of types gives back that list. |
| DaemonConfig.RenderRoundTrip | winlogd/DaemonConfiguration.cs:22-36 | Setting the text the getter produced restores the same types. |
| DaemonConfig.DaemonConfiguration.constructor | winlogd/DaemonConfiguration.cs:12-20 | A default struct: no test mode, no server, port 0, not verbose, no levels. |
| DaemonConfig.DaemonConfiguration.Level | winlogd/DaemonConfiguration.cs:24 | The getter gives "" exactly when no types are set or the list is empty. Otherwise it gives a text that the setter maps back to the same types. |
| DaemonConfig.DaemonConfiguration.SetLevel | winlogd/DaemonConfiguration.cs:25-35 | Assigns the parsed types when parsing succeeds, and throws (changing nothing) otherwise. Other fields are untouched. |
| WinlogdCore.Severity | winlogd/Winlogd.cs:66-77 | Error, Warning and Information keep the severity of the same name; every other entry type, the audit types and every unnamed event-type code, gets Critical. |
| WinlogdCore.SeverityRange | winlogd/Winlogd.cs:66-77 | Notice is never produced, and Critical is produced exactly for audit entries and unnamed event-type codes. |
| WinlogdCore.Priority | winlogd/Winlogd.cs:81 | PRI is one of 130, 131, 132 and 134. Divided by 8 it gives facility 16; its remainder is the severity. |
| WinlogdCore.Timestamp | winlogd/Winlogd.cs:85-86 | The timestamp is 16 characters long and ends with a space. |
| WinlogdCore.Hostname | winlogd/Winlogd.cs:89 | The host name keeps its length and contains neither spaces nor upper-case letters. Each position is '_' or the lower-cased original. |
| WinlogdCore.Underscored | winlogd/Winlogd.cs:93 | Each space of the source becomes '_'; every other character is kept. |
| WinlogdCore.Tag | winlogd/Winlogd.cs:93 | Definition: the underscored source, '[', the instance id and "]: ". `WinlogdCore.TagRoundTrip` shows it parses back. |
| WinlogdCore.Content | winlogd/Winlogd.cs:97 | The content is the message with every '\r' and '\t' removed. |
| WinlogdCore.ContentStrips | winlogd/Winlogd.cs:96-97 | The content has no CR or TAB, keeps the count of every other character (newlines too), and stripping it again changes nothing. |
| WinlogdCore.ContentAppend | winlogd/Winlogd.cs:97 | Stripping a concatenation strips each part. |
| WinlogdCore.Message | winlogd/Winlogd.cs:63-97 | Definition: PRI in angle brackets, timestamp, host name, a space, tag and content. `WinlogdCore.MessageRoundTrip` and `WinlogdCore.Example` carry its properties. |
| WinlogdCore.AsciiBytes | winlogd/Winlogd.cs:100 | Definition: `Encoding.ASCII.GetBytes`, one byte per character and '?' outside ASCII. `WinlogdCore.AsciiRoundTrip` carries its property. |
| WinlogdCore.AsciiRoundTrip | winlogd/Winlogd.cs:100 | ASCII text survives the ASCII encoding unchanged. |
| WinlogdCore.Packet | winlogd/Winlogd.cs:100 | The packet has one byte per character of the message. |
| WinlogdCore.MonthNumber | winlogd/Winlogd.cs:15 | Finds a month abbreviation in `Months`, the `_months` table, skipping the "NUL" slot. |
| WinlogdCore.MonthFound | winlogd/Winlogd.cs:15 | Every month 1..12 is found again from its abbreviation. |
| WinlogdCore.PriRoundTrip | winlogd/Winlogd.cs:81-82 | The `<PRI>` prefix parses back to the priority. |
| WinlogdCore.TimestampRoundTrip | winlogd/Winlogd.cs:85-86 | The timestamp parses back to month, day, hour, minute and second. |
| WinlogdCore.WordRoundTrip | winlogd/Winlogd.cs:89-90 | The host name, followed by its space, parses back. |
| WinlogdCore.NoBracketInNumber | winlogd/Winlogd.cs:93 | A rendered instance id contains no '['. |
| WinlogdCore.TagRoundTrip | winlogd/Winlogd.cs:93 | The tag `app[id]: ` parses back to the application name and the instance id. |
| WinlogdCore.LayoutRoundTrip | winlogd/Winlogd.cs:81-97 | The assembled PRI, header, tag and content parse back field by field. |
| WinlogdCore.MessageRoundTrip | winlogd/Winlogd.cs:57-97 | Parsing a built message gives back: the priority, the time, the lower-cased host name, the underscored source, the instance id and the stripped content. |
| WinlogdCore.StripsBetween | winlogd/Winlogd.cs:97 | A CR inside the message and a TAB at its end are removed, and everything else is kept. |
| WinlogdCore.ExampleHost | winlogd/Winlogd.cs:89 | "MY HOST" becomes "my_host". |
| WinlogdCore.ExampleApp | winlogd/Winlogd.cs:93 | "App Name" becomes "App_Name". |
| WinlogdCore.ExampleContent | winlogd/Winlogd.cs:97 | "Disk failure\r\ndetected\t" becomes "Disk failure\ndetected". |
| WinlogdCore.ExampleNumbers | winlogd/Winlogd.cs:81-93 | An Error entry has PRI "131"; instance id 42 renders as "42". |
| WinlogdCore.ExampleTime | winlogd/Winlogd.cs:86 | 5 January 08:03:04 renders as "Jan 05 08:03:04 ". |
| WinlogdCore.Example | winlogd/Winlogd.cs:57-97 | The complete message for a sample Error entry. |
| WinlogdCore.ClientPort | winlogd/Winlogd.cs:29 | `new UdpClient(int.Parse(Port))` has three failure cases, each stated as an if-and-only-if: a null port, text that is not a 32-bit integer, and a number outside 0..65535. A parsed number inside 0..65535 gives exactly that port, and the audit failure never comes from here. |
| WinlogdCore.Hooked | winlogd/Winlogd.cs:36-53 | Definition: the enumerated logs whose hook-up succeeds. `WinlogdCore.Winlogd.Start` states the new subscriptions through it. |
| WinlogdCore.Winlogd.constructor | winlogd/Winlogd.cs:19-22 | The service keeps the configuration's test flag and port. It starts stopped, with no client, no subscriptions and nothing sent. |
| WinlogdCore.Winlogd.Start | winlogd/Winlogd.cs:26-55 | See the four `Start` cases below. |
| WinlogdCore.Winlogd.EventHook | winlogd/Winlogd.cs:57-113 | In test mode nothing is sent. Otherwise, with a usable client, the packet of the entry is appended once to what the client has sent, and a started service always has one. Without a usable client `Send` throws and nothing is sent. |
| WinlogdCore.Winlogd.Stop | winlogd/Winlogd.cs:115-126 | If the service was not started, nothing changes. Otherwise it is stopped, its client is gone, and every enumerated log is unsubscribed. |
| WinlogdCore.PartialFailureScenario | winlogd/Winlogd.cs:26-126 | Scenario, checked by its assertions: with one of three logs failing to hook, `Start` subscribes the other two, an event is sent, a second `Start` changes nothing, `Stop` releases every log, and `Start` works again. |
| CommandLine.SkipWhile | winlogd/Program.cs:109 | Skips exactly the arguments before the first one that is a spelling. The rest starts with that argument, or is empty. |
| CommandLine.Has | winlogd/Program.cs:115 | Definition: some argument equals one of the spellings exactly. `CommandLine.HasFirstMatch` ties it to `SkipWhile`. |
| CommandLine.HasFirstMatch | winlogd/Program.cs:109-115 | `Has` holds exactly when `SkipWhile` leaves something, and the first match is where it starts. |
| CommandLine.HasStr | winlogd/Program.cs:107-113 | A value is given exactly when the first match has a following argument that does not start with '-'. That argument is the value. |
| CommandLine.LaterOccurrencesIgnored | winlogd/Program.cs:107-113 | Arguments after the first flag and its value do not change the value. |
| CommandLine.HasUnique | winlogd/Program.cs:92-104 | Reports the flag exactly when it is present. It runs the action exactly when the flag is the only argument. Its code is 1 exactly when the flag comes with other arguments. |
| CommandLine.DefaultPort | winlogd/Program.cs:45 | The default port text "514" parses to 514. |
| CommandLine.PortOf | winlogd/Program.cs:45 | Definition: 514 without `-p`, otherwise the 32-bit parse of its value. `CommandLine.DefaultPort` shows this equals parsing `HasStr(...) ?? "514"`. |
| CommandLine.Startup | winlogd/Program.cs:20-49 | See the `Startup` cases below. |
| CommandLine.FallBackToError | winlogd/Program.cs:49 | An empty `Level` is replaced by exactly `Error`; any other `Level` is kept. |
| CommandLine.Configure | winlogd/Program.cs:39-49 | Throws exactly when the port or the level does not parse. Otherwise it gives the settings of `Startup`. |

The read-back parser has no counterpart in the source: `ParsePri`, `TwoDigits`, `ParseTimestamp`, `ParseWord`, `ParseTag`, `ParseMessage`, `Fields`, `Text.IndexOf` and `Text.LastIndexOf` exist only to state the round trips. The lemmas `TagLayout`, `Reassociate`, `MessageLayout` and `ExampleAssembly` are rewriting steps of those proofs and claim nothing about the source.

`WinlogdCore.Winlogd.Start` has four cases:

- Already started: it does nothing.
- The port is missing, not a number, or out of range: it fails before anything else.
- The audit demand is refused: the client exists, but the service is not started.
- Otherwise the service is started. Its subscriptions become the old ones plus exactly the logs whose hook could be attached.

`CommandLine.Startup` has these cases:

- An empty argument list gives 0.
- `-h` takes precedence, then `-V`. Each gives 0 when it is the only argument and 1 otherwise.
- A missing `-d` gives 1.
- Otherwise `Main` crashes exactly when the port or the level does not parse.
- If it does not crash, the settings are as follows:
  - test and verbose come from the flags;
  - the server defaults to "localhost";
  - the port defaults to 514;
  - the level list is never empty: every type without `-l`, and `Error` when `-l` names none.

## Left out

- UDP sockets: the client is a value in `server`. Sending appends to the ghost sequence `sent`, and `Dispose` is dropping the value. A bind failure (`SocketException`) while creating the client is not modelled.
- The operating system's event logs: `EventLog.GetEventLogs` becomes the `logs` parameter. Whether `EnableRaisingEvents`/`EntryWritten +=` succeeds for a log becomes the `hooks` parameter, whose `false` stands for the caught `InvalidOperationException`/`SecurityException`. The audit-permission demand becomes `auditAllowed`.
- Subscriptions are a set of log names. Handler multiplicity and `EventLog` instance identity are not modelled. Unhooking in `Stop` is assumed not to throw.
- Concurrent delivery of `EntryWritten` callbacks, the console key task and Ctrl+C handling are not modelled.
- Console output in verbose mode, and help and version text, are not modelled. `HasUnique` records whether its action ran.
- `Run`, `Exit`, `SendTestLog`, `CreateEventLog` and `Dispose` of the service are not part of this model.
- `Dns.GetHostAddresses`: the server is kept as the name given on the command line.
- The `Version` string read by reflection is not modelled.
- `Main` after the configuration is built: the `Winlogd` object it creates and its exit code are not modelled, because `Run` is not part of this model.
- `Enum.Parse` leniency is not modelled: numeric strings such as "1" and surrounding whitespace are rejected here, where .NET accepts them.
- `int.Parse` leniency is not modelled: .NET also accepts surrounding whitespace and culture-specific sign symbols. The model accepts only an optional '+' or '-' followed by ASCII digits.
- `ToLower` lowers ASCII letters only. Culture-specific case mapping is not modelled.
- The ASCII encoding maps every non-ASCII character to '?'. A Dafny `char` is a Unicode scalar value, so a character outside the Basic Multilingual Plane is one character and one '?' byte here. A .NET string holds it as two UTF-16 code units, so lengths of such text differ from the source's.
- `DateTime` is a record of month, day, hour, minute and second. Calendar validity beyond the field ranges is not checked.
- `InstanceId` is an unbounded integer. The 64-bit range of the source is not enforced.
- The configurations are .NET structs, so copies are independent. The model uses one object per configuration and copies `test` and `port` into the service.
- WinlogdCore.Winlogd.EventHook: without a usable client it returns `SendThrows` and records nothing. In the source `Send` throws: a `NullReferenceException` before the first `Start`, and an `ObjectDisposedException` after `Stop`, which disposes of the client without clearing it. How that exception travels back through the event-log callback is not modelled. `Sent` stands for the intended send, not what .NET does: `new UdpClient(port)` only binds a local port and no remote endpoint is ever set, so `Send(pkt, pkt.Length)` throws `InvalidOperationException` even after `Start` (a reading of .NET's `UdpClient`; not executed).
