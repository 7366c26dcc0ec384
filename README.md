# SensorCamera agent: a Dafny model

SensorCamera is a Raspberry Pi agent for Azure IoT Hub. At startup it reads
`AppProperties.conf`, a file of `key = value` lines. It then connects to the
hub in one of two ways:

- directly, with a device connection string, after installing a gateway root
  certificate when the string names an edge gateway;
- through the Device Provisioning Service (DPS).

It registers a `TakePicture` direct method, obtains the camera and waits for a
console line before shutting down. Each `TakePicture` command can change the
directory pictures are saved to, captures one JPEG, sends a `newImage`
telemetry event and answers with a JSON body and a status code.

This project models the logic of that agent, with the SDK, the camera and the
operating system left abstract:

- `base.dfy`: `Option` (a C# reference that may be null) and `Outcome`.
- `dotnet_string.dfy`: the .NET string operations the agent relies on:
  - `Char.IsWhiteSpace` and `String.IsNullOrWhiteSpace`;
  - ordinal `IndexOf` and `Contains`;
  - `Split(string)`;
  - `Replace` of one character by nothing.
- `config.dfy`: `GetProperty`, a search loop proved equal to the recursive
  specification `Lookup`, and what a lookup returns.
- `certificate.dfy`: the existence gate of `InstallCACert`.
- `startup.dfy`: the decisions of the entry point as a plan, a sequence of
  externally visible steps ending at the first unhandled exception, and the
  ordering facts about it.
- `command.dfy`: how a payload changes the save path, the directory handed
  to the capture handler, and how the response body is built.
- `program.dfy`: the agent's static fields as the fields of one `Program`
  object, with imperative methods for the entry point, the command handler,
  the capture and the telemetry send. Each method is proved against the
  functions above. Three logs make the effects visible:
  - `trace` holds the startup steps;
  - `captures` holds the capture targets;
  - `telemetry` holds the messages issued.

Inputs from the outside world become parameters:

- the configuration file's lines, or `None` when it cannot be read;
- whether the certificate file exists;
- the decoded command payload, or `None` when the payload is null;
- how the capture code ends: `Returned`, `SetupThrew` (building the capture
  handler, the encoder or the null sink threw, before the camera is used), or
  `Threw` (a later step threw), each failure with an opaque detail.

Facts about the code that the model keeps:

- The handler is registered before the client is opened (lines 78 and 84).
- Every `"` character is removed from a new path (line 120), not only
  enclosing quotes. So `"/tmp/x"` gives `/tmp/x`, `/tmp"/x` gives `/tmp/x`,
  and a payload of two quotes gives the empty path, for which the capture
  handler is given the directory `/`.
- Captures are not serialised: there is no lock.
- The handler can run before the camera is obtained (it is registered at
  line 78, the camera obtained at line 81). A failure while building the
  capture objects (lines 144-146) then comes before the null camera is
  dereferenced (line 148).
- Telemetry is sent after the capture and before the response is built. A
  failed capture sends none.

## Model

| member | source | states |
|---|---|---|
| DotNetString.IsWhiteSpace | SensorCamera/Program.cs:46-48 | the characters `Char.IsWhiteSpace` accepts; used through `IsNullOrWhiteSpace` |
| DotNetString.IsNullOrWhiteSpace | SensorCamera/Program.cs:46-48 | null, empty or all white space; its uses are characterised by `Startup.ConnectsOnlyWhenConfigured`, `Startup.DirectConnectionWins` and `Command.KeepingPayload` |
| DotNetString.IsBlank | SensorCamera/Program.cs:117 | `IsNullOrWhiteSpace` on a string known to be non-null, as the payload of line 117 and the fixed path of line 176; used by `Command.KeepingPayload` and `Certificate.InstallCertificateOutcome` |
| DotNetString.Contains | SensorCamera/Program.cs:61 | ordinal `Contains`, characterised by `DotNetString.ContainsIffOccurs` |
| DotNetString.IndexOf | SensorCamera/Program.cs:61 | the index found is a position where the substring occurs |
| DotNetString.IndexFromFirst | SensorCamera/Program.cs:61 | a scan from position `k` finds the first occurrence at or after `k`; finding none means none occurs from `k` on |
| DotNetString.IndexOfFirst | SensorCamera/Program.cs:61 | no occurrence comes before the index found; no index means no occurrence anywhere |
| DotNetString.ContainsIffOccurs | SensorCamera/Program.cs:61 | `Contains` holds exactly when the substring occurs at some position |
| DotNetString.Split | SensorCamera/Program.cs:214 | splitting always yields at least one segment, so segment `[0]` always exists |
| DotNetString.SplitJoin | SensorCamera/Program.cs:214 | joining the segments with the separator gives back the original line |
| DotNetString.SplitPartsFree | SensorCamera/Program.cs:214 | no segment contains the separator |
| DotNetString.SplitCount | SensorCamera/Program.cs:214-215 | there is exactly one segment when the separator is absent, and more than one when it occurs |
| DotNetString.SplitFirst | SensorCamera/Program.cs:214 | when the separator occurs there are at least two segments, and segment `[0]` is the text before its first occurrence |
| DotNetString.SplitRest | SensorCamera/Program.cs:214-215 | when the separator occurs, the segments after `[0]` are the split of the text after its first occurrence |
| DotNetString.RemoveAll | SensorCamera/Program.cs:120 | `Replace("\"", "")`, characterised by `RemoveAllContents`, `RemoveAllConcat`, `RemoveAllIdentity` and `NoOccurrenceKept` |
| DotNetString.RemoveAllContents | SensorCamera/Program.cs:120 | after the removal no quote is left, every other character keeps its count, and the length drops by the number of quotes |
| DotNetString.RemoveAllConcat | SensorCamera/Program.cs:120 | removal works piecewise, so the other characters keep their order |
| DotNetString.RemoveAllIdentity | SensorCamera/Program.cs:120 | the text is unchanged exactly when it holds no quote |
| DotNetString.NoOccurrenceKept | SensorCamera/Program.cs:120 | a quote-free text is unchanged |
| Config.KeyOf | SensorCamera/Program.cs:214 | segment `[0]` of a line; `Config.SplitAtFirst` and `Config.BareKeyLine` state what it is |
| Config.LineValue | SensorCamera/Program.cs:215 | segment `[1]` of a matched line, or the index failure; `Config.BareKeyLine` and `Config.FoundValueShape` state what it is |
| Config.Lookup | SensorCamera/Program.cs:209-218 | the result of `GetProperty`; `Config.LookupCharacterization`, `Config.LookupFirstMatch` and `Config.LookupIgnoresLaterLines` characterise it |
| Config.GetProperty | SensorCamera/Program.cs:209-218 | the loop's result is `Lookup`: the value from the first matching line, null when none matches, or an index failure |
| Config.Nullable | SensorCamera/Program.cs:215-217 | a lookup that returns as the C# value: the found string, or the `null` of line 217; `Config.NullableLookup` states which line it comes from |
| Config.NullableLookup | SensorCamera/Program.cs:212-217 | the value `GetProperty` returns is null exactly when no line's key segment equals the key, and otherwise it is the value of the first line whose key does |
| Config.LookupCharacterization | SensorCamera/Program.cs:212-217 | the result is null exactly when no line's key segment equals the key; otherwise the first line whose key matches decides it |
| Config.LookupFirstMatch | SensorCamera/Program.cs:212-215 | whichever line is the first match decides the result |
| Config.LookupIgnoresLaterLines | SensorCamera/Program.cs:212-216 | lines after a match are never consulted; after no match, only the later lines decide |
| Config.BareKeyLine | SensorCamera/Program.cs:214-215 | a matching line has no segment `[1]` exactly when it is the bare key with no separator |
| Config.LookupMissingValue | SensorCamera/Program.cs:214-215 | the lookup throws the index error exactly when the first matching line is the bare key |
| Config.SplitAtFirst | SensorCamera/Program.cs:214 | a line holding the separator is its key segment, the separator and the rest, and segments `[1..]` come from the rest |
| Config.FoundValueAfterKey | SensorCamera/Program.cs:215 | a found value is the key segment of the text after the first separator |
| Config.FoundValueFree | SensorCamera/Program.cs:214-215 | neither the key segment nor the value contains the separator |
| Config.FoundValueShape | SensorCamera/Program.cs:215 | the line is the key, a separator, the value, then nothing or another separator: the value is only the text between the first and second separators |
| Config.FoundValueBeforeSeparator | SensorCamera/Program.cs:215 | when more text follows the value, the line is the key, a separator, the value, then text that starts with a separator |
| Config.FoundValueLast | SensorCamera/Program.cs:215 | when no separator follows the value, the line is exactly the key, a separator and the value |
| Config.KeyWithSeparatorAbsent | SensorCamera/Program.cs:214 | a key that contains the separator is never found |
| Certificate.InstallCertificate | SensorCamera/Program.cs:176-198 | the existence gate for a given path; `Certificate.InstallCertificateOutcome` characterises it |
| Certificate.InstallCertificateOutcome | SensorCamera/Program.cs:176-198 | the store is touched exactly for a non-blank path whose file exists; a missing file is the only failure modelled |
| Certificate.InstallCACert | SensorCamera/Program.cs:173-199 | `InstallCACert` with its fixed path; `Certificate.InstallCACertOutcome` states its outcome |
| Certificate.InstallCACertOutcome | SensorCamera/Program.cs:173-199 | with the fixed path the "not set" branch is dead: of the failures modelled, installation fails exactly when the file is missing, and it installs that path otherwise |
| Startup.DpsInfoOk | SensorCamera/Program.cs:46-47 | all four DPS settings are non-blank |
| Startup.DirectConnection | SensorCamera/Program.cs:48 | the connection string is non-blank |
| Startup.ClientSteps | SensorCamera/Program.cs:57-75 | the optional certificate install then the client creation, or the certificate failure; `Startup.DirectConnectionWins` and `Startup.CertificateOnlyForGateway` characterise it |
| Startup.StartupPlan | SensorCamera/Program.cs:46-93 | the steps after the settings are read; `Startup.ConnectsOnlyWhenConfigured`, `Startup.CertificateBeforeClient`, `Startup.ClientCreatedOnce` and `Startup.SessionOrder` state its properties |
| Startup.MainPlan | SensorCamera/Program.cs:35-96 | the steps of the whole entry point; `Startup.BareKeyLineCrashes` states its crash on a bare key, and `SensorCamera.Program.Run` performs it |
| Startup.ReadsFromMeaning | SensorCamera/Program.cs:39-44 | the reads counted from the `k`-th all return, and the read after them, if any, throws |
| Startup.ReadCountMeaning | SensorCamera/Program.cs:39-44 | the first `ReadCount` reads return, and the next read, if any, throws |
| Startup.ReachedIff | SensorCamera/Program.cs:39-44 | the first `n` settings are reached exactly when none of their `n` reads throws |
| Startup.LoadedAll | SensorCamera/Program.cs:39-44 | when every read returns, the fields hold the configuration's six values whatever they held before |
| Startup.UnconnectedPlan | SensorCamera/Program.cs:46-66 | when no mode is configured or the certificate is missing, the plan is the diagnostic or the client steps alone; it creates no client and never obtains the camera |
| Startup.ConnectedPlan | SensorCamera/Program.cs:57-93 | when the client is created the plan is the client steps then the six lifecycle steps; it obtains the camera, and every client creation in it is that client |
| Startup.ConnectsOnlyWhenConfigured | SensorCamera/Program.cs:46-54 | a client is created only when all four DPS settings or the connection string are non-blank; otherwise the plan is the diagnostic and the console read |
| Startup.DirectConnectionWins | SensorCamera/Program.cs:57-75 | a non-blank connection string is always the one used, even when the DPS settings are complete; DPS is used only when the string is blank |
| Startup.CertificateOnlyForGateway | SensorCamera/Program.cs:58-64 | the certificate is installed exactly when the string is used, names `GatewayHostName` and the file exists; of the failures modelled, startup fails on it exactly when the file is missing |
| Startup.CertificateBeforeClient | SensorCamera/Program.cs:61-66 | the install precedes the client's creation, and a missing certificate ends the plan before any client exists |
| Startup.ConnectedPlanShape | SensorCamera/Program.cs:57-93 | a plan that creates a client is the optional install, the client, then the six lifecycle steps |
| Startup.ShapeClientOnce | SensorCamera/Program.cs:66-78 | in such a plan the client is created once, before the handler is registered |
| Startup.ShapeSessionOrder | SensorCamera/Program.cs:77-93 | in such a plan the lifecycle steps occur in source order |
| Startup.SessionStepOnce | SensorCamera/Program.cs:77-93 | each of the six lifecycle steps is distinct from the others |
| Startup.ClientPrefixOnce | SensorCamera/Program.cs:57-93 | after a prefix of certificate installs and client creations, each lifecycle step occurs exactly once |
| Startup.ShapeSessionOnce | SensorCamera/Program.cs:77-93 | in such a plan each lifecycle step occurs exactly once |
| Startup.ClientCreatedOnce | SensorCamera/Program.cs:57-78 | a startup that connects creates its client exactly once and before registering the handler |
| Startup.SessionOrder | SensorCamera/Program.cs:77-93 | a startup that connects registers, obtains the camera, opens, waits, closes and cleans up, in that order, each once |
| Startup.BareKeyLineCrashes | SensorCamera/Program.cs:39-44 | when any of the six settings' first matching line is the bare key, the entry point ends with that exception and does nothing else |
| Command.KeepsPath | SensorCamera/Program.cs:117 | the payloads that keep the path: blank, or exactly `null`; `Command.KeepingPayload` and `Command.ReplacingPayload` state what follows either way |
| Command.CaptureDirectory | SensorCamera/Program.cs:144 | the directory handed to the capture handler; `Command.CaptureDirectoryOfPath` characterises it |
| Command.NewPath | SensorCamera/Program.cs:117-122 | the save path after a decoded payload; `Command.KeepingPayload` and `Command.ReplacingPayload` characterise it |
| Command.Respond | SensorCamera/Program.cs:129-137 | the response for an outcome; `Command.RespondReportsOutcome` characterises it |
| Command.CaptureResult | SensorCamera/Program.cs:142-163 | how a capture ends; `Command.HandlerSucceedsIff` states the order of its failures |
| Command.HandlerResult | SensorCamera/Program.cs:115-148 | how the handler's work ends; `Command.HandlerSucceedsIff` characterises it |
| Command.ResultJsonRoundTrip | SensorCamera/Program.cs:130 | the text inside the `{"result":"…"}` body can always be read back |
| Command.RespondReportsOutcome | SensorCamera/Program.cs:129-137 | the status is 200 or 400, 200 exactly on a normal return; the body names the method on success and carries `Exception: ` and the exception's text on failure |
| Command.SuccessAndFailureBodiesDiffer | SensorCamera/Program.cs:130-136 | a success body never equals a failure body |
| Command.HandlerSucceedsIff | SensorCamera/Program.cs:115-148 | the command succeeds exactly when the payload decodes, the camera exists and the capture code returns; each failure is the exception thrown first: the null payload, then a failure building the capture objects, then the null camera, then the pipeline's failure |
| Command.KeepingPayload | SensorCamera/Program.cs:117 | a blank payload or exactly `null` keeps the save path |
| Command.ReplacingPayload | SensorCamera/Program.cs:117-122 | any other payload becomes the path with every quote removed and the other characters kept in order |
| Command.UnquoteEnclosed | SensorCamera/Program.cs:120 | removing the quotes from a quote-free text between two quotes gives that text |
| Command.UnquoteInner | SensorCamera/Program.cs:120 | removing the quotes from two quote-free texts joined by a quote gives the two texts joined |
| Command.QuotedPayload | SensorCamera/Program.cs:117-122 | `"/tmp/x"` sets the path `/tmp/x` |
| Command.InnerQuoteRemoved | SensorCamera/Program.cs:120 | inner quotes are removed too: `/tmp"/x` sets `/tmp/x` |
| Command.QuotesOnlyPayload | SensorCamera/Program.cs:117-122 | a payload of two quotes is not blank and sets the empty path, so the capture handler is given the directory `/` |
| Command.QuotedNullToken | SensorCamera/Program.cs:117 | the bare token `null` keeps the path, but the JSON string `"null"` sets the path `null` |
| Command.CaptureDirectoryOfPath | SensorCamera/Program.cs:144 | the capture directory is the save path followed by a slash, or `/` alone when the path is null |
| SensorCamera.Program.constructor | SensorCamera/Program.cs:20-33 | before the entry point runs every reference is null and nothing has happened |
| SensorCamera.Program.ReadConfigFile | SensorCamera/Program.cs:202-207 | the configuration becomes the file's lines; an unreadable file is reported and changes nothing |
| SensorCamera.Program.LoadProperties | SensorCamera/Program.cs:39-44 | the six settings are read in order; the method returns normally exactly when all six reads return (`Reached`); the fields become `LoadedSettings`: each field whose read returned holds its value, and the field whose read threw and every later one keep their old values |
| SensorCamera.Program.Run | SensorCamera/Program.cs:35-96 | the steps performed are exactly `MainPlan`; the configuration is the file's lines, the settings are `LoadedSettings` of them, the client field holds the connection the plan created, and the camera is obtained exactly when the plan does so; captures and telemetry are outside its frame |
| SensorCamera.Program.Start | SensorCamera/Program.cs:46-94 | the steps after the settings are exactly `StartupPlan`, with the client and camera fields following the plan |
| SensorCamera.Program.CreateClient | SensorCamera/Program.cs:57-75 | the steps are `ClientSteps`; it succeeds exactly when their last step (`ClientStepsLast`) creates a client, the client field is then that connection, and it is unchanged when the certificate check throws |
| SensorCamera.Program.RunSession | SensorCamera/Program.cs:77-93 | the six lifecycle steps in source order, with the camera obtained |
| SensorCamera.Program.SendTelemetryData | SensorCamera/Program.cs:98-108 | one `newImage` message is issued when a client exists, none otherwise |
| SensorCamera.Program.TakePictureAndSave | SensorCamera/Program.cs:142-163 | the capture handler targets the save path plus `/` with extension `jpg`, even when the camera is null; the result is `CaptureResult`: a failure building the capture objects comes first, then a null camera fails, otherwise the pipeline decides |
| SensorCamera.Program.TakePicture | SensorCamera/Program.cs:111-140 | the handler always answers 200 or 400, and 200 exactly when the payload decodes, the camera exists and the capture returns. The path is updated before the capture and not rolled back. One capture happens per decoded payload. `newImage` goes out once, only after a successful capture with a client |

## Left out

- The Azure IoT SDK calls become opaque steps. These are creating the client, `SetMethodHandlerAsync`, `OpenAsync`, `CloseAsync` and `SendEventAsync`. Their own failures are not modelled, and neither is the unawaited completion of `OpenAsync`/`CloseAsync`.
- `Certificate.InstallCACert`, `Startup.StartupPlan`: failures reading the certificate or writing the store (lines 188-192), obtaining the camera (line 81) and `Cleanup` (line 93) are not modelled. An existing file always installs, and the camera steps always return; "fails exactly when the file is missing" and "each once" hold for the failures the model has.
- The transport type `Mqtt_Tcp_Only` is not recorded.
- `ProvisioningDeviceClientWrapper` is not part of this model. A DPS connection is recorded as the four settings it is built from, and provisioning is taken to return a client.
- The MMALSharp pipeline is one `CaptureOutcome` input. Its internals (encoder, null sink, port wiring, `ProcessAsync`) are not modelled, and neither are the two `Thread.Sleep(2000)` delays. `ProcessAsync` is not awaited (line 160), so `Returned` means the capture code returned, not that a picture was saved, and a failure of the asynchronous capture never reaches the response.
- The certificate store is not modelled: an install is the `InstallCert` step. Whether the certificate file exists is an input.
- Reading `AppProperties.conf` is an input: its lines, or `None` when it cannot be read.
- Console output is not modelled. The blocking `Console.ReadLine` is the `AwaitConsoleLine` step.
- UTF-8 decoding is not modelled: a payload is its decoded text, and a null payload is `None`. Which exception `GetString` throws on a null array is abstracted to `ArgumentNullException`.
- `Command.ExceptionText`: `exception.ToString()` is abstracted to the exception's type name, or the camera's opaque detail. The stack trace is not modelled.
- `SensorCamera.Program.SendTelemetryData`: the `async void` send is modelled as issuing the message. Its completion and its failures are not modelled; they never reach the handler's response.
- Concurrent handler invocations and the race on `pathToSavePicture` are not modelled. The code has no lock, and the model does not invent one.
- `cam` after `Cleanup` is not modelled: the camera flag stays set after the release step.
- The state where `config` is still null before `ReadConfigFile` is not modelled. Every path through the entry point reads the file first.
