# Station radio interface — a Dafny model of its data path

The station radio interface runs on a field station. It reads tag beeps and
node messages from up to five serial radios, counts them and caches them. It
writes them to CSV files, sends health check-ins to the central server and
uploads the finished files to a storage bucket. This project models the
core of that data path, one Dafny module per source file:

- `BaseStation`: the station.
  - The radio message handlers fill the beep and node caches and the
    counters and id sets beside them. In the source shown nothing calls
    these handlers: the `beep` listener that `start()` attaches to each
    receiver has an empty body (src/server/base-station.js:308-309), so the
    model describes what each handler does when it is called.
  - The three CSV writers drain those caches into the raw data, node data
    and GPS files.
  - `toggle_radio` dispatches a command to a radio.
- `Logging`, `CsvFlush`, `BeepFormatter`, `GpsFormatter`, `FileManager`,
  `DataManagement`: the buffered CSV logger with its formatters and file
  names, the data manager that owns two loggers, and the first-in first-out
  drain discipline all the CSV writers share.
- `BeepStats`, `ServerApi`: the per-channel beep statistics, their pruning at
  check-in, the bounded sensor buffer and the internet-status test.
- `QaqcReport`, `HardwarePacket`: the QA/QC tag verdicts, the GPS, modem and
  hardware summaries, and the byte layout of the hardware packet.
- `LegacyUploader`, `DataUploader`: both uploaders. They choose which files
  to upload and the object keys, and accept a transfer by its ETag.
- `RadioReceiver`, `LegacyRadioReceiver`: the two serial receivers. They
  cover the framing of written commands, the events raised by the port and
  the dispatch of each received line.

JavaScript values are modelled by `JsValue.Value`, with the truthiness,
property reads, `String(v)`, `Array.prototype.join` and loose equality the
code relies on. Reading a property of `null` or `undefined` throws a
TypeError; the model returns `None` or `Failure` there, and methods report it
through an `ok` result. A promise's outcome is a `Settlement`: `Resolved`,
`Rejected` or `Pending`, the last for one that never settles. The disk is
`FileSystem.Disk`, a map from paths to contents. Whether an append succeeds
is an input. The clock, moment's formatting, `toISOString`, `toFixed` on
non-integer numbers and all HTTP and file-system answers are inputs too:
each one is a parameter of the member that uses it.

## Model

| member | source | states |
|---|---|---|
| FileManager.FileName | src/server/data/file-manager.js:21-23 | The name is `CTT-`, the id, `-`, the suffix and `.csv`, and each part can be read back at its position |
| FileManager.GetFileUri | src/server/data/file-manager.js:29-32 | The path ends with the file name of that suffix |
| FileManager.FileNameInjective | src/server/data/file-manager.js:21-23 | For one station, two suffixes with the same file name are equal |
| FileManager.BaseNameOfFileUri | src/server/data/file-manager.js:29-32 | The base name of a data file's path is its file name when id and suffix hold no slash |
| BeepFormatter.FormatRecord | src/server/data/beep-formatter.js:25-45 | A row has one field per header name |
| BeepFormatter.FormatRecordOutcome | src/server/data/beep-formatter.js:25-45 | A record throws exactly when it is missing, or has a truthy protocol and lacks `data` or `meta`. It gives no row exactly when its protocol is falsy |
| BeepFormatter.FormatRecordColumns | src/server/data/beep-formatter.js:28-44 | The row is the time, the channel, `data.id`, `meta.rssi` and `source.id`, or `""` when there is no source |
| GpsFormatter.Precision | src/server/data/gps-formatter.js:19 | A missing or zero precision option gives 6; any other value is kept |
| GpsFormatter.ToFixed | src/server/data/gps-formatter.js:34-35 | `toFixed` succeeds exactly for a number and 0..100 digits |
| GpsFormatter.ToFixedOfInt | src/server/data/gps-formatter.js:34-35 | An integer prints as its decimal text, then a point and that many zeros |
| GpsFormatter.FormatRecord | src/server/data/gps-formatter.js:27-51 | A record never gives "no row". A falsy record gives the time and five nulls. A row has six fields and starts with the time |
| GpsFormatter.FormatRecordPresent | src/server/data/gps-formatter.js:27-51 | A present record gives a row exactly when both coordinates are numbers and the precision is valid. The row holds the formatted fix time, both coordinates, the altitude and the mode |
| Logging.Format | src/server/data/logger.js:40-43 | The row a logger's formatter produces matches that formatter's header in length |
| Logging.LineTerminator | src/server/data/logger.js:24-27 | A truthy terminator option is used as printed; otherwise the terminator is CR LF |
| Logging.FileUriOf | src/server/data/logger.js:30-31 | A logger's path exists exactly when `base_path` is a string |
| Logging.FileUriOfStrings | src/server/data/logger.js:30-31 | With string options, the path is `CTT-{id}-{suffix}.csv` inside `base_path` |
| Logging.RowLine | src/server/data/logger.js:52-55 | A row prints as its fields joined with commas; an undefined row throws |
| Logging.FlushedInOrder | src/server/data/logger.js:52-55 | A cache without undefined rows is drained completely, and line `k` is row `k` |
| Logging.Logger.constructor | src/server/data/logger.js:17-34 | The terminator, file name and path are computed from the options, and the cache starts empty |
| Logging.Logger.FilesAfterFlush | src/server/data/logger.js:48-73 | A flush can change only the logger's own file, and creates it only from a non-empty cache |
| Logging.Logger.AddRecord | src/server/data/logger.js:40-43 | The formatted row goes to the end of the cache and earlier rows are kept. When the formatter throws, nothing is queued |
| Logging.Logger.WriteCacheToDisk | src/server/data/logger.js:48-73 | The disk afterwards is `FilesAfterFlush`. An undefined row rejects and nothing is written. An empty cache resolves. Otherwise the header (when the file is absent) and every line, each with its terminator, are appended, and the promise settles as the append does |
| CsvFlush.Drain | src/server/data/logger.js:52-55 | A drain never prints more lines than entries. Unless it throws, it empties the cache and prints one line per entry |
| CsvFlush.DrainLines | src/server/data/logger.js:52-55 | Line `k` of a drain is what entry `k` prints |
| CsvFlush.DrainStopsAtFailure | src/server/data/logger.js:52-55 | A throwing drain stops at the first entry that cannot print; everything after it stays queued |
| CsvFlush.DrainAllPrintable | src/server/data/logger.js:52-55 | A cache whose entries all print is drained completely, in order |
| CsvFlush.DrainAppend | src/server/data/logger.js:52-55 | Draining `a + b` prints `a`'s lines and then `b`'s, so rows added later are written later |
| CsvFlush.DrainCache | src/server/data/logger.js:52-55 | The loop over the cache yields the lines, the remaining cache and the throw flag that `Drain` defines |
| CsvFlush.AppendLines | src/server/data/logger.js:57-62 | The file gains the header (when absent) and every line, each terminated, exactly when the append succeeds; nothing else changes |
| CsvFlush.Flush | src/server/data/logger.js:48-73 | The disk afterwards is `Flushed`. An append happens exactly when the drain did not throw and the cache was non-empty, and it succeeds as the file system's answer says |
| CsvFlush.Flushed | src/server/data/logger.js:57-71 | Only the flushed file can change, and it is created only from a non-empty cache |
| CsvFlush.PayloadIsJoin | src/server/data/logger.js:57-62 | The joined lines plus one terminator equal the header (when needed) and every line, each terminated |
| CsvFlush.TwoFlushesOneHeader | src/server/data/logger.js:57-62 | Two flushes into a new file leave one header followed by every line of both flushes, in order |
| DataManagement.LoggerOptionsAsWritten | src/server/data/data-manager.js:23-36 | The options passed carry `fileuri` and no `base_path` |
| DataManagement.LoggerOptionsAsWrittenThrow | src/server/data/data-manager.js:23-36 | A logger built from those options cannot compute its path, so the constructor throws |
| DataManagement.LoggerOptions | src/server/data/data-manager.js:23-36 | The intended options hold exactly the id, base path, suffix and formatter |
| DataManagement.LoggerOptionsGiveFileUri | src/server/data/data-manager.js:23-36 | With the intended options, a logger writes exactly the file the file manager names for its suffix |
| DataManagement.DataManager.constructor | src/server/data/data-manager.js:13-37 | Intended: two distinct loggers for `raw-data` and `gps` in the base log directory, CR LF terminated, with empty caches |
| DataManagement.DataManager.HandleRadioBeep | src/server/data/data-manager.js:53-55 | One record is added to the beep logger only, and the GPS cache is unchanged |
| DataManagement.DataManager.HandleGps | src/server/data/data-manager.js:61-63 | One row is added to the GPS logger only. The GPS cache never holds an undefined row |
| DataManagement.DataManager.WriteCache | src/server/data/data-manager.js:42-47 | The disk is the beep flush followed by the GPS flush. The GPS cache is emptied, and so is the beep cache when it held no undefined row |
| BeepStats.DefaultChannelOfInt | src/server/data/beep-stat-manager.js:2-9 | A default channel key is found by the integers 1..5 and no others |
| BeepStats.Counted | src/server/data/beep-stat-manager.js:36-40 | Counting a tag adds only its key and leaves every other count alone |
| BeepStats.CountedString | src/server/data/beep-stat-manager.js:36-40 | A string tag's count goes up by one, starting at one, and no count goes down |
| BeepStats.CountedNumberRestarts | src/server/data/beep-stat-manager.js:36-40 | A number tag is never among the string keys, so its count restarts at one |
| BeepStats.ChannelKey | src/server/data/beep-stat-manager.js:23-25 | A channel can be looked up exactly when the record exists |
| BeepStats.BeepAddedChangesOneCounter | src/server/data/beep-stat-manager.js:27-41 | `addBeep` fails exactly for a missing record, a missing `NodeId` or an unknown channel. Otherwise it changes only the via-node count (non-empty `NodeId`) or the direct count of that tag |
| BeepStats.BeepAddedNeverDecreases | src/server/data/beep-stat-manager.js:27-41 | With a string tag no count decreases |
| BeepStats.WithoutNodeId | src/server/data/beep-stat-manager.js:55 | The record loses exactly its `NodeId` |
| BeepStats.HealthAddedReplaces | src/server/data/beep-stat-manager.js:52-57 | The node's snapshot is replaced by the record without `NodeId`, and nothing else changes |
| BeepStats.TelemetryAddedCounts | src/server/data/beep-stat-manager.js:43-50 | The intended telemetry update raises the id's count by one and touches nothing else |
| BeepStats.BeepStatManager.constructor | src/server/data/beep-stat-manager.js:2-9 | Channels 1..5, all empty |
| BeepStats.BeepStatManager.AddStatChannel | src/server/data/beep-stat-manager.js:11-21 | A fresh empty channel under `String(channel)` |
| BeepStats.BeepStatManager.GetChannel | src/server/data/beep-stat-manager.js:23-25 | The channel `RadioId` names, when it exists |
| BeepStats.FromNodeOfConvertedLength | src/server/data/beep-stat-manager.js:31 | An object `NodeId` whose `length` is the text of a positive integer, or `true`, counts as heard through a node |
| JsValue.GreaterThanZeroOfText | src/server/data/beep-stat-manager.js:31 | `> 0` gives the same answer for an integer and for its decimal text |
| BeepStats.BeepStatManager.AddBeep | src/server/data/beep-stat-manager.js:27-41 | The statistics become `BeepAdded`, or are unchanged when it throws |
| BeepStats.BeepStatManager.AddTelemetryBeep | src/server/data/beep-stat-manager.js:43-50 | As written, every call throws (`Objects` is not defined) |
| BeepStats.BeepStatManager.AddTelemetryBeepCorrected | src/server/data/beep-stat-manager.js:43-50 | The intended update: the statistics become `TelemetryAdded` |
| BeepStats.BeepStatManager.AddNodeHealth | src/server/data/beep-stat-manager.js:52-57 | The caller's record loses `NodeId` even when the channel is missing; the statistics become `HealthAdded` |
| ServerApi.Pruned | src/server/http/server-api.js:32-49 | Exactly the counts of at least five survive, unchanged |
| ServerApi.PrunedChannel | src/server/http/server-api.js:32-49 | Health and telemetry are untouched by pruning |
| ServerApi.PrunedIdempotent | src/server/http/server-api.js:32-49 | Pruning twice is pruning once |
| ServerApi.PushedBounded | src/server/http/server-api.js:20-30 | The buffer stays within its maximum, the newest reading is last, and exactly the oldest is dropped on overflow |
| ServerApi.ServerApi.constructor | src/server/http/server-api.js:5-18 | An empty sensor buffer of at most 100 readings |
| ServerApi.ServerApi.PruneCounts | src/server/http/server-api.js:35-46 | The delete loop leaves exactly `Pruned` |
| ServerApi.ServerApi.FilterStats | src/server/http/server-api.js:32-49 | The live statistics are pruned in place, channel by channel, and the same object is returned |
| ServerApi.ServerApi.PollSensors | src/server/http/server-api.js:20-30 | A fetched reading is pushed within the bound; a failed request changes nothing |
| ServerApi.ServerApi.CheckInternet | src/server/http/server-api.js:51-64 | `true` exactly when the status loosely equals 3. `false` exactly for a failed request or a `null` body. Anything else resolves `undefined` |
| ServerApi.ServerApi.HealthCheckin | src/server/http/server-api.js:66-127 | Failed details reject without pruning. Arrived details prune the statistics. The posted GPS section is the mean with its time, or nulls. An `ok` response clears the sensor buffer, and a failed post rejects |
| QaqcReport.NewReport | src/server/qaqc/report.js:12-24 | A falsy tag option gives `78787878`; a missing or zero threshold gives 3 |
| QaqcReport.AnyHit | src/server/qaqc/report.js:197-214 | Whether some tag is the QA/QC tag with a count above the threshold |
| QaqcReport.GetQaqcTagResults | src/server/qaqc/report.js:187-217 | Channels 1..5 are always reported. A channel is `true` exactly when it passes, directly or via a node, and non-default channels appear only when they pass |
| QaqcReport.ThresholdIsStrict | src/server/qaqc/report.js:201-210 | A count equal to the threshold does not pass |
| QaqcReport.CountUsed | src/server/qaqc/report.js:77-82 | The count of satellites in use is at most their number, and throws exactly when one is missing |
| QaqcReport.CountUsedAppend | src/server/qaqc/report.js:77-82 | Counting two lists is adding their counts |
| QaqcReport.GetGpsData | src/server/qaqc/report.js:64-91 | Throws exactly for missing results, or a sky view whose `satellites` is not an array or holds a missing satellite. With a fix: its position, time and mode; otherwise zeros. With a sky view: the satellites in use; otherwise 0 |
| QaqcReport.GetInfo | src/server/qaqc/report.js:97-102 | Throws exactly for a missing modem. Falsy SIM or IMEI values become 0; others are kept |
| QaqcReport.GetModemInfo | src/server/qaqc/report.js:162-182 | Throws exactly for a missing modem, or a carrier when the carrier or the signal is not a string. No carrier gives signal 0 and empty names. A carrier of two comma parts gives both parts trimmed; any other carrier is kept whole with no network. The signal is the leading integer of its first comma field |
| QaqcReport.ModemCarrierPair | src/server/qaqc/report.js:162-182 | A carrier `name,network` splits into the trimmed name and network |
| QaqcReport.ModemCarrierAlone | src/server/qaqc/report.js:162-182 | A carrier without a comma is kept whole, with no network |
| QaqcReport.UsbHubNeverMatches | src/server/qaqc/report.js:145 | The hub test as written never passes |
| QaqcReport.UsbHubCountAsWrittenIsZero | src/server/qaqc/report.js:144-148 | So the hub count as written is always 0 |
| QaqcReport.CountWhere | src/server/qaqc/report.js:137-149 | A count never exceeds the number of components |
| QaqcReport.CountComponents | src/server/qaqc/report.js:137-149 | The loop counts radios and hubs exactly as `CountWhere` does, and throws exactly for a missing component |
| QaqcReport.GetHardwareInfo | src/server/qaqc/report.js:133-156 | As written: the radios are counted, the hub count is 0, and the time is now |
| QaqcReport.GetHardwareInfoCorrected | src/server/qaqc/report.js:133-156 | Intended: the hubs are counted by vendor and product |
| HardwarePacket.Uint64 | src/server/qaqc/hardware.js:26 | The stored time is below 2^64 |
| HardwarePacket.DecodeLeBound | src/server/qaqc/hardware.js:26-27 | `n` little-endian bytes decode below 256^n |
| HardwarePacket.DecodeEncode | src/server/qaqc/hardware.js:26-27 | Decoding the encoding of a value that fits gives it back |
| HardwarePacket.EncodeDecode | src/server/qaqc/hardware.js:26-27 | Encoding a decoded byte sequence gives the same bytes |
| HardwarePacket.WriteUint64Le | src/server/qaqc/hardware.js:26-27 | The loop writes exactly the eight-byte little-endian encoding of the value, least significant byte first |
| HardwarePacket.GetPayload | src/server/qaqc/hardware.js:19-37 | Ten bytes: the hub count, the radio count and the time, as little-endian bytes (zero without a time). A count outside a byte throws |
| HardwarePacket.PayloadTimeRoundTrip | src/server/qaqc/hardware.js:25-36 | The date bytes decode to the time modulo 2^64, and no other bytes do |
| Sorting.Sort | src/server/uploader.js:24-31 | The result is sorted by code point, which is JavaScript's string order for names below U+10000, and is a permutation of the input |
| Sorting.SortedUnique | src/server/uploader.js:24-31 | Two sorted permutations of the same names are equal, so the file order is determined by the names |
| LegacyUploader.KeepOld | src/server/uploader.js:32-39 | The filter keeps, in order, exactly the names old enough |
| LegacyUploader.KeepOldKeepsAll | src/server/uploader.js:32-39 | A filter that passes everything returns its input |
| LegacyUploader.GetFiles | src/server/uploader.js:18-42 | Sorted, a subsequence of the sorted matches, and exactly the matches at least 61 minutes old. A glob error rejects |
| LegacyUploader.GetFilesToUpload | src/server/uploader.js:44-55 | Both lists exactly when both lookups succeed, each one `GetFiles` of its pattern |
| LegacyUploader.SgKeyParts | src/server/uploader.js:60 | An SG key splits into `ctt`, `data` and the base name |
| LegacyUploader.CttKeyParts | src/server/uploader.js:71 | A CTT key splits into `tag-data`, the id, the day and the base name |
| LegacyUploader.UploadSgFile | src/server/uploader.js:57-66 | The put goes to the bucket with the SG key and the file as body |
| LegacyUploader.UploadCttFile | src/server/uploader.js:68-77 | The put goes to the bucket with the CTT key of the file's day |
| DataUploader.TestKeyParts | src/server/data/uploader.js:131 | The key is `TEST/` followed by the key unchanged |
| DataUploader.GetFilesAsWritten | src/server/data/uploader.js:31-63 | As written: the lookup fails only when glob fails |
| DataUploader.GetFilesCall | src/server/data/uploader.js:31-34 | Options without a string `file_pattern` reject with a TypeError; otherwise the lookup goes on with that pattern |
| DataUploader.SgLookupRejects | src/server/data/uploader.js:112 | The SG lookup, given the pattern string as `opts`, always rejects |
| DataUploader.GetFilesAsWrittenIsEmpty | src/server/data/uploader.js:48-60 | As written, the list is always empty |
| DataUploader.GetFilesCorrected | src/server/data/uploader.js:31-63 | Intended: sorted, exactly the matches old enough |
| DataUploader.GetFilesCorrectedNoDelay | src/server/data/uploader.js:31-63 | With no delay, every match is kept, sorted |
| DataUploader.GetFilesToUploadAsWritten | src/server/data/uploader.js:105-127 | As written: resolves `undefined`, and rejects exactly when the CTT lookup fails. A rejection is left unhandled exactly when it resolves |
| DataUploader.GetFilesToUploadCorrected | src/server/data/uploader.js:105-127 | Intended: the CTT files without delay and the SG files older than 61 minutes; two empty lists when a lookup fails |
| DataUploader.UploadFile | src/server/data/uploader.js:129-168 | A read error rejects before any put. A put error rejects. Null or missing response data never settles. A truthy ETag resolves with the receipt; otherwise `bad etag response` |
| DataUploader.UploadCttFile | src/server/data/uploader.js:182-197 | A failed stat never settles. Otherwise the upload uses the CTT key of the file's day, and resolves only with its receipt |
| DataUploader.UploadCttFileKey | src/server/data/uploader.js:182-197 | The stored key is `TEST/tag-data/{id}/{day}/{basename}` |
| DataUploader.Uploader.constructor | src/server/data/uploader.js:14-22 | Not uploading at first |
| DataUploader.Uploader.UploadAll | src/server/data/uploader.js:65-103 | Only a call while not uploading starts a round. The flag stays set. As written, no upload is attempted and the promise resolves |
| RadioReceiver.ToInt32 | src/server/radio-receiver.js:22-23 | The conversion a bitwise OR applies: missing values and objects give 0, booleans 0/1, integers modulo 2^32 |
| RadioReceiver.RestartMsDefault | src/server/radio-receiver.js:22 | A missing or zero `restart_ms` gives 15000 |
| RadioReceiver.RestartMsOfOneSecond | src/server/radio-receiver.js:22 | An option that converts to 1000 gives 15352 ms rather than 1000 |
| RadioReceiver.RestartsOnCloseIff | src/server/radio-receiver.js:23 | The restart flag holds exactly when the option converts to 0 or 1 |
| RadioReceiver.RestartFlagIff | src/server/radio-receiver.js:23 | `(x \| true) == true` holds exactly for the 32-bit patterns 0 and 1 |
| RadioReceiver.RestartsOnCloseByDefault | src/server/radio-receiver.js:23 | Boolean, missing or `null` options always restart |
| RadioReceiver.Receiver.constructor | src/server/radio-receiver.js:17-29 | The options are kept and the two restart settings computed; there is no port yet |
| RadioReceiver.Receiver.Data | src/server/radio-receiver.js:47-53 | Exactly the port, baud rate and channel |
| RadioReceiver.Receiver.BuildSerialInterface | src/server/radio-receiver.js:71-105 | The port exists afterwards |
| RadioReceiver.Receiver.Write | src/server/radio-receiver.js:35-42 | Sends exactly when the data is a string and the port exists; the frame is the trimmed text and CR LF |
| RadioReceiver.WriteIdempotent | src/server/radio-receiver.js:35-42 | Writing a frame again sends the same frame |
| RadioReceiver.Receiver.OnOpen | src/server/radio-receiver.js:75-77 | Raises `open` with the description |
| RadioReceiver.Receiver.OnClose | src/server/radio-receiver.js:78-84 | Raises `close`, then schedules a restart exactly when the flag holds |
| RadioReceiver.Receiver.OnError | src/server/radio-receiver.js:85-87 | Raises only `error`, with the error text and `[object Object]` |
| RadioReceiver.Receiver.OnLine | src/server/radio-receiver.js:90-103 | `beep` exactly for a parsed object or array. An object gains `channel` and `received_at` and keeps its other fields. Every other line is raised as `raw`, unchanged |
| LegacyRadioReceiver.Receiver.constructor | src/server/radio_receiver.js:7-15 | The options are kept and the receiver starts inactive |
| LegacyRadioReceiver.Receiver.Data | src/server/radio_receiver.js:17-24 | Exactly the port, baud rate, channel and the current `active` flag |
| LegacyRadioReceiver.Receiver.OnOpen | src/server/radio_receiver.js:35-39 | Active, and `open` raised with the new description |
| LegacyRadioReceiver.Receiver.OnClose | src/server/radio_receiver.js:40-44 | Inactive, and `close` raised |
| LegacyRadioReceiver.Receiver.OnError | src/server/radio_receiver.js:45-49 | Inactive, and `close` raised, as for a close |
| LegacyRadioReceiver.Receiver.OnLine | src/server/radio_receiver.js:51-66 | Fails exactly for an unparsable or missing message, or a beep without `data`. A message of another type is raised as `unknown`, unchanged. A message is a beep exactly when its type is `'beep'`, and it becomes the record of its time, the receiver's channel, the radio id, the tag id and the RSSI |
| BaseStation.StampIso | src/server/base-station.js:267 | A station-computed time prints through `toISOString`; a carried value prints, or throws, as that value does |
| BaseStation.BeepFields | src/server/base-station.js:263-274 | A beep row is the time, channel, tag id, tag RSSI and node id: one field per header name, and no error bits |
| BaseStation.NodeFields | src/server/base-station.js:223-235 | A node row is the time, channel, node id, RSSI, battery and temperature: one per header name |
| BaseStation.BeepsFlushedInOrder | src/server/base-station.js:263-274 | Beeps whose times print are all written, in arrival order, one row each |
| BaseStation.NodesFlushedInOrder | src/server/base-station.js:223-235 | Node messages whose times print are all written, in arrival order |
| BaseStation.BeepLineIgnoresErrorBits | src/server/base-station.js:263-274 | Beeps differing only in error bits print the same row |
| BaseStation.Battery | src/server/base-station.js:335 | Whole volts are exact, other millivolt counts give a fraction, and non-integers go through the division oracle |
| BaseStation.OffsetMs | src/server/base-station.js:355 | An integer offset is subtracted as it is; a missing one as zero |
| BaseStation.GpsLine | src/server/base-station.js:178-195 | With a fix: the time and the five GPS columns, or a throw for a missing GPS state. Without one: the time, three empties and 0 |
| BaseStation.GpsLineWithoutFix | src/server/base-station.js:189-195 | Without a fix the row is the time and `,,,,0`: five fields under a six-column header |
| BaseStation.HeaderArrayText | src/server/base-station.js:197-200 | The unshifted header array prints as the names joined with commas |
| BaseStation.Preset | src/server/base-station.js:95-111 | `node`, `tag` and `ook` map to their presets, and no other mode has one |
| BaseStation.PresetInjective | src/server/base-station.js:95-111 | Distinct modes have distinct presets |
| BaseStation.Dispatch | src/server/base-station.js:93-119 | A mode without a preset is an invalid type. A preset is written exactly when the key holds a receiver. Otherwise the write throws |
| BaseStation.ToggleRadioAsWritten | src/server/base-station.js:90-119 | As written, the command passes exactly when the channel is an index of the key array |
| BaseStation.ToggleRadio | src/server/base-station.js:90-119 | Intended: the command passes exactly when the channel is a key |
| BaseStation.ToggleRadioChannelFive | src/server/base-station.js:92 | With channels 1..5 started and before any port has opened, as written channel 5 is refused and channel 0 throws; intended, channel 5 is toggled and 0 refused |
| BaseStation.ToggleRadioReachesStarted | src/server/base-station.js:92 | Intended: a started radio always receives a valid preset |
| BaseStation.StartedUpToFive | src/server/base-station.js:298-321 | The start loop's five entries are channels 1..5 under their decimal keys |
| BaseStation.Station.constructor | src/server/base-station.js:13-61 | The three file paths come from the station id, and the caches, counters and sets start empty |
| BaseStation.Station.Start | src/server/base-station.js:298-321 | A receiver is registered for each channel 1..5 and nothing else changes |
| BaseStation.Station.OnRadioOpen | src/server/base-station.js:310-313 | A receiver's description is stored under its port, and a missing description throws |
| BaseStation.Station.HandleBeep | src/server/base-station.js:379-393 | A missing beep changes nothing. Otherwise one entry is queued and both counters rise by one. The tag joins the unique tags unless setting `msg_type` on a primitive threw. Every nodes set and the node cache are unchanged |
| BaseStation.Station.HandleNodeBeep | src/server/base-station.js:351-377 | The beep is queued as heard `offset_ms` before now, with error bits 0, and the node joins both sets. The beep counters are untouched. A missing part throws before anything changes |
| BaseStation.Station.HandleNodeAlive | src/server/base-station.js:323-349 | The node joins both sets and one entry is queued with the battery in volts. A missing part throws before anything changes |
| BaseStation.Station.WriteBeeps | src/server/base-station.js:252-288 | The disk is `Flushed` of the raw data file. A failing time rejects. An empty cache never settles. Otherwise the promise settles as the append does |
| BaseStation.Station.WriteNodes | src/server/base-station.js:210-250 | The disk is `Flushed` of the node data file. The promise never resolves: it rejects on a failing time or a failed append and otherwise stays pending |
| BaseStation.Station.LogGps | src/server/base-station.js:166-208 | Exactly one row is appended, with the header when the file is absent. A missing GPS state with a fix throws and writes nothing |

## Left out

- Serial ports, timers, sockets, HTTP requests, `glob`, `fs.stat`, `fs.readFile` and `putObject` are not modelled. Each is replaced by the answer it gave, a parameter of the member that uses it.
- The console and station logs (`record`, `console.log`) and the web socket `broadcast` calls produce output only. They are left out, and `broadcast` is taken not to throw.
- `JSON.parse` is an input (`Option<Value>`). It is not modelled as a function of the line's text.
- Non-integer numbers keep only the text JavaScript prints for them. `toFixed` on them, a battery reading that is not an integer number of millivolts, and a float's `ToInt32` are inputs (`Env.Clock`, `divideBy1000`, `floatToInt32`).
- Date formatting is an input: moment's `format`, `toISOString` on a station-computed time, and `toISOString` on a carried value (`dateIso`, `None` when the value has no such method).
- `path.join` is modelled as joining with one slash. It does not normalise `..`, `.` or repeated slashes.
- `getSensorInfo` (src/server/qaqc/report.js:108-127) depends on `parseFloat` of free-form text, so it is not part of this model.
- HardwarePacket.GetPayload: a count that is a number but not an integer, and a NaN time, are not modelled.
- LegacyUploader.GetFiles: a `glob` error is passed on as a rejection. The source's unhandled callback path is not modelled further.
- DataUploader.GetFilesAsWritten: a `glob` error is passed on as a rejection. After `reject(err)` the callback goes on to `filenames.sort` on an undefined list (src/server/data/uploader.js:40). That TypeError is thrown outside the promise and is not modelled.
- DataUploader.GetFilesToUploadAsWritten: the SG lookup's unhandled rejection is reported as a flag. What the runtime does with it is not modelled; Node 15 and later end the process.
- RadioReceiver.Receiver.OnLine: the `channel` and `received_at` properties set on a parsed array are not modelled. The array is raised as parsed.
- BaseStation.Station.HandleNodeBeep: requires that moment can read `offset_ms` as a whole number of milliseconds. Fractions and values that are not numbers, numeric strings, booleans, `null` or `undefined` are not modelled.
- BaseStation.ToggleRadioAsWritten: the `in` test on an array ignores names inherited from the prototypes (such as `map`).
- BaseStation.Station.Start: the constructor's hard-coded radio map (src/server/base-station.js:15-21) has the keys 1 to 5, and the model starts one receiver per key as the source does. The serial port paths of that map are not kept; receivers are identified by their channel, and their serial behaviour is `RadioReceiver`.
- BaseStation.Station.HandleBeep: the `msg_type` written into the caller's record is not modelled, beyond the strict-mode throw for a primitive. JavaScript `Set` identity for object ids is replaced by structural equality of values.
- BaseStation.Station.HandleNodeAlive: the `msg_type` written into the caller's message is not modelled.
- RadioReceiver.Receiver.Write: a write that the serial port itself reports as failed is not modelled. The port's callback (src/server/radio-receiver.js:37-41) is a plain `function`, so `this` is undefined there and such a failure throws a TypeError instead of raising `error`. `Dispatch` records only which radio would receive which preset.
- The `save_radio` and `about` commands, `getRadioReport`, `stationLog`/`record` and the check-in timers of the station are not modelled: they only log or schedule.
- `src/server/base_station.js`, `src/index.js`, `src/server/server-api.js`, `src/server/web-socket-server.js`, `src/server/gps-client.js`, `src/server/station-config.js` and `src/server/default-config.js` are not part of this model. They are bootstrap, transport and configuration code outside the data path.
- DataUploader.Uploader.UploadAll: the promise chaining of the upload loop, whose `reduce` ignores the previous promise, is not modelled. As written the loop is never reached.
- GpsFormatter.Precision: only an integer option, or none, is modelled. The source keeps any truthy option, strings included, and replaces every falsy one (`""`, `null`, `false`, NaN) by 6 (src/server/data/gps-formatter.js:19).
- QaqcReport.NewReport: the threshold option is modelled only as an integer or missing. The source keeps any truthy value, strings included, and replaces every falsy one (`""`, `null`, `false`, NaN) by 3 (src/server/qaqc/report.js:23).
- JsValue.StringToInteger: only optional white space, an optional sign and decimal digits are read as a number. Texts that `Number()` also accepts, such as `"3.0"`, `"0x3"`, `"3e0"`, `"1.5"` or `"Infinity"`, are treated as NaN. This affects the success test of `ServerApi.ServerApi.CheckInternet`, the string case of `RadioReceiver.ToInt32`, the loose comparisons of the QA/QC tag test, and the `NodeId.length > 0` test of `BeepStats.BeepStatManager.AddBeep` (a `length` of `"1.5"` counts as direct).
- CsvFlush.TwoFlushesOneHeader: flushes are taken to run one after another. In the source `fs.appendFile` is asynchronous (src/server/data/logger.js:62; src/server/base-station.js:201, 242, 279), so a second flush that starts before the first append completes can also see the file as absent and write a second header.
- BeepStats.BeepStatManager.AddNodeHealth: the health snapshot is stored as a value. The source stores the caller's own object by reference (src/server/data/beep-stat-manager.js:56), so later changes the caller makes to that object would show in the stats; that aliasing is not modelled.
- DataUploader.UploadFile: the LED `fetch` call at the start of the executor is not modelled, and a global `fetch` is taken to exist. The module never imports `fetch` (src/server/data/uploader.js:133), so on a runtime without a global `fetch` the executor throws a ReferenceError and every upload rejects before the file is read.
- Sorting.Sort: names are ordered by Unicode code point. JavaScript's `<` on strings compares UTF-16 code units, so names holding characters above U+FFFF can sort differently: `"\u{1F600}"` comes before `"\uFF5E"` in JavaScript and after it here. `LegacyUploader.GetFiles` and `DataUploader.GetFilesCorrected` inherit this order.

## Findings

| source | as written | input that shows it | evidently intended | confidence | as-written member | corrected member |
|---|---|---|---|---|---|---|
| src/server/data/data-manager.js:24-35 | each logger is given `{fileuri, formatter}`, but a logger builds its path from `id`, `base_path` and `suffix` | any station id and log directory: `path.join(undefined, …)` throws | pass the id, the base log directory and the suffix | not executed | DataManagement.LoggerOptionsAsWrittenThrow | DataManagement.LoggerOptionsGiveFileUri |
| src/server/data/beep-stat-manager.js:45 | `Objects.keys(this.stats.telemetry)` | any existing record: `Objects` is not defined | `Object.keys(channel.telemetry)` | not executed | BeepStats.BeepStatManager.AddTelemetryBeep | BeepStats.BeepStatManager.AddTelemetryBeepCorrected |
| src/server/qaqc/report.js:145 | `vendor == '0424' && vendor == '2514'` | a hub `{vendor: '0424', product: '2514'}` counts 0 | compare the product with `2514` | not executed | QaqcReport.UsbHubCountAsWrittenIsZero | QaqcReport.GetHardwareInfoCorrected |
| src/server/data/uploader.js:48-60 | the `filter` callback returns nothing, so every file is dropped | any non-empty match list | keep the files older than the delay | not executed | DataUploader.GetFilesAsWrittenIsEmpty | DataUploader.GetFilesCorrected |
| src/server/data/uploader.js:110-118 | the `then` callback returns nothing, so the promise resolves `undefined`; it also passes the SG pattern string as `opts`, so that lookup rejects with no handler | any successful CTT lookup | resolve with both file lists | not executed | DataUploader.GetFilesToUploadAsWritten | DataUploader.GetFilesToUploadCorrected |
| src/server/base-station.js:92 | `channel in Object.keys(active_radios)` tests array indices | channels 1..5 started, before any port has opened; `{channel: 5, type: 'node'}` is refused and `{channel: 0, …}` throws | test `channel in this.active_radios` | not executed | BaseStation.ToggleRadioChannelFive | BaseStation.ToggleRadio |
