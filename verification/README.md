# p-net IO Device Manager: a verified model

This project models the parts of the p-net IO Device Manager that compute something, and
proves what they promise. `dafny verify dfyconfig.toml` verifies all of it (Dafny 4.11).

**Configuration files** (`CStrings`, `Numerals`, `ConfigModel`, `ConfigMeaning`,
`ConfigRoundTrip`, `ConfigTheorems`, `ConfigRemarks`, `ConfigLiterals`, `CBuffers`,
`AppConfig`). `app_config_save` prints a record as
`key=value` lines; `app_config_load` reads a file through 512-byte `fgets` calls, strips in
place, splits at the first `=` and copies values with a truncating `strncpy`. The record is
modelled byte by byte, with the printers and readers of numbers. The main results are:
saving and loading returns every saved field unchanged *if and only if* every saved string
is non-empty, trimmed and without line breaks; the normal form for all records without line
breaks; last write wins and commutation of lines for every file of lines that fit the
buffer, terminated or not; for every file whatsoever, stabilisation after one save and load,
with the condition on the file under which the first record is already stable; and exactly
when a remark behind a value changes what is loaded. `ConfigLiterals` ties all this to the
format letter by letter: the nineteen key names, what each writes into the record, the saved
lines, the defaults and the fields that validation refuses. `CBuffers`
and `AppConfig` are the same code in its own form (char arrays changed in place, loops),
proved against those functions.

**Firewall policy** (`SecurityModel`, `SecurityReadBack`, `SecuritySize`, `SecurityText`,
`BoundedWriter`, `SecurityPolicy`, `SecurityAudit`, `SecurityReport`). The in-place rule table refines a list; the incremental
`snprintf` writer refines the simple printer for every buffer length; a reader of
`iptables` lines recovers exactly the active rules *if and only if* no comment hides a
command on a later line, which a comment of 63 characters can; the script's length is counted
from the rules' fields, 23 rules always fit the buffer of `sec_policy_apply` and 24 need not;
`SecurityText` gives commands and scripts word by word from the C codes. The audit returns
the number of failed conditions, which is the number of warning lines in its report.

**Supervisor and device** (`PnetStack`, `DeviceModel`, `DeviceTheorems`, `IoDevice`,
`SupervisorModel`, `Supervisor`). The production loop is modelled twice: as a controller whose tick and
restart outcomes the environment chooses, and over the real device; the second is proved to
be an instance of the first. The backoff has a closed form, recovery starts exactly after
five failed ticks, pings keep their distance, and, since a started device never fails a
tick, the recovery branch is in fact never entered with the stack the default build links.
The device state is a fold of its event history.

Conventions. A `char` is one byte, in the "C" locale. `unsigned long` and `long` have 64
bits, `int` 32. Numbers out of range for `atoi` and `sscanf`, which the C standard leaves
undefined, read as `strtol`/`strtoul` results cut to 32 bits, as in the GNU C library; no
round-trip result touches them. Whether a file opens, memory can be allocated or a script
succeeds is a parameter; so are the stack's events and the clock. The repository's
README shows remarks behind values (`README.md:163`); the code keeps them as part of the
value, and the model follows the code. `ConfigRemarks.RemarkEffect` says exactly when that
changes the loaded record: a number or an address reads as before, a string keeps the remark
as far as its buffer has room, and a switch that was on is off.

## Model

| member | source | states |
|---|---|---|
| CStrings.StripIs | src/config/app_config.c:23-33 | strip returns the one middle part that is trimmed and has only white space on both sides |
| CStrings.StripTrimmed | src/config/app_config.c:23-33 | the result is trimmed, trimmed text is unchanged, and it is empty exactly for all-blank text |
| CStrings.NCopyForgets | src/config/app_config.c:69-99 | a copy into a terminated buffer leaves no residue of what was there before |
| Numerals.ParsedOctets | src/config/app_config.c:39-48 | parse_ip accepts exactly four numbers of at most 255, which become the octets; everything else gives 0 |
| Numerals.IpRoundTrip | src/config/app_config.c:39-60 | every 32-bit address survives printing as a dotted quad and parsing |
| Numerals.IpShape | src/config/app_config.c:230-245 | a printed address always fits ip_buf[16] |
| Numerals.UIntRoundTrip | src/config/app_config.c:92-93 | every 32-bit number survives %u and strtoul with base 0: octal is picked for 0 only |
| Numerals.HexRoundTrip | src/config/app_config.c:88-91 | every 16-bit id survives 0x%04X and strtoul with base 0 |
| Numerals.IntRoundTrip | src/config/app_config.c:100-102 | every int survives %d and atoi |
| Numerals.HexText | src/config/app_config.c:251-252 | 0x%04X is four upper-case digits, the highest first |
| Numerals.AtoiReads | src/config/app_config.c:100-119 | atoi on any white space, sign, digits and rest: the number, or what is congruent to it modulo 2^32 |
| Numerals.StrToULReads | src/config/app_config.c:88-93 | strtoul with base 0 on 0x, 0 and decimal text, capped at the largest value |
| Numerals.LowRemainder | src/config/app_config.c:88-93 | the casts to 16 and 32 bits keep the remainder |
| Numerals.BuiltInAddresses | src/config/app_config.c:141-143 | the values of the three default addresses |
| ConfigModel.PutGet | src/config/app_config.c:65-121 | an assignment gives its key a value independent of the old record, changes no other key, and keeps sizes, terminators and the network mirror |
| ConfigMeaning.StepGet | src/config/app_config.c:194-216 | one line changes at most the key it assigns |
| ConfigMeaning.LastWriteWins | src/config/app_config.c:194-216 | a key's value is the meaning of the last line that assigns it |
| ConfigMeaning.NeverWritten | src/config/app_config.c:189-216 | without such a line the starting value survives |
| ConfigMeaning.StepsCommute | src/config/app_config.c:65-121 | two lines that do not assign the same key commute on the whole record |
| CStrings.JoinSplit | src/config/app_config.c:193-194 | every file is a join of lines without line feeds, so the results about joined lines speak of every file |
| ConfigMeaning.RunLines | src/config/app_config.c:194-197 | reading by fgets calls is reading line by line when no line exceeds 511 characters, whether or not the last one ends in a line feed |
| ConfigMeaning.RunLatest | src/config/app_config.c:194-216 | after any lines a key has the meaning of the last value assigned to it, or what it had before |
| ConfigMeaning.LongLineIsSplit | src/config/app_config.c:193-194 | a longer line, terminated or not, is read as its first 511 characters followed by the rest as another line |
| ConfigMeaning.FileLastWriteWins | src/config/app_config.c:181-220 | last write wins for whole files |
| ConfigMeaning.FileDefaultSurvives | src/config/app_config.c:189-216 | a key that no line assigns keeps its default |
| ConfigMeaning.FileLinesCommute | src/config/app_config.c:181-220 | exchanging neighbouring lines with different keys changes nothing |
| ConfigLiterals.KnownNames | src/config/app_config.c:65-121 | the strcmp chain finds each of the nineteen keys for exactly its literal name |
| ConfigLiterals.SpaceCodes | src/config/app_config.c:23-33 | white space is the six characters of isspace |
| ConfigLiterals.BodyEnds | src/config/app_config.c:196-197 | a line's text stops at the first carriage return, line feed or NUL |
| ConfigLiterals.NoEquals | src/config/app_config.c:205-208 | a line without = assigns nothing |
| ConfigLiterals.LineMeaning | src/config/app_config.c:198-215 | a line cut at its first = assigns the stripped right side to the stripped left side, unless one is empty or the line starts with # or ; |
| ConfigLiterals.LoadTexts | src/config/app_config.c:68-103 | loading one line of a string key: the default record with that buffer set, cut to its size; the interface twice |
| ConfigLiterals.LoadAddresses | src/config/app_config.c:76-87 | the same for the three addresses and their network copies |
| ConfigLiterals.LoadUnsigned | src/config/app_config.c:88-93 | the same for the ids, of which 16 bits are kept, and the tick |
| ConfigLiterals.LoadIntegers | src/config/app_config.c:100-119 | the same for the numbers read by atoi |
| ConfigLiterals.LoadSwitches | src/config/app_config.c:94-117 | the same for the switches, on for exactly true and 1 |
| ConfigLiterals.SavedText | src/config/app_config.c:234-274 | the saved file, all 29 lines with their literal names |
| ConfigLiterals.DefaultValues | src/config/app_config.c:127-179 | every string, address, number and switch of the defaults |
| ConfigLiterals.BuiltInPath | src/config/app_config.c:177-190 | the built-in path, and the path after a load |
| ConfigLiterals.RefusedFields | src/config/app_config.c:280-335 | one bad field is enough to be refused, in any record |
| ConfigLiterals.AcceptedFields | src/config/app_config.c:280-335 | the defaults with one field changed are valid exactly for the values in range |
| ConfigRoundTrip.EntryLine | src/config/app_config.c:199-215 | key=value assigns the stripped value, and nothing when that is empty, whatever = or # the value contains |
| ConfigRoundTrip.RemarkLine | src/config/app_config.c:201-203 | blank lines and comments assign nothing |
| ConfigRoundTrip.ShownValue | src/config/app_config.c:236-275 | what is printed for a number or switch is read back as the same value |
| ConfigRoundTrip.SavedFits | src/config/app_config.c:234-275 | every line that save writes fits one fgets call |
| ConfigRoundTrip.LoadSaved | src/config/app_config.c:181-278 | normal form: numbers and switches unchanged, strings stripped, blank strings replaced by the default |
| ConfigTheorems.LoadCanonical | src/config/app_config.c:181-220 | any file loads to NUL-padded non-empty strings without line breaks, with white space at the end only of a string that fills its buffer, a network record equal to the device's, and the given path |
| ConfigTheorems.RoundTripExactly | src/config/app_config.c:181-278 | saving and loading returns every saved field if and only if every string is non-empty, trimmed and without line breaks |
| ConfigTheorems.FixedExactly | src/config/app_config.c:181-278 | a record comes back byte for byte if and only if it is canonical, has such strings and names the file's path |
| ConfigTheorems.SecondTripChangesNothing | src/config/app_config.c:181-278 | saving and loading a second time changes nothing |
| ConfigTheorems.ValidAfterTrip | src/config/app_config.c:280-335 | after the trip a record is valid exactly when its numbers were |
| ConfigTheorems.LoadedValidity | src/config/app_config.c:280-335 | the defaults are valid; a loaded record can be invalid only for its numbers |
| ConfigTheorems.BlankEnd | src/config/app_config.c:68-99 | a loaded string ends in white space exactly when the file's last value for it was cut behind white space, and then it fills its buffer |
| ConfigTheorems.AnyFileStabilises | src/config/app_config.c:181-278 | for any file the first save and load changes exactly the strings cut like that, by stripping them on the right, and the next changes nothing; the first record is already fixed exactly when no key's last value in the file was cut like that |
| ConfigTheorems.TruncationExposesBlank | src/config/app_config.c:68-69 | files for which the first record is not yet fixed |
| ConfigRemarks.RemarkMeaning | src/config/app_config.c:65-121 | a value means the same with a remark behind it exactly for numbers and addresses, strings of at least their buffer's room, and switches that are off |
| ConfigRemarks.RemarkAssigned | src/config/app_config.c:199-215 | a line with a remark behind it assigns the same key, and the value with the remark |
| ConfigRemarks.RemarkEffect | src/config/app_config.c:181-220 | a remark behind any assigning line of a file leaves the loaded record alone exactly when the value is one of those or a later line assigns the key again |
| ConfigRemarks.RemarkedEntry | README.md:157-175 | a file of one documented line with a remark: the switch is off, the number or address is read, the string holds the remark |
| ConfigRemarks.TrailingComment | README.md:162-163 | of the documented example the priority is read and locking memory is off |
| CBuffers.StrNCpy | src/config/app_config.c:69-99 | the bounded copy on arrays equals its function on bytes |
| CBuffers.StripInPlace | src/config/app_config.c:23-33 | the in-place pointer loops leave the stripped string and touch nothing outside it |
| CBuffers.FGets | src/config/app_config.c:193-194 | the chunk one fgets call takes |
| CBuffers.ReadLine | src/config/app_config.c:194-196 | the buffer holds the chunk up to its first line break or NUL |
| CBuffers.SplitLine | src/config/app_config.c:198-215 | cutting the buffer at the first = and stripping both parts in place gives the line's assignment |
| AppConfig.Config.ApplyKv | src/config/app_config.c:65-121 | the record afterwards, byte for byte |
| AppConfig.Config.SetDefaults | src/config/app_config.c:127-179 | every byte of the record, whatever it held before |
| AppConfig.Config.LoadFile | src/config/app_config.c:181-220 | the loop over fgets leaves the record that the file means; -1 and no change when it cannot be opened |
| AppConfig.Config.SaveFile | src/config/app_config.c:222-278 | the text written, line by line |
| AppConfig.Config.Validate | src/config/app_config.c:280-335 | 0 exactly for a non-empty interface and numbers in range |
| SecurityPolicy.RunBounds | src/security/security_policy.c:132-183 | over every run at most 64 rules are live and all are active |
| SecurityPolicy.RunKeepsOrder | src/security/security_policy.c:132-183 | over every run the live rules are rules that were added, in the order of the add calls |
| SecurityPolicy.CallEffects | src/security/security_policy.c:120-183 | what each call does to the list and returns, position by position and code by code |
| SecurityPolicy.AddThenRemove | src/security/security_policy.c:132-171 | removing what was just added restores the table |
| SecurityPolicy.Policy.Init | src/security/security_policy.c:120-130 | an empty, disabled, all-zero table |
| SecurityPolicy.Policy.AddRule | src/security/security_policy.c:132-149 | appends the rule marked active, or refuses at 64 and changes nothing |
| SecurityPolicy.Policy.RemoveRule | src/security/security_policy.c:151-171 | drops exactly the rule at the index, moves those behind it one place down, keeps the others, zeroes the vacated slot; a bad index changes nothing |
| SecurityPolicy.Policy.FlushRules | src/security/security_policy.c:173-183 | an empty, all-zero table |
| SecurityPolicy.Policy.GenerateRuleLine | src/security/security_policy.c:71-114 | the line left in the 256-byte buffer and its length as result, or -1 when a command does not fit |
| SecurityPolicy.Policy.GenerateScript | src/security/security_policy.c:226-274 | for every length the buffer holds as much of the simple printer's script as fits plus a NUL, nothing behind it is touched, and the result is 0 exactly when all fitted |
| SecurityPolicy.Policy.Apply | src/security/security_policy.c:189-224 | -ENOSPC exactly when the script's size, counted from the rules' fields, does not fit 4096 bytes; never for 23 rules or fewer |
| BoundedWriter.SNPrintf | src/security/security_policy.c:236-241 | one bounded print at an offset |
| BoundedWriter.Print | src/security/security_policy.c:253-259 | printing piece by piece equals printing the concatenation |
| BoundedWriter.FullAlready | src/security/security_policy.c:256-258 | once the buffer is full, later text would make no difference |
| SecuritySize.LineLength | src/security/security_policy.c:71-114 | no line exceeds 90 characters, so the 256-byte line buffer always suffices |
| SecuritySize.BufferedIsSimple | src/security/security_policy.c:244-259 | no rule is ever skipped |
| SecuritySize.ScriptLength | src/security/security_policy.c:71-274 | the exact length of every script, counted from the fields of its rules |
| SecuritySize.TwentyThreeRulesFit | src/security/security_policy.c:195-199 | any 23 rules fit the script buffer |
| SecuritySize.TwentyFourRulesCanFail | src/security/security_policy.c:195-199 | no 24 or more rules of greatest length fit |
| SecuritySize.LongestExists | src/security/security_policy.c:71-114 | there is a rule of greatest length |
| SecurityText.CommandFormat | src/security/security_policy.c:82-107 | a command is the format of the three snprintf calls filled in from the C codes |
| SecurityText.CommandWords | src/security/security_policy.c:27-107 | its words, split at spaces |
| SecurityText.CommandEnds | src/security/security_policy.c:27-49 | it starts with OUTPUT, FORWARD or INPUT and ends in ACCEPT, REJECT or DROP exactly for the codes of each |
| SecurityText.CommandProtocol | src/security/security_policy.c:51-60 | it contains -p tcp, -p udp or -p all exactly for protocol 6, 17 or any other |
| SecurityText.ScriptText | src/security/security_policy.c:226-274 | the script line by line: header, three lines a rule, footer |
| SecurityText.TestedRules | tests/test_security.c:81-98 | the two commands of the repository's own test |
| SecurityReadBack.CommandReadBack | src/security/security_policy.c:27-107 | a printed command is read back as the normalised rule |
| SecurityReadBack.ReadWholeScript | src/security/security_policy.c:226-274 | what is read from any script: per rule, the commands on later comment lines and the active rule |
| SecurityReadBack.ScriptReadBackExactly | src/security/security_policy.c:226-274 | the script gives back exactly the active rules in table order if and only if no comment hides a command on a later line |
| SecurityReadBack.ScriptReadBack | src/security/security_policy.c:226-274 | in particular for comments without line breaks |
| SecuritySize.HiddenCommand | src/security/security_policy.c:226-274 | any command of at most 61 characters fits a comment behind a line feed, is then read from the script, and the read-back is not the active rules |
| SecuritySize.HiddenExists | src/security/security_policy.c:71-114 | there is such a command: dropping everything takes 42 characters |
| SecurityAudit.AuditBounds | src/security/security_policy.c:386-487 | the report always fits 512 bytes and at most four conditions fail |
| SecurityReport.DenyAppended | src/security/security_policy.c:423-434 | a table has a catch-all deny exactly when an appended INPUT rule for everything drops or rejects |
| SecurityReport.IpsecAppended | src/security/security_policy.c:442-449 | the same for UDP 500 and 4500 |
| SecurityReport.InactiveAppended | src/security/security_policy.c:458-463 | an appended inactive rule counts one |
| SecurityReport.WarningsAppended | src/security/security_policy.c:386-487 | the number of warnings of an empty policy, and how every appended rule changes it |
| SecurityReport.ReportText | src/security/security_policy.c:386-487 | the report line by line |
| SecurityReport.ReportSays | src/security/security_policy.c:410-456 | a report holds each of its fixed warnings exactly when that check fails |
| SecurityReport.ResultCountsWarnings | src/security/security_policy.c:386-487 | the result is the number of warning lines in the report |
| SecurityAudit.FindDeny | src/security/security_policy.c:423-434 | the loop finds a catch-all INPUT deny exactly when there is one |
| SecurityAudit.FindIpsec | src/security/security_policy.c:442-449 | the loop finds a UDP 500 or 4500 rule exactly when there is one |
| SecurityAudit.CountInactive | src/security/security_policy.c:458-463 | the number of inactive rules |
| SecurityAudit.Audit | src/security/security_policy.c:386-487 | the whole report in the buffer, and the number of failed conditions, at most four, as result |
| PnetStack.Pnet.PlugSubmodule | tests/mock/pnet_api_mock.c:75-97 | appends a zeroed, plugged submodule, or refuses at 32 |
| PnetStack.SetInputEffect | tests/mock/pnet_api_mock.c:119-134 | only the first match changes: its declared bytes, at most 256, and its status |
| PnetStack.GetOutputEffect | tests/mock/pnet_api_mock.c:144-160 | the first match gives the smaller of the declared and the requested number of bytes |
| PnetStack.Pnet.InputSetDataAndIops | tests/mock/pnet_api_mock.c:119-134 | overwrites the input bytes of the first plugged submodule at the address and nothing else |
| PnetStack.Pnet.OutputGetDataAndIops | tests/mock/pnet_api_mock.c:144-160 | returns at most the requested output bytes of that submodule |
| DeviceTheorems.FreshPlugsSucceed | src/app/io_device.c:502-587 | on a fresh stack all five plugs succeed, at five different addresses |
| DeviceTheorems.PlugNumbers | src/app/io_device.c:502-587 | address, identities, direction and lengths of the five submodules |
| DeviceTheorems.InitEffect | src/app/io_device.c:593-620 | every field after init |
| DeviceTheorems.StartEffect | src/app/io_device.c:622-797 | start succeeds exactly for an initialised device with a stack; what each failure leaves |
| DeviceTheorems.TickAndStop | src/app/io_device.c:799-841 | when a tick and a stop succeed, and what a failure leaves |
| DeviceTheorems.CleanupEffect | src/app/io_device.c:843-860 | every field of a cleaned-up record |
| DeviceTheorems.UpdateRefused | src/app/io_device.c:866-895 | an update fails exactly without a handle or beyond 256 bytes, and then changes nothing |
| DeviceTheorems.StartNeedsOnlyTheStack | src/main.c:246-261 | init and start fail exactly when the stack cannot be created, and then leave the zeroed record |
| DeviceTheorems.StateOfHistory | src/app/io_device.c:306-331 | RUNNING exactly when the latest DATA or ABORT event is DATA |
| DeviceTheorems.ArepOfHistory | src/app/io_device.c:306-331 | the active relation is that of the latest STARTUP since the last ABORT, else 0 |
| DeviceTheorems.TicksFoldHistory | src/app/io_device.c:799-817 | an operational device stays so and is, after any ticks, what the whole event history makes of it |
| DeviceTheorems.StartedDeviceHistory | src/app/io_device.c:306-331 | state, relation and counters of a started device after any ticks |
| DeviceTheorems.LifecycleHolds | src/app/io_device.c:593-930 | over every sequence of API calls the handle is live exactly in CONNECTED and RUNNING, cached sizes fit, and stopping a live device gives the zeroed record |
| DeviceTheorems.PerformKeeps | src/app/io_device.c:593-930 | every single API call keeps that invariant |
| DeviceTheorems.ReadKeeps | src/app/io_device.c:897-930 | a read returns min(1, requested) bytes, caches them and leaves the stack alone |
| DeviceTheorems.ProcessImage | src/app/io_device.c:866-930 | over any run of non-empty updates and reads the stack's input byte is the first byte of the latest update, the cache agrees, and no other submodule changes |
| DeviceTheorems.OutputImage | src/app/io_device.c:897-930 | over the same runs the cached size is that of the latest read, the cached byte is the stack's once a read has asked for one, and reads keep returning the untouched output byte |
| DeviceTheorems.EmptyUpdate | src/app/io_device.c:866-895 | cache and stack agree after an update exactly when it is not empty or repeats the byte |
| IoDevice.PlugAll | src/app/io_device.c:502-587 | plugs in order until one fails |
| IoDevice.IoDev.Init | src/app/io_device.c:593-620 | the whole record after init |
| IoDevice.IoDev.Start | src/app/io_device.c:622-797 | the whole record after start, with every failure branch |
| IoDevice.IoDev.AppStateInd | src/app/io_device.c:306-331 | what one event does |
| IoDevice.IoDev.Tick | src/app/io_device.c:799-817 | fails exactly without a handle or in ERROR; else the events and one cycle |
| IoDevice.IoDev.StopDev | src/app/io_device.c:819-841 | the zeroed record, or -1 without a handle |
| IoDevice.IoDev.Cleanup | src/app/io_device.c:843-860 | the zeroed record |
| IoDevice.IoDev.Update | src/app/io_device.c:866-895 | cache and stack after an update |
| IoDevice.IoDev.Read | src/app/io_device.c:897-930 | cache and result of a read |
| IoDevice.DeviceInitAndStart | src/main.c:246-261 | init, start, and cleanup after a failed start |
| IoDevice.DeviceStopAndCleanup | src/main.c:263-267 | always the zeroed record |
| SupervisorModel.BackoffClosedForm | src/main.c:369-411 | the backoff is 1 s doubled per attempt, capped at 30 s, and its double fits 32 bits |
| SupervisorModel.BackoffTotal | src/main.c:387-405 | k attempts without a successful tick sleep 2^k - 1 s for k up to 5, then 30 s more each |
| SupervisorModel.ErrorsMeanNoHandle | src/main.c:384-422 | five or more consecutive errors, no handle and a failed last restart coincide; recovery is then retried at once |
| SupervisorModel.RecoveryTrigger | src/main.c:370-385 | with a handle, recovery starts exactly after five failed ticks without a recovery between them |
| SupervisorModel.WatchdogGap | src/main.c:425-433 | successive pings are at least 15000 and at most 14999 + d ms apart |
| SupervisorModel.LoopPingGaps | src/main.c:425-433 | the same for the pings the loop over the real device sends, and less than 15 s have passed since the last |
| SupervisorModel.PingsAreNotMissed | src/main.c:425-433 | without a ping less than 15 s have passed |
| SupervisorModel.WatchdogUnderBackoff | src/main.c:402-436 | with backoffs of up to 30 s the gap is bounded by 45 s, the tick sleep and the work allowance |
| SupervisorModel.ServeDevice | src/main.c:368-422 | a failed tick counts on the device, the fifth in a row replaces it by a fresh one |
| SupervisorModel.LoopRefinesController | src/main.c:367-423 | one iteration over the real device is one step of the controller |
| SupervisorModel.LoopRunsController | src/main.c:367-423 | so is every run, and the controller's results carry over |
| SupervisorModel.TicksNeverFail | src/main.c:349-437 | after a successful start every tick returns 0, no error is counted, recovery is never entered and cycles equal iterations |
| Supervisor.Recover | src/main.c:387-422 | stop, doubled and capped backoff, restart |
| Supervisor.ServeOnce | src/main.c:368-423 | one iteration up to the watchdog |
| Supervisor.ProductionLoop | src/main.c:340-437 | the loop leaves device and variables as the iterated specification says |

## Left out

- Null pointers: every pointer argument is a valid object, so the null checks of the API have no counterpart.
- Settings outside the file: MAC address, TCP tuning and the embedded security policy of the record, and the real-time fields that are never saved (disable_cpu_freq, disable_irq_balance).
- SecurityAudit.Audit: requires a report buffer of at least 512 bytes, because with a smaller one the code's offset can pass the end and its size computation wraps; the three table scans run before the first write, which cannot be observed.
- SecurityPolicy.Policy.Apply: running the script is its exit code only; the flush command before it and all messages are not modelled.
- SupervisorModel.WatchdogUnderBackoff: gives the bound that holds, not that pings beat the 30 s of the service watchdog, because a 30 s backoff contains no ping.
- Supervisor.ProductionLoop: stops with the given rounds, because the signal handler is not modelled; sleeping only takes time.
- IoDevice.IoDev.Start: the configuration handed to the stack is not modelled, only whether the stack can be created.
- IoDevice.IoDev.Tick: cycle and error counters are unbounded, as are the loop's int counters, because 2^31 and more iterations are out of scope; the stack's own tick counter is dropped.
- PnetStack.Pnet.OutputGetDataAndIops: requires that the bytes to copy, the smaller of the declared length and the room asked for, lie inside the submodule's 256 bytes; the code copies without a check.
- PnetStack.Pnet.InputSetDataAndIops: requires that the caller's buffer has the bytes the stack takes, as the code does.
- pnet_pull_submodule: nothing in the program calls it.
- The branches for the real p-net stack, iptables packet semantics, IPSec files, network interface and real-time system calls, command line, banners and io_device_show.
