# A verified model of cloudbase-init

This project models the parts of cloudbase-init that hold state, arithmetic or a protocol behind
the calls to Windows and to the metadata services, and proves properties of them. The registry is
a map, a disk is a sequence of bytes, the network teams are a map, the password server is a small
state; whatever the outside world may do (a call that raises, a read that fails, a plugin's
result, the faults before a call comes through) is an input over which the properties quantify.

`dafny verify dfyconfig.toml` checks the whole project.

| file | what it models |
|---|---|
| `Provisioning.dfy` | `InitManager`: one plugin, one stage, one boot, as a class proved against functions |
| `ProvisioningEnd.dfy` | how every boot ends: reboot, reports, clean-up |
| `ProvisioningStatus.dfy` | DONE over many boots, exactly when it is lost, isolation of instances |
| `ProvisioningResume.dfy` | resuming after reboots refines one run; exactly when boots come to an end |
| `ProvisioningTrace.dfy` | which plugins a boot runs, and what it records |
| `PythonDivision.dfy` | Python's `int(a / b)`, rounded to 53 bits |
| `DiskImage.dfy` | sector-wise access, the ISO copy, trying devices in turn |
| `VolumeExtension.dfy` | attribution of free space to volumes, and their extension one after the other |
| `ExtensionOutcome.dfy` | which volumes an extension grows, and what becomes of the layout |
| `PartHandlers.dfy` | part handlers in multipart user data |
| `Dhcp.dfy` | the DHCP request and the parser of replies |
| `Retry.dfy` | the retry decorator |
| `Teams.dfy` | team creation with rollback under nested retries |
| `CloudStackPassword.dfy` | the password handshake over boots |
| `MetadataCache.dfy` | the metadata cache and its retries |
| `PageFiles.dfy` | the page file setting and its plugin |
| `DebianInterfaces.dfy` | blocks and NICs of a Debian network configuration |
| `NetworkModel.dfy` | NoCloud documents to the network model and the host information |
| `NetworkContents.dfy` | what accepted documents contain, item by item, and when they are not accepted |
| `HostInformation.dfy` | the host information, value by value |
| `Netmask.dfy` | the truncated IPv6 prefix and the broadcast address |
| `Basics.dfy`, `Text.dfy` | shared datatypes and string operations |

The form is the same throughout: a class or a loop of the source is a Dafny class or loop, and its
`ensures` equates its result and new state with a function; the lemmas are about the function.

## Where the code falls short of what one might expect

Each of these is proved together with the exact condition under which the code does what is expected,
stated on its inputs.

- A status read that fails counts as "no status": a plugin recorded DONE runs again if and only if
  some boot reaches it with such a read (`ProvisioningStatus.DoneIsFinal`), and is no longer DONE
  if and only if that run records another status (`ProvisioningStatus.DoneIsLostIff`, with the
  example `ProvisioningStatus.DoneIsLost`).
- The ids `a/b` and `a\b` share their plugin statuses (`Provisioning.InstanceKeysCollide`).
- Boots that agree on what the plugins do come to an end unless a MAIN plugin that is not DONE asks
  both for a reboot and to run again (`ProvisioningResume.SettlesIff`); such a plugin reboots the
  machine for ever, and none behind it ever runs (`ProvisioningResume.EndlessReboots`).
- `PageFilesPlugin` does not recognize what it wrote for a volume path with a space. Every later
  execution then fails if the second or third word of the path is not a number, as for
  `C:\my disk\`, and otherwise writes the setting again and asks for a reboot, as for `a 1 2 b`
  (`PageFiles.LaterExecutions`, `PageFiles.EndlessExecutions`).
- `int(a / b)` is not always the integer quotient: 2^54 - 1 over 512 is one too many
  (`PythonDivision.QuotientInexact`). It is for numerators below 2^53, so for every image;
  `PythonDivision.QuotientExactIff` has the condition for all numbers.
- A function whose part handlers are all taken over by later parts is told of the begin and never of
  the end (`PartHandlers.Protocol`, with the example `PartHandlers.ReplacedHandlerNeverEnds`).
- The status of multipart user data is that of the last part that is processed: an earlier part's
  request to run again is forgotten (`PartHandlers.StatusIff`, with the example
  `PartHandlers.RequestForgotten`).
- A Pad option makes the DHCP parser misread everything after it (`Dhcp.PadsAreMisread`), and a
  request for a MAC of other than six bytes has its cookie elsewhere, unless the MAC is so long that
  it brings one itself (`Dhcp.CookieInPlaceIff`).
- A negative retry count means retrying for ever (`Retry.GivesUpIff`).
- CloudStack passwords are acknowledged before they are set, so one that cannot be set is lost; and
  without injection they are never acknowledged (`CloudStackPassword.AnsweringBoot`). One whose
  acknowledgement does not reach the server is set again at the next boot
  (`CloudStackPassword.PendingUntilAcknowledged`, with the example `CloudStackPassword.SetTwice`).
- A team outlives a failed creation exactly when a compensating delete exhausted its retries before
  any attempt succeeded (`Teams.AllOrNothing`, with the example `Teams.TeamLeftBehind`).
- Networks converted from version 1 NICs carry lists of name server services where those of documents
  carry addresses (`NetworkModel.ConvertedNameServers`).
- The generator of Debian blocks is documented to yield pairs of v4 and v6 halves; the second half
  is always empty (`DebianInterfaces.Parser.Parse`).

## Model

| member | source | states |
|---|---|---|
| Provisioning.InstanceKeysCollide | cloudbaseinit/osutils/windows.py:1072-1076 | two instance ids lead to the same registry key exactly when they differ at most in the direction of slashes |
| Provisioning.InitManager.ExecOne | cloudbaseinit/init.py:52-76 | the new registry, the run that is recorded and the three results of executing one plugin, for every status, result, exception and registry failure |
| Provisioning.InitManager.HandlePluginsStage | cloudbaseinit/init.py:105-123 | the loop over a stage, its early stop and the flags it leaves, equal the recursive stage |
| Provisioning.InitManager.Conclude | cloudbaseinit/init.py:217-238 | the end of a boot: reboot, or success report and service stop |
| Provisioning.InitManager.ServeInstance | cloudbaseinit/init.py:192-215 | reports, MAIN stage, clean-up also on exceptions, and the end of the boot |
| Provisioning.InitManager.ConfigureHost | cloudbaseinit/init.py:167-238 | a whole boot equals the composition of its stages |
| ProvisioningEnd.RunPluginsKeepsInv | cloudbaseinit/init.py:114-121 | at every point of a stage the success flag says whether a MAIN plugin failed, the reboot flag whether one asked, and nothing ran after asking |
| ProvisioningEnd.EndOfRun | cloudbaseinit/init.py:167-238 | the exact sequence of reports, clean-up and reboot of every boot, finished or crashed |
| ProvisioningEnd.EndOfRunEvents | cloudbaseinit/init.py:203-233 | a reboot is asked for iff allowed and wanted by a plugin, and then nothing runs after that plugin; success is reported iff no MAIN plugin failed and no reboot is due, failure iff one failed; clean-up iff MAIN began |
| ProvisioningTrace.StageRunsAre | cloudbaseinit/init.py:52-123 | a stage runs exactly its supported plugins that are not read to be DONE, in order, up to the first that ends the process or asks for an allowed reboot, and records exactly their statuses |
| ProvisioningTrace.BootRunsAre | cloudbaseinit/init.py:167-222 | a boot runs exactly the plugins of its first stage, of the second if none stopped the first, and of the MAIN stage if it comes to that, and records nothing else |
| ProvisioningStatus.BootRunsIff | cloudbaseinit/init.py:52-76 | a plugin that a boot reaches with a failing read of its status runs, whatever is recorded; one recorded DONE runs in no other way and stays DONE |
| ProvisioningStatus.DoneIsFinal | cloudbaseinit/init.py:52-76 | over any boots of any instances a plugin recorded DONE runs again iff some boot reaches it with a failing read of its status; otherwise it stays DONE |
| ProvisioningStatus.DoneIsFinalWhenRead | cloudbaseinit/init.py:52-76 | DONE is final over any boots in which no read of that status fails |
| ProvisioningStatus.DoneIsLostIff | cloudbaseinit/init.py:52-76 | for plugins with distinct names, the status is DONE after each of the boots iff none of them reaches the plugin with a failing read and records another status |
| ProvisioningStatus.DoneIsLost | cloudbaseinit/init.py:52-76 | a boot after which a plugin that was DONE is not |
| ProvisioningStatus.InstancesAreIsolated | cloudbaseinit/init.py:38-50 | boots under other registry keys leave an entry as it was |
| ProvisioningResume.SmoothMain | cloudbaseinit/init.py:105-123 | a stage whose plugins finish runs a prefix of the pending plugins, leaves the rest pending, and stops early only after running one |
| ProvisioningResume.SmoothBoot | cloudbaseinit/init.py:188-222 | the same for a whole boot, which ends without a reboot only when nothing is pending |
| ProvisioningResume.DeploySettles | cloudbaseinit/init.py:52-76 | N pending plugins settle within N + 1 boots and run over them in order, each once |
| ProvisioningResume.ResumeRefinesOneRun | cloudbaseinit/init.py:105-123 | provisioning across reboots runs what one run without reboots runs |
| ProvisioningResume.NewInstancePending | cloudbaseinit/init.py:114-118 | on a new instance the pending plugins are the supported MAIN list |
| ProvisioningResume.NewInstanceDeploys | cloudbaseinit/init.py:105-123 | the boots of a new instance run exactly the supported MAIN list, in order, each once, within one boot more than its length |
| ProvisioningResume.SettlesIff | cloudbaseinit/init.py:105-123 | boots that agree on the behaviour of plugins with distinct names settle iff reboots are off or no plugin that is not DONE asks for a reboot and to run again, and then after one boot more than there are plugins that ask for a reboot and are done |
| ProvisioningResume.EndlessReboots | cloudbaseinit/init.py:114-121 | among plugins with distinct names, one that insists on a reboot and on running again keeps the instance rebooting for any number of boots, and no plugin behind it ever runs |
| PythonDivision.RoundIsNearest | cloudbaseinit/utils/windows/disk.py:265 | the modelled rounding is to the nearest integer |
| PythonDivision.ShiftReaches | cloudbaseinit/utils/windows/disk.py:265 | the scaled quotient that is rounded has exactly 53 bits |
| PythonDivision.QuotientExactIff | cloudbaseinit/utils/windows/disk.py:265 | for all numbers the truncated rounded quotient is the integer quotient iff the remainder does not round up, or from 2^53 on the quotient is a multiple of the unit in the last place |
| PythonDivision.QuotientExactBelow53Bits | cloudbaseinit/utils/windows/disk.py:260-280 | it always is for numerators below 2^53 |
| PythonDivision.QuotientInexact | cloudbaseinit/utils/windows/disk.py:265 | 2^54 - 1 over a 512-byte sector is off by one |
| DiskImage.Device.Seek | cloudbaseinit/utils/windows/disk.py:260-267 | the pointer goes where the rounded quotient says, which below 2^53 is the start of the sector that holds the offset |
| DiskImage.Device.Read | cloudbaseinit/utils/windows/disk.py:269-280 | whole sectors are read, which fails iff one of them cannot be, and cut; below 2^53 that yields exactly the bytes asked for, as far as the device goes |
| DiskImage.ReadAt | cloudbaseinit/metadata/services/osconfigdrive/windows.py:80-82 | seek and then read is a plain slice of the device, for every sector size, and fails iff one of its bytes is in a sector that cannot be read |
| DiskImage.GetIsoFileSize | cloudbaseinit/metadata/services/osconfigdrive/windows.py:73-94 | the branches and errors of the size lookup in terms of plain slices |
| DiskImage.IsoFileSizeMeaning | cloudbaseinit/metadata/services/osconfigdrive/windows.py:73-94 | on any medium a size is given iff it is fixed, large enough, carries a readable CD001 at 0x8001 and has its two words in readable sectors; it is the product, below 2^32, of the two little-endian words |
| DiskImage.WriteIsoFile | cloudbaseinit/metadata/services/osconfigdrive/windows.py:96-106 | the copy loop writes exactly the image for every sector size, fails iff one of its bytes is in a sector that cannot be read, and then leaves the chunks before that byte's |
| DiskImage.CopyImage | cloudbaseinit/metadata/services/osconfigdrive/windows.py:133-140 | a device that opens and holds a readable image, and no other, comes to bsdtar, with that image |
| DiskImage.ImageMeaning | cloudbaseinit/metadata/services/osconfigdrive/windows.py:133-140 | the image of a device: there iff the device opens, a size other than zero is given and every byte of it that the device holds can be read |
| DiskImage.ExtractIsoFromDevices | cloudbaseinit/metadata/services/osconfigdrive/windows.py:127-150 | the loop over devices equals its specification on their images, and the output file is gone at the end |
| DiskImage.ExtractedIff | cloudbaseinit/metadata/services/osconfigdrive/windows.py:133-150 | an image is extracted iff some device holds a readable one that bsdtar accepts |
| DiskImage.ImagesAreExact | cloudbaseinit/metadata/services/osconfigdrive/windows.py:127-150 | whatever failed before, bsdtar sees the whole image of one device and nothing else, each device at most once and in order |
| DiskImage.HandedOver | cloudbaseinit/metadata/services/osconfigdrive/windows.py:133-150 | exactly the images before the first that bsdtar accepts, and that one, are handed to it |
| VolumeExtension.PassDisk | cloudbaseinit/utils/windows/storage/vds_storage_manager.py:120-136 | the single pass, which grows a pair through an alias, computes every extent of the volume with the run of free extents after it |
| VolumeExtension.GetVolumeExtentsToResize | cloudbaseinit/utils/windows/storage/vds_storage_manager.py:109-141 | over all disks, in order, and only the positive ones |
| VolumeExtension.FreeRunIsMaximal | cloudbaseinit/utils/windows/storage/vds_storage_manager.py:131-136 | the claimed size is the sum of a maximal run of free extents |
| VolumeExtension.StorageManager.Extend | cloudbaseinit/utils/windows/storage/vds_storage_manager.py:75-107 | one volume on the current layout, with its swallowed and its raised error |
| VolumeExtension.StorageManager.ExtendAll | cloudbaseinit/utils/windows/storage/vds_storage_manager.py:53-68 | the loop over the volumes, with the filter by index |
| VolumeExtension.ClaimsFrame | cloudbaseinit/utils/windows/storage/vds_storage_manager.py:109-141 | extending one volume does not change what another claims |
| VolumeExtension.AbsorbAllConserves | cloudbaseinit/utils/windows/storage/vds_storage_manager.py:75-93 | the free space lost to a volume is what it claimed |
| VolumeExtension.ExtensionConserves | cloudbaseinit/utils/windows/storage/vds_storage_manager.py:53-107 | over any run, with any failing jobs, free space plus grants is constant |
| VolumeExtension.GrantsAsOnSnapshot | cloudbaseinit/utils/windows/storage/vds_storage_manager.py:53-107 | volumes extended one after the other get what they claim on the layout before any was |
| VolumeExtension.SnapshotClaimsFit | cloudbaseinit/utils/windows/storage/vds_storage_manager.py:75-93 | the claims of different volumes on one layout together fit its free space |
| VolumeExtension.FreeRunIsRun | cloudbaseinit/utils/windows/storage/vds_storage_manager.py:131-136 | the size claimed for an extent is that of the free extents in the run after it, and of no others |
| VolumeExtension.ClaimOf | cloudbaseinit/utils/windows/storage/vds_storage_manager.py:120-136 | every extent of the volume has its claim, in order, with the size of the run of free extents right after it |
| VolumeExtension.AbsorbTakesRuns | cloudbaseinit/utils/windows/storage/vds_storage_manager.py:75-93 | extending a volume takes exactly the extents in its runs |
| VolumeExtension.RunsAreDisjoint | cloudbaseinit/utils/windows/storage/vds_storage_manager.py:109-141 | no extent is in the runs of two volumes, and only free ones are in any |
| ExtensionOutcome.ClaimsIffRoom | cloudbaseinit/utils/windows/storage/vds_storage_manager.py:138-141 | there is something to claim iff some free extent with a size is in a run of the volume |
| ExtensionOutcome.Outcome | cloudbaseinit/utils/windows/storage/vds_storage_manager.py:53-107 | granted are exactly the volumes whose index is asked for, that have room and whose job extends them, in order, up to the first one with room whose job fails; there is an error iff there is such a one; the final layout has exactly the runs of the granted volumes taken |
| PartHandlers.PluginReturnValue | cloudbaseinit/plugins/common/execcmd.py:85-99 | 1001 and 1003 ask for a reboot, 1002 and 1003 for another execution, nothing else does either |
| PartHandlers.UserDataPlugin.AddPartHandlers | cloudbaseinit/plugins/common/userdata.py:164-180 | types without a plugin are registered and the begin is told iff there is one |
| PartHandlers.UserDataPlugin.ProcessOnePart | cloudbaseinit/plugins/common/userdata.py:128-162 | who is called for a part, and its status and reboot request |
| PartHandlers.UserDataPlugin.EndAll | cloudbaseinit/plugins/common/userdata.py:119-121 | one end call for each registered function in some order, cut short by one that raises |
| PartHandlers.UserDataPlugin.ProcessUserData | cloudbaseinit/plugins/common/userdata.py:104-123 | the walk over the parts, its stop on a reboot, and the ends after it |
| PartHandlers.WalkKeepsInv | cloudbaseinit/plugins/common/userdata.py:104-188 | registered and built-in types stay disjoint, begins come before calls, and no end comes during the walk |
| PartHandlers.OrderedMeaning | cloudbaseinit/plugins/common/userdata.py:182-188 | in such a trace every handler call has an earlier begin of the same function |
| PartHandlers.RebootStops | cloudbaseinit/plugins/common/userdata.py:112-117 | after the part that asked for a reboot no part matters |
| PartHandlers.WalkRebootsIff | cloudbaseinit/plugins/common/userdata.py:112-117 | the walk stops early iff some part for a built-in plugin returns 1001 or 1003 |
| PartHandlers.DocumentTrace | cloudbaseinit/plugins/common/userdata.py:104-188 | the trace of a document, part by part up to the last that is processed: the call of the function last brought for the part's type, failing that of the built-in plugin, and the begin of a function that the part brings |
| PartHandlers.StatusIff | cloudbaseinit/plugins/common/userdata.py:109-123 | the status of a document asks for another execution iff the last part that is processed does |
| PartHandlers.RequestForgotten | cloudbaseinit/plugins/common/userdata.py:109-123 | a concrete document whose first part asks for another execution and whose status is DONE |
| PartHandlers.RegisteredIff | cloudbaseinit/plugins/common/userdata.py:164-180 | a function is registered at the end iff one of its parts is the last to bring some type that no plugin manages |
| PartHandlers.Protocol | cloudbaseinit/plugins/common/userdata.py:104-123 | in a document without reboot requests and raising end calls a function gets one end iff one of its parts is the last to bring some type, after all parts and after its begin |
| PartHandlers.ReplacedHandlerNeverEnds | cloudbaseinit/plugins/common/userdata.py:164-180 | a concrete document with a function that is told of the begin and in no completed trace of the end |
| Dhcp.ParseDhcpReply | cloudbaseinit/utils/dhcp.py:72-96 | header checks and option loop equal the recursive parser, with the errors of short data |
| Dhcp.ReplyIff | cloudbaseinit/utils/dhcp.py:72-96 | for all data: an error when empty or a reply of less than eight bytes; rejected iff it is no reply, has another id in bytes 4 to 7 or no cookie at byte 236; otherwise what its options say |
| Dhcp.OptionsRoundTrip | cloudbaseinit/utils/dhcp.py:85-96 | encoded options before an End parse to the last-wins map |
| Dhcp.ReplyRoundTrip | cloudbaseinit/utils/dhcp.py:72-96 | any reply with matching id and cookie, encoded options and End parses to the last-wins map of the options |
| Dhcp.LastWinsMeaning | cloudbaseinit/utils/dhcp.py:93 | the map holds the last value of every code and nothing else |
| Dhcp.ReadIsExact | cloudbaseinit/utils/dhcp.py:85-96 | every option area is a list of encoded options and a tail that is empty, an End, cut short or a lone code |
| Dhcp.ParsedAsRead | cloudbaseinit/utils/dhcp.py:85-96 | the parser yields exactly these options, accepts an option cut short, and fails iff a lone code is left |
| Dhcp.PadsAreMisread | cloudbaseinit/utils/dhcp.py:89-94 | standard items are read as the standard means them iff there is no Pad among them |
| Dhcp.GetDhcpRequestData | cloudbaseinit/utils/dhcp.py:35-69 | the bytes of the request for every MAC text, and an error iff that is not hexadecimal or a value does not fit its field |
| Dhcp.RequestLayout | cloudbaseinit/utils/dhcp.py:39-54 | the request byte by byte: hardware type, id with the most significant byte first, zeros, MAC, cookie and End option |
| Dhcp.RequestRoundTrip | cloudbaseinit/utils/dhcp.py:35-69 | for a six-byte MAC the cookie is at byte 236, and as a reply the request parses to exactly its message type, vendor class, client id and parameter list |
| Dhcp.CookieInPlaceIff | cloudbaseinit/utils/dhcp.py:39-54 | the cookie of a request is where the parser looks for it iff the MAC has six bytes, or has at least 212 and brings a cookie there itself |
| Retry.Inner | cloudbaseinit/utils/retry_decorator.py:40-85 | the endless loop, as far as the function's behaviour is given, equals the recursive run |
| Retry.CallsAreBounded | cloudbaseinit/utils/retry_decorator.py:45-63 | at most one call more than the retries, whatever the function and the clock do |
| Retry.GivesUpIff | cloudbaseinit/utils/retry_decorator.py:52-63 | a function that always fails without a timeout: the error comes out iff the count is a number that is not negative, after one call more than that |
| Retry.RecoversIff | cloudbaseinit/utils/retry_decorator.py:45-63 | a function that recovers after some failures succeeds iff the retries last |
| Retry.EndsWithFirst | cloudbaseinit/utils/retry_decorator.py:40-63 | with or without a timeout the call ends with the first attempt that returns, raises another error, or fails with no retry or no time left, and how |
| Retry.SleepSchedule | cloudbaseinit/utils/retry_decorator.py:69-70 | without a timeout the k-th sleep is k increments up to the maximum |
| Retry.SleepIs | cloudbaseinit/utils/retry_decorator.py:69-84 | with or without a timeout every sleep is the one before and an increment, up to the maximum and the time that is left |
| Retry.TimesIsProduct | cloudbaseinit/utils/retry_decorator.py:69-70 | k increments are the product of k and the increment |
| Retry.SleepsWithinTimeout | cloudbaseinit/utils/retry_decorator.py:50-84 | with a timeout, and a clock that shows at least the time slept, the sleeps together never exceed it |
| Teams.RetriedCall | cloudbaseinit/utils/retry_decorator.py:40-85 | a call after f faults comes through iff it is possible and the retries outlast f, with the number of calls |
| Teams.RetriedCallRefines | cloudbaseinit/utils/retry_decorator.py:40-85 | that is the decorator's run on such a function |
| Teams.NetLbfoTeamManager.DeleteTeam | cloudbaseinit/utils/windows/netlbfo.py:201-208 | the team is gone iff it existed and the retries outlasted the faults |
| Teams.NetLbfoTeamManager.CompleteTeam | cloudbaseinit/utils/windows/netlbfo.py:167-176 | members, VLAN and the wait for the NIC, up to the first failure |
| Teams.NetLbfoTeamManager.TryCreateTeam | cloudbaseinit/utils/windows/netlbfo.py:136-179 | one attempt: checks, creation, completion, and rollback on failure |
| Teams.NetLbfoTeamManager.CreateTeam | cloudbaseinit/utils/windows/netlbfo.py:135-179 | the six attempts |
| Teams.AttemptIff | cloudbaseinit/utils/windows/netlbfo.py:136-179 | one attempt succeeds iff the request is valid and every retry outlasts its faults, and leaves a team behind iff it was created, not completed, and the delete gave up |
| Teams.SettingsMeaning | cloudbaseinit/utils/windows/netlbfo.py:141-162 | which requests can be met, and the mode, algorithm, timer and NIC name of the team, name by name |
| Teams.AttemptsMade | cloudbaseinit/utils/windows/netlbfo.py:135-179 | attempts are made up to the first that succeeds, and otherwise all |
| Teams.AllOrNothing | cloudbaseinit/utils/windows/netlbfo.py:135-179 | creation returns iff some attempt succeeds before any leaves a team behind, and the team is then the one asked for; on error it exists iff some attempt left it; other teams are untouched |
| Teams.NothingOnError | cloudbaseinit/utils/windows/netlbfo.py:173-179 | when the retries outlast the faults of every delete an error leaves the teams as they were |
| Teams.TeamLeftBehind | cloudbaseinit/utils/windows/netlbfo.py:173-179 | concrete faults with which an error leaves the team behind |
| Teams.EveryMemberOnce | cloudbaseinit/utils/windows/netlbfo.py:168-170 | with distinct members the team holds each of them exactly once |
| Teams.NoSecondTeam | cloudbaseinit/utils/windows/netlbfo.py:135-179 | while a team of that name exists every attempt fails and changes nothing |
| Teams.CreationsAreBounded | cloudbaseinit/utils/windows/netlbfo.py:107-179 | at most six attempts and four creations for each |
| CloudStackPassword.SetUserPasswordPlugin.FetchPassword | cloudbaseinit/metadata/services/cloudstack.py:155-207 | the request loop with its retries, breaks and errors |
| CloudStackPassword.SetUserPasswordPlugin.AcknowledgePassword | cloudbaseinit/metadata/services/cloudstack.py:209-238 | the acknowledgement loop |
| CloudStackPassword.SetUserPasswordPlugin.Execute | cloudbaseinit/plugins/common/setuserpassword.py:65-134 | one boot of the plugin: asking, fetching, acknowledging, setting |
| CloudStackPassword.RequestsAreBounded | cloudbaseinit/metadata/services/cloudstack.py:173-238 | at most three requests for each of the configured retries in a boot, whatever the server does |
| CloudStackPassword.RequestsToGet | cloudbaseinit/metadata/services/cloudstack.py:173-207 | the requests for a password go on up to the first that is neither refused nor answered with nothing |
| CloudStackPassword.RequestsToDelete | cloudbaseinit/metadata/services/cloudstack.py:219-238 | the acknowledgements go on up to the first that is neither refused nor unrecognized |
| CloudStackPassword.UsableMeaning | cloudbaseinit/metadata/services/cloudstack.py:185-203 | an answer carries a password iff what is left without white space at its ends is neither empty nor one of the two words of the protocol |
| CloudStackPassword.BootShape | cloudbaseinit/plugins/common/setuserpassword.py:76-88 | in every boot, with any faults, a password is acknowledged only right after it was fetched, an injected one is the one fetched, nothing is applied unless one is pending, and the server forgets it iff it was acknowledged |
| CloudStackPassword.AnsweringBoot | cloudbaseinit/metadata/services/cloudstack.py:240-261 | with an answering server a pending password is acknowledged iff injection is on and applied iff it can be set; without one nothing changes |
| CloudStackPassword.PendingBoot | cloudbaseinit/plugins/common/setuserpassword.py:76-88 | which password a boot sets while one is pending, and whether the server learns of the acknowledgement, for every fate of its requests |
| CloudStackPassword.BootsHandOver | cloudbaseinit/plugins/common/setuserpassword.py:106-134 | over any boots and any fates of the requests exactly these passwords are set, in order |
| CloudStackPassword.PendingUntilAcknowledged | cloudbaseinit/metadata/services/cloudstack.py:209-238 | a pending password is handed over at every boot that can up to the first that acknowledges it, and at none after it |
| CloudStackPassword.SetTwice | cloudbaseinit/metadata/services/cloudstack.py:209-238 | a refused acknowledgement: the password is set at both boots |
| CloudStackPassword.BootsDeliver | cloudbaseinit/plugins/common/setuserpassword.py:106-134 | over any boots with an answering server the user gets exactly the passwords pending at boots of an existing user that can be changed, each once, in order |
| CloudStackPassword.AllIssuedDelivered | cloudbaseinit/metadata/services/cloudstack.py:155-207 | with such a user at every boot these are all issued passwords but blank and reserved ones |
| MetadataCache.MetadataService.ExecWithRetry | cloudbaseinit/metadata/services/base.py:57-69 | the number of reads and the outcome of the retry loop |
| MetadataCache.MetadataService.GetCacheData | cloudbaseinit/metadata/services/base.py:71-82 | the answer, the new cache and the number of reads |
| MetadataCache.LookupAgrees | cloudbaseinit/metadata/services/base.py:71-82 | a lookup keeps the cache equal to the backend, fetches no key twice, and changes nothing when it fails |
| MetadataCache.LookupsAgree | cloudbaseinit/metadata/services/base.py:57-82 | over any lookups every answer but an error equals an uncached fetch and decode, an error takes all retries, and not-found is never retried |
| MetadataCache.FetchedOnce | cloudbaseinit/metadata/services/base.py:71-82 | of two lookups of a key, with any between them, the second reads nothing and answers as the first, unless that found nothing |
| MetadataCache.ExistingIsFound | cloudbaseinit/metadata/services/base.py:57-82 | a lookup within the retries finds the key iff it exists |
| MetadataCache.LoadRefreshes | cloudbaseinit/metadata/services/base.py:50-82 | after a load the answers are those of the metadata as they are then; without one a key already answered keeps its old answer |
| MetadataCache.AnswersAreStable | cloudbaseinit/metadata/services/base.py:74-76 | a cached key is answered without reads and always the same |
| PageFiles.RoundTripIff | cloudbaseinit/osutils/windows.py:1756-1768 | a printed page file reads back as itself iff its path has no space, for all sizes |
| PageFiles.SettingRoundTripIff | cloudbaseinit/osutils/windows.py:1750-1775 | a whole setting does iff no path has one |
| PageFiles.SplitMeaning | cloudbaseinit/osutils/windows.py:1758 | splitting a value loses nothing and leaves no space in a word |
| PageFiles.ReadMeaning | cloudbaseinit/osutils/windows.py:1750-1763 | a setting is read value by value, with zero for missing sizes, and fails iff a second or third word is not a number |
| PageFiles.ExecutionMeaning | cloudbaseinit/plugins/windows/pagefiles.py:54-76 | an execution fails iff there are volumes and the setting is missing or cannot be read; what it writes is one value for each volume, of its page file and two zeros |
| PageFiles.PageFilesPlugin.GetPageFiles | cloudbaseinit/osutils/windows.py:1750-1763 | the reading loop, with its errors |
| PageFiles.PageFilesPlugin.SetPageFiles | cloudbaseinit/osutils/windows.py:1765-1775 | the writing loop |
| PageFiles.PageFilesPlugin.Execute | cloudbaseinit/plugins/windows/pagefiles.py:54-76 | the setting is written, and a reboot asked for, when it is not the wanted one |
| PageFiles.UnreadableMeaning | cloudbaseinit/osutils/windows.py:1756-1768 | what is written for a volume cannot be read back iff the second or third word of its path is not a number |
| PageFiles.ConvergesIff | cloudbaseinit/plugins/windows/pagefiles.py:54-76 | from any readable setting a second execution changes nothing and raises nothing iff no volume path has a space |
| PageFiles.LaterExecutions | cloudbaseinit/plugins/windows/pagefiles.py:54-76 | every execution after the first raises iff such a word is not a number, asks for a reboot iff that is not so and a path has a space, and leaves the setting as it is |
| PageFiles.EndlessExecutions | cloudbaseinit/plugins/windows/pagefiles.py:54-76 | a volume path with which every later execution asks for a reboot, and one with which every one fails |
| DebianInterfaces.Parser.TakeLine | cloudbaseinit/utils/debiface.py:80-88 | one kept line: a block is handed over and both lists cleared in place iff the line opens an interface |
| DebianInterfaces.Parser.ReadLines | cloudbaseinit/utils/debiface.py:119-127 | the fields of either half: for a second one they go through the map to version 6 fields, and others are dropped |
| DebianInterfaces.Parser.Parse | cloudbaseinit/utils/debiface.py:109-130 | the yielded pairs are the blocks with empty second halves, and the NICs are those of the blocks |
| DebianInterfaces.ParseConservesLines | cloudbaseinit/utils/debiface.py:72-90 | the first halves together are exactly the stripped lines that are neither blank nor comments, and an interface line is only ever first |
| DebianInterfaces.KeptMeaning | cloudbaseinit/utils/debiface.py:76-79 | a line is kept, stripped and in its place, iff its first character that is no white space exists and is not a comment sign |
| DebianInterfaces.LaterBlocksOpen | cloudbaseinit/utils/debiface.py:80-87 | every block but the first opens an interface |
| DebianInterfaces.LastMatchDecides | cloudbaseinit/utils/debiface.py:117-127 | every field of a NIC comes from the last match in its own block |
| DebianInterfaces.FieldOfNic | cloudbaseinit/utils/debiface.py:117-127 | every field of a NIC has the value of the last match in the lines of its own block, and none where there is no match or the text is None |
| DebianInterfaces.NicOfBlock | cloudbaseinit/utils/debiface.py:100-106 | every block with some field makes a NIC, in order, and no other does |
| NetworkModel.ParseDocumentV1 | cloudbaseinit/metadata/services/nocloudservice.py:238-282 | the accumulating loop over version 1 items |
| NetworkModel.ParseDictionaryV2 | cloudbaseinit/metadata/services/nocloudservice.py:512-533 | the accumulating loop over one version 2 dictionary, with the errors on unsupported bonds and null values |
| NetworkModel.ConvertNicList | cloudbaseinit/metadata/services/nocloudservice.py:561-655 | the conversion loop over version 1 NICs |
| NetworkModel.ConvertedNameServers | cloudbaseinit/metadata/services/nocloudservice.py:582-653 | no network of converted NICs carries plain addresses of name servers |
| NetworkContents.V1Contents | cloudbaseinit/metadata/services/nocloudservice.py:50-282 | a version 1 document: an error iff some item has an unsupported bond or a route or address that does not parse; otherwise, item by item, the link of every named item, the networks of its static subnets with address, name servers, routes and default route, and the services |
| NetworkContents.V2Contents | cloudbaseinit/metadata/services/nocloudservice.py:300-533 | a version 2 document: an error iff some entry has an unsupported bond or a null; otherwise, for ethernets, bonds and vlans in that order, the link under its set name, a network with all routes for every address, and the service of every entry |
| NetworkContents.ConvertedContents | cloudbaseinit/metadata/services/nocloudservice.py:551-655 | converted NICs: an error iff some netmask does not fit its address; otherwise, NIC by NIC, the link, the networks of both addresses with name servers and default route of their family, and the services |
| NetworkModel.V1Closed | cloudbaseinit/metadata/services/nocloudservice.py:50-109 | in every accepted version 1 document each network is on a produced link |
| NetworkModel.V2Closed | cloudbaseinit/metadata/services/nocloudservice.py:300-381 | the same for version 2 |
| NetworkModel.ConvertedClosed | cloudbaseinit/metadata/services/nocloudservice.py:551-655 | the same for converted NICs |
| NetworkModel.GetDefaultIpAddresses | cloudbaseinit/utils/network.py:110-140 | the first usable address of each family with a default route, and an error iff some address does not parse |
| NetworkModel.GetHostInfo | cloudbaseinit/utils/network.py:143-239 | the three dictionaries and the default addresses; when every network is on a link, there is an error iff some address does not parse, and the keys are exactly the addresses on links that are not local |
| NetworkModel.MacByLinkMeaning | cloudbaseinit/utils/network.py:184-186 | the MAC table knows exactly the names of links |
| HostInformation.MacByLinkValue | cloudbaseinit/utils/network.py:184-186 | the MAC of a name is that of the last link with it |
| NetworkModel.LookupNeverMisses | cloudbaseinit/utils/network.py:188-196 | when every network is on a link and every address parses the loop never fails |
| NetworkModel.KeysAreAddresses | cloudbaseinit/utils/network.py:188-237 | the keys by address are exactly the addresses of their family on links whose MAC is not all zero |
| NetworkModel.AcceptedHostInfo | cloudbaseinit/utils/network.py:143-239 | for every accepted version 1 or 2 document and every converted NIC list whose addresses parse the host information is there, with exactly these keys |
| HostInformation.AddressesAreExact | cloudbaseinit/utils/network.py:188-237 | every address has the MAC, the netmask (in version 4 only) and the broadcast of the last network with it, and there are no others |
| HostInformation.MacsAreExact | cloudbaseinit/utils/network.py:188-222 | the MACs are exactly the proper ones of links with a network, and each has for either family the address, netmask and broadcast of the last such network |
| HostInformation.FirstDefaultIs | cloudbaseinit/utils/network.py:110-140 | the default address of a family is that of the first network with a usable address and a default route of the family |
| Netmask.TruncatedMask | cloudbaseinit/utils/network.py:93-99 | the mask is 2^32 - 2^(32 - p/4) for every prefix below 132, an error for every one from there on, and 0 for negative ones |
| Netmask.BroadcastMeaning | cloudbaseinit/metadata/services/opennebulaservice.py:118-125 | for any address and mask the broadcast fits 32 bits, keeps the network bits, sets every host bit, and is the sum of the two parts |
| Netmask.ContiguousBroadcast | cloudbaseinit/metadata/services/opennebulaservice.py:118-125 | under a contiguous mask it is the last address of the block |

## Left out

- Resetting the service password, waiting for the boot, the version check and the respawn in `configure_host`: calls without a state of their own here.
- Loading plugin and service classes, configuration options and logging; the platform and version test of a plugin is a flag.
- A seek that the operating system refuses: the code compares a signed result with an unsigned constant and does not notice, and the model always moves the pointer.
- Reads that return less than asked before the end of a device.
- The other config drive sources (CD-ROM, VFAT, mounted partitions) and bsdtar itself, which is a predicate on images.
- COM enumeration and memory in the VDS code; extents taken by a volume stay separate extents of that volume.
- Part-handler plugins that return several functions at once: `PartHandlerPlugin` maps every type of a module to its one function.
- User data that is not multipart, MIME parsing and the cloud-config plugins.
- DHCP sockets, time-outs and the hexadecimal text of the MAC address.
- The documented None for the exceptions of the retry decorator, which the code would not survive, and negative sleeps.
- WMI sessions and the adapter lookup of the team manager: the outcome of the lookup is an input, and a call fails only before it takes effect.
- `first_logon_behaviour` and posting the password to the metadata service, which CloudStack does not support.
- The address of the CloudStack server and the search for it.
- Digits and white space beyond ASCII in the page file setting, and the lookups that produce the list of volumes.
- Numbers beyond the range of a double or of memory, on which a division or a text of that length raises.
- White space beyond ASCII when lines and answers are stripped.
- The regular expressions of the Debian parser, upper-casing of MAC addresses and splitting of name servers: a function from lines to matches and one from texts to values.
- YAML, JSON and the address library: documents arrive parsed and their items hold values of the expected types or null, addresses through a table of functions; MTU, VLAN and bond members are not carried along.
- Writing the network configuration to Windows.
- Case-insensitive registry names.
