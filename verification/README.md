# Telephony core service: a verified model

A Dafny model of the parts of the telephony core service framework whose correctness does not show
from reading one function: the client side of its inter-process protocols, the codecs that carry
state between processes, and a few loops and buffers with an exact meaning.

The files, one module each:

- `ProxyCache.dfy`: the cached service proxy of three clients, looked up, dropped on death
  notifications and by the destructor, as a state machine over its steps, and the client object.
- `LoadHandshake.dfy`: the load-and-wait handshake of the eSIM client.
- `Rendezvous.dfy`: the raw-callback calls, in which a client thread waits for a delivery that
  another thread writes into shared cells; `LockReply.dfy`: the two SIM lock answers.
- `SignalLevel.dfy`, `SignalBar.dfy`: the level scan, and the scans running beside
  `InitSignalBar`.
- `Options.dfy`: a value that may be missing. `Wire.dfy`: the parcel, a queue of untyped 32-bit words, and the readers and writers all codecs
  use. `TaggedList.dfy`, `Signals.dfy`, `Cells.dfy`, `EsimProfiles.dfy`, `OperatorConfig.dfy`,
  `NrSsb.dfy`, `SearchResult.dfy`, `NetworkState.dfy`: the codecs.
- `Mnc.dfy`: the packed mobile network code. `MaskingStream.dfy`: the stream that stars out fields.

## How to read it

A protocol is a state type, an `Enabled` predicate and a `Next` function, one event per step that
another thread can fall between. A run is a sequence of states and the events between them; the
theorems quantify over all runs and all positions in them.

A writer `Put(x, t)` is what precedes the words `t` once `x` has been written. A reader works on a
`Cursor`: the words left and whether every checked read so far succeeded. `Next...` readers stop
having an effect after the first failure, as a chain of early returns does; `Lax...` readers are
the calls whose failure the source does not look at. Round trips have the form "reading
`Put(x, []) + t` gives `x` and leaves `t`", for all `t`. Loops over a parcel are methods proved
equal to these functions.

## What is not as one might expect

Each of these is stated as an if-and-only-if, or as a run that shows the failure beside the
condition that excludes it.

- The assignment operators of the signal classes load the shared bar count and store it again
  without taking the lock. So the lock keeps even the WCDMA scan consistent exactly when signal
  objects are not assigned or four bars are never asked for (`SignalBar.LockSufficesIff`); a run in
  which an assignment straddles a change of setting is `SignalBar.StaleCopy`.
- With either setting in force, scans of all kinds are consistent exactly as long as nobody asks for
  the other one and no such assignment is under way (`SignalBar.UnlockedScansConsistentIff`).
  Otherwise a scan can read past its table (`SignalBar.ScanPastTheEnd`) or, exactly for LTE and NR,
  return the level of neither setting (`SignalBar.TornLevel`, `SignalBar.TornIff`).
- Making a signal object resets the bar setting to five, so under four bars a computed level
  survives a transfer only if it fills no bar (`Signals.LevelAfterTransfer`).
- A raw-callback call is safe in every interleaving exactly when it accepts at most one delivery
  (`Rendezvous.SafeIffAtMostOne`); a second one can tear an answer (`Rendezvous.TwoDeliveriesTear`).
  When the two SIM lock readers differ is stated by `LockReply.DeliveriesAgree`.
- A success callback wakes the thread that waits for its call exactly when that call is the newest
  (`LoadHandshake.NotificationReachesItsCall`); a run in which a late success wakes a thread that
  waits for another call is `LoadHandshake.LateSuccessWakesAnother`.
- The signal and cell list readers refuse a list of exactly 1000 records, the eSIM and
  configuration readers accept a list of exactly their limit.
- An SSB record with fewer than eight serving entries is written without a length and never read
  back (`NrSsb.SsbRoundTrip`).
- A search result whose stored size is not the length of its list never arrives as it was sent
  (`SearchResult.ResultRoundTrip`); a negative size with an empty list does.
- After a refused search result both handlers take the first words of its list for the error code,
  or the finish flag and the slot (`SearchResult.RefusedMisreads`).
- The masking stream seeks back from the end of the buffer, not from its put cursor; it is right
  exactly when the first field lands at the end (`MaskingStream.DesensitizeStringStream.PushAll`).

## Model

| member | source | states |
|---|---|---|
| `ProxyCache.NoLostDeath` | frameworks/native/src/core_service_client.cpp:43-105 | in every run, a cached proxy whose remote died still has that remote's own notification pending; when none is pending no dead proxy is cached |
| `ProxyCache.EvictionCause` | frameworks/native/src/core_service_client.cpp:81-105 | in every run a cached proxy changes only to none, by the destructor or by a notification for that very, dead, remote |
| `ProxyCache.OneProxyPerEpoch` | frameworks/native/src/telephony_state_registry_client.cpp:30-80 | between evictions the cached proxy is constant and is what every `GetProxy` call that ends there returns, whatever stale notifications are handled |
| `ProxyCache.RetiredForGood` | frameworks/native/src/core_service_client.cpp:60-105 | a dead remote that is neither cached nor being installed is never cached again |
| `ProxyCache.OneEpochPerRemote` | frameworks/native/src/core_service_client.cpp:43-105 | a watched remote that was cached and dropped is never cached again in the run |
| `ProxyCache.DestroyedForGood` | frameworks/native/src/core_service_client.cpp:35-41 | after the destructor no proxy is cached any more |
| `ProxyCache.LocalServiceStays` | frameworks/native/src/core_service_client.cpp:66-105 | a service in the same process is dropped by nothing but the destructor |
| `ProxyCache.Reachable` | frameworks/native/src/esim_service_client.cpp:100-146 | every reachable state keeps the pairing of cached proxy, stored recipient, registrations and pending notifications, also for the client that stores its recipient before registering it |
| `ProxyCache.NotificationIsRemoval` | frameworks/native/src/esim_service_client.cpp:118-146 | the notification and destructor steps change proxy and registrations as `RemoveDeathRecipient` does |
| `ProxyCache.InstallingCaches` | frameworks/native/src/core_service_client.cpp:66-73 | in every run a lookup that gets to the end caches and returns the remote it found if that can be cast to the service, and nothing otherwise |
| `ProxyCache.DestroyedIsSilent` | frameworks/native/src/core_service_client.cpp:35-41 | after the destructor of a core service client its stored recipient no longer calls it |
| `ProxyCache.DeathAndReconnect` | frameworks/native/src/core_service_client.cpp:43-105 | a run in which the service dies, its notification drops it, another remote is connected, and a repeated notification of the first leaves the second alone |
| `ProxyCache.ServiceClient.GetProxy` | frameworks/native/src/core_service_client.cpp:43-74 | the cached proxy, or else the remote found if it could be watched where that is needed and cast, or else nothing; what is registered and stored for it; and all of it where the steps of the machine lead |
| `ProxyCache.ServiceClient.RemoveDeathRecipient` | frameworks/native/src/core_service_client.cpp:81-105 | the proxy is kept if the notification names no remote or another one, else dropped and the stored recipient unregistered from it; nothing else changes |
| `LoadHandshake.SoleWaiter` | frameworks/native/src/esim_service_client.cpp:65-91 | in every run at most one thread waits on the condition variable, and it holds the proxy lock |
| `LoadHandshake.NotificationReachesItsCall` | frameworks/native/src/esim_service_client.cpp:33-40 | the one waiter that a success can wake waits for that call if and only if it is the newest call; otherwise the call is abandoned and the waiter's own callback object is unchanged |
| `LoadHandshake.LateSuccessWakesAnother` | frameworks/native/src/esim_service_client.cpp:65-98 | a run in which the success of an abandoned call is notified while another thread waits for a later one |
| `LoadHandshake.CellsAreGiven` | frameworks/native/src/esim_service_client.cpp:33-40 | a callback object holds a remote only if, after it was made, a success callback for it gave it that remote |
| `LoadHandshake.InstalledIsOwnRemote` | frameworks/native/src/esim_service_client.cpp:65-116 | a new proxy is installed only by the lock holder and is the remote given to that call's own callback object after the call began |
| `LoadHandshake.ConnectingInstalls` | frameworks/native/src/esim_service_client.cpp:100-115 | a call that gets to connecting caches a proxy if and only if it could register and cast, and then the remote given to its own callback object |
| `LoadHandshake.CallsEnd` | frameworks/native/src/esim_service_client.cpp:82-115 | exactly a refused load, a wait that brought no remote and connecting end a call, and each leaves the lock free |
| `LoadHandshake.LoadSucceeds` | frameworks/native/src/esim_service_client.cpp:65-116 | a run in which the remote that is given becomes the proxy |
| `LoadHandshake.LoadFails` | frameworks/native/src/esim_service_client.cpp:42-98 | from any idle state without a proxy, a run in which the load fails and the call ends without one |
| `LoadHandshake.LoadedThenLost` | frameworks/native/src/esim_service_client.cpp:65-146 | a run in which a loaded proxy serves another thread, is dropped, and the next load fails |
| `LoadHandshake.LateSuccessIsIgnored` | frameworks/native/src/esim_service_client.cpp:33-40 | nobody takes up an abandoned call again, and a success for it never becomes the proxy |
| `Rendezvous.CallIsSafe` | frameworks/native/src/core_service_client.cpp:248-285 | for any raw-callback call, whatever its reader tests before it takes the payload: with at most one accepted delivery, success means the out parameter is what that delivery's payload gives; failed send and timeout give an error and leave it alone |
| `Rendezvous.GetImeiReturnsImei` | frameworks/native/src/core_service_client.cpp:248-285 | in every interleaving in which the one accepted delivery carries an IMEI, an answered `GetImei` returns success and that IMEI |
| `Rendezvous.FailureCode` | frameworks/native/src/core_service_client.cpp:271-280 | an unanswered call returns the code of the request that could not be sent, or the code it started with if it timed out |
| `Rendezvous.TimesOut` | frameworks/native/src/core_service_client.cpp:276-280 | a run in which a call times out with an answer on its way, which then finds the cells gone |
| `Rendezvous.LateDeliveryIsHarmless` | frameworks/native/src/core_service_client.cpp:257-285 | after the return nothing changes what the caller sees and, with any number of deliveries, once none is writing no later one writes the released cells |
| `Rendezvous.SafeIffAtMostOne` | frameworks/native/src/core_service_client.cpp:248-285 | any raw-callback call that accepts at most n deliveries ends safely in every interleaving if and only if n is at most one |
| `Rendezvous.TwoDeliveriesTear` | frameworks/native/src/core_service_client.cpp:266-284 | for any such call and any payloads, a run with exactly two accepted deliveries, a success and an error, that returns the code of the second with the payload of the first, so that no delivery is what the caller got |
| `Rendezvous.Reachable` | frameworks/native/src/raw_parcel_callback_stub.cpp:26-70 | in every interleaving with at most one accepted delivery the shared cells match how far it has got |
| `Rendezvous.ImeiCallback.Transfer` | frameworks/native/src/raw_parcel_callback_stub.cpp:26-39 | nothing changes on a wrong descriptor; otherwise the receiver is signalled, and while the call is there its cells get the code and, on success, the text; all of it where the machine's steps lead |
| `Rendezvous.ImeiArrives` | frameworks/native/src/core_service_client.cpp:257-270 | a parcel with a code and a text, whatever follows, brings the code to the cells of a call that is there, and the text if the code is success |
| `Rendezvous.ImeiArrivesLate` | frameworks/native/src/core_service_client.cpp:260-265 | a parcel that arrives after the call is gone changes no cell |
| `LockReply.OneDeliveryAgrees` | frameworks/native/src/core_service_client.cpp:1138-1170 | for every single delivered parcel, complete or cut short, `UnlockPin` and `SetLockState` give the caller the same code, result and remaining attempts |
| `LockReply.AnswerOfParcel` | frameworks/native/src/core_service_client.cpp:872-894 | for every parcel the caller gets the code, and on success the result, with the remaining attempts exactly if the result is -1 |
| `LockReply.WritesAreReaders` | frameworks/native/src/core_service_client.cpp:1148-1152 | the two writes of a delivery in the interleaving model are what each reader does to its cells |
| `LockReply.LockCallIsSafe` | frameworks/native/src/core_service_client.cpp:1127-1171 | in every interleaving with at most one accepted delivery `UnlockPin` and `SetLockState` end safely, and an answered caller of either gets what one undisturbed delivery of that parcel gives |
| `LockReply.DeliveriesAgree` | frameworks/native/src/core_service_client.cpp:862-894 | for any number of deliveries, exactly when the two calls still agree |
| `LockReply.CellsAfter` | frameworks/native/src/core_service_client.cpp:1148-1152 | after several deliveries the lock cells hold the last code and the words of the first delivery with a nonzero result; the PIN cells hold the last code, and the last words if that is success |
| `LockReply.PinCellsAfter` | frameworks/native/src/core_service_client.cpp:872-876 | whatever the last code, the PIN cells hold the words of the last delivery that reported success |
| `LockReply.PinCellsUntouched` | frameworks/native/src/core_service_client.cpp:872-876 | while no delivery reports success the PIN result words stay zero |
| `LockReply.ReadPinAnswer` | frameworks/native/src/core_service_client.cpp:872-876 | on any parcel the extra words are taken exactly when the code just read is success |
| `LockReply.ReadLockAnswer` | frameworks/native/src/core_service_client.cpp:1148-1152 | on any parcel the extra words are taken exactly when the result cell was still zero |
| `SignalLevel.ScanLevel` | frameworks/native/src/signal_information.cpp:120-139 | the descending loop computes `Level` |
| `SignalLevel.LevelIsGreatestMet` | frameworks/native/src/signal_information.cpp:120-139 | the level is the greatest index whose threshold is met, 0 if none, and within 0 and the bar count |
| `SignalLevel.LevelCountsThresholds` | frameworks/native/src/signal_information.cpp:394-413 | on an ascending table the level is the number of thresholds above the lowest that are met |
| `SignalLevel.LevelIsMonotone` | frameworks/native/src/signal_information.cpp:394-413 | a stronger reading never has a lower level |
| `SignalLevel.Table` | interfaces/innerkits/include/signal_information.h:28-39 | every table has one entry more than bars and ascends |
| `SignalLevel.SettingsDiffer` | interfaces/innerkits/include/signal_information.h:28-39 | four bars never show more than five, and the same exactly for readings that fill no bar |
| `SignalLevel.TableShape` | interfaces/innerkits/include/signal_information.h:28-39 | both settings begin and end with the same threshold, the first of five bars is one dB above the lowest, LTE and NR share their tables |
| `SignalBar.LockedScanIsConsistent` | frameworks/native/src/signal_information.cpp:555-575 | in every interleaving with `InitSignalBar`, a WCDMA scan stays in its table and ends with the level of one whole setting, in a process that does not assign signal objects or never asks for four bars |
| `SignalBar.LockSufficesIff` | frameworks/native/src/signal_information.cpp:496-575 | that holds of every run of a process if and only if it does not assign signal objects or never asks for four bars |
| `SignalBar.StaleCopy` | frameworks/native/src/signal_information.cpp:496-504 | a run in which an assignment loads the bar count before a whole `InitSignalBar` and stores it afterwards, after which a locked scan with no call near reads past its table, or returns a level that its four bars do not have |
| `SignalBar.UnlockedScansConsistentIff` | frameworks/native/src/signal_information.cpp:45-84 | for each setting: once it is in force, scans of all kinds are consistent in every interleaving if and only if no other setting is asked for and no assignment that is under way holds another bar count |
| `SignalBar.RepeatingIsHarmless` | frameworks/native/src/signal_information.cpp:45-84 | a scan of any kind begun while a setting is in force, with nothing under way that sets another, sees that setting alone as long as calls only ask for it again, even where calls and assignments overlap the scan |
| `SignalBar.UndisturbedScanIsConsistent` | frameworks/native/src/signal_information.cpp:694-711 | a scan of any kind during which no `InitSignalBar` runs gives the level of the setting in force, if there are no assignments, or none that holds another bar count in a settled state |
| `SignalBar.ScanPastTheEnd` | frameworks/native/src/signal_information.cpp:120-139 | a run from five bars in which only four are asked for and an unlocked scan indexes past the four-bar table |
| `SignalBar.TornLevel` | frameworks/native/src/signal_information.cpp:394-413 | a run from four bars in which only five are asked for and an unlocked LTE or NR scan returns a level of neither setting |
| `SignalBar.TornIff` | interfaces/innerkits/include/signal_information.h:28-39 | when five bars are asked for over four, some run ends a scan of a kind with a level of neither setting, or past its table, if and only if the kind is LTE or NR |
| `SignalBar.Reachable` | frameworks/native/src/signal_information.cpp:45-65 | in a process that does not assign signal objects, between calls of `InitSignalBar` all tables and the bar count belong to one setting |
| `SignalBar.Setting.InitSignalBar` | frameworks/native/src/signal_information.cpp:45-65 | leaves all six tables and the bar count at four bars if and only if the number is 4, and at five otherwise |
| `SignalBar.Setting.GetSignalLevel` | frameworks/native/src/signal_information.cpp:120-139 | an explicit level is returned as it is, an invalid reading has level 0, any other the greatest index whose threshold is met |
| `Wire.ListRoundTrip` | frameworks/native/src/profile_info_list_parcel.cpp:58-81 | a counted list is read back in order with its end found if and only if every element is one its reader accepts |
| `Wire.ListExact` | frameworks/native/src/profile_info_list_parcel.cpp:58-81 | what a counted loop consumed is the encoding of what it returned |
| `Wire.Parcel.ReadList` | frameworks/native/src/profile_info_list_parcel.cpp:72-80 | the reading loop that stops at the first failure, with what was read until then |
| `Wire.Parcel.WriteCounted` | frameworks/native/src/telephony_state_registry_proxy.cpp:176-182 | the writing loop appends the count and the elements in order |
| `TaggedList.FrameRoundTrip` | frameworks/native/src/core_service_proxy.cpp:338-378 | a list of tagged records comes back with the same length, order, kinds and values and nothing else consumed, if and only if it has fewer than 1000 records |
| `TaggedList.Refusals` | frameworks/native/src/core_service_proxy.cpp:338-378 | a refused size uses up the size alone, an unknown tag the tag alone, and neither yields a record |
| `TaggedList.ProcessList` | frameworks/native/src/core_service_proxy.cpp:338-378 | the dispatching loop appends exactly the listed records to the caller's list, for arbitrary words: unknown tags, cut records, negative and excessive sizes included |
| `Signals.SignalRoundTrip` | frameworks/native/src/signal_information.cpp:165-203 | the tag a signal writes selects the reader that gives it back, for all six kinds |
| `Signals.KnownTags` | frameworks/native/src/core_service_proxy.cpp:346-376 | a record is read for the tags 1 to 6 and no other |
| `Signals.ReadingIsSent` | frameworks/native/src/signal_information.cpp:601-631 | the kind is the tag a signal is sent with and the reading the second word of a WCDMA or LTE signal, the first of any other; the explicit level is the last |
| `Signals.SignalListRoundTrip` | frameworks/native/src/core_service_proxy.cpp:284-378 | a list of signals of any kinds is read back as it was if and only if it has fewer than 1000 records |
| `Signals.UpdateSignalInfo` | frameworks/native/src/telephony_state_registry_proxy.cpp:167-182 | up to two signals are framed after the slot; more are refused after the slot was written |
| `Signals.UpdateIsReadable` | frameworks/native/src/telephony_state_registry_proxy.cpp:167-182 | whatever is framed is read back: the slot, the list, and what follows |
| `Signals.LevelAfterTransfer` | frameworks/native/src/signal_information.cpp:40-65 | exactly when the level of a record is the same after marshalling and reading in the same process |
| `Cells.CellRoundTrip` | frameworks/native/src/cell_information.cpp:189-280 | the tag a cell writes selects the reader that gives back everything that is sent, for all six kinds |
| `Cells.KnownTags` | frameworks/native/src/core_service_proxy.cpp:2822-2852 | a record is read for the tags 1 to 6 and no other |
| `Cells.CellListRoundTrip` | frameworks/native/src/core_service_proxy.cpp:2814-2854 | a list of cells of any kinds comes back if and only if it has fewer than 1000 records, and each cell equals the original by its own comparison |
| `Cells.SentIsSame` | frameworks/native/src/cell_information.cpp:897-956 | what a CDMA cell does not send is what its comparison ignores |
| `Cells.ComparisonIsEncoding` | frameworks/native/src/cell_information.cpp:158-1102 | cells with equal time stamps are the same by the comparison of their kind if and only if they are sent alike; in general with the time stamps of all but NR cells cleared |
| `Cells.SameIsCompared` | frameworks/native/src/cell_information.cpp:344-351 | two cells are the same exactly if they agree in kind and every compared field |
| `Cells.SentAlike` | frameworks/native/src/cell_information.cpp:910-956 | two cells are sent alike, whatever follows, if and only if the same arrives |
| `Cells.UpdateCellInfo` | frameworks/native/src/telephony_state_registry_proxy.cpp:206-218 | one to ten cells are framed after the slot, other numbers are refused |
| `EsimProfiles.ProfileListRoundTrip` | frameworks/native/src/profile_info_list_parcel.cpp:23-116 | a written list is accepted if and only if it has at most 1000 profiles with at most 1000 rules each; then it comes back with the port index reset and what followed is left |
| `EsimProfiles.ProfileListExact` | frameworks/native/src/profile_info_list_parcel.cpp:23-81 | every accepted input is, up to where reading stops, the encoding of the value that was read |
| `EsimProfiles.ProfileListsPrefixFree` | frameworks/native/src/profile_info_list_parcel.cpp:83-116 | acceptable encodings are injective up to the port index and none is a prefix of another |
| `EsimProfiles.DownloadableListRoundTrip` | frameworks/native/src/get_downloadable_profiles_result_parcel.cpp:23-93 | the same for downloadable profiles: accepted if and only if the outer and every inner count is at most 1000, and then equal |
| `EsimProfiles.DownloadableListExact` | frameworks/native/src/get_downloadable_profiles_result_parcel.cpp:23-67 | the converse for downloadable profiles |
| `EsimProfiles.ReadProfileList` | frameworks/native/src/profile_info_list_parcel.cpp:58-81 | the two nested reading loops compute the reader function |
| `EsimProfiles.ReadProfile` | frameworks/native/src/profile_info_list_parcel.cpp:23-56 | one profile and its inner loop |
| `EsimProfiles.WriteProfileList` | frameworks/native/src/profile_info_list_parcel.cpp:83-116 | the two nested writing loops append the encoding |
| `EsimProfiles.ReadDownloadableList` | frameworks/native/src/get_downloadable_profiles_result_parcel.cpp:23-67 | the nested reading loops compute the reader function |
| `EsimProfiles.WriteDownloadableList` | frameworks/native/src/get_downloadable_profiles_result_parcel.cpp:69-93 | the writing loop appends the encoding |
| `OperatorConfig.ConfigRoundTrip` | frameworks/native/src/operator_config_types.cpp:22-366 | reading a written configuration gives all eight maps, whatever was there before and in whatever order the entries were written, if and only if none has more than 10000 entries |
| `OperatorConfig.MapRoundTrip` | frameworks/native/src/operator_config_types.cpp:51-67 | the same for one map of any value type |
| `OperatorConfig.AcceptedConfigKeeps` | frameworks/native/src/operator_config_types.cpp:204-366 | for arbitrary accepted words, each of the eight maps has exactly the keys that were read, with the first value of a repeated key in the two `emplace` maps and the last in the six others |
| `OperatorConfig.AcceptedMapKeeps` | frameworks/native/src/operator_config_types.cpp:233-366 | the same for one map of either kind and any value type |
| `OperatorConfig.FirstIsKept` | frameworks/native/src/operator_config_types.cpp:233-265 | in the two maps filled with `emplace` a repeated key keeps the value it was first read with |
| `OperatorConfig.LastIsKept` | frameworks/native/src/operator_config_types.cpp:267-366 | in the six indexed maps a repeated key keeps the value it was last read with |
| `OperatorConfig.CollectKeys` | frameworks/native/src/operator_config_types.cpp:233-366 | the keys of a map are those that were read, and no more than entries |
| `OperatorConfig.ReadMap` | frameworks/native/src/operator_config_types.cpp:233-248 | the reading loop, on arbitrary words, fills the map with the entries collected in order; a refused size leaves it empty |
| `OperatorConfig.WriteMap` | frameworks/native/src/operator_config_types.cpp:51-67 | the writing loop writes every entry of the map once |
| `OperatorConfig.Configuration.Marshalling` | frameworks/native/src/operator_config_types.cpp:22-49 | appends the eight maps in their order |
| `OperatorConfig.Configuration.ReadFromParcel` | frameworks/native/src/operator_config_types.cpp:204-231 | reads the eight maps, stopping at the first refused size and leaving the later maps alone |
| `NrSsb.SsbRoundTrip` | frameworks/native/src/nr_ssb_information.cpp:29-182 | reading a written object into a blank one gives it cut to the fixed sizes and leaves what followed if and only if it has eight serving entries or more |
| `NrSsb.TruncationIsIdempotent` | frameworks/native/src/nr_ssb_information.cpp:49-93 | cutting twice is cutting once, and a cut object is written with the same words |
| `NrSsb.AcceptedIsWritten` | frameworks/native/src/nr_ssb_information.cpp:96-182 | what was consumed of any accepted parcel is what would be written for the object read if and only if the neighbour count sent is not over four |
| `NrSsb.ReadAppends` | frameworks/native/src/nr_ssb_information.cpp:96-182 | what an object had in its lists stays in front of what is read, all else is replaced |
| `NrSsb.NothingToRead` | frameworks/native/src/nr_ssb_information.cpp:96-102 | without anything to read the object stays as it was |
| `NrSsb.SsbInformation.SetNbCellSsbList` | frameworks/native/src/nr_ssb_information.cpp:206-224 | at most four neighbours are kept, in order, and the count is their number |
| `NrSsb.SsbInformation.Marshalling` | frameworks/native/src/nr_ssb_information.cpp:29-61 | succeeds if and only if the count is not over four, and says what is written either way |
| `NrSsb.SsbInformation.MarshallingNbCellSsbId` | frameworks/native/src/nr_ssb_information.cpp:63-94 | writes the count and that many neighbours, or nothing |
| `NrSsb.SsbInformation.ReadFromParcel` | frameworks/native/src/nr_ssb_information.cpp:96-140 | on arbitrary words: the fields read so far and the entries appended so far |
| `NrSsb.SsbInformation.ReadFromParcelForNbCell` | frameworks/native/src/nr_ssb_information.cpp:142-182 | the count is clamped, a negative one reads no neighbours |
| `SearchResult.ResultRoundTrip` | frameworks/native/src/network_search_result.cpp:48-81 | a written result comes back, and its end is found, if and only if its stored size is the length of its list (or negative for an empty one) and at most 50 |
| `SearchResult.NetworksReadBack` | frameworks/native/src/network_information.cpp:75-122 | networks are read back in order |
| `SearchResult.SearchDelivers` | frameworks/native/src/i_network_search_callback_stub.cpp:92-97 | the handler is given the result that was sent if and only if it fits, and then the error code that was sent after it |
| `SearchResult.ScanDelivers` | frameworks/native/src/i_network_search_callback_stub.cpp:134-140 | the same with the finish flag and the slot |
| `SearchResult.RefusedMisreads` | frameworks/native/src/i_network_search_callback_stub.cpp:92-140 | after a refused size both handlers take the first words of the list for what was sent after it |
| `SearchResult.AbsentIsRefused` | frameworks/native/src/network_search_result.cpp:59-66 | a network that is marked as absent ends the reading |
| `SearchResult.ReadAppends` | frameworks/native/src/network_search_result.cpp:59-67 | an accepted result is appended to the networks that are there |
| `SearchResult.NothingToRead` | frameworks/native/src/network_search_result.cpp:48-53 | without anything to read the object stays as it was and the handlers hand on zeros |
| `SearchResult.SearchResult.ReadFromParcel` | frameworks/native/src/network_search_result.cpp:48-68 | the loop appends the networks read before the first failure |
| `SearchResult.SearchResult.Marshalling` | frameworks/native/src/network_search_result.cpp:70-81 | writes the stored size and the whole list |
| `SearchResult.OnGetNetworkSearchInformation` | frameworks/native/src/i_network_search_callback_stub.cpp:92-97 | the handler on arbitrary words, refused results included |
| `SearchResult.OnStartManualNetworkScanCallback` | frameworks/native/src/i_network_search_callback_stub.cpp:134-140 | the handler on arbitrary words, refused results included |
| `MaskingStream.DesensitizeStringStream.PushAll` | interfaces/innerkits/include/desensitize_string_stream.h:42-77 | for every sequence of marks and fields the buffer grows by the text of each field and its separator, marked fields starred in their second half, if and only if the first field lands at the end |
| `MaskingStream.DesensitizeStringStream.Push` | interfaces/innerkits/include/desensitize_string_stream.h:48-58 | one field, one mark used up, and exactly when the field lands behind the buffer |
| `MaskingStream.DesensitizeStringStream.Mask` | interfaces/innerkits/include/desensitize_string_stream.h:68-77 | writing, seeking back and writing over leaves the first n - n/2 characters, n/2 stars and the separator |
| `MaskingStream.HiddenHalvesDoNotShow` | interfaces/innerkits/include/desensitize_string_stream.h:28-32 | inputs that differ only in the hidden halves of marked fields give the same text |
| `MaskingStream.MaskedAlike` | interfaces/innerkits/include/desensitize_string_stream.h:68-77 | two masked fields look alike if and only if they agree in length and kept half |
| `MaskingStream.ShownCharacters` | interfaces/innerkits/include/desensitize_string_stream.h:48-77 | character by character: the field, stars from position n - n/2 on if it is marked, then the separator |
| `MaskingStream.ExpectedSnoc` | interfaces/innerkits/include/desensitize_string_stream.h:42-58 | one more field adds its own text, masked exactly if a mark came right before it, and one more mark adds nothing |
| `Mnc.PackedMnc` | frameworks/native/src/cell_information.cpp:34-47 | for every int32 above 999 the text is set if and only if it has digits and its value fits them, and then is the numeral of that value with that many digits |
| `Mnc.DecodingInvertsPacking` | frameworks/native/src/cell_information.cpp:34-47 | decoding undoes packing for one to seven digits |
| `Mnc.DistinctCodesStayDistinct` | frameworks/native/src/cell_information.cpp:34-47 | different packed codes, leading zeros included, have different texts |
| `Mnc.PlainIsPacked` | frameworks/native/src/cell_information.cpp:48-50 | a plain code up to 999 has the text of the packed code without leading zeros |
| `Mnc.PaddedReads` | frameworks/native/src/cell_information.cpp:41-44 | padding keeps the number, and the width is met exactly when the number fits |
| `Mnc.ToStringReads` | frameworks/native/src/cell_information.cpp:48-51 | plain codes are printed as numerals, negative ones with a sign |
| `Mnc.Cell.Init` | frameworks/native/src/cell_information.cpp:34-54 | sets the code, leaving it alone when bounded printing fails |
| `NetworkState.TechHistory` | frameworks/native/src/network_state.cpp:338-356 | after any run of calls and transfers, each technology and the remembered one are the last two values it was given, unknown where there were fewer |
| `NetworkState.OneCall` | frameworks/native/src/network_state.cpp:414-434 | a call that gives a technology a value moves the old one back, any other leaves both alone |
| `NetworkState.FieldsHoldLastGiven` | frameworks/native/src/network_state.cpp:319-463 | after any run of calls and transfers every other field holds what was last given to it for its domain |
| `NetworkState.NothingToRead` | frameworks/native/src/network_state.cpp:55-59 | without anything to read the object stays as it was |
| `NetworkState.StateRoundTrip` | frameworks/native/src/network_state.cpp:55-213 | every field comes back, whatever the reader held, and what followed is left |
| `NetworkState.EncodingIsFinerThanComparison` | frameworks/native/src/network_state.cpp:113-126 | the comparison is equality up to the remembered technologies; the encoding is injective and prefix-free |
| `NetworkState.TransferChangesNothing` | frameworks/native/src/network_state.cpp:128-225 | a transfer can be left out anywhere in a run without a change at its end |
| `NetworkState.State.SetNetworkType` | frameworks/native/src/network_state.cpp:338-346 | the setter takes the object where the run's step leads |
| `NetworkState.State.SetNetworkTypeV2` | frameworks/native/src/network_state.cpp:348-356 | the same for the second form |
| `NetworkState.State.SetCfgTech` | frameworks/native/src/network_state.cpp:414-418 | the same for the configured technology |
| `NetworkState.State.SetCfgTechV2` | frameworks/native/src/network_state.cpp:430-434 | the same for its second form |
| `NetworkState.State.ReadFromParcel` | frameworks/native/src/network_state.cpp:55-69 | on arbitrary words: flag, texts and numbers in turn, with the fields read before the first failure |
| `NetworkState.State.ReadParcelString` | frameworks/native/src/network_state.cpp:71-99 | the six texts, stopping at the first failure |
| `NetworkState.State.ReadParcelInt` | frameworks/native/src/network_state.cpp:101-111 | the fifteen numbers, stopping at the first failure |
| `NetworkState.PerformAll` | frameworks/native/src/network_state.cpp:319-463 | any sequence of calls made on an object, transfers included, leaves each technology and the remembered one as the last two values it was given, and every other field as it was last given |
| `NetworkState.Perform` | frameworks/native/src/network_state.cpp:319-463 | every call takes the object where the run's step leads |
| `NetworkState.Send` | frameworks/native/src/network_state.cpp:128-225 | a state written to a parcel that holds more is read into a new object whole |

## Left out

- The parcel library is not part of this model. Assumed of it: writes succeed, a failed read keeps its place, a boolean is a word other than zero, a vector is a count and its elements, a parcelable is preceded by a nonzero word when present, a text takes a length and one word per code unit.
- Conversion between UTF-8 and UTF-16 is taken as the identity on valid text, and both kinds of text are coded alike.
- Containers are taken to be shorter than 2^31, so that their size is what is sent for it.
- Runs of field-by-field reads of one record, and the fixed inner loop over a neighbour's four SSB entries, are functions of the unread words rather than statements; loops over records are methods.
- The position of `std::map` iteration is not modelled: the theorems hold for every order of the entries.
- Registration on a dead remote is assumed to fail, and the object behind a cached proxy is assumed to exist; memory allocation is assumed to succeed.
- The lifetime of a client against a death callback that is already past its validity check is not ordered by the source, and nothing is claimed for it. The state registry client has no destructor step.
- Progress is not claimed: a failed load does not notify the waiting thread, and the length of any wait is not modelled.
- An assignment of a signal object loads and stores the bar count in two steps, as written; that a compiler may drop the store is not assumed. A payload of several cells is written in one step.
- Threads see the writes of other threads in one order; weaker memory orders of the unlocked scans are not modelled.
- Interface tokens, sending of requests, logging, time stamps from the time service, `ToString` and permission checks.
- The request methods of the service proxies, the NAPI layer and the resource table: forwarding and constant tables with nothing to prove beyond one branch.
- Flat parcels of the eSIM service: easier instances of the same codec lemmas.
- EsimProfiles.ReadProfileList: says nothing about the partly filled object after a failed read, because its callers discard it.
