# Lanway: verified model

Lanway is a self-hosted VPN: a Go server keeps user accounts in a file, prints share links for
them and drives an Xray core; a Dart client turns a link into a tunnel on desktop and mobile.
This project models the parts of it whose correctness depends on several functions, several
requests or a whole history, and proves what they promise.

Check it with `dafny verify dfyconfig.toml` (Dafny 4.11).

## What is modelled

**The server under concurrency.** `Protocol` is a step machine: an unbounded set of create,
delete and poll requests with program counters, the user map, `users.json`, the rebuild mutex and
the client list the core last received. Every interleaving at lock boundaries is a run.
`ProtocolProofs` shows that each step keeps an invariant and `ServerTheorems` states what follows
for all runs; `Progress` shows that no run deadlocks and bounds the steps the requests in flight can
still take, so that every owed rebuild is made; `Requests` follows one account, one request or one
poll through a run and says what each outcome promises; `CoreHistory` reads the core's clients off
the steps of a run, and `Losses` says exactly when a fault leaves the core serving someone it should
not.
`Accounts` holds the quota rule and its meaning as a function of the whole history of readings,
`Journal` the file through crashes. `Store` and `Service` are the same operations as classes that
update records and files in place, proved against those functions.

**Share links.** `PercentEncoding`, `Query` and `Uris` model the parts of net/url and dart:core the
code uses, over byte strings (sections 2.1, 3.2, 3.4 and 3.5 of RFC 3986), and `Utf8` the decoder of
dart:convert (section 4 of RFC 3629), which refuses malformed input. `Links` and `ManualLinks`
print, `ClientLinks` parses and translates, `XrayConfig` generates the inbound, `Agreement` and
`Matching` compare the two ends, and `ManualHosts` says which hosts typed by hand survive.
`ServedLinks` joins this to the server's runs, and `Imports` follows a link from its import to the
connection to it.

**Usage statistics.** `Stats` decodes and folds the core's stat list; `Polling` and `Sums` say what
a poll does to the accounts in any iteration order; `Metering` follows the traffic of a client of the
generated configuration to the counter of its account.

**The speed test.** `SpeedWindow` relates the in-place trailing window to the whole list of samples,
and bounds the rate it reports.

**The tunnel on the client.** `Tunnel` is the desktop controller under every order of the turns of
the Dart event loop, where the end of an awaited call and what its caller does next are one turn;
`TunnelLeaks` says when a disconnection can leave the tunnel running, and
`VpnController` is the controller as an object whose whole sessions are proved against the model.
`Socks` is the SOCKS5 conversation of the iOS provider over a stream cut anywhere, against section 6 of RFC 1928.
`Shell`, `Quoting` and `Installer` read the macOS installer's command back through AppleScript and
a POSIX shell. `DebugLog` is the provider's ring of log lines.

## Where the code falls short of the promise

Each of these is proved together with the condition under which the promise does hold.

- A usage reading that cannot be written still clears the flag in memory, and the poll goes on
  without a rebuild. If that is a run's only failure, an idle core still serves the user if and only
  if no rebuild has listed the store since (`Losses.UnsavedCrossingLostIff`); a poll that runs alone
  keeps the core current exactly under `Service.PollCovered` (`Service.PollStaysCurrent`).
- A create whose rebuild fails deletes the account again but does not rebuild. If its Apply is the
  only one to fail, an idle core keeps the account if and only if the last listing of any other
  request, with no loss of the core since, saw it enabled (`Losses.RollbackLeavesClientIff`). A
  listing between the create and the rollback is not enough: another request may have deleted or
  disabled the account and listed again.
- A mode outside the three known ones is treated as REALITY by the link and the stream settings but
  not by the client list, which then lacks the flow (`Matching.LinkMatchesServer`).
- A public host that needs escaping, or holds a colon without being an IPv6 address, does not
  survive the link (`Agreement.AddressSurvives` gives the exact set of hosts and ports).
- `disconnect` neither cancels a debounced restart nor leaves the connected stage before its await,
  and does not wait for a restart in flight. It can leave the tunnel running behind a stage that says
  disconnected if and only if a restart is in flight, or the server's link is usable, a timer is
  pending or the network may change during the stop, and the stage is connected or a connect in
  flight can make it so (`TunnelLeaks.DisconnectLeaksIff`). A connect in flight alone is harmless.
- A deep link that carries a name is accepted whatever the fragment of the link inside it. The
  stored link parses again if and only if that fragment is well-formed percent encoding of
  well-formed UTF-8 (`Imports.ImportedParsesAgain`); otherwise, as for `#%` and `#%FF`, connecting to
  it throws outside the try and leaves the controller connecting with nothing in flight
  (`Tunnel.ConnectingIsStuck`).
- The client drops a leading byte order mark from whatever it decodes, so a text that begins with one
  does not come back from a query (`Query.QueryIdentity`), and the two forms of a link differ exactly
  for a label that is nothing else (`ClientLinks.FormsAgree`).
- The HTTP health check ignores a failed read of the bound address; the address is then reported as
  the HTTP response. The response starts at the first HTTP byte if and only if every call of that
  read moved bytes (`Socks.Socket.AfterHeader`).
- An empty name in the manual form comes back as `Lanway` (`ManualLinks.NamelessManualLink`).
- The manual form writes its host unescaped. It is dialled if and only if it is made of the bytes of
  a registered name and escapes that normalization leaves alone, or is a valid IPv6 address in
  brackets (`ManualLinks.ManualHostExactly`).

## Conventions

Strings of the server and of the links are identified with their UTF-8 bytes; where a link carries
bytes that are no UTF-8, the client's exception is an outcome of the model. Limits and rates are
reals; int64 counters are mathematical integers, except where `Stats` decodes them. Random ids, the
clock, the outcome of every write and the kernel's answers are parameters. A rename is taken to be
atomic and durable, and JSON to be lossless. `validIPv6` stands for Dart's numeric check of a
bracketed address. A port above 65535 is taken to be refused by `Uri.parse`; dart:core, whose source
is not part of this model, may refuse it only when it is connected to, and the upper bound in
`Agreement.AddressSurvives` and `Matching.LinkMatchesServer` rests on this.

## Model

| member | source | states |
|---|---|---|
| Accounts.EnabledIsHistory | server/internal/store/store.go:129-142 | After any run of store operations from an empty store, an account is enabled exactly when it has no limit or every reading ever set for it was below the limit times 1073741824, and its counter is the last reading |
| Accounts.EnabledIsUnderLimit | server/internal/store/store.go:137-140 | No enabled account sits at or over its limit in bytes |
| Accounts.StoredIsHistory | server/internal/store/store.go:88-142 | An account is stored exactly when it was created and not deleted since, with the id, name, short id, limit and date it was created with |
| Accounts.LoadListing | server/internal/store/store.go:54-56 | Loading any ordering of a map's records gives the map back |
| Journal.CrashSafe | server/internal/store/store.go:146-160 | Stopping at any step of any sequence of operations and crashes, Open succeeds with exactly the map of the last rename |
| Journal.CommittedIsCurrent | server/internal/store/store.go:155-159 | After a rename, file and memory agree, for every order in which the map was written |
| Journal.AllOrNothing | server/internal/store/store.go:146-160 | However earlier writes went, an operation is in the file wholly or not at all, and is there exactly when its rename took effect, together with every earlier operation that was not saved; memory has it either way |
| Store.UserRecord.SetReading | server/internal/store/store.go:136-140 | The counter is the reading, the flag is up exactly when it was and there is no limit or the reading is below it in bytes, and no other field changes |
| Store.Store.Open | server/internal/store/store.go:38-58 | An absent file is an empty store, a broken or unreadable one an error, a whole one the map it records |
| Store.Store.Keep | server/internal/store/store.go:54-56 | A later record of a file replaces an earlier one with its id |
| Store.Store.PersistLocked | server/internal/store/store.go:146-160 | On success reading the file gives the map; on failure the file is as it was |
| Store.Store.List | server/internal/store/store.go:61-73 | Fresh copies, a permutation of the map, newest first |
| Store.SortNewestFirst | server/internal/store/store.go:69-71 | A newest-first arrangement of the same records |
| Store.Store.Get | server/internal/store/store.go:76-85 | A fresh copy of the record, exactly for the ids in the map |
| Store.Store.Create | server/internal/store/store.go:88-114 | Memory gains an enabled account with the name and limit asked for and no usage, even when the write fails; the caller gets a fresh copy exactly when it was saved |
| Store.Store.Delete | server/internal/store/store.go:117-125 | A missing id changes nothing and is reported; any other leaves memory at once and the file when saved |
| Store.Store.SetUsage | server/internal/store/store.go:129-142 | Counter and flag of that one account follow the quota, in bytes, whether or not the write succeeds, and the file follows memory exactly when it does |
| Store.Store.SnapshotIsIsolated | server/internal/store/store.go:61-73 | A list handed out earlier still describes the old store after any sequence of later creates, deletes and readings |
| Store.Store.ApplyChange | server/internal/store/store.go:88-142 | One later change moves the model on, takes in only fresh records and leaves every record outside the store as it was |
| Store.Store.Replay | server/internal/store/store.go:88-142 | So does any sequence of them |
| Ids.FormattedUuid | server/internal/store/store.go:163-171 | Any 16 bytes print as 36 characters of hexadecimal and hyphens with version 4 and an RFC 4122 variant |
| Ids.UuidKeepsRandomness | server/internal/store/store.go:163-171 | Two random byte strings give the same id exactly when they agree in all but the six forced bits |
| Polling.PolledRecord | server/internal/api/service.go:79-92 | A poll replaces the counter of each account it has a reading for and switches it off exactly when that is at or over its limit in bytes; nothing else of any account changes |
| Polling.TotalAfterPoll | server/internal/api/service.go:99-103 | The total after a poll is the new readings of known users plus the untouched counters of the others |
| Polling.AfterPollCommutes | server/internal/api/service.go:79-92 | Polls over disjoint users commute and combine, so map order cannot matter |
| Polling.ListingTotal | server/internal/api/service.go:99-102 | Summing any listing of the users gives the map's total |
| Service.Service.NewService | server/internal/api/service.go:26-32 | There is a service exactly when the first Apply succeeded, and its core then serves exactly the enabled users |
| Service.Service.Rebuild | server/internal/api/service.go:36-40 | The core ends with the enabled users, its old clients or none, by how Apply went |
| Service.Service.EnabledClients | server/internal/xray/config.go:22-36 | Whatever order List returns, the clients are exactly the enabled users |
| Service.Service.TotalUsed | server/internal/api/handlers.go:53-67 | The sum and number of all accounts |
| Service.Service.TakeReadings | server/internal/api/service.go:79-92 | For every order of the usage map, every known user gets its reading, and limitHit is set exactly when a saved reading turned someone off |
| Service.Service.PollOne | server/internal/api/service.go:80-91 | One entry: the reading is taken even if unsaved, and a hit is a saved crossing of an enabled user |
| Service.Service.PollNow | server/internal/api/service.go:73-104 | Final accounts, total and core of a whole poll, independent of iteration order |
| Service.PollStaysCurrent | server/internal/api/service.go:78-98 | A poll on a current core ends on one if and only if no reading crosses, or a saved one does and the rebuild left exactly the users that remain |
| Service.Service.HandleCreate | server/internal/api/handlers.go:89-120 | 201 exactly when saved and applied, and then the core is current and the account has the trimmed name and the limit; a failed Apply rolls the account back out of the store |
| Service.Service.HandleDelete | server/internal/api/handlers.go:122-137 | Which of 204, 404 and 500 each outcome gives, and the core after each; after 204 it is current |
| ProtocolProofs.StepKeepsInvariant | server/internal/api/service.go:36-104 | Every step of every request keeps the mutex, the books on crossings and removals, and the rule that each difference between core and store is owed or faulty |
| ProtocolProofs.StepEvolves | server/internal/api/service.go:73-104 | No step brings an id back, raises a flag or loses a user without a recorded removal |
| ServerTheorems.RunKeepsInvariant | server/internal/api/service.go:36-104 | The invariant holds at the end of every run from a freshly started server |
| ServerTheorems.OneRebuildAtATime | server/internal/api/service.go:36-40 | At most one request is inside the critical section of rebuild |
| ServerTheorems.IdleServerIsCurrent | server/internal/api/service.go:34-40 | With no failed write or Apply, whenever no request is in flight the core serves exactly the enabled users and the file is the store |
| ServerTheorems.DifferenceIsOwed | server/internal/api/service.go:34-40 | At any other moment of such a run, each difference is owed by a request that has still to rebuild |
| Requests.AccountHistory | server/internal/store/store.go:88-142 | From any moment of any run, whatever runs beside it and whatever fails: an account is still stored exactly when no delete or rollback took it out, with its old record but for the last reading and for the flag, up exactly when it was and no reading since reached the limit in bytes |
| Requests.CreateOutcome | server/internal/api/handlers.go:89-120 | The step that adds an account adds that record and nothing else, under a fresh id, even when the write fails; a create that reports success was saved, then listed and applied; one that reports failure after a good write has left no account |
| Requests.CreatedIsServed | server/internal/api/handlers.go:89-120 | Without failures, whenever no request is in flight: the core serves a created account, under its own short id, exactly when it was not deleted and every reading of it was under its limit |
| Requests.DeleteOutcome | server/internal/api/handlers.go:122-137 | In every run with any failures: a delete takes out the account it names, for good if it ever existed; the request reports none exactly when there was none; and once it reports success the account is in neither store nor file nor core |
| Requests.RebuiltMeansShown | server/internal/api/service.go:34-40 | A request that reports a rebuild has listed the store after its own changes to it, and its Apply made the core serve exactly the users enabled then |
| Requests.PollTakesAll | server/internal/api/service.go:79-92 | A poll past its loop has dealt with every reading it came with: the account was not there, or exactly that reading was stored |
| Requests.ReadingsAreReported | server/internal/api/service.go:79-92 | No poll stores a reading it did not come with |
| Progress.StepProgress | server/internal/api/service.go:36-104 | Every step of a request, failed or not, lowers the number of steps the requests in flight can still take |
| Progress.SettledIffIdle | server/internal/api/service.go:34-40 | No reachable state is stuck: no request can step exactly when all have returned |
| Progress.DebtsArePaid | server/internal/api/service.go:34-40 | Once requests stop arriving, every schedule ends within that number of steps with all of them returned, and without failures on a core that serves exactly the enabled users |
| Progress.CanFinish | server/internal/api/service.go:34-40 | From every reachable state, after any failures, the requests in flight can all return with no further failure |
| ServerTheorems.IdleDifferencesAreFaults | server/internal/api/service.go:84-97 | With failures allowed, an idle core differs from the store only at ids a failure left unreconciled since the last List: the one a write was about, and all of them for an Apply |
| ServerTheorems.CrossingNotLost | server/internal/api/service.go:78-98 | In every interleaving with any failures, a poll whose saved write turned a user off has limitHit set, or the user was removed by a request that rebuilds, or by an unsaved delete or a rollback; without failures that rebuild succeeds and an idle core has dropped the user |
| ServerTheorems.DisabledForGood | server/internal/store/store.go:136-140 | An account once disabled or removed is never enabled again in the run |
| ServerTheorems.UnsavedCrossingIsLost | server/internal/api/service.go:84-87 | The loss does occur: for every user a reading would turn off there is a run in which that write is the only fault, and a later poll for the same user does not repair it |
| ServerTheorems.RollbackLeavesClient | server/internal/api/handlers.go:110-115 | The leftover does occur: for any two new accounts there is a run, with one failed Apply, that ends idle with one of them served and in no store |
| CoreHistory.CoreIsLastApplied | server/internal/api/service.go:36-40 | At every moment of every run, with any failures, the core serves the users enabled when the last listing whose Apply took effect was taken, or none if the core went down since |
| CoreHistory.DifferenceIsChange | server/internal/api/service.go:36-40 | Core and store differ at exactly the ids whose status has changed since that listing |
| CoreHistory.IdleSource | server/internal/api/service.go:36-40 | With nothing in flight that listing is the last one taken by a request whose Apply did not fail |
| Losses.StepKeepsServed | server/internal/api/service.go:73-104 | No fault-free step other than a listing makes a served user unserved or lets a debt of a rebuild vanish |
| Losses.UnsavedCrossingLostIff | server/internal/api/service.go:84-87 | In a run whose only fault is the unsaved write that turned a user off, an idle core still serves the user if and only if no rebuild's listing followed |
| Losses.RollbackLeavesClientIff | server/internal/api/handlers.go:110-115 | In a run whose failing Applies are those of one create, an idle core keeps the rolled-back account if and only if the last listing of any other request saw it enabled and the core did not go down since; that listing fell between create and rollback |
| Losses.LeftoverSource | server/internal/api/handlers.go:110-115 | With any other failures too, the rolled-back account is out of the store for good and in the core exactly when the listing it shows saw it enabled |
| Losses.RollbackStep | server/internal/api/handlers.go:110-115 | At every reachable rollback, the step leaves a difference exactly when the core or the rebuild in progress has the account, and its request owes no rebuild |
| PercentEncoding.EscapeRoundTrip | server/internal/xray/link.go:63-74 | Every byte string survives escaping in each mode and the client's decoding |
| PercentEncoding.HexCase | client/lib/vless.dart:61 | An escape means the same byte in capitals and in small letters, and every pair of hexadecimal digits is one |
| Query.SortedKeysSorted | server/internal/xray/link.go:67 | Keys are written in byte order |
| Query.SplitUndoesEncode | server/internal/xray/link.go:27-69 | Splitting an encoded query reads exactly its pairs, whatever delimiters and bytes they hold: an empty key is skipped, and a text that is not UTF-8 throws |
| Query.QueryRoundTrip | server/internal/xray/link.go:27-69 | A map of texts comes back whole but for an empty key |
| Query.QueryIdentity | server/internal/xray/link.go:27-69 | Encoding then splitting is the identity exactly on the maps without an empty key whose keys and values are well-formed UTF-8 without a leading byte order mark |
| Utf8.WellFormedIff | client/lib/vless.dart:58-62 | The texts that decode are exactly those the encoder of RFC 3629 writes for some sequence of characters |
| Bytes.TrimStrips | server/internal/api/handlers.go:95 | Trimming takes white space from both ends and nothing else |
| Uris.ParseAssembled | client/lib/singbox_config.dart:66-75 | A URL assembled from delimiter-free parts comes apart into exactly those parts |
| Uris.RegNameSurvives | client/lib/singbox_config.dart:73 | Which escaped host names come back, up to case |
| XrayConfig.GenerateConfig | server/internal/xray/config.go:21-128 | One client for each enabled user in order, with the user's id as id and as statistics key and the vision flow in REALITY mode only; the port; the transport |
| XrayConfig.BuildStreamSettings | server/internal/xray/config.go:132-181 | The transport of each mode, unknown ones included, field by field: path, domain, certificate, keys, destination, server names and short ids |
| XrayConfig.ClientsAreEnabledUsers | server/internal/xray/config.go:22-36 | A client is listed exactly for each enabled user |
| XrayConfig.ShortIdsAreEnabledUsers | server/internal/xray/config.go:160-168 | A short id is accepted exactly when empty or an enabled user's |
| XrayConfig.ConfigServesActive | server/internal/xray/config.go:21-128 | For any listing of a store, the accepted ids and short ids are those of its active accounts |
| Metering.ClientIsMetered | server/internal/xray/config.go:22-36 | Every client of a configuration belongs to an enabled user, to whose id what the core reports under its email is credited |
| Metering.MeteredUsage | server/internal/xray/process.go:96-120 | The usage of a core that runs the configuration, in any order of its answer, has exactly the active accounts, each with its own client's traffic in both directions |
| Metering.MeteredPoll | server/internal/api/service.go:73-92 | From the printed answer to the accounts: each account that was served gets its own client's traffic as its counter and is off afterwards exactly when it was or that is at or over its limit; every other account stays as it is |
| Links.BuildLinks | server/internal/xray/link.go:23-77 | The printed links are those the round trips below are about, for every configuration and user |
| Links.NamesDoNotLeak | server/internal/xray/link.go:55-76 | Links, labels and clients do not depend on the name, limit or usage of a user |
| ClientLinks.VlessFormParses | client/lib/vless.dart:50-61 | A printed vless link parses to itself and its decoded label, and throws exactly when the label is not UTF-8 |
| ClientLinks.LanwayFormParses | client/lib/vless.dart:41-48 | A deep link around any vless link and name parses to the link and the decoded name, through two layers of escaping, and throws exactly when either is not UTF-8 |
| ClientLinks.UnnamedFormParses | client/lib/vless.dart:41-48 | A deep link without a name goes by the remark of the link inside it |
| ClientLinks.BlanksIgnored | client/lib/vless.dart:37-39 | White space around a pasted link does not matter |
| ClientLinks.FormsAgree | client/lib/vless.dart:37-62 | Both forms of every user's link parse alike if and only if the label is not a lone byte order mark |
| ClientLinks.VlessOutbound | client/lib/singbox_config.dart:65-102 | The branch-by-branch outbound is the translation the agreement theorems use |
| Agreement.AddressSurvives | server/internal/xray/link.go:66 | The printed address is recovered, up to case, for exactly these hosts and ports |
| Agreement.TranslatePrinted | client/lib/singbox_config.dart:65-102 | The outbound of a printed link has the server's own query as decoded, its uuid and its address; there is none exactly when the address or a value does not parse |
| Agreement.PrintedParameters | server/internal/xray/link.go:27-54 | What the client reads from a printed query, by the names of the keys |
| Agreement.WrittenOutbound | client/lib/singbox_config.dart:65-102 | For any link to a plain host, with any query of texts and with or without a port: the outbound dials that host on that port, or on 443, as that user, and carries exactly the query's values |
| Matching.CredentialsMatch | server/internal/xray/config.go:22-36 | Some listed client has the link's uuid and flow exactly when the user is enabled and the mode is known |
| Matching.StreamMatches | server/internal/xray/config.go:132-181 | Keys, server name, short id and path agree exactly when the strings the link carries survive decoding and, for REALITY, there is a server name |
| Matching.LinkMatchesServer | server/internal/xray/link.go:23-77 | A user's deep link yields an outbound the generated inbound accepts if and only if the user is enabled, the mode known, REALITY has a server name, the configured strings survive decoding and so does the address |
| Matching.NameIsServer | server/internal/xray/link.go:55-76 | A link that works is shown under the address it dials |
| ServedLinks.SameInbound | server/internal/xray/config.go:21-181 | Inbounds generated from listings with the same active accounts accept the same outbounds |
| ServedLinks.StoredLinkIsServed | server/internal/api/handlers.go:116-119 | In every run without failures, once idle, a stored user's deep link is accepted by the inbound last applied exactly when the user is enabled and the configuration is one whose links work |
| Imports.ImportedParsesAgain | client/lib/vpn_controller.dart:166-170 | A link accepted on import is never refused on connecting, and parses again if and only if its fragment is percent-encoded UTF-8 |
| Imports.ConnectingToImport | client/lib/vpn_controller.dart:158-174 | Connecting to an imported link starts a tunnel if and only if its fragment decodes; otherwise the stage is left at connecting with nothing more in flight |
| Imports.PlainImportParsesAgain | client/lib/vless.dart:50-52 | A link imported in plain form parses again to the same thing |
| Imports.ThrowingImport | client/lib/vless.dart:41-48 | Every deep link with a name around a vless link whose fragment does not decode is accepted, and its stored link throws |
| Imports.BadFragments | client/lib/vless.dart:57-62 | A lone percent sign does not decode, nor does the escape of a byte that is no UTF-8 |
| ManualLinks.BuildManualVless | client/lib/vless.dart:66-85 | The built link is the one the round trip is about |
| ManualLinks.SplitJoined | client/lib/vless.dart:83 | Splitting the joined entries recovers them as decoded, later keys winning |
| ManualLinks.ManualRoundTrip | client/lib/vless.dart:66-85 | Parsing a manual link recovers the decoded name, and its outbound every field of the form, for every host and port that can be dialled |
| ManualLinks.ManualHostExactly | client/lib/vless.dart:84 | For any host and port at all, the outbound dials them if and only if the host is settled or a valid bracketed IPv6 address and the port is in range |
| ManualHosts.SettledExactly | client/lib/vless.dart:84 | Parsing gives an unescaped host name back, in lower case, exactly when it consists of name bytes and escapes that normalization leaves alone |
| ManualLinks.NamelessManualLink | client/lib/vless.dart:58-62 | With an empty name the link comes back as Lanway |
| Stats.FlexIntForms | server/internal/xray/process.go:127-139 | A number and its quoted form decode alike, to the number exactly when it fits an int64 |
| Stats.FlexIntAbsent | server/internal/xray/process.go:127-139 | A null, an empty value and an empty string count nothing |
| Stats.EntryNamesItsUser | server/internal/xray/process.go:111-117 | An entry for any generated id is credited to exactly that id |
| Stats.QueryUsage | server/internal/xray/process.go:96-120 | Over the raw answer: an error exactly when some value does not parse; otherwise exactly the users named by some entry, each with the sum of the values of its own entries |
| Stats.PrintedAnswer | server/internal/xray/process.go:110-139 | Values printed in decimal, quoted or not, are read as those values |
| Stats.SplitParts | server/internal/xray/process.go:112 | A name is cut at its separators and nowhere else |
| Stats.UsageAggregates | server/internal/xray/process.go:110-119 | Exactly the mentioned users appear, each with the sum of its own entries |
| Stats.UsageConserves | server/internal/xray/process.go:110-119 | The map sums to the total of the well-formed entries |
| Stats.UsagePermutes | server/internal/xray/process.go:110-119 | The order of the stat list does not matter |
| SpeedWindow.RateWindow.Add | client/lib/speed_test.dart:190-200 | The list after the call, trimmed in place, and the rate over it: millions of bits per second between its first and last sample, 0 when no time has passed |
| SpeedWindow.WindowIsSuffix | client/lib/speed_test.dart:190-200 | After any history the window is the longest suffix no older than 800 ms, or the last two samples if that is shorter |
| SpeedWindow.StartInMilliseconds | client/lib/speed_test.dart:190-196 | Beyond the last two samples, what is kept is at most 800 ms old and what is dropped is older |
| SpeedWindow.WindowIsSmall | client/lib/speed_test.dart:190-196 | With samples 80 ms apart the window never holds more than 11 |
| SpeedWindow.RateBounded | client/lib/speed_test.dart:197-200 | A bound on every interval's rate bounds the window's rate |
| SpeedWindow.ReportedRate | client/lib/speed_test.dart:197-200 | From the second gated sample the rate lies between the slowest and fastest interval in the window; only the first reports 0 for lack of time |
| SpeedWindow.SteadyReported | client/lib/speed_test.dart:112-129 | A stream of a constant number of bits per second is reported at that number, in every reading but the first, which is 0 |
| SpeedWindow.Meter.Progress | client/lib/speed_test.dart:119-128 | A reading exactly when 80 ms have passed, over the window of all gated samples |
| SpeedWindow.Download | client/lib/speed_test.dart:116-129 | The byte count and every reading are those of the gated history of the chunks; chunks at a constant speed are reported at it |
| SpeedWindow.Upload | client/lib/speed_test.dart:143-169 | Exactly 15000000 bytes, in 228 chunks of 65536 and one of 57792, with the readings of their gated history |
| Socks.ShortByFault | client/ios/XrayTunnel/PacketTunnelProvider.swift:559-574 | A transfer falls short only by a failing call or a dry stream |
| Socks.WholeIffAllMoved | client/ios/XrayTunnel/PacketTunnelProvider.swift:559-574 | With the bytes there, a transfer completes if and only if each of its calls moved some |
| Socks.DrainAll | client/ios/XrayTunnel/PacketTunnelProvider.swift:545-574 | With no failing call a transfer completes under every fragmentation |
| Socks.RequestsRead | client/ios/XrayTunnel/PacketTunnelProvider.swift:416-500 | A reader of RFC 1928 takes both requests, and no byte more, as a connection to 1.1.1.1 and to the host by its name, on port 80 |
| Socks.ReplyReads | client/ios/XrayTunnel/PacketTunnelProvider.swift:422-445 | The same reader takes each reply of the encoder |
| Socks.HttpRequestReads | client/ios/XrayTunnel/PacketTunnelProvider.swift:526-534 | The request is five ended lines: the path by GET, the host, two fixed fields and the empty line |
| Socks.Socket.SendAll | client/ios/XrayTunnel/PacketTunnelProvider.swift:545-557 | Success means the bytes went out once and in order; otherwise a proper prefix did |
| Socks.Socket.RecvExact | client/ios/XrayTunnel/PacketTunnelProvider.swift:559-574 | Exactly the next count bytes and no more, or None and how far it got |
| Socks.ReplyFraming | client/ios/XrayTunnel/PacketTunnelProvider.swift:509-524 | For each address type the reader takes what the encoder of RFC 1928 wrote, never more, and all of it if and only if every one of its calls moved bytes |
| Socks.Socket.ReadTail | client/ios/XrayTunnel/PacketTunnelProvider.swift:509-524 | The announced number of bytes is consumed, or which failure happened |
| Socks.Socket.ReadName | client/ios/XrayTunnel/PacketTunnelProvider.swift:515-518 | A name is taken with its length and port; a missing length is reported and takes nothing |
| Socks.Socket.ReadAnswer | client/ios/XrayTunnel/PacketTunnelProvider.swift:430-445 | Without failures exactly the rest of the reply is read, less a name's length in what is shown |
| Socks.Socket.ConnectCheck | client/ios/XrayTunnel/PacketTunnelProvider.swift:405-447 | For every valid reply and fragmentation the verdict is the reply code, the reported bytes are that reply, and the next byte is the one after it |
| Socks.Socket.AfterHeader | client/ios/XrayTunnel/PacketTunnelProvider.swift:506-542 | The response starts right after what was read of the reply, and at the first HTTP byte if and only if no call of that read failed; what a single failing call leads to, for addresses and for names |
| Socks.Socket.SkipTail | client/ios/XrayTunnel/PacketTunnelProvider.swift:509-524 | How much of a reply is skipped under any kernel, and which failures go unnoticed |
| Socks.Socket.HttpCheck | client/ios/XrayTunnel/PacketTunnelProvider.swift:455-543 | Without failures the response is the first bytes after the reply, and the request goes out only after a successful one; with failures no HTTP byte is lost |
| DebugLog.DebugStore.Append | client/ios/XrayTunnel/PacketTunnelProvider.swift:32-40 | The lines kept are the newest 120 of all ever appended, in order |
| Quoting.TwoPasses | client/lib/desktop_vpn.dart:266 | The two sequential replacements escape each character exactly once |
| Quoting.AppleScriptRoundTrip | client/lib/desktop_vpn.dart:265-268 | AppleScript reads the literal as exactly its argument and goes on right behind it |
| Quoting.ShellQuote | client/lib/desktop_vpn.dart:262 | From any point outside quotes a shell reads the quoted text as its own characters, joined to the current word and unexpanded |
| Quoting.WordRoundTrip | client/lib/desktop_vpn.dart:262 | On its own it is one word, the string itself, newlines and quotes included |
| Quoting.CommandTokens | client/lib/desktop_vpn.dart:112-122 | A command of unquoted text around quoted arguments has the same other tokens whatever the arguments hold |
| Installer.InstallIsCommand | client/lib/desktop_vpn.dart:112-122 | The nine joined commands are four fixed texts around three arguments |
| Installer.InstallArgumentsRecovered | client/lib/desktop_vpn.dart:107-128 | Through both layers, the core path, helper script and sudoers rule come back as single words for all strings |
| Tunnel.StepKeepsOneRestart | client/lib/vpn_controller.dart:206-221 | Every event keeps one restart body in flight exactly while the flag is up |
| Tunnel.RestartsExclude | client/lib/vpn_controller.dart:200-221 | So does every interleaving |
| Tunnel.ConnectedIsActive | client/lib/vpn_controller.dart:158-233 | When operations do not overlap, an idle controller says connected exactly when the tunnel is active, and to the server shown |
| Tunnel.ConnectingIsStuck | client/lib/vpn_controller.dart:163-170 | When operations do not overlap, a controller with nothing in flight says connecting exactly when the last call was a connection to a link whose parse throws |
| Tunnel.FailureIsShown | client/lib/vpn_controller.dart:158-233 | When operations do not overlap, an idle controller says disconnected exactly when the last call was not a connection, and failed exactly when one was asked for, the tunnel is not active and the link did not throw |
| TunnelLeaks.DisconnectLeaksIff | client/lib/vpn_controller.dart:200-233 | In every state, whatever is in flight, a disconnection can end with the tunnel running behind a disconnected stage if and only if a restart is in flight, or a usable link, a timer that is pending or may yet be set, and a stage that is or may become connected allow one to begin |
| TunnelLeaks.RunLeaksIff | client/lib/vpn_controller.dart:158-233 | The same after every run; from an idle connected controller it can whenever the network may change during the stop, and otherwise exactly when a timer is pending; with no restart, timer or change of the network it never can |
| VpnController.VpnController.Connect | client/lib/vpn_controller.dart:158-174 | Up to its await: a start in flight, failed for a refused link, or left connecting by one that throws |
| VpnController.VpnController.OnNetworkChange | client/lib/vpn_controller.dart:200-204 | A timer is set only while connected and not restarting |
| VpnController.VpnController.RestartDesktopTunnel | client/lib/vpn_controller.dart:206-213 | A restart begins only under all four guards |
| VpnController.VpnController.Handle | client/lib/vpn_controller.dart:158-233 | Every turn of the event loop keeps one restart in flight exactly while the flag is up, and a disciplined one keeps flag, stage and server in step |
| VpnController.VpnController.Play | client/lib/vpn_controller.dart:158-233 | Any sequence of turns ends where the model's run does |
| VpnController.VpnController.Session | client/lib/vpn_controller.dart:158-233 | From a new controller through any events: at most one restart; and if operations did not overlap, with nothing in flight it is connected exactly when the tunnel is active, to the server shown, connecting exactly when stuck on a throwing link, disconnected exactly when no connection was asked for last, and failed otherwise |

## Left out

- HTTP routing, JSON syntax, authentication, logging, certificates and every process, socket set-up and sleep: library behaviour or input and output.
- `store.Create` copies the new record after releasing the lock; the model copies it before any other request can run.
- Core counters that restart with the core: readings are arbitrary numbers, so nothing is claimed about accumulation across restarts.
- `StartUsagePoller` and `/api/usage/poll` are polls like any other; the ticker and cancellation are not modelled.
- `buildClientConfig` and the mobile tunnels depend on the flutter_vless plug-in, which is not part of this model.
- Trimming of non-ASCII white space, IPv6 zone identifiers and Dart's numeric check of IPv6 addresses (a parameter).
- Constant parts of the Xray document (routing, policy, sniffing, keep-alive) and of the sing-box configuration.
- `Stats.QueryUsage`: sums are unbounded integers, so wrap-around of a counter past 2^63 is not modelled.
- `Service.Service.PollNow`: the class runs one request at a time; overlapping requests are the step machine's.
- `Store.SortNewestFirst`: arranges by neighbour exchanges; which of two accounts created at the same instant comes first is as open as in the library sort.
- `SpeedWindow.Upload`: the clock is a function of the number of chunks written; the network and the final averages are not modelled.
- `Installer.InstallArgumentsRecovered`: says that the fixed commands do not depend on the arguments, not what running them does; an IO number is left as the word before its operator.
- `Shell` leaves out here-documents, aliases, reserved words and the expansions themselves; it only records whether a word is open to expansion.
- The Windows set-up script, whose quoting belongs to PowerShell.
- `Socks.Socket.ConnectCheck`: error texts, which the source distinguishes by call, are one outcome.
- `VpnController` splits each handler at the awaits of its own and covers the desktop branches only; disposal, unsupported platforms, duration, speeds, error texts and the ticker are left out, and a tunnel that dies by itself is not seen, as in the source.
- `handleStats` beyond its sum, link validation, configuration defaults, formatting of sizes and durations, saved servers, the manager application and all user interface code.
