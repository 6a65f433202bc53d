# JKANNEL verification model

A Dafny model of the parts of the JKANNEL SMS-gateway control plane whose correctness spans whole
runs or whole inputs, with the properties they promise. `dafny verify dfyconfig.toml` checks it.

| module | models |
|---|---|
| `ConfigValueSafety`, `SecretResolver`, `ConfigModel`, `ConfigValidator` | what a valid engine configuration is, and the screening and secret naming behind it |
| `ConfigDirectives`, `ConfigRenderer` | rendering a valid model as a line-oriented Kamex file |
| `ConfigSyntax`, `ConfigRoundTrip`, `ConfigTheorems`, `ConfigCanonical`, `ConfigWitness` | a reference reader of such files, and what the rendering means to it |
| `ConfigMeaning` | what the reader finds, directive by directive, in the words of the file and the fields of the model |
| `Disk`, `Deployment` | write, fsync, rename and directory-fsync steps over a disk that may crash between any two; deploy and its rollback |
| `TokenRefresh` | one browser tab, any number of requests, one shared refresh promise, and a server that rotates refresh tokens |
| `RateLimiter`, `CustomerRateLimit` | the expiring Redis counter against a plain log of hits; batches of messages |
| `IpAddress`, `IpRoundTrip`, `IpAccepted`, `IpAllowlist`, `Bits` | address text (section 2.2 of RFC 4291) and prefix masks (section 3.1 of RFC 4632) on unbounded naturals |
| `Histogram` | the bucketed latency histogram against the list of all samples |
| `Quota`, `Credit` | lazily reset counters and a locked balance against their logs |
| `BackupScheduler`, `ScheduleVersions` | replicas under one advisory lock; edits under If-Match (section 13.1.1 of RFC 9110) |
| `QueueMetrics`, `GatewayPerformance` | rate derivation and bucketing on reals |
| `Text`, `Sorting`, `Numbers` | shared string, ordering and arithmetic facts |

Code that updates state is modelled by classes and loops whose contracts tie the new state to a function of
the old one; the properties are proved about those functions, over every run. Text is a sequence of UTF-16
units; JavaScript numbers are integers, naturals or reals as the code uses them.

## Where the code promises less than its documentation

* `statusSecretRef: ""` passes validation, because an empty string is falsy, but is not replaced by the default
  (`??` keeps it), so rendering throws. `ConfigWitness.EmptyStatusReferenceIsAccepted` is the input;
  `ConfigRenderer.Generate` states exactly when generation succeeds.
* Validation does not screen `smsc.username`, `sqlbox.host`, `sqlbox.database`, `dlrStorage.connectionId`,
  `dlrStorage.table` or service aliases. The rendered file reads back as intended if and only if these are one
  line each and do not begin with a quote (`ConfigTheorems.RenderedFileReadsBack`);
  `ConfigWitness.UnscreenedHostBreaksTheFile` is an accepted model whose file does not.
* Validation accepts a secret whose environment name contains "include" (`ConfigWitness.SecretNameBringsTheWord`);
  `ConfigTheorems.NoIncludeLine` is the exact condition.
* The dotted-quad pattern of the IPv6 parser is anchored only at the end, and its dot does not match a line
  terminator, so text before one ahead of a quad is dropped; and `::` may stand for no group at all. An accepted
  text is an RFC spelling if and only if neither happens (`IpAccepted.AcceptedPerRfc`);
  `IpAccepted.TextBeforeALineBreakIsAccepted` and `IpAccepted.EmptyGapIsAccepted` are accepted texts that are not.
* A batched send is decided by its last slot alone, so one whose slots cross a window boundary can send more messages than the
  limit (`CustomerRateLimit.BatchSlipsThrough`). A count below two is the exact condition: a send keeps, at every timing, to
  every limit that accepts it if and only if its count truncates to at most one (`CustomerRateLimit.BoundedAtEveryTiming`);
  at one given timing it does if and only if its slots keep to one window (`CustomerRateLimit.BoundedExactlyInOneWindow`).
* Redis rounds a TTL to the nearest second, so the advertised `retryAfterSeconds` can fall in the same window.
  `RateLimiter.RetryLandsLater` states exactly when, `RateLimiter.RetryCanLandInTheSameWindow` is such a run, and on a clock
  of whole seconds the promise always holds. One second more than advertised is always enough
  (`RateLimiter.OneSecondMoreLandsLater`).
* Without If-Match an edit that clears one of cron and interval and leaves the other alone, checked against a row that a
  concurrent edit then changes, can leave a schedule with neither, which the handler means to refuse and which the scheduler runs daily
  (`ScheduleVersions.UnsafeEditCanDropTheCadence`, for every such body). No other edit can, and none under If-Match (`ScheduleVersions.SafeExactly`).

## Assumptions

* Deployments are serial, a rename replaces one directory image by the next in a single step, and a crash leaves
  one of the images since the last directory barrier; a file's content survives only once it is synced.
* One clock serves each model; the rate limiter's script runs at the instant its key was computed for.
* Database transactions that lock the rows they read are serial in those rows, and a read-committed transaction sees
  the last commit.
* One browser tab. A refresh call either fails before the server rotates or its answer arrives; tokens supplied by other
  code have not been rotated.
* A throughput is given with the decimals it is printed with.
* String comparison (`localeCompare`) is a parameter; where an order is needed it is assumed to be a total order.
* A backup cycle's lock connection lasts as long as the cycle. A new quota row is unused and starts now; a missing balance is zero.

## Model

| member | source | states |
|---|---|---|
| ConfigValueSafety.HasControlCharacter | backend/src/configuration/config-value-safety.ts:60-66 | true exactly when some C0, DEL or C1 character occurs anywhere in the value |
| ConfigValueSafety.DescribeConfigValueProblem | backend/src/configuration/config-value-safety.ts:76-125 | refuses exactly the values that are not acceptable, naming the first reason in the fixed order that applies |
| ConfigValueSafety.CollectConfigValueProblems | backend/src/configuration/config-value-safety.ts:128-138 | one problem per offending field, in field order, each with the first reason that applies; none exactly when every present value is acceptable |
| ConfigValueSafety.MentionAcross | backend/src/configuration/config-value-safety.ts:115-123 | a separator outside the word "include" cannot complete it across a join of two values |
| Text.WhiteSpaceCodes | backend/src/configuration/configuration-generator.service.ts:538-566 | the characters that trimming removes, by their codes |
| SecretResolver.EnvNameShape | backend/src/configuration/secret-resolver.service.ts:84-93 | every name produced is a legal identifier with no leading, trailing or doubled underscore |
| SecretResolver.EnvNameOnto | backend/src/configuration/secret-resolver.service.ts:84-93 | every such name is the name of some reference, so the image is exactly these names |
| SecretResolver.EnvNameIsItsRuns | backend/src/configuration/secret-resolver.service.ts:84-93 | the name is the runs of letters and digits of the upper-cased path joined by single underscores, when that begins with a letter; otherwise there is none |
| SecretResolver.UpperInAscii | backend/src/configuration/secret-resolver.service.ts:84-93 | upper-casing an ASCII path changes its lower-case letters and nothing else |
| SecretResolver.AssertResolvable | backend/src/configuration/secret-resolver.service.ts:122-134 | succeeds exactly when every reference is valid and backed by a non-empty variable; otherwise reports all that are not |
| ConfigValidator.ValidateSmscRouting | backend/src/configuration/configuration-generator.service.ts:538-566 | no error exactly when every routing entry is non-blank and free of the list separator |
| ConfigValidator.ValidateSmscs | backend/src/configuration/configuration-generator.service.ts:302-405 | no error exactly when the ids are distinct and every link is valid |
| ConfigValidator.ValidateUsers | backend/src/configuration/configuration-generator.service.ts:585-593 | no error exactly when usernames are present and distinct and every password is a secret reference |
| ConfigValidator.ValidateServices | backend/src/configuration/configuration-generator.service.ts:594-632 | no error exactly when a non-empty list has one `default` and every service has one valid target |
| ConfigValidator.ValidateBoxes | backend/src/configuration/configuration-generator.service.ts:568-650 | no error exactly when the box, user, service, storage and secret-name rules all hold |
| ConfigValidator.ValidateRenderedValues | backend/src/configuration/configuration-generator.service.ts:420-466 | no error exactly when every value it lists is absent, empty or acceptable; array aliases are skipped |
| ConfigValidator.CollectSecretReferences | backend/src/configuration/configuration-generator.service.ts:684-698 | the `secret://` references of the admin, status, enabled-link and user fields, in render order |
| ConfigValidator.Validate | backend/src/configuration/configuration-generator.service.ts:285-409 | reports nothing exactly when the model meets every rule |
| ConfigSyntax.UnquoteOfEscape | backend/src/configuration/configuration-generator.service.ts:739-752 | reading a quoted value undoes the two-pass escaping, for every string |
| ConfigSyntax.RoundTrip | backend/src/configuration/configuration-generator.service.ts:735-752 | reading a written file gives back exactly the intended groups and pairs if and only if every value is one line and no bare value begins with a quote |
| ConfigRenderer.RenderLines | backend/src/configuration/configuration-generator.service.ts:733-870 | pushing line by line in source order writes exactly the sections of the model, links, users and services sorted |
| ConfigRenderer.NamesExist | backend/src/configuration/configuration-generator.service.ts:638-648 | in a valid model every rendered reference has a name, except a status reference that is the empty string |
| ConfigRenderer.Generate | backend/src/configuration/configuration-generator.service.ts:707-731 | exactly when each outcome arises: refused, unresolved in strict mode, not implemented for the engine, failing on an empty status reference, or rendered with its content and report |
| ConfigTheorems.FileOk | backend/src/configuration/configuration-generator.service.ts:420-466 | any test that harmless text passes holds of the whole file exactly when it holds of the unscreened fields and the secret tokens |
| ConfigTheorems.RenderedFileReadsBack | backend/src/configuration/configuration-generator.service.ts:733-870 | the rendered file of a valid model reads back as intended if and only if its unscreened fields are tame, so no value can start a directive |
| ConfigMeaning.RenderedFileSays | backend/src/configuration/configuration-generator.service.ts:733-977 | reading the file rendered from a valid, tame model gives exactly the core group, a group for every enabled link, the smsbox, every user, every service, the SQLBox and the delivery report store, in printing order, each with exactly its directives by their literal words and values, nothing for an absent field |
| ConfigMeaning.WholeNumberReads | backend/src/configuration/configuration-generator.service.ts:735-738 | a whole number is written in digits that read as it, after a minus sign when it is negative |
| ConfigMeaning.DecimalReads | backend/src/configuration/configuration-generator.service.ts:735-738 | a number with decimals is written with its sign, and without the point its digits read as it |
| ConfigMeaning.RoutingListReads | backend/src/configuration/configuration-generator.service.ts:969-977 | splitting the written value of a valid routing list gives back its entries |
| ConfigMeaning.ValidLinkIsComplete | backend/src/configuration/configuration-generator.service.ts:302-405 | every enabled link of a valid model has what its adapter needs: port, host, login, system type, URL; never both an allowed and a denied list |
| ConfigMeaning.ValidLinkNumbers | backend/src/configuration/configuration-generator.service.ts:302-405 | the range of every number a valid link is written with |
| ConfigMeaning.ValidUserIsComplete | backend/src/configuration/configuration-generator.service.ts:585-593 | every user of a valid model has a name of its own and a password with an environment variable |
| ConfigMeaning.ValidServiceIsComplete | backend/src/configuration/configuration-generator.service.ts:594-632 | every service of a valid model has a keyword and answers in exactly one way |
| ConfigMeaning.ValidBoxIsReachable | backend/src/configuration/configuration-generator.service.ts:568-650 | the ports of a valid model differ, its box dials SQLBox when that is deployed, and there are no users or services without a box |
| ConfigTheorems.NoIncludeLine | backend/src/configuration/configuration-generator.service.ts:733-870 | no line contains "include" in any case if and only if no unscreened field and no secret token does |
| ConfigTheorems.TokensAreReferences | backend/src/configuration/configuration-generator.service.ts:759-763 | the secret tokens in the file are exactly the placeholders of the rendered references |
| ConfigTheorems.EveryTokenIsRequired | backend/src/configuration/configuration-generator.service.ts:684-719 | every secret token in the file is in `requiredSecrets`; what the report has beyond the file comes only from credentials of links that render no login |
| ConfigTheorems.RequiredSecretsCanonical | backend/src/configuration/configuration-generator.service.ts:863-869 | `requiredSecrets` is sorted, duplicate-free and well shaped |
| Sorting.LexIsFirstDifference | backend/src/configuration/configuration-generator.service.ts:863-863 | the default order of strings is that of the first character that differs, a beginning coming first |
| ConfigTheorems.StrictMeansAllSet | backend/src/configuration/configuration-generator.service.ts:713-718 | the strict check passes exactly when every reported variable is set |
| ConfigCanonical.RenderingIsCanonical | backend/src/configuration/configuration-generator.service.ts:768-826 | rearranging links, users or services with distinct keywords changes neither the file nor the report |
| ConfigCanonical.DisabledLinkIgnored | backend/src/configuration/configuration-generator.service.ts:768-770 | a disabled link, anywhere in the list, leaves the rendered links as they are |
| ConfigCanonical.DefaultIsLast | backend/src/configuration/configuration-generator.service.ts:819-826 | the `default` service is printed last |
| ConfigWitness.UnscreenedHostBreaksTheFile | backend/src/configuration/configuration-generator.service.ts:420-466 | a valid model with a line break in the SQLBox host whose file does not read back |
| ConfigWitness.SecretNameBringsTheWord | backend/src/configuration/configuration-generator.service.ts:759-763 | a valid model with a secret named INCLUDE, a line of whose file contains the word |
| ConfigWitness.EmptyStatusReferenceIsAccepted | backend/src/configuration/configuration-generator.service.ts:290-291 | a valid model whose empty status reference has no environment name |
| Disk.OpenKeeps | backend/src/configuration/configuration-deployment.service.ts:49-64 | opening the temporary file leaves what a crash can show at the target unchanged |
| Disk.RenameKeeps | backend/src/configuration/configuration-deployment.service.ts:240-240 | renaming a synced file adds exactly its content to what a crash can show, and makes it current |
| Disk.SyncDirectoryKeeps | backend/src/configuration/configuration-deployment.service.ts:66-80 | behind the directory barrier only the current content can survive |
| Disk.CrashLeavesWhole | backend/src/configuration/configuration-deployment.service.ts:49-80 | a crash leaves, whole, one of the contents that were possible, and a sound disk |
| Deployment.DeploymentService.WriteDurable | backend/src/configuration/configuration-deployment.service.ts:49-64 | wherever the write stops, every intermediate state keeps the target; on success the temporary file is written and synced |
| Deployment.DeploymentService.Install | backend/src/configuration/configuration-deployment.service.ts:239-241 | every intermediate state shows at the target only what it could before or the new content; installed exactly when write and rename succeed |
| Deployment.DeploymentService.Deploy | backend/src/configuration/configuration-deployment.service.ts:229-279 | outcome by outcome where the target ends: new content, untouched, or the previous content after a failed reload; every intermediate state safe for a crash |
| Deployment.DeploymentService.DeployInterrupted | backend/src/configuration/configuration-deployment.service.ts:229-279 | a deployment cut short by a crash after any number of its disk steps leaves, whole, what was possible before or the new content, and nothing missing that was certain |
| Deployment.DeploymentService.CrashAndRestart | backend/src/configuration/configuration-deployment.service.ts:49-80 | a crash of any state that was reached leaves a whole configuration that was possible in it |
| Deployment.Run | backend/src/configuration/configuration-deployment.service.ts:229-279 | over any run of deployments, deployments cut short and crashes between them, the target is at every moment a whole configuration that was there or was deployed |
| TokenRefresh.ApiModule.StartRenewal | frontend/src/api.ts:99-112 | expires without a token, joins the promise in flight, else begins exactly one new call with the token in memory |
| TokenRefresh.StepKeepsInvariant | frontend/src/api.ts:97-135 | every event keeps one owned call per promise in flight, fresh tokens and the sending bound |
| TokenRefresh.SingleFlight | frontend/src/api.ts:97-135 | in every interleaving at most one refresh call is outstanding, the server sees no replay, and no request is sent more than twice |
| TokenRefresh.ResentExactlyAfterRotation | frontend/src/api.ts:120-152 | in every run a request that resumes was sent once; it is sent a second time if its refresh rotated, and ends for good with one sending if it failed; exactly one of the two events took place |
| TokenRefresh.RefusedRequest | frontend/src/api.ts:142-152 | a refused request is never sent again without a refresh token or after its second sending; otherwise it awaits the refresh in flight |
| TokenRefresh.IssuedTokensAreKept | frontend/src/api.ts:104-120 | once the answer arrives the tab holds exactly the two tokens the server issued |
| TokenRefresh.SignedInOrOut | frontend/src/api.ts:6-17 | signing out forgets both tokens, signing in sets both, and nothing else changes |
| TokenRefresh.PresentedTokenIsFresh | frontend/src/api.ts:99-112 | a refresh presents a token the server has not rotated, while no other call is outstanding |
| TokenRefresh.RefreshNeverSticks | frontend/src/api.ts:104-120 | from any reachable state at most three events leave no refresh in flight |
| TokenRefresh.NextRequestRefreshes | frontend/src/api.ts:142-152 | once none is in flight, a refused first sending begins a new call with the token in memory |
| RateLimiter.Redis.Eval | backend/src/api-gateway/gateway-rate-limiter.ts:21-28 | one increment, an expiry on the first hit only, and the count and TTL of the new state |
| RateLimiter.GatewayRateLimiter.Consume | backend/src/api-gateway/gateway-rate-limiter.ts:42-87 | the answer and the store after each request: without a limit, without Redis, with a script that never runs, with a reply lost after the increment, and otherwise |
| RateLimiter.KeysDistinct | backend/src/api-gateway/gateway-rate-limiter.ts:57-59 | two requests share a counter key only with the same id and the same window, whatever characters ids hold |
| RateLimiter.RunRefines | backend/src/api-gateway/gateway-rate-limiter.ts:21-28 | along every run, expiry and eviction included, each counter equals the logged hits of its key until its window is over |
| RateLimiter.AllowedIffRoom | backend/src/api-gateway/gateway-rate-limiter.ts:60-76 | a request is allowed exactly when the hits already in its window are fewer than its limit, and `remaining` is the rest |
| RateLimiter.AtMostLimitPerWindow | backend/src/api-gateway/gateway-rate-limiter.ts:42-76 | at most `limit` requests of a key are allowed per window, in every run |
| RateLimiter.AtMostTwicePerSpan | backend/src/api-gateway/gateway-rate-limiter.ts:42-76 | at most twice the limit is allowed in any span as long as a window |
| RateLimiter.RetryIsTimeLeft | backend/src/api-gateway/gateway-rate-limiter.ts:66-76 | the advertised wait is the time left of the counter since its first hit, rounded to the nearest second, or a whole window when that is none |
| RateLimiter.RetryLandsLater | backend/src/api-gateway/gateway-rate-limiter.ts:66-76 | waiting `retryAfterSeconds` lands in a later window if and only if the TTL was not rounded further down than the first hit was late in its window |
| RateLimiter.WholeSecondsRetryLandsLater | backend/src/api-gateway/gateway-rate-limiter.ts:66-76 | on a clock of whole seconds it always does |
| RateLimiter.RetryCanLandInTheSameWindow | backend/src/api-gateway/gateway-rate-limiter.ts:66-76 | a run in which it does not |
| RateLimiter.OneSecondMoreLandsLater | backend/src/api-gateway/gateway-rate-limiter.ts:66-76 | the advertised wait is never longer than a window, and one second more always lands in a later one |
| CustomerRateLimit.Slots | backend/src/customers-depth/customer-rate-limit.service.ts:92-95 | the truncated count, and at least one |
| CustomerRateLimit.CustomerRateLimitService.Consume | backend/src/customers-depth/customer-rate-limit.service.ts:62-133 | one consume per slot, and the last answer decides: goes out with what is left, refused with the wait, or let through unmetered; unenforced without a customer or limit |
| CustomerRateLimit.ConsumeInRun | backend/src/customers-depth/customer-rate-limit.service.ts:87-131 | after any run, with the hits in the window of the last slot: the send goes out with what is left of the limit exactly when they are within it, and is otherwise refused for one to sixty seconds |
| CustomerRateLimit.LastSlotAnswers | backend/src/customers-depth/customer-rate-limit.service.ts:87-106 | the answer to the last slot in terms of the hits in its window |
| CustomerRateLimit.CustomersApart | backend/src/customers-depth/customer-rate-limit.service.ts:48-50 | customers of tenants without a colon in their name never share a counter |
| CustomerRateLimit.SlotsUsed | backend/src/customers-depth/customer-rate-limit.service.ts:90-95 | every slot of a batch is used, in the window of its own instant, accepted or refused |
| CustomerRateLimit.AcceptedIffRoom | backend/src/customers-depth/customer-rate-limit.service.ts:87-115 | any batch is accepted exactly when the slots used before in the window of its last slot, plus its own slots in that window, are within the limit |
| CustomerRateLimit.AcceptedMessagesBounded | backend/src/customers-depth/customer-rate-limit.service.ts:87-131 | over any run of batches and other traffic, accepted messages decided in a window exceed the limit by no more than those whose slots were taken in earlier windows |
| CustomerRateLimit.AcceptedMessagesWithinLimit | backend/src/customers-depth/customer-rate-limit.service.ts:87-131 | accepted messages decided in a window never exceed the limit when no batch crosses into it |
| CustomerRateLimit.BoundedExactlyInOneWindow | backend/src/customers-depth/customer-rate-limit.service.ts:92-95 | a batch sends no more messages than any limit that accepts it if and only if its slots keep to one window |
| CustomerRateLimit.OneWindowAtEveryTiming | backend/src/customers-depth/customer-rate-limit.service.ts:90-95 | the slots of a batch keep to one window at every timing if and only if there is just one |
| CustomerRateLimit.BoundedAtEveryTiming | backend/src/customers-depth/customer-rate-limit.service.ts:90-95 | a lone send keeps, at every timing, to every limit that accepts it if and only if its count is below two, and to one given limit if and only if its slots are within it anyway |
| CustomerRateLimit.BatchSlipsThrough | backend/src/customers-depth/customer-rate-limit.service.ts:92-95 | with a limit of one message a minute, three go out at the turn of a minute |
| Bits.OrIsAppend | backend/src/api-gateway/ip-allowlist.ts:16-22 | shifting left and or-ing a smaller number is appending it |
| Bits.PrefixMask | backend/src/api-gateway/ip-allowlist.ts:89-91 | masking the leading bits clears exactly the host bits |
| IpAddress.ParseIpv4 | backend/src/api-gateway/ip-allowlist.ts:12-23 | the shift-and-or loop computes the positional value of four octets, or refuses |
| IpAddress.ParseIpv6 | backend/src/api-gateway/ip-allowlist.ts:26-61 | the loop over groups computes the positional value of the expanded groups, or refuses |
| IpRoundTrip.Ipv4Accepts | backend/src/api-gateway/ip-allowlist.ts:12-23 | accepted exactly when the text is four octets joined by dots; the value is below 2^32 |
| IpRoundTrip.OctetForms | backend/src/api-gateway/ip-allowlist.ts:14-21 | an octet is a number up to 255 in at most three digits, zeros in front allowed |
| IpAccepted.SpellingReads | backend/src/api-gateway/ip-allowlist.ts:26-61 | every spelling (groups, perhaps one `::`, perhaps a quad at the end) is read as the positional value of its groups, whatever is dropped in front of it |
| IpAccepted.AcceptedSpelling | backend/src/api-gateway/ip-allowlist.ts:26-61 | every accepted text is such a spelling, after anything up to a line terminator when it ends in a quad, and its value is that of the groups, quad included |
| IpAccepted.AcceptedExactly | backend/src/api-gateway/ip-allowlist.ts:26-61 | accepted if and only if the text is a spelling, with what the pattern drops in front |
| IpAccepted.AcceptedPerRfc | backend/src/api-gateway/ip-allowlist.ts:26-61 | an accepted text is spelled as the RFC has it if and only if it is one line and its `::` stands for at least one group |
| IpAccepted.RfcSpellingParses | backend/src/api-gateway/ip-allowlist.ts:64-73 | the whole parser takes every RFC spelling, with the value of its groups |
| IpAccepted.EmptyGapIsAccepted | backend/src/api-gateway/ip-allowlist.ts:40-52 | an accepted text whose `::` stands for no group, and which no RFC spelling yields |
| IpAccepted.TextBeforeALineBreakIsAccepted | backend/src/api-gateway/ip-allowlist.ts:28-36 | an accepted text with a line break, read as the address after it, and which no RFC spelling yields |
| IpRoundTrip.QuadRoundTrip | backend/src/api-gateway/ip-allowlist.ts:12-23 | every 32-bit value printed as a dotted quad parses back |
| IpRoundTrip.FullRoundTrip | backend/src/api-gateway/ip-allowlist.ts:26-61 | every 128-bit value printed as eight hextets parses back |
| IpRoundTrip.ElidedRoundTrip | backend/src/api-gateway/ip-allowlist.ts:26-61 | with any run of zero groups elided it parses back |
| IpRoundTrip.MixedFullRoundTrip | backend/src/api-gateway/ip-allowlist.ts:26-61 | with its low 32 bits as a dotted quad it parses back |
| IpRoundTrip.MixedRoundTrip | backend/src/api-gateway/ip-allowlist.ts:26-61 | with a run elided and the low 32 bits as a quad it parses back |
| IpRoundTrip.ParsedFits | backend/src/api-gateway/ip-allowlist.ts:64-73 | every accepted address is below 2^32 or 2^128, as its version says |
| IpAccepted.LineBreakDropped | backend/src/api-gateway/ip-allowlist.ts:28-36 | what stands before any of the four line terminators ahead of a quad-ending address changes nothing |
| IpAllowlist.MaskTestIsQuotientTest | backend/src/api-gateway/ip-allowlist.ts:89-91 | the mask comparison is equality of the addresses divided by 2^(bits - prefix) |
| IpAllowlist.EntryIsBlock | backend/src/api-gateway/ip-allowlist.ts:89-91 | an entry admits exactly the 2^(bits - prefix) consecutive addresses from its base |
| IpAllowlist.BlockIsAligned | backend/src/api-gateway/ip-allowlist.ts:89-91 | that block is aligned to its size and inside the address space |
| IpAllowlist.PrefixesNest | backend/src/api-gateway/ip-allowlist.ts:89-91 | a longer prefix of a network is contained in every shorter one |
| IpAllowlist.FullPrefixIsExact | backend/src/api-gateway/ip-allowlist.ts:89-91 | a full-width prefix is the exact match |
| IpAllowlist.CidrEntryMeans | backend/src/api-gateway/ip-allowlist.ts:76-92 | the text `address/prefix` admits exactly the callers of its version in the aligned block of the address |
| IpAllowlist.IsIpAllowed | backend/src/api-gateway/ip-allowlist.ts:98-108 | everyone when all entries are blank; otherwise exactly readable callers that some entry matches |
| IpAllowlist.EntryMeans | backend/src/api-gateway/ip-allowlist.ts:76-92 | an entry, with or without a prefix, admits exactly the callers of its version in its aligned block |
| IpAllowlist.AllowedExactlyInBlocks | backend/src/api-gateway/ip-allowlist.ts:98-108 | a list of readable entries admits exactly the readable callers in the union of their blocks; only the empty list admits everyone |
| Histogram.Histogram.Record | perf/lib/stats.js:20-29 | keeps buckets, overflow, count, sum, least and greatest in agreement with the list of all clamped samples |
| Histogram.Histogram.Percentile | perf/lib/stats.js:31-41 | for 0 < p <= 100 the sample of the least rank k with 100 k >= p n, rounded down, when that is within the buckets, else the maximum rounded to the nearest; 0 for p <= 0; the rounded maximum for p > 100 |
| Histogram.RankIsUnique | perf/lib/stats.js:31-41 | no other rank meets that condition |
| Histogram.AscendingSorts | perf/lib/stats.js:31-41 | the ranked samples are all the samples in ascending order |
| Histogram.PercentileMonotone | perf/lib/stats.js:31-41 | a higher percentile is never smaller |
| Histogram.Histogram.BucketsAddUp | perf/lib/stats.js:20-29 | buckets plus overflow are the count |
| Histogram.Histogram.Average | perf/lib/stats.js:43-45 | the mean of the samples, between the least and the greatest |
| Quota.CustomerQuotaService.SetQuota | backend/src/customers-depth/customer-quota.service.ts:89-122 | sets the cap and keeps the usage; a new row is unused and starts now; bad limits and unknown customers change nothing |
| Quota.CustomerQuotaService.RemoveQuota | backend/src/customers-depth/customer-quota.service.ts:125-140 | removes that row only and says whether it was there |
| Quota.CustomerQuotaService.ConsumeInClient | backend/src/customers-depth/customer-quota.service.ts:169-214 | accepted exactly when the usage of every configured window plus the count is within its cap; then every row counts it, in a new window if its own was over, else nothing changes and the first cap exceeded is named |
| Quota.RunAgrees | backend/src/customers-depth/customer-quota.service.ts:49-61 | along every run each counter is the sum accepted in the current UTC day or month since the row was made |
| Quota.AcceptedIffItFits | backend/src/customers-depth/customer-quota.service.ts:185-195 | accepted exactly when, for every configured period, that sum plus the count is within the cap; a refusal changes no row |
| Quota.AcceptedStaysWithinCap | backend/src/customers-depth/customer-quota.service.ts:185-214 | after an accepted send the sum in each period's window is within its cap |
| Credit.StepKeeps | backend/src/customers-depth/customer-credit.service.ts:49-67 | every step of concurrent transactions keeps balances, pending writes and locks in agreement with the ledger |
| Credit.LedgerIsSound | backend/src/customers-depth/customer-credit.service.ts:133-179 | in every interleaving the committed balance is the total of the credits less the total of the debits, each `balance_after` is that up to its entry, none is negative, and entries stand in posting order |
| Credit.NeverNegative | backend/src/customers-depth/customer-credit.service.ts:139-149 | no committed balance is ever negative |
| Credit.CustomerCreditService.CurrentBalance | backend/src/customers-depth/customer-credit.service.ts:49-67 | locks the row, creating it at zero, and reads the transaction's own write first |
| Credit.CustomerCreditService.PostInClient | backend/src/customers-depth/customer-credit.service.ts:133-179 | posts exactly when the balance in view plus a credit, or less a debit, is not negative, recording the resulting balance; otherwise only the lock is taken |
| Credit.CustomerCreditService.PostTransaction | backend/src/customers-depth/customer-credit.service.ts:107-119 | for a known customer and a positive amount a credit always succeeds and adds, a debit succeeds exactly when the balance covers it and subtracts; one committed entry and balance, or nothing changed, with each reason for refusal |
| BackupScheduler.RunTenant | backend/src/backup-dr/backup-dr.scheduler.ts:112-137 | every due schedule is run and marked once whether or not its backup succeeds, none is due afterwards, and the count is of successes |
| BackupScheduler.AtMostOneBody | backend/src/backup-dr/backup-dr.scheduler.ts:53-109 | with any number of replicas at most one cycle body runs at a time, and a replica has at most one cycle |
| BackupScheduler.RunsAreApart | backend/src/backup-dr/backup-dr.repository.ts:605-631 | in every interleaving, crashes included, a recorded run keeps later runs of its schedule at least its interval (or a day) away |
| BackupScheduler.FaultlessRunsAreApart | backend/src/backup-dr/backup-dr.scheduler.ts:12-18 | without crashes and failed marks all successive runs are that far apart, even when backups fail |
| ScheduleVersions.BackupRepository.UpdateSchedule | backend/src/backup-dr/backup-dr.repository.ts:558-602 | writes exactly the given fields and the next version, or reports a missing row or a conflict and writes nothing |
| ScheduleVersions.BackupRepository.MarkScheduleRan | backend/src/backup-dr/backup-dr.repository.ts:623-631 | a tick changes the two run times and not the version |
| ScheduleVersions.AssignmentsPatch | backend/src/backup-dr/backup-dr.repository.ts:565-571 | the assignments gathered column by column make exactly the patched row |
| ScheduleVersions.WhatOpens | backend/src/backup-dr/backup-dr.controller.ts:201-241 | exactly when a PATCH is answered 404, 412 or goes on to its update, and which version it asserts |
| ScheduleVersions.EditedRow | backend/src/backup-dr/backup-dr.controller.ts:213-243 | an uncontended PATCH sets each given field, the next run a new interval from now, and the next version; everything else stays |
| ScheduleVersions.OneUpdatePerVersion | backend/src/backup-dr/backup-dr.repository.ts:572-586 | each success raises the version by one, and no version of a schedule is updated twice |
| ScheduleVersions.OnlyUpdatesBump | backend/src/backup-dr/backup-dr.repository.ts:618-631 | a version changes only by a logged update that starts from the current row |
| ScheduleVersions.IfMatchUpdatesWhatWasRead | backend/src/backup-dr/backup-dr.repository.ts:576-594 | an update that asserts a version starts from the operator-edited fields that any reader of that version read |
| ScheduleVersions.SafeEditsKeepCadence | backend/src/backup-dr/backup-dr.controller.ts:201-247 | when every edit carries If-Match or does not clear one of cron and interval while leaving the other alone, every schedule keeps a cron expression or an interval, in every interleaving |
| ScheduleVersions.SafeExactly | backend/src/backup-dr/backup-dr.controller.ts:201-247 | a body may go without If-Match exactly when it is safe: then, and only then, every run of it among safe edits keeps every cadence |
| ScheduleVersions.UnsafeEditCanDropTheCadence | backend/src/backup-dr/backup-dr.controller.ts:236-243 | for every body that is not safe, a run of it beside one edit under If-Match that ends with neither |
| QueueMetrics.MeasureIntervals | backend/src/connectivity/queue-metrics.ts:96-113 | the loop gathers the rates, counts and durations of exactly the kept intervals, and counts the resets |
| QueueMetrics.DeriveQueueRates | backend/src/connectivity/queue-metrics.ts:77-145 | the rates of the dated samples in time order, in every case of too few samples or intervals |
| QueueMetrics.OrderedIsInTime | backend/src/connectivity/queue-metrics.ts:77-82 | the rates are measured on the samples with a readable instant, each as often as given, in time order |
| QueueMetrics.ReportedBeside | backend/src/connectivity/queue-metrics.ts:82-113 | depth is the latest, samples and resets are counted, the span is in seconds, and the reason is named when there is no rate |
| QueueMetrics.EgressIsAMean | backend/src/connectivity/queue-metrics.ts:115-128 | egress is null exactly when no interval is kept; else it is non-negative and between the least and greatest interval rate |
| QueueMetrics.FlowIsConserved | backend/src/connectivity/queue-metrics.ts:98-134 | with strictly increasing times and no reset, over the whole span egress accounts for what left, and ingress for what left plus what the queue gained, or nothing when that is negative |
| QueueMetrics.DrainIsExact | backend/src/connectivity/queue-metrics.ts:148-176 | an empty queue is drained; with a depth an estimate exists exactly without resets, with positive egress and steady rates, and estimate times egress is the depth; otherwise the first failing condition is the reason |
| QueueMetrics.RootTest | backend/src/connectivity/queue-metrics.ts:179-185 | comparing squares is comparing the relative standard deviation |
| QueueMetrics.VolatileMeans | backend/src/connectivity/queue-metrics.ts:179-185 | rates vary too much exactly when there are three or more and n times their sum of squares exceeds 1.36 of their squared sum, or they are all zero |
| QueueMetrics.OrderDoesNotMatter | backend/src/connectivity/queue-metrics.ts:78-81 | samples with distinct times give the same result in any order |
| QueueMetrics.ShiftDoesNotMatter | backend/src/connectivity/queue-metrics.ts:77-145 | a constant offset of the clock and of the counter changes no result |
| GatewayPerformance.WidthFits | backend/src/connectivity/gateway-performance.service.ts:114-122 | the bucket width is the narrowest that meets the target up to 2880 minutes, and the widest beyond |
| GatewayPerformance.WindowIs | backend/src/connectivity/gateway-performance.service.ts:114-119 | the window is six hours without a number, else that many whole minutes kept between five and a week |
| GatewayPerformance.PollsAreSums | backend/src/connectivity/gateway-performance.service.ts:197-205 | grouping by instant gives one ascending poll per observed instant, with the sum of its snapshots |
| GatewayPerformance.InstantHasItsPoint | backend/src/connectivity/gateway-performance.service.ts:189-215 | every observed instant is shown by the point that starts its width, whose peak is at least the gateway-wide sum of that instant |
| GatewayPerformance.PeakIsGreatestPoll | backend/src/connectivity/gateway-performance.service.ts:144-146 | the greatest bucket peak is the greatest gateway-wide sum of any poll |
| GatewayPerformance.PeakWithinSumOfPeaks | backend/src/connectivity/gateway-performance.service.ts:189-223 | it never exceeds the sum of the binds' own peaks, for non-negative rates and each bind once per poll |
| GatewayPerformance.BucketMeansAverageOut | backend/src/connectivity/gateway-performance.service.ts:206-213 | bucket means weighted by samples add up to the polls, and the samples to their number |
| GatewayPerformance.FewPoints | backend/src/connectivity/gateway-performance.service.ts:114-122 | any window yields at most 49 points up to 2880 minutes and at most 169 beyond |

## Left out

- Error message texts: validation and consume errors are values; which rule or field failed is modelled, the wording is not.
- Collation: `localeCompare` may tie distinct strings in some locales; canonicity is stated for a total order.
- Values outside the TypeScript types (a number where a string is declared, an unknown link kind), and numbers printed with an exponent.
- `configuration-diff` and `config-drift`: they would add only easy members.
- `Metrics` of perf/lib/stats.js: counters and per-label histograms without a property of their own.
- Network and process calls (native validation, reload, box counts, S3, backup tools): their outcomes are parameters.
- Redis fail-open paths beyond one call: the bounds per window are stated for runs in which Redis answers.
- A lock connection lost while its backup cycle goes on, and operator edits between scheduler runs.
- Multi-tab token refresh, a rotation whose answer is lost, and the copy of the tokens kept in browser storage.
- Sampling and ceiling queries of the performance screen, the inbound averages (the same aggregation as outbound) and null rates.
- Checksums, audit rows, row-level security, tenants of rate-limit and quota rows: one tenant's rows are modelled.
- Floating-point rounding and 32-bit bucket counters.
- Window lengths: the whole-run results take one per limiter, as all callers use.
