# A verified model of the uapi Terraform provider

The provider manages OpenWrt routers through the uapi REST API. This project models the parts of it
where the difficulty lies, and proves what they are for:

1. **The request protocol** (`Backoff`, `Protocol`, `ExactlyOnce`, `Bounds`, `Retries`, `GuardedRuns`,
   `QuietRuns`, `Query`, `Pages`).
   `Client.do` is a retry loop over a network that loses requests and answers. `Protocol` plays it against
   a schedule: for each attempt, what is lost, what the server decides, when things arrive, and which other
   writers commit in between. `Protocol.Do` is the loop itself, `Protocol.Run` the function that it is proved
   equal to, and the theorems are about `Run` on every schedule.
2. **The merge patch and the wire codec** (`Json`, `Numerals`, `Text`, `Codec`, `Delta`).
3. **The discriminator-scoped planner** (`FieldScope`, `Schema`, `Router`, `Apply`, `Converge`, `Patch`,
   `Lifecycle`, `Interface`, `Rejections`). A plan is what Terraform proposes, then what the plugin framework marks unknown,
   then UseStateForUnknown, then the provider's own hook. `Lifecycle` runs applies, refreshes, imports and
   edits by others in any order against a router. `Interface` puts in the real scope table and attributes of
   `network_interface`, and `Rejections` gives two histories of it whose last apply Terraform rejects.
4. **The generator** (`Spec`, `ScopeCompiler`, `ScopeTables`, `Builder`, `Emit`, `EndToEnd`). Spec entries are compiled to the
   table that the planner interprets, properties to fields, fields to put and read statements. The statements
   are a small language with a meaning. `EndToEnd` takes one specification through all of it, to the request that
   the planned statements build.
5. **The state upgraders** (`Upgrades`).

Code that the repository writes as loops over variables, maps and models is written as methods with loops over
class fields here, and each is proved equal to a function of its inputs. The theorems are about those functions.

## What is assumed of the server

The server is not in the repository. The model takes it from what the client's and the generator's comments
say: a 423 or 429 committed nothing; the 2xx answer to a keyed POST is cached for 24 hours
(`internal/client/client_test.go:393`) and given again to the same key; If-Match is compared in the same step
as the commit; ETags are never empty and differ for different documents; any other refusal committed nothing
and is no 412, 423 or 429, and no 404 while the section is there (`QuietRuns`). uci keeps no null, no empty string and no empty list. A field that the discriminator
value does not take is refused on write, unless the write asks for nothing there, and is left out of a read.
A PUT or POST with a discriminator outside the request enum is refused, and so may be any request by other
validation, such as a static interface without an address: each apply carries that verdict. What a read answers
for an absent option (a default) and for a read-only attribute are parameters. `Router.WellBehaved` states what
the planner needs of them. A default may come with some discriminator values and not with others, as
`nohostroute` does with wireguard (`internal/provider/mock_uapi_test.go:207-211`), and `Interface.ContractCanBeMet`
shows that the router which the provider's tests describe meets the contract.

## What turned out to be conditional

These properties hold exactly under a condition, and each is proved in both directions:

- **At most one commit per POST** needs a non-empty key, and a server that never asks for a pause above
  86 235 s: retryWait honours any Retry-After, even across the end of the retry budget, and a longer one lets the
  24-hour key cache forget the commit before the replay (`ExactlyOnce.NeverTwiceIff`). A Retry-After above
  9 223 372 036 s wraps to a negative wait (`Backoff.LongestHonestPause`).
- **Query parameters** reach the server exactly when the target holds no `#` (`Query.AddQueryParsesBack`).
- **The merge patch** is right on every object that the router can hold exactly when no changed value is an object
  (`Delta.DeltaPatches`); the provider's bodies hold none.
- **Integers** survive JSON exactly when float64 holds them (`Numerals.IntegerTrip`), and **integer-or-string
  texts** when they are no numeral, or a canonical one below 10^6 in magnitude (`Codec.UnionTripIff`).
- **A configured value** reads back exactly when JSON and float64 carry it and it is no empty string
  (`Codec.EchoReadsBack`, `Emit.EmittedRoundTrip`). Any other value is in the next plan again
  (`Converge.ReplaceConvergesIff`).
- **An apply is what Terraform planned** exactly when every configured value reads back, no null that the plan carries
  over a switch has a default under the new value, and the ETag was planned unknown or nothing stored changes
  (`Lifecycle.EveryModelledApply`).
- **A null carried over a switch** reads back as planned exactly when the table makes the field an entering one or the
  new value has no default for it (`Converge.NullAcrossSwitchIff`). The table does not know the defaults. On the
  router that the tests describe it fails exactly in a switch from a proto that uapi does not model to wireguard with
  `nohostroute` unset (`Interface.OnlyForeignSwitchesTrip`, `Rejections.ForeignSwitchIsRejected`).
- **A plan that only the hook changes** exists exactly when the state holds an empty list for a field that does not
  apply and that the configuration no longer sets (`Converge.HookAloneChangesOnlyEmptyLists`). Nothing was marked
  unknown by then, so the plan keeps the old ETag, and Terraform accepts the result exactly when the router held
  nothing that the body does not store (`Lifecycle.HookAloneIsAcceptedIff`,
  `Rejections.InterfaceListRemovalIsRejected`).
- **validateConfig reports every attribute** that uapi would refuse exactly when no two different ones are refused: its
  loop stops at the first error (`FieldScope.AllReportedIff`, `Interface.OneOfTwoIsReported`).
- **A generated table fits the planner** exactly when its discriminator is a plain settable string attribute that no rule
  nulls: the generator checks the nulled fields, not the discriminator (`EndToEnd.TableFitsIff`).
- **Requests obey the specification** whenever the configuration sets the discriminator (`EndToEnd.RequestsObeyTheSpec`).
  A required one always is, such as proto. With an optional one left out, validateConfig checks nothing and the state's
  value is sent: the request obeys exactly when the configuration asks for nothing that this value does not take
  (`EndToEnd.UnsetSwitchObeysIff`, `EndToEnd.UnsetSwitchDisobeys`).
- **The generator reads a switch** as JSON Schema does exactly when it has a constant or an enum, the constant
  is an entry of the enum when both are there, and a null constant comes without entries (`ScopeCompiler.SwitchMeaning`).
- **The redirect upgrader** is idempotent exactly when no list nests in a list (`Upgrades.CollapseIsIdempotent`);
  the comment at `internal/provider/state_upgrades.go:28` says so without the condition. A prior state of the
  provider never held such a list: its lists were lists of strings.

## Model

| member | source | states |
|---|---|---|
| Protocol.Do | internal/client/client.go:126-242 | the retry loop, with its in-place deadline and clock, ends in the call state and outcome that the step function of the protocol gives for every schedule; a key is drawn once, for POST only |
| Protocol.TryOnce | internal/client/client.go:156-241 | one pass of the loop: transport failure, torn body, throttling and final answer each lead where the protocol's step says |
| Protocol.ReplayPost | internal/client/client.go:252-270 | a replay happens for a POST only, never after a cancelled context or the client timeout, within budget and cap, and sets the shared deadline once |
| ExactlyOnce.HandleEffect | internal/client/client.go:244-251 | the server's answer to any request leaves the log as it was or adds one commit of the client's, never for a GET and never while the key's cached answer lives |
| ExactlyOnce.RunKeepsInvariant | internal/client/client.go:156-242 | from any point of the loop at which a POST's key is unused or cached with its one commit, or another method has committed nothing: the rest of the call ends with at most one commit and an outcome that tells the truth about it |
| ExactlyOnce.DoCommitsOnce | internal/client/client.go:135-139 | a call commits at most once, a GET never; a write that reports success committed exactly once and returns the ETag of that very commit; an error answer means no commit unless it is a POST's; for a POST over every schedule whose pauses the key cache outlives, for the other methods over every schedule |
| ExactlyOnce.NeverTwiceIff | internal/client/client.go:183-218 | no schedule makes a request commit twice if and only if it is no POST, or carries a key and every pause the server asks for is at most 86 235 s |
| ExactlyOnce.ExpiredKeyCommitsTwice | internal/client/client.go:275-280 | one second more, and a lost answer, a long Retry-After and the replay make two commits |
| ExactlyOnce.MissingKeyCommitsTwice | internal/client/client.go:40-46 | a POST whose key could not be drawn commits twice when its first answer is lost |
| ExactlyOnce.KeyedHandle | internal/client/client.go:244-251 | while the cached answer lives, the server answers a keyed POST with its one commit instead of committing again |
| ExactlyOnce.OtherTransmit | internal/client/client.go:247-249 | an attempt without replay commits at most once; an answered refusal means nothing was committed, an answered success of a write exactly one commit, with its ETag |
| Bounds.AtMostFiftyOne | internal/client/client.go:32-35 | a call sends at most 51 requests, whatever the server and its Retry-After |
| Bounds.AtMostFourteen | internal/client/client.go:272-292 | with no usable Retry-After a call sends at most 14 requests, the last less than 50.2 s after the first failure was seen |
| Bounds.BoundsAreReached | internal/client/client.go:205-217 | neither bound can be lowered: a server that stays locked draws exactly 14, or exactly 51, requests |
| Retries.WhyCallsStop | internal/client/client.go:183-218 | for every schedule and server a call ends for a reason that its last turn shows: a POST without its answer only after a client that gave up, an ended context, the 51st request or the 45 s budget; another method without its answer at once; a throttled call only at the 51st request, after the budget or with its context; and every earlier turn was one to go on after |
| Retries.PostGetsThrough | internal/client/client.go:183-203 | a keyed POST whose first n turns are lost requests, lost or torn answers, 423s or 429s within the budget, and whose next turn is answered and accepted, sends n + 1 requests at the times that the pauses give and ends in success with the ETag of its one commit |
| Retries.OthersGetThrough | internal/client/client.go:204-217 | any other method gets through 423s and 429s within the budget to the first other answer, at the time that the pauses give |
| Backoff.BackoffBounds | internal/client/client.go:281-291 | every backoff lies in [200 ms, 5.2 s) and inside int64 at any attempt |
| Backoff.BackoffTable | internal/client/client.go:281-291 | the waits are 200, 400, 800, 1600 and 3200 ms and then 5 s, with the jitter on top |
| Backoff.RetryAfterIff | internal/client/client.go:276-280 | the header counts if and only if it is a numeral within int64 that is not negative, white space at its ends aside |
| Backoff.HeaderInSeconds | internal/client/client.go:275-280 | a Retry-After of whole seconds, padded or not, is honoured as it stands at every attempt, while its nanoseconds fit int64 |
| Backoff.LongestHonestPause | internal/client/client.go:278 | at every attempt the wait is the Retry-After, without jitter, if and only if its nanoseconds fit int64; the next second wraps negative |
| GuardedRuns.NoLostUpdate | internal/client/client.go:152 | over every life of a resource with other writers anywhere, each committed update or delete replaced exactly the document whose non-empty ETag it had sent |
| GuardedRuns.UpdateTouchesOnlyWhatWasRead | internal/gen/renderers.go:420-444 | what an update or delete replaces is the document that the state last read |
| GuardedRuns.RefusedMeansRival | internal/client/client.go:247-249 | a 412 on an ETag that was current at the start means that another writer committed before an attempt, and that the call itself committed nothing |
| QuietRuns.QuietRun | internal/client/client.go:220-240 | with nobody else writing and nothing lost, a call that its guard does not stop ends in what the last verdict of the server says: accepted, it reports success with the ETag of what the section then holds; refused, it reports that refusal and nothing changed |
| QuietRuns.QuietStep | internal/gen/renderers.go:391-444 | one create, refresh, update or destroy of such a life: the section changes exactly as the accepted request asks, and afterwards a state exists if and only if the section does, with the ETag of what it holds |
| QuietRuns.QuietLivesStayInStep | internal/gen/renderers.go:402-443 | so it is after every operation of such a life, whatever the answers of the server |
| QuietRuns.NothingIsStale | internal/gen/renderers.go:420-444 | no update, destroy or refresh of such a life is answered 412 or 404 |
| QuietRuns.OutOfStepChangesNothing | internal/client/client.go:247-249 | a state that is out of step overwrites nothing: updates and destroys are refused, and a refresh or a destroy that finds the section gone drops the state |
| QuietRuns.RefreshHeals | internal/gen/renderers.go:406-418 | from any state a quiet refresh that the server answers brings the state back in step: the ETag of what is there, or no state |
| Query.AddQueryParsesBack | internal/client/client.go:141-151 | the target parses back to its old parameters and exactly the added one if and only if it holds no fragment; its own text stays, and an empty value adds nothing |
| Query.TargetCarriesBothGuards | internal/client/client.go:152-153 | the server reads if_match and idempotency_key, each exactly when non-empty, after the caller's own parameters |
| Query.UnescapeOfEscape | internal/client/client.go:150 | unescaping undoes escaping for every byte string |
| Query.EscapeOfByte | internal/client/client.go:150 | an escaped byte is itself, a plus for a space, or a percent sign and its two upper-case hex digits |
| Query.EscapeOfAppend | internal/client/client.go:150 | a value is escaped byte by byte |
| Query.EscapedHasNoSeparator | internal/client/client.go:150 | an escaped value cannot be taken for another parameter or a fragment |
| Query.FragmentHidesTheQuery | internal/client/client.go:146-150 | behind a `#` the server sees none of an added parameter |
| Query.PageTargetCarriesTheCursor | internal/client/client.go:368-375 | the server reads the caller's own parameters, a limit of 500, and the cursor that it handed out, none on the first page |
| Pages.Collect | internal/client/client.go:364-396 | the paging loop returns what following the cursors gives, and stops within 1000 fetches on any server |
| Pages.GetList | internal/client/client.go:364-396 | the same with the targets that the client composes |
| Pages.GetListIsComplete | internal/client/client.go:362-396 | however a server cuts its list into pages, up to 1000 of them give exactly that list in order, and more give its first 1000 pages |
| Pages.NextAnswerDecides | internal/client/client.go:376-392 | whatever pages came before, a failed page fails the whole call with its error, and a page without a cursor completes the list |
| Pages.EndlessServerIsCutOff | internal/client/client.go:390-395 | a server that offers a next page forever yields the concatenation of its first 1000 pages |
| Delta.MergeDelta | internal/provider/helpers.go:173-186 | the two map loops, in any iteration order, build the least patch function |
| Delta.DeltaPatches | internal/provider/helpers.go:167-172 | RFC 7396 with the delta gives, on every object, the plan on each changed key and the object's own value elsewhere, if and only if no changed value is an object |
| Delta.FlatBodiesPatch | internal/provider/helpers.go:167-186 | for flat bodies that holds on every target, without condition |
| Delta.DeltaTurnsPriorIntoPlanned | internal/provider/helpers.go:167-169 | on the prior body itself the patch gives the planned body |
| Delta.DeltaIsLeast | internal/provider/helpers.go:173-186 | every merge patch from the prior to the planned body names all keys of the delta, with the same values |
| Delta.DeltaEmptyIff | internal/provider/helpers.go:173-186 | the patch is empty if and only if the bodies are equal |
| Codec.ListVal | internal/provider/helpers.go:92-110 | the array loop keeps strings, prints other elements and skips nulls, and tells an absent list from an empty one |
| Codec.PutIntOrStr | internal/provider/helpers.go:133-143 | the member is a number if and only if the text is an optional sign and digits within int64, with that value, and the text itself otherwise; null and unknown leave the map alone, and so does a put every other member |
| Codec.AfterPuts | internal/provider/helpers.go:124-155 | the wire form of every coding, without the encoder: texts, booleans, integers and lists of texts in the JSON type of theirs, an integer-or-string text as a number if and only if it is a numeral within int64 |
| Codec.PrintedIntegerIsNumber | internal/provider/helpers.go:130-143 | every int64 that a configuration prints goes out as that number |
| Codec.ReadsByType | internal/provider/helpers.go:48-122 | each read takes its own JSON type and gives null for null, an absent member or another type, but a string takes any member as text, a boolean with a default reads false and a known empty list stays |
| Codec.ElementsAppend | internal/provider/helpers.go:100-109 | a list reads element by element and in order |
| Codec.ElementAlone | internal/provider/helpers.go:101-109 | a null element goes, any other stays as its text |
| Codec.PutList | internal/provider/helpers.go:188-195 | a known list, an empty one included, goes into the map in order; null and unknown leave the map alone |
| Codec.EchoReadsBack | internal/provider/helpers.go:48-155 | an echoed value reads back as it was put if and only if JSON and float64 carry it |
| Codec.EchoIsFaithful | internal/provider/helpers.go:48-155 | what any known value reads back as is a value that reads back, so every state of the provider holds only such values |
| Codec.EncodeIsInjective | internal/provider/helpers.go:124-155 | faithful values with the same wire form are the same, so the patch misses no change to one |
| Codec.UnionTripIff | internal/provider/helpers.go:130-143 | the integer-or-string trip is the identity exactly on texts that are no numeral and on canonical numerals below 10^6 in magnitude |
| Codec.UnionTripIsIdempotent | internal/provider/helpers.go:53-58 | a second trip changes nothing, whatever the text |
| Numerals.IntegerTrip | internal/provider/helpers.go:72-86 | an int64 comes back through JSON and float64 if and only if float64 holds it |
| Numerals.AtoiIff | internal/provider/helpers.go:138 | a text parses as an integer if and only if it is an optional sign and digits, within int64, and then with that value |
| Numerals.ValueIsPositional | internal/provider/helpers.go:138 | digits count by their place |
| Numerals.RoundsToNearestEven | internal/provider/helpers.go:77-79 | a JSON integer becomes the nearest float64, of two the one with the even significand |
| Numerals.LargestComesBackLeast | internal/provider/helpers.go:78-79 | the largest int64 rounds out of range and comes back as the least one |
| Numerals.SmallIsExact | internal/provider/helpers.go:78-79 | every integer of magnitude up to 2^53 is held exactly |
| Numerals.FirstInexact | internal/provider/helpers.go:78-79 | 2^53 + 1 is not, so that bound is sharp |
| Numerals.TripIsExact | internal/provider/helpers.go:72-86 | what any integer reads back as is held exactly, so a second trip changes nothing |
| Numerals.ItoaOfAtoi | internal/provider/helpers.go:137-140 | a numeral that was parsed prints as it was if and only if it was canonical |
| Numerals.ExponentFormIsNoNumeral | internal/provider/helpers.go:57 | what `%v` prints from 10^6 on does not parse as an integer again |
| Numerals.ExponentFormIs | internal/provider/helpers.go:57 | what `%v` prints from 10^6 on: sign, first digit, the others behind a point, an exponent of at least two digits, and no zero at the end of the digits, which spell the value |
| FieldScope.Scope.ComputeExcluded | internal/provider/field_scope.go:33-41 | the loop collects the fields of exactly the rules that name the value |
| FieldScope.ExcludedMembers | internal/provider/field_scope.go:31-41 | a field is excluded for a value if and only if one rule names both |
| FieldScope.ExcludedAppend | internal/provider/field_scope.go:33-41 | a table lists the fields rule by rule, in its own order |
| FieldScope.ValidateConfig | internal/provider/field_scope.go:65-86 | with an earlier error nothing is added; else there is no error if and only if the discriminator is no known text or no field that it does not take holds a known value other than an empty list, and otherwise exactly one, for the first such field in table order |
| FieldScope.ReportedIsFirst | internal/provider/field_scope.go:71-85 | what the check reports is the first field that the configuration asks for and the value does not take, and nothing when there is none |
| FieldScope.AllReportedIff | internal/provider/field_scope.go:71-85 | every field that uapi would refuse is reported if and only if no two different ones are refused |
| Interface.OneOfTwoIsReported | internal/provider/field_scope.go:71-85 | a static interface with `clientid` and `hostname` set: one of the two is not reported |
| FieldScope.ValidIff | internal/provider/field_scope.go:61-64 | nothing is reported if and only if the configuration sets no field that its value does not take, empty lists aside |
| FieldScope.Plan | internal/provider/field_scope.go:126-148 | a pass sets each Computed field that the configuration leaves out, and stops at the first attribute that the schema lacks |
| FieldScope.ModifyPlan | internal/provider/field_scope.go:93-121 | the hook with its early returns rewrites the plan as the null pass and the unknown pass say |
| FieldScope.PassesRefinePointwise | internal/provider/field_scope.go:88-121 | for every table, repeated fields and rules included, the passes give each field by itself: kept, null, or unknown |
| FieldScope.PassesCommute | internal/provider/field_scope.go:109-120 | the two passes touch disjoint fields, so their order does not matter |
| FieldScope.ModifyIsIdempotent | internal/provider/field_scope.go:93-121 | running the hook on its own result changes nothing |
| FieldScope.UnknownPlanIsSafe | internal/provider/field_scope.go:91-107 | a plan made while the discriminator is unknown promises no other field a value that the plan for any later value of the discriminator breaks |
| FieldScope.ModifyFailsIff | internal/provider/field_scope.go:123-140 | the hook reports an error if and only if the discriminator or a field that it would plan is no attribute |
| Schema.FullPlanIs | internal/provider/schema_helpers.go:60-123 | proposing, marking unknown, keeping state and the hook together plan each attribute from its configuration, its prior value and the two discriminator values alone |
| Schema.BodyHolds | internal/gen/renderers.go:100-119 | a body has a member for an attribute if and only if its value is known and the caller can set it, create-only ones on a create alone, in the JSON form of the value |
| Schema.ReadHolds | internal/gen/renderers.go:122-141 | a read keeps write-only and create-only attributes and takes every other one from the answer by its type |
| Apply.ReplaceIsAccepted | internal/provider/field_scope.go:88-92 | whatever the prior state and the other values of a configuration that passes validateConfig, unknown ones included, a POST or PUT body carries nothing, or an empty list, for each field that the planned value does not take, so the server's scope rule passes it |
| Apply.ReplaceIsAsPlannedIff | internal/provider/network_interface_resource.go:270-299 | after a create or PUT every settable attribute that was planned known reads back as planned, if and only if every configured value is one that reads back and no null that the plan carries over a switch has a default |
| Converge.RefreshSettles | internal/provider/network_interface_resource.go:249-268 | a refresh leaves a state from which the other results hold, whatever others stored |
| Converge.ReplaceSettles | internal/provider/network_interface_resource.go:227-247 | a create or PUT leaves such a state too |
| Converge.ReplaceConvergesIff | internal/provider/network_interface_resource.go:270-299 | the same configuration planned against the state that a create or PUT left is that state, whatever the server filled in, if and only if every configured value is one that reads back |
| Converge.HookAloneChangesOnlyEmptyLists | internal/provider/field_scope.go:109-110 | when Terraform proposes no change the hook changes a field if and only if it turns a held, inapplicable, unconfigured empty list into null |
| Converge.NullAcrossSwitchIff | internal/provider/field_scope.go:114-120 | a null kept across a switch reads back as planned if and only if the field is an entering one or has no default |
| Patch.ScopedPatchIsReady | internal/provider/helpers.go:169-172 | in the PATCH branch of a scoped update no sent attribute is planned unknown |
| Patch.PlainPatchIsReady | internal/provider/wireless_device_resource.go:158-179 | in a resource that always patches no sent attribute is planned unknown either |
| Patch.NullsAreRemovals | internal/provider/helpers.go:180-184 | a patch member is null if and only if the plan removes a value that the state holds |
| Patch.PatchNamesChanges | internal/provider/helpers.go:173-186 | a patch names an attribute if and only if its planned value differs from the state's on the wire, which for a value that reads back means if and only if it differs |
| Patch.PatchIsAsPlannedIff | internal/provider/network_interface_resource.go:287-291 | when the server takes the patch, every settable attribute that was planned known reads back as planned if and only if every planned value is one that reads back; every option that the resource does not model is kept in any case |
| Patch.PlainUpdateIsConsistentIff | internal/provider/wireless_device_resource.go:76-179 | a resource without a discriminator that always patches: when a change is proposed every attribute that was planned known, read-only ones included, reads back as planned if and only if every configured value is one that reads back, and unmodelled options are kept; when none is, nothing is planned |
| Patch.ScopedPatchPassesTheGate | internal/provider/field_scope.go:43-51 | the patch leaves the unmodelled discriminator value out, so the type gate lets it through |
| Lifecycle.RunKeepsInvariant | internal/gen/renderers.go:390-448 | every run of applies, refreshes, imports and edits by others keeps the state settled, and equal to what a read of the document with the held ETag gives |
| Lifecycle.ApplyOverwritesOnlyWhatWasRead | internal/gen/renderers.go:370-382 | at every point of every run an apply on a section that is gone, or that holds another document than the one whose ETag is in the state, changes nothing; so an apply that changes the router found no state, or replaced the document that the state was read from earlier in the run |
| Lifecycle.ReadsTellTheTruth | internal/gen/renderers.go:406-418 | at every point of every run a refresh or an import leaves the router alone, leaves a state if and only if there is a section, settled and with its ETag, so that the next apply may write; a refresh without a state and an import into one change nothing |
| Lifecycle.EveryModelledApply | internal/provider/field_scope.go:88-121 | at every point of every run an apply that may write and names a modelled value does nothing when there is nothing to do or other validation refuses it, and else is never refused for its scope and stores its body; the next plan is empty if and only if every configured value reads back; Terraform accepts the result, ETag included, if and only if moreover no carried null has a default and the ETag was planned unknown or nothing stored changes |
| Lifecycle.HookAloneIsAcceptedIff | internal/provider/field_scope.go:109-110 | an update that only the hook causes is accepted by Terraform if and only if the router held just what the body stores |
| Lifecycle.CarriedNullIsRejected | internal/provider/field_scope.go:114-120 | a switch that carries a null over to a default is rejected by Terraform |
| Lifecycle.EveryUnmodelledUpdate | internal/provider/field_scope.go:43-51 | at every point of every run an update that keeps an unmodelled value passes the type gate; unless there is nothing to do or the server refuses it, the other handler's options are kept, and Terraform accepts the result with nothing more to plan if and only if every configured value reads back |
| Lifecycle.ForeignWriteIsRefused | internal/provider/field_scope.go:43-47 | a create with an unmodelled value, or a switch to one, changes nothing |
| Lifecycle.EveryApply | internal/gen/renderers.go:370-434 | at every point of every run every apply of a good configuration comes to one of these results, stale and foreign ones included |
| Lifecycle.ConvergedPlansNothing | internal/gen/renderers.go:420-434 | after a stored write the plan of the same configuration is the state itself, and a second apply does nothing |
| Interface.InterfaceFits | internal/provider/network_interface_resource.go:27-36 | the real table names only settable attributes and known protos and not its own discriminator, so the general results apply to it |
| Interface.ContractCanBeMet | internal/provider/mock_uapi_test.go:191-212 | the router that the tests describe, with its wireguard-only default, meets the contract that the results assume |
| Interface.OnlyForeignSwitchesTrip | internal/provider/mock_uapi_test.go:207-211 | on that router a null is carried over to a default if and only if the switch goes from an unmodelled proto to wireguard with `nohostroute` neither configured nor held |
| Interface.EveryProtoCanBeConfigured | internal/provider/network_interface_resource.go:92-141 | for every proto, modelled or not, there is a configuration that validateConfig accepts and the results take: the one that sets nothing else |
| Interface.InterfaceApplies | internal/provider/network_interface_resource.go:227-299 | the same for the real table: a network interface from nothing, through any history, on modelled and unmodelled protos, whether the apply may write or finds the section gone or changed by others, creates and switches to an unmodelled proto included |
| Rejections.ForeignSwitchIsRejected | internal/provider/field_scope.go:114-120 | import of an interface on any unmodelled proto, then a switch to wireguard without `nohostroute`: Terraform rejects the result |
| Rejections.ListRemovalIsRejected | internal/provider/schema_helpers.go:50-58 | create with an empty list that does not apply, an unmodelled option written by others, a refresh, then the list removed: the old ETag is planned and another one returned |
| Rejections.InterfaceListRemovalIsRejected | internal/provider/network_interface_resource.go:270-299 | that history on the interface, with proto dhcp, `addresses = []` and a `vendorid` |
| ScopeCompiler.ComputeNullsOnly | internal/gen/scope.go:117-128 | the counting loop tells null-only entries from constraining ones and refuses a mix |
| ScopeCompiler.CompileConds | internal/gen/scope.go:35-66 | the loop over the entries builds the table, or stops with the first failure |
| ScopeCompiler.ExcludedValues | internal/gen/scope.go:86-95 | the nested loops collect exactly the values of the rules that name the field |
| ScopeCompiler.Document | internal/gen/scope.go:84-109 | the descriptions change in place, each scoped field's only, and the generator stops if and only if no value takes some scoped field |
| ScopeCompiler.ApplyScope | internal/gen/scope.go:28-111 | the whole pass: the table, nothing when no entry nulls a field, or a failure |
| ScopeCompiler.SwitchMeaning | internal/gen/scope.go:49-56 | the compiled values are those that the JSON Schema switch accepts if and only if the switch is one that the generator reads faithfully, null constants included |
| ScopeCompiler.CompiledMeaning | internal/gen/scope.go:9-12 | a request whose discriminator is v satisfies every null-only entry if and only if it holds nothing for the fields that the table excludes for v |
| ScopeCompiler.DocumentedValues | internal/gen/scope.go:99-108 | a value is documented for a field if and only if it is known and does not exclude the field |
| ScopeCompiler.RulesAreWritable | internal/gen/scope.go:58-63 | a compiled table names writable attributes only |
| ScopeTables.NullsOnlyIff | internal/gen/scope.go:113-128 | an entry scopes fields if and only if it nulls all that it names and names some, is left to uapi if and only if it nulls none, and a mix stops the generator |
| ScopeTables.CompilesIff | internal/gen/scope.go:35-66 | the generator takes a list of entries if and only if it takes each of them, null-only ones with one switch by a text constant or an enum and writable fields alone, and they all switch on the one discriminator |
| ScopeTables.KnownIsTheEnum | internal/gen/scope.go:70-83 | the known values are the texts of the discriminator's enum in order, and there is no table without an enum of texts |
| ScopeTables.SentenceIsRead | internal/gen/scope.go:108 | a reader of the sentence about a field gets exactly the listed values, in order |
| ScopeTables.DocumentedIs | internal/gen/scope.go:84-109 | a field that no value excludes stays as it is; any other gets, behind its description, a sentence from which a reader gets exactly the known values that do not exclude it, and the generator stops if and only if there are none |
| Builder.BuildResource | internal/gen/main.go:165-296 | the property loop appends one field per modelled property or stops the generator |
| Builder.BuiltFields | internal/gen/main.go:193-293 | the fields are the classified properties, no more and no fewer |
| Builder.SentIsWritable | internal/gen/main.go:162-164 | no property outside the request schema is ever sent by an update |
| Builder.EveryPropertyIsRead | internal/gen/main.go:193-293 | every modelled response property has a field, and a read overwrites it if and only if it is neither create-only nor a writable secret |
| Builder.KindsFollowTheSpec | internal/gen/main.go:206-272 | the name, kind and type of every field: create-only, integer-or-string, settable, write-only, required, clear-on-omit or server-filled, and integer, boolean, list or string, each exactly when the specification and the overlay say so |
| Builder.StopsIff | internal/gen/main.go:193-291 | a property is skipped if and only if it is one of the three unmodelled names or an object, and stops the generator if and only if there is no emission for it, all cases listed |
| Builder.BuildsIff | internal/gen/main.go:193-295 | the generator gets through if and only if it stops at none of the properties |
| Builder.AssembleAppend | internal/gen/main.go:189-295 | the fields come in the order of the property names |
| Spec.TypesFollowTheUnion | internal/gen/main.go:302-317 | a type union with an array is one, any other its first type that is not null, and a string without any |
| Emit.RunBody | internal/gen/renderers.go:100-119 | the emitted puts, run one by one on the request map, give the meaning of the program |
| Emit.RunRead | internal/gen/renderers.go:122-141 | the emitted assignments, run one by one on the model, give the meaning of the program |
| Emit.BodyProgramIsBody | internal/gen/renderers.go:100-119 | for distinct fields the emitted puts build exactly the schema's body, for create and for update |
| Emit.ReadProgramIsReadBack | internal/gen/renderers.go:122-141 | for distinct fields the emitted reads overwrite exactly what the schema says a read overwrites |
| Emit.EmittedUpdateIsWritable | internal/gen/renderers.go:100-119 | for every specification that generates, each key that the emitted update body can hold is in the request schema |
| Emit.EmittedRoundTrip | internal/gen/renderers.go:100-141 | emitted body, storing server and emitted read give back each known planned value, empty lists included, if and only if it is faithful and no empty string, and never change a write-only value |
| EndToEnd.GenerateResource | internal/gen/main.go:76-77 | buildResource and applyScope on one specification give the fields and the table of the model, descriptions apart, or stop exactly when it does |
| EndToEnd.TableFitsIff | internal/gen/scope.go:28-111 | for every specification that generates a table, the table fits the built fields if and only if the discriminator is a plain settable string attribute that no rule nulls |
| EndToEnd.RequestsObeyTheSpec | internal/gen/scope.go:9-12 | for every such specification, every prior state and every valid configuration with the discriminator set: what the router keeps of the request that the planned statements build satisfies every null-only entry, and the raw request does so if and only if it carries no empty list for an excluded field |
| EndToEnd.UnsetSwitchObeysIff | internal/provider/field_scope.go:65-70 | with an optional discriminator left out the check passes anything, and what an update stores satisfies the entries if and only if the configuration asks for nothing that the state's value does not take |
| EndToEnd.UnsetSwitchDisobeys | internal/provider/field_scope.go:65-70 | the smallest such specification, state and configuration: the check passes and the update breaks the entry |
| Upgrades.WordsOfString | internal/provider/state_upgrades.go:77-92 | a string becomes the list of its words in place, a blank one goes away, anything else stays |
| Upgrades.UpgradeInterface | internal/provider/state_upgrades.go:166-169 | the interface upgrader works on `ip6prefix`: brackets off, then words |
| Upgrades.UpgradeUndoesPrinting | internal/provider/state_upgrades.go:162-169 | a list that `%v` printed into the state is restored if and only if it has entries and they are non-empty and free of white space; a printed empty list leaves the state |
| Upgrades.UpgradeSplitsWords | internal/provider/state_upgrades.go:73-92 | a space-separated string becomes the list of its words if and only if it neither opens with `[` nor ends with `]` |
| Upgrades.UpgradeTouchesOnlyStrings | internal/provider/state_upgrades.go:75-76 | a list, a null or an absent value stays, and so does every other key |
| Upgrades.UpgradeIsIdempotent | internal/provider/state_upgrades.go:24-28 | a second upgrade changes nothing |
| Text.FieldsOfAppend | internal/provider/state_upgrades.go:82 | the words on both sides of a white space are the words of the whole |
| Text.TrimSpaceIs | internal/client/client.go:277 | trimming takes the white space at both ends away and nothing else |
| Upgrades.FirstOfList | internal/provider/state_upgrades.go:56-71 | a list collapses in place to its first entry with the count of the others, an empty one goes away, a scalar stays |
| Upgrades.CollapseSelectors | internal/provider/state_upgrades.go:107-116 | the loop collapses each selector once and collects its warnings |
| Upgrades.UpgradeRedirect | internal/provider/state_upgrades.go:106-118 | only the match object changes, and only when there is one |
| Upgrades.RedirectUpgradeIs | internal/provider/state_upgrades.go:94-118 | in the match object each of the six selectors, by name, that held a list has its first entry, or is gone when the list was empty; all else stays, inside the object and outside |
| Upgrades.CollapsedAt | internal/provider/state_upgrades.go:94-96 | selectors keep their first entry, one with an empty list goes away, every other key, `proto` included, stays |
| Upgrades.WarnedIffDropped | internal/provider/state_upgrades.go:108-116 | a selector is warned about if and only if it loses values, and then kept plus dropped is what it held |
| Upgrades.WarningsAppend | internal/provider/state_upgrades.go:107-116 | warnings come in the order of the selectors, one for each at most |
| Upgrades.CollapseIsIdempotent | internal/provider/state_upgrades.go:24-28 | running the redirect upgrader twice is running it once, if and only if no list nests in a list |

## Left out

- HTTP, TLS, logging, JSON text, and every header but ETag, Retry-After and X-Next-Cursor: library code. An attempt is one atomic outcome, and timers are ideal.
- The Retry-After header is parsed where the answer enters the model: `Backoff.RetryAfter` does it, and `Protocol` carries its result.
- The random source: the idempotency key, its possible emptiness and the jitter are parameters.
- The idempotency key's header form and the If-Match header: the query carries both.
- The receipt in an answer (which commit it reports) is not on the wire; the model adds it so that "the ETag of that commit" can be stated.
- GuardedRuns keeps the stored document abstract, while Lifecycle takes each write as one step that is either refused or committed; a write whose answer is lost is the first one's subject, not the second's.
- Go's `int` is 64 bits wide, and converting a float64 outside int64 gives the least int64, as on amd64.
- JSON numbers are integers: a fraction in an answer is not modelled. The text of a nested object under `%v` is not spelled out, and above 2^53 the exponent form keeps every digit where Go prints the shortest significand.
- Strings are sequences of bytes or characters without Unicode normalisation; white space is what the model's `IsSpace` lists.
- The `id` and `managed` attributes are not in the attribute map of a resource. The ETag is beside it: in Lifecycle the stored options stand for their own ETag, which differs for different options by contract; GuardedRuns has ETags as text.
- Lifecycle.Accepted compares the attributes and the ETag with the plan as Terraform does; what Terraform then does with a rejected result (a tainted create) is not modelled.
- Nested `match` blocks in bodies and reads, singletons, data sources, PostReadWarn: the same templates with other names, or single branches.
- importByID and resolveImportID: Lifecycle's import is a read into an empty state; adopting an anonymous section is not modelled.
- The dhcp_host upgrader: it is WordsOfString alone. The read that follows each upgrade, and the write-only key that the interface upgrader carries over.
- What a null for a write-only field does on the router, and daemon reloads: server internals.
- Go map iteration in the generator is followed by sorting, so JSON objects of the specification are association lists in sorted order; where an order is observable (mergeDelta) the model's loop takes any.
- Go names and their collisions in buildResource; the overlay's table of descriptions is a parameter. An integer-or-string field that is also create-only is taken as create-only, as the code does before it could refuse.
- The literal text that the generator emits: statements are modelled as an abstract syntax with a meaning.
- Apply.GoodConfig, which applies use, asks for known values of the right types, the required ones among them, and a discriminator that is no empty string; a resource whose discriminator is left out is the subject of EndToEnd.UnsetSwitchObeysIff alone, and only with a prior state.
- Configurations with unknown values are planned (FieldScope, Schema) but not applied: Terraform applies known ones.
- Several uci options that share one name (broadcast and broadcast_flag, ipaddr and ipaddrs) are separate options in Router.
- FieldScope.ModifyIsIdempotent: does not cover a table that scopes its own discriminator when that is Computed and unconfigured; a required discriminator never is.
- Emit.EmittedRoundTrip: takes one attribute at a time and a server that hides no field; hidden fields are the subject of Apply and Lifecycle.
