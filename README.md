# Color role plugin, modelled in Dafny

The color plugin lets members of a Discord server pick a "color" role for
themselves by name ("color me <color>"). The bot's owner (the one owner user
the Discord service is configured with, the same for every guild) decides
which roles count as colors ("manage color <color>...", "stop managing
<color>..."). The plugin keeps one piece of state, a table from lower-cased
role name to a "managed" flag. The permission check against fourteen powerful
permission bits (kick, ban, administrator, manage roles, ...) runs at two
points only. A role carrying any of them is refused when the owner asks to
manage it, and it is refused when a member asks for it as their color. A role
that is already managed and later gains such a bit is still reported as
"already managing", and "color me" still removes it from members.

The model keeps the plugin's decision logic and replaces Discord with data:

- `permissions.dfy` (`Permissions`): the fourteen capability flags, the mask
  `AuthPermissions` as a `bv64` and the predicate `HasAuth`.
- `text.dfy` (`Text`): `Lower`, the case folding applied to role names
  (ASCII letters only).
- `discord.dfy` (`Discord`): what the handlers see of Discord (the bot's
  owner, and the guild's roles by name with identifier and permission word),
  the answers of the remote role calls, the reply kinds, and the recorded trace of events: `LookupRole`,
  `RemoveRole(id, ok)`, `AddRole(id, ok)` and `Send(reply)`. `ApplyEvents`
  gives the requester's roles after the successful calls of a trace.
- `managed.dfy` (`ManagedRoles`): what "manage color" and "stop managing" do
  to the table, argument by argument (`ManageAll`, `StopAll`), with
  order-free closed forms and their consequences.
- `colorme.dfy` (`ColorAssignment`): the trace of one "color me" request
  (`ColorMe`), built from the nested scan over held roles × table keys
  (`ScanHeld`, `ScanRole`), with its removal, add and panic properties.
- `plugin.dfy` (`Plugin`): the class `ColorPlugin`, whose `managedRoles` map
  field the curation methods update in place inside their loops. Each handler
  method is proved equal to the functions above.
- `scenarios.dfy` (`Scenarios`): worked requests on a small guild.

Modelling choices:

- Discord calls become events in a returned trace. A removal succeeds when
  the role's identifier is in `Responses.removeSucceeds`. The add succeeds when
  `Responses.addSucceeds` holds.
- Runtime panics are an explicit `panicked` outcome, and the trace stops at
  them. There are three: a managed name that no longer resolves to a role
  (`managedRole.ID` is read from a nil role, colorplugin/colorplugin.go:127-128);
  `parts[1]` with no parts at all (line 103); and `parts[1:]` with no parts
  (lines 171 and 220). The framework's message-recovery hook catches these
  panics, so the table keeps whatever the handler wrote before.
- Go ranges over a map in an unspecified order, chosen afresh for every
  `range` statement. `HandleColorMe` therefore takes one enumeration of the
  table's keys per held role (`orders`, constrained by `ValidOrders`). Every
  removal, completeness and final-roles property is proved for all such
  orders. `PrintableRoles` instead picks keys with a nondeterministic choice,
  and its result is specified as a multiset.
- Permission words are Go `int`s. They are modelled as their 64-bit pattern.
  The mask leaves the sign bit clear, so `permissions & mask > 0` is
  `permissions & mask != 0`.
- A stale managed name (one that no longer resolves) is not skipped during
  "color me": the handler panics when it reaches it. Every pass of the inner
  loop visits every key, so this happens during the pass for the first held
  role. Only removals of that first role, issued for managed names visited
  before the stale one, can come before the panic. The model keeps this
  behaviour.

## Model

| member | source | states |
|---|---|---|
| Permissions.HasAuthIff | colorplugin/colorplugin.go:22-39 | a permission word is authoritative exactly when it shares a bit with at least one of the fourteen listed capabilities (both directions) |
| Permissions.FlagInMask | colorplugin/colorplugin.go:22-35 | each listed capability is a single bit and lies inside the mask |
| Permissions.MaskSplit | colorplugin/colorplugin.go:22-38 | the mask misses a word exactly when each of its fourteen bits does |
| Permissions.AuthExamples | colorplugin/colorplugin.go:37-39 | 0x0, 0x1, 0x40 and other cosmetic bits are not authoritative; administrator (0x8) and manage-roles (0x10000000) are |
| Text.Lower | colorplugin/colorplugin.go:103 | folding keeps the length and folds each character independently |
| Text.LowerIdempotent | colorplugin/colorplugin.go:172 | folding an already folded name changes nothing, so stored keys are stable under re-folding |
| Text.LowerIgnoresCase | colorplugin/colorplugin.go:172 | two names that differ only in letter case fold to the same key, so "Red" and "RED" name one table entry |
| Text.LowerFixesLower | colorplugin/colorplugin.go:221 | a name with no upper-case letter is its own folding |
| ManagedRoles.ManageAllTable | colorplugin/colorplugin.go:171-194 | after an owner's "manage color", the table is the old one plus `true` for every folded argument that resolves to a role without authority bits, whatever the argument order |
| ManagedRoles.ManageAllEffect | colorplugin/colorplugin.go:171-194 | every eligible argument is managed afterwards; no missing or authoritative name is added; an existing entry changes only by becoming `true` |
| ManagedRoles.ManageAlreadyManaged | colorplugin/colorplugin.go:173-177 | an argument already managed when its turn comes, from before or from an earlier duplicate, only produces an "already managing" reply and leaves the table as it is |
| ManagedRoles.ManageRefused | colorplugin/colorplugin.go:179-191 | an argument not managed when its turn comes that does not resolve, or resolves to a role with authority bits, gets one lookup and then a "not found" or "more than a color" reply, and the table is unchanged |
| ManagedRoles.ManageAccepted | colorplugin/colorplugin.go:179-193 | an argument not managed when its turn comes that resolves to a role without authority bits gets one lookup, no reply, and becomes managed |
| ManagedRoles.ManageAllManaged | colorplugin/colorplugin.go:171-197 | the names listed after "manage color" are the previously managed names plus every eligible folded argument |
| ManagedRoles.ManageAllEvents | colorplugin/colorplugin.go:171-194 | "manage color" changes no role membership and looks up only its own folded arguments |
| ManagedRoles.ManagePreservesAllManaged | colorplugin/colorplugin.go:193 | "manage color" writes only `true`, so a table of managed names stays one |
| ManagedRoles.StopAllTable | colorplugin/colorplugin.go:220-229 | after an owner's "stop managing", the table is the old one minus exactly the folded arguments that were managed, whatever the argument order |
| ManagedRoles.StopAllEffect | colorplugin/colorplugin.go:220-229 | no argument is managed afterwards; every other key keeps its value; no key is added; on a table of managed names the arguments are simply removed |
| ManagedRoles.StopAllEvents | colorplugin/colorplugin.go:220-229 | "stop managing" performs no role lookup; its only events are "not managing" replies for folded arguments, at most one per argument |
| ManagedRoles.StopNotManaged | colorplugin/colorplugin.go:222-225 | an argument not managed when its turn comes, never managed or dropped by an earlier duplicate, gets a "not managing" reply and the table is unchanged |
| ManagedRoles.StopManagedName | colorplugin/colorplugin.go:222-228 | an argument managed when its turn comes is deleted from the table, with no reply |
| ManagedRoles.StopAllManaged | colorplugin/colorplugin.go:220-232 | the names listed after "stop managing" are the previously managed names minus every folded argument |
| ManagedRoles.StopPreservesAllManaged | colorplugin/colorplugin.go:228 | "stop managing" only deletes, so a table of managed names stays one |
| ManagedRoles.ManageThenStop | colorplugin/colorplugin.go:171-229 | managing a batch of names and then stopping the same batch leaves the table as before, minus those names |
| ManagedRoles.ReplayAllManaged | colorplugin/colorplugin.go:252-256 | from a new plugin's empty table, any sequence of curation commands reaches a table whose every value is `true` |
| ColorAssignment.ScanRolePanics | colorplugin/colorplugin.go:122-128 | the inner loop panics exactly when it reaches a managed name that no longer resolves |
| ColorAssignment.ScanRoleEvents | colorplugin/colorplugin.go:122-136 | the inner loop for a held role removes only that role, only when a visited managed name resolves to it, adds nothing, and replies only to report failed removals |
| ColorAssignment.ScanRoleReports | colorplugin/colorplugin.go:129-133 | every failed removal of the inner loop is followed at once by the "something went wrong" reply for the requested color, and the loop goes on |
| ColorAssignment.ScanRoleComplete | colorplugin/colorplugin.go:128-134 | when a visited managed name resolves to the held role, its removal is issued with the reported outcome, even after earlier failures |
| ColorAssignment.ScanRoleEffect | colorplugin/colorplugin.go:121-136 | the inner loop takes the held role away exactly when a managed name resolved to it and its removal succeeded |
| ColorAssignment.MatchesInWhole | colorplugin/colorplugin.go:122-128 | over a whole iteration of the table, matching some managed name is being a managed role identifier |
| ColorAssignment.ScanHeldPanics | colorplugin/colorplugin.go:120-137 | the outer loop panics exactly when the requester holds a role and some managed name no longer resolves |
| ColorAssignment.ScanHeldEvents | colorplugin/colorplugin.go:120-137 | every removal is of a held role that a managed name resolves to; there is no add and no other reply |
| ColorAssignment.ScanHeldReports | colorplugin/colorplugin.go:120-137 | over all held roles, every failed removal is followed at once by its failure reply |
| ColorAssignment.ScanHeldComplete | colorplugin/colorplugin.go:120-137 | a completed outer loop has issued the removal of every held managed role, failures notwithstanding |
| ColorAssignment.ScanHeldEffect | colorplugin/colorplugin.go:120-137 | a completed outer loop takes away exactly the held managed roles whose removal succeeds |
| ColorAssignment.ColorMeArgumentErrors | colorplugin/colorplugin.go:93-101 | with no color or with more than one, the request sends one error reply and makes no lookup and no membership call |
| ColorAssignment.ColorMeRefused | colorplugin/colorplugin.go:103-118 | a color that does not resolve, or that carries authority bits, gets one lookup and one refusal reply, with no membership call |
| ColorAssignment.ColorMePanics | colorplugin/colorplugin.go:120-137 | a valid request panics exactly when the requester holds a role and a managed name is stale; a panicked request issues no add |
| ColorAssignment.ColorMeRemovals | colorplugin/colorplugin.go:120-137 | removals are issued only for held roles that a managed name resolves to, and, unless the request panics, for every such held role |
| ColorAssignment.ColorMeReportsFailures | colorplugin/colorplugin.go:120-143 | in a request that goes ahead, panicked or not, every failed removal is reported right after it, one reply per failure |
| ColorAssignment.ColorMeAddsLast | colorplugin/colorplugin.go:139-148 | a completed valid request issues exactly one add, for the requested role, after all removals; it confirms the color exactly when the add succeeds, and otherwise ends with the add-failure reply |
| ColorAssignment.ColorMeFinalRoles | colorplugin/colorplugin.go:120-148 | afterwards the requester holds its old roles minus the managed ones whose removal succeeded, plus the requested role if the add succeeded; with every call succeeding, the requested role is the only managed role it holds |
| Plugin.ColorPlugin.constructor | colorplugin/colorplugin.go:252-256 | a new plugin manages nothing |
| Plugin.ColorPlugin.PrintableRoles | colorplugin/colorplugin.go:41-49 | the returned names are exactly the managed names, each once (as multisets) |
| Plugin.ColorPlugin.RemoveIfManaged | colorplugin/colorplugin.go:122-136 | the inner loop produces the trace and panic flag of `ScanRole` over the whole iteration order |
| Plugin.ColorPlugin.RemoveManagedRoles | colorplugin/colorplugin.go:120-137 | the outer loop produces the trace and panic flag of `ScanHeld` over all held roles |
| Plugin.ColorPlugin.HandleColorMe | colorplugin/colorplugin.go:88-150 | the handler's trace and panic flag are those of `ColorMe`, whose properties are the `ColorMe...` lemmas |
| Plugin.ColorPlugin.HandleManageColor | colorplugin/colorplugin.go:152-199 | a non-owner gets one rejection and the table is unchanged; no arguments: one error reply; otherwise the table becomes `ManageAll`'s, the trace is `ManageAll`'s events followed by a listing of exactly the managed names; a table of managed names stays one |
| Plugin.ColorPlugin.HandleStopManaging | colorplugin/colorplugin.go:201-234 | a non-owner gets one rejection and the table is unchanged; no arguments: one error reply; otherwise the table becomes `StopAll`'s, the trace is `StopAll`'s events followed by a listing of exactly the managed names; a table of managed names stays one |
| Scenarios.ManageRedBlue | colorplugin/colorplugin.go:171-194 | on an empty table, "manage color Red Blue" manages exactly red and blue, after one lookup each |
| Scenarios.ManageRedTwice | colorplugin/colorplugin.go:173-177 | the same color named twice, in different case, is managed once and then reported as already managed |
| Scenarios.ManageAdmin | colorplugin/colorplugin.go:187-191 | a role with the manage-roles bit is refused and the table is unchanged |
| Scenarios.RedToBlue | colorplugin/colorplugin.go:120-147 | a member holding managed red who asks for blue has red removed, blue added, and the color confirmed |
| Scenarios.ColorMeAdmin | colorplugin/colorplugin.go:114-118 | asking for a role with the manage-roles bit is refused with no membership call |
| Scenarios.StaleManagedName | colorplugin/colorplugin.go:127-128 | a managed name that no longer resolves makes the request panic before any add |

## Left out

- `Load` and `Save` (colorplugin/colorplugin.go:58-66, 237-239) delegate to Go's JSON codec. `managedRoles` is unexported, and its struct tag is malformed, so the codec never reads or writes it. No persistence is modelled and no save/load round trip is claimed.
- Message dispatch (`Message`: the service-name and own-message filters, command matching and parsing, panic recovery; lines 68-86) is framework plumbing. The handlers take the parsed `parts` list, whose first element is the command word, and the recovery is the `panicked` outcome.
- `Help`, `Stats` and `Name` carry no behaviour. Reply texts are modelled by their kind and the color they name, not by their formatted strings.
- The Discord client (`GetRoleByName`, `UserRoles`, `GuildMemberRoleAdd`, `GuildMemberRoleRemove`, `SendMessage`) is remote I/O and is replaced by guild data and the event trace. The mmmorty library is not part of this model, so its name-matching rule for role lookup is unknown: lookup is an exact key lookup in the guild's name-to-role map. A failed `UserRoles` call is an empty held-role list.
- Text.Lower: folds ASCII letters only; the Unicode case mapping of Go's `strings.ToLower` is not modelled.
- ColorAssignment.ColorMeRemovals, ColorAssignment.ColorMeFinalRoles: the answer of a removal call is a function of the role identifier (`Responses.removeSucceeds`), so every removal of one role in a request gets the same answer. In the plugin, two managed names that resolve to the same role issue two separate calls, and those may answer differently. Both lemmas hold only under this restriction.
- Concurrency: handlers are taken to run one at a time, as the hosting framework dispatches them.
