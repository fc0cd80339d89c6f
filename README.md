# RQuery path resolver and property application, in Dafny

This project models the runtime core of RQuery, a query library for a game
engine's scene graph (a tree of named instances with attributes and tags).

The main part is the path resolver, `RQuery.UnreliablePath` and its cast-only
wrapper `RQuery.Path`. A path such as `Workspace\*Baseplate\@Texture` is
handled like this:

- it is split on `\`;
- each piece is trimmed of Lua white space (`%s`), and blank pieces are skipped;
- the first raw piece (split index 1) is checked against the root aliases:
  - `Shared` is rewritten to `ReplicatedStorage` and then classified like any other piece;
  - `Server`, `Client`, `LocalPlayer`, `Character` and `Gui` replace the cursor and end that piece;
- every other piece is classified by its sigil, in this order:
  - `*@name` waits for the first `UniqueName`-tagged node with that name;
  - `@name` is the same lookup without waiting;
  - at the DataModel, the text is passed to `GetService` verbatim;
  - `*name` is `WaitForChild`;
  - anything else is `FindFirstChild`.

The second part is `RQuery.Propertize` (and `RQuery.Instantiate`, which creates
an instance and calls it). It applies a table of properties to an instance:

- `Attributes` entries become attributes;
- `Tags` entries become tags;
- the instances listed under `Children` are reparented under the instance;
- every key except `Children` is also written as a raw property. A refused
  write is only warned about.

Layout:

- `text.dfy` (module `Text`): Lua's `%s`, the `trim` helper, and Luau's
  `string.split` together with its inverse `Join`.
- `host.dfy` (module `HostTree`): the host as an abstract value. Node names,
  the DataModel, `GetService` and `LocalPlayer` are fixed oracles.
  `FirstNamed` is `filter(a => a.Name === name)[0]`. A `Timeline` holds what
  the calling coroutine observes now and at each later yield: the clock, the
  `UniqueName`-tagged list, the ordered children of every node, and the local
  player's character. `After(t, k)` is the timeline after `k` yields.
- `resolver.dfy` (module `PathResolver`): the specification functions `Step`,
  `Run` and `Resolve`, and the imperative methods that mirror the loops of
  `RQuery.UnreliablePath` (`UnreliablePath`, `ResolvePiece` for the loop body,
  `PollUnique` for the `*@` loop). Each method is proved equal to its
  specification function. The blocking host calls `WaitForChild` and
  `CharacterAdded.Wait()` are `AwaitEvent`: they return at once when what
  they wait for is there, and otherwise resume at the first tick at which it is.
- `resolver_properties.dfy` (module `ResolverProperties`): the properties of
  the resolution, proved as lemmas.
- `propertize.dfy` (module `Properties`): the instance as a class with its
  attribute map, tag set, raw property map and parent link; `Propertize` and
  its branches as methods over it.

A resolution ends in one of four ways (`Outcome`):

- `Returned(cursor)`: the loop ran to the end;
- `TimedOut(name, path)`: a `*@` wait gave up. A warning naming `name` and the
  whole path is printed, and `undefined` is returned;
- `Threw`: a host call raised an error;
- `Stuck`: the modelled ticks ran out inside a wait (`WaitForChild`,
  `CharacterAdded.Wait()` or the `*@` loop).

Points of the code worth noting:

- The alias check tests the raw split index (`i === 1`). So `\Server` and
  ` \Server` never use the alias: their first raw piece is blank.
- The `*@` loop compares elapsed time with the literal `5`. The `timeout`
  argument is never read.
- `parent` is a default parameter. An absent parent becomes the DataModel, so
  resolution always starts at a present node.

## Model

| member | source | states |
|---|---|---|
| `Text.Trim` | src/index.ts:22 | `trim`: `TrimEnd` after `TrimStart`; its properties are stated by `TrimSpec`, `TrimIsInfix` and `TrimIdempotent` |
| `Text.TrimStart` | src/index.ts:22 | `gsub("^%s+", "")`; its properties are stated by `TrimStartSpec` |
| `Text.TrimEnd` | src/index.ts:22 | `gsub("%s+$", "")`; its properties are stated by `TrimEndSpec` |
| `Text.TrimStartSpec` | src/index.ts:22 | the result is a suffix of the input; everything dropped is white space; the result does not start with white space |
| `Text.TrimEndSpec` | src/index.ts:22 | the result is a prefix of the input; everything dropped is white space; the result does not end with white space |
| `Text.TrimSpec` | src/index.ts:22 | the trimmed piece has no white space at either end, and it is blank exactly when the whole piece is white space |
| `Text.TrimIsInfix` | src/index.ts:22 | the trimmed piece is an infix of the input, and everything outside it is white space |
| `Text.TrimIdempotent` | src/index.ts:22 | trimming twice gives the same result as trimming once |
| `Text.Split` | src/index.ts:182 | there is always at least one piece, even for the empty text |
| `Text.SplitPieces` | src/index.ts:182 | no piece contains the separator, and every character of a piece comes from the input |
| `Text.JoinSplit` | src/index.ts:182 | joining the pieces with the separator gives back the input |
| `Text.SplitJoin` | src/index.ts:182 | splitting a join of separator-free pieces gives back those pieces |
| `HostTree.FirstNamed` | src/index.ts:232-241 | `GetTagged("UniqueName").filter(a => a.Name === name)[0]` and the search inside `FindFirstChild`; its properties are stated by `FirstNamedIsFirstMatch` and `FirstNamedIsNamedMember` |
| `HostTree.FirstNamedIsNamedMember` | src/index.ts:232 | a node `FirstNamed` picks is one of the nodes searched and carries the name |
| `HostTree.FindFirstChild` | src/index.ts:253 | `parent.FindFirstChild(name)`: the first child of `parent` with that name in the tree observed at that moment |
| `HostTree.FirstNamedIsFirstMatch` | src/index.ts:232 | `filter(a => a.Name === name)[0]` is absent exactly when no node has the name; otherwise it is the node at the lowest index with that name |
| `PathResolver.AliasTarget` | src/index.ts:190-210 | the alias table: the node each of `Server`, `Client`, `LocalPlayer`, `Character` and `Gui` stands for; its properties are stated by `AliasTargets` |
| `PathResolver.AwaitEvent` | src/index.ts:190-210 | `WaitForChild` (also at line 250) and `player.Character ?? player.CharacterAdded.Wait()[0]`: return at once when the child or character is there, otherwise at the first tick at which it is; stated by `AwaitStopsAtFirstSighting`, `AwaitOutOfTicks` and `AwaitSeesEvent` |
| `PathResolver.AwaitUnique` | src/index.ts:216-233 | the `*@` polling loop as a function of the ticks to come; stated by `AwaitUniqueStopsAtFirstDueTick` |
| `PathResolver.Lookup` | src/index.ts:214-254 | the sigil dispatch; stated by `ClassificationOrder`, `UniqueLookupsIgnoreCursor` and `AbsentCursorStaysAbsent` |
| `PathResolver.Step` | src/index.ts:183-211 | one piece: trim, skip blanks, the alias table at index 1, then `Lookup`; stated by `StepAlias`, `StepLookup` and `UniqueWaitIsNoAlias` |
| `PathResolver.Run` | src/index.ts:182-256 | the pieces from one split index on; stated by `RunGo`, `RunHalt`, `RunPiece` and `LaterPiecesAreNeverAliases` |
| `PathResolver.Start` | src/index.ts:178-179 | the default parameter `parent = game`; stated by `BlankPathReturnsStart` |
| `PathResolver.Resolve` | src/index.ts:178-259 | the whole resolution; `UnreliablePath` is proved equal to it, and the lemmas of `ResolverProperties` state its properties |
| `PathResolver.Warnings` | src/index.ts:227 | the warning printed when a `*@` wait gives up, none for any other outcome; stated by `UniqueWaitTimeoutAborts` and `MissThenMissIsAbsent` |
| `PathResolver.PollUnique` | src/index.ts:216-235 | the polling loop, with `start` read once before the first yield, ends exactly as the specification `AwaitUnique` says |
| `PathResolver.ResolvePiece` | src/index.ts:183-255 | the loop body (trim, skip blanks, alias table at index 1, then sigil dispatch) gives exactly `Step`; a `continue` is `Go` and an early `return` is `Halt` |
| `PathResolver.UnreliablePath` | src/index.ts:178-259 | the loop over the split pieces, with its mutable cursor and early return, gives exactly `Resolve` |
| `PathResolver.Path` | src/index.ts:156-158 | gives the same outcome as `UnreliablePath`; the non-absent result type is an unchecked cast |
| `PathResolver.StepAlias` | src/index.ts:187-210 | at split index 1, a cursor alias takes over the piece: the cursor is ignored and no sigil is classified |
| `PathResolver.StepLookup` | src/index.ts:185-188 | every other non-blank piece is classified by sigil; `Shared` is first rewritten to `ReplicatedStorage` only at index 1 |
| `PathResolver.RunPiece` | src/index.ts:182-256 | one turn of the loop: a piece that continues leaves the rest to the next split index, a piece that returns decides the outcome |
| `PathResolver.RunGo` | src/index.ts:182 | after a piece that continues, resolution goes on with the next piece at the next split index |
| `PathResolver.RunHalt` | src/index.ts:229 | after a piece that returns early, the outcome is final whatever pieces remain |
| `ResolverProperties.UniqueWaitIsNoAlias` | src/index.ts:187-214 | a `*@` piece is never taken for a root alias, at any split index, and goes straight to sigil classification |
| `ResolverProperties.BlankPiecesKeepCursor` | src/index.ts:183-185 | pieces that are all white space leave the cursor as it was |
| `ResolverProperties.BlankPathReturnsStart` | src/index.ts:179-185 | a path of only white space and `\`, `""` included, returns the starting parent (the DataModel when none is given) |
| `ResolverProperties.LaterPiecesAreNeverAliases` | src/index.ts:187 | from split index 2 on, resolution is `RunLookups`, the reference run that has no alias table; `Server` or `Shared` there is an ordinary name |
| `ResolverProperties.BlankFirstPieceDisablesAliases` | src/index.ts:182-187 | if the raw first piece is blank, no piece of the path is an alias |
| `ResolverProperties.LeadingSeparatorDisablesAliases` | src/index.ts:182-187 | a path that starts with `\` resolves the rest with no alias at all |
| `ResolverProperties.SharedIsRewrittenThenClassified` | src/index.ts:188 | `Shared` at index 1 is classified as `ReplicatedStorage` in the same iteration, which is a `GetService` call at the DataModel; at any other index it is the name `Shared` |
| `ResolverProperties.CursorAliasesReplaceCursor` | src/index.ts:190-210 | `Server`, `Client`, `LocalPlayer`, `Character` and `Gui` at index 1 give a result that does not depend on the cursor; the resolution goes on at the moment the alias's waits returned, now or a later tick of the same timeline |
| `ResolverProperties.ServerAliasThenLookups` | src/index.ts:190-193 | `Server\X...` resolves the rest under `ServerScriptService.TS`, from the moment `WaitForChild("TS")` returned, with no alias and never under the starting parent |
| `ResolverProperties.ClassificationOrder` | src/index.ts:214-254 | the priority is `*@`, then `@`, then DataModel (`GetService` with the text verbatim, a leading `*` included), then `*` (`WaitForChild` of the text minus 1 char), then `FindFirstChild` |
| `ResolverProperties.UniqueLookupsIgnoreCursor` | src/index.ts:232-241 | `@` and `*@` give the same result under any cursor; `@name` turns an absent cursor into the first tagged match |
| `ResolverProperties.AbsentCursorStaysAbsent` | src/index.ts:244-254 | a plain or `*` piece under an absent cursor leaves it absent and consumes no tick |
| `ResolverProperties.AbsentCursorPropagates` | src/index.ts:244-254 | once the cursor is absent, later pieces without a unique sigil end in `Returned(None)` with no abort |
| `ResolverProperties.AwaitUniqueStopsAtFirstDueTick` | src/index.ts:221-233 | the `*@` loop stops at the first future tick where elapsed time is at least 5 or a match exists; it never checks before its first yield; on a tie it gives up; if no tick is due it does not end |
| `ResolverProperties.AwaitOutOfTicks` | src/index.ts:190-210 | a blocking host call (also `WaitForChild` at line 250) does not return within the modelled ticks exactly when what it waits for is observed at no moment, now included; it never gives up |
| `ResolverProperties.AwaitStopsAtFirstSighting` | src/index.ts:190-210 | a blocking host call (also `WaitForChild` at line 250) returns at the first moment, now included, at which what it waits for is observed, and delivers what is observed then; when it is already there no tick passes |
| `ResolverProperties.AwaitSeesEvent` | src/index.ts:190-210 | what a blocking host call delivers is observed at the moment it returns, a later moment of the same timeline |
| `ResolverProperties.WaitForChildIsNamedChild` | src/index.ts:250 | `parent.WaitForChild(name)` delivers a child of `parent` named `name`, one present when the call returns |
| `ResolverProperties.AliasTargets` | src/index.ts:190-210 | `LocalPlayer` is read without waiting; `Server`, `Client` and `Gui` deliver a node named `TS`, `TS` and `PlayerGui` that is a child of `ServerScriptService`, of the `PlayerScripts` node found earlier under the local player, and of the player; `Character` delivers the character observed when it returns, at once if one has spawned; an absent `LocalPlayer` or a refused service throws; a waiting alias resumes later in the same timeline |
| `ResolverProperties.TimeoutArgumentIsIgnored` | src/index.ts:178-226 | any `timeout` argument resolves exactly as the default 5 does |
| `ResolverProperties.UniqueWaitTimeoutAborts` | src/index.ts:226-230 | a `*@name` piece that gives up ends the whole resolution as `TimedOut(name, path)`, even if pieces remain, and the one warning printed names `name` and the whole path |
| `ResolverProperties.SinglePlainPiece` | src/index.ts:252-254 | a single plain name under a parent that is not the DataModel resolves to that parent's first child with that name |
| `ResolverProperties.MissThenMissIsAbsent` | src/index.ts:252-258 | `NoSuchThing\AlsoMissing`: a first miss makes the second piece search under nothing; the result is absent and no warning is printed |
| `ResolverProperties.UniqueWaitThenChild` | src/index.ts:214-254 | `*@Foo\Bar` first waits for `Foo` by unique name, then searches for the child `Bar` under the node found, in the tree as it is when the wait returned |
| `Properties.RawAssignmentCoversAllButChildren` | src/index.ts:123-132 | every key except `Children` (so `Attributes` and `Tags` too) is either written raw or refused, never both |
| `Properties.Inst.constructor` | src/index.ts:96 | a new instance has no attributes, tags, raw properties or parent |
| `Properties.Inst.SetAttribute` | src/index.ts:117 | sets one attribute and changes nothing else |
| `Properties.Inst.AddTag` | src/index.ts:121 | adds one tag; adding a tag twice is adding it once |
| `Properties.ApplyAttributes` | src/index.ts:115-119 | the instance's attributes become the old ones overridden by the table's entries |
| `Properties.ApplyTags` | src/index.ts:120-122 | the instance's tags become the old ones plus every listed tag |
| `Properties.Reparent` | src/index.ts:123-125 | every listed child's parent becomes the instance, and only `parent` fields change |
| `Properties.AssignRaw` | src/index.ts:126-132 | an accepted raw write sets that one property; a refused one changes nothing and is reported |
| `Properties.ApplyKey` | src/index.ts:115-132 | one key runs three independent `if`s, and the last has the raw write as its `else`, so `Attributes` and `Tags` are written raw as well |
| `Properties.ApplyEntry` | src/index.ts:114-133 | one turn of the `pairs` loop adds exactly that key's effect to what the keys already visited did |
| `Properties.ExtendBranches` | src/index.ts:115-125 | adding one key to the processed part of the table changes the attributes, tags and children it contributes only when the key is `Attributes`, `Tags` or `Children` |
| `Properties.ExtendRaw` | src/index.ts:126-132 | adding one key to the processed part of the table adds one accepted raw write or one refused key, unless the key is `Children` |
| `Properties.Propertize` | src/index.ts:113-136 | the new attributes, tags, raw properties and children's parents are exactly the old state plus the table's effect, whatever the `pairs` order; the refused keys are reported; `inst` is returned |
| `Properties.Instantiate` | src/index.ts:96-101 | a fresh instance of the class, propertized when a table is given; of the listed children only the `parent` field changes |

## Left out

- `RQuery.New` and `RQuery.Set` (src/index.ts:29, 44-58): reflective construction of host classes and a one-line property write. These are host glue with no logic to prove.
- The `Debris` lifetime in `Instantiate` (src/index.ts:99): a host timer outside the model.
- The type files `src/rquery.d.ts`, `src/RQuery.d.ts`, `out/rquery.d.ts` and `out/index.d.ts`, and `src/test.ts`: they are compile-time types with no runtime behaviour.
- The choice between `RenderStepped.Wait()` and `task.wait()` (`IsClient`): both are one tick of the `Timeline`.
- The passage of time between yields: the clock only advances at a yield.
- Floating-point arithmetic: `os.clock()` readings are Dafny `real`s, so rounding in `elapsed` is not modelled.
- Blocking in `WaitForChild` and `CharacterAdded.Wait()`: a change made between two ticks is seen at the next tick, and a character added and removed between two ticks is missed. The host's own "infinite yield" warning inside `WaitForChild` is not modelled.
- The diagnostics: the `*@` warning is the outcome `TimedOut(name, path)`, and `Warnings` gives its text. `print(debug.traceback())` is not modelled. In `Propertize`, the warnings are the returned set of refused keys.
- Host errors: a rejected `GetService` name and indexing an absent `LocalPlayer` are the outcome `Threw`. Errors the host may raise inside `SetAttribute`, `AddTag` or a `Parent` assignment (which `Propertize` does not catch) are not modelled.
- Whether the host accepts a raw property write is an oracle (`accepts`). A raw write of the key `Parent` goes to the raw property map and is not linked to the parent field.
- Node names, services and `LocalPlayer` stay fixed while a resolution runs. The children of every node, the `UniqueName`-tagged list and the local player's character are observed per tick, with no relation assumed between them (a tagged node need not be in the tree).
- `IsA("DataModel")` is modelled as identity with the single `game` node.
- Services are fetched when the alias is resolved, not when the module loads.
- Attribute values are limited to strings, integers and booleans.
- A `Tags` value that is not an array: the table's type does not declare `Tags`, so such a value reaches `forEach` and throws. `Propertize` and `Instantiate` require every special key to have the shape its branch casts to (`WellShaped`), and so exclude that input.
- `pairs` over the split array is assumed to visit indices in ascending order. `pairs` over the properties table is left unordered: `Propertize` picks keys in any order and is proved correct for every order.
- Resolving the same path twice against the same state gives the same result, because `Resolve` is a function. No separate lemma states this.
