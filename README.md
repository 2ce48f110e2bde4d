# CustomPlatforms platform manager — a Dafny model

CustomPlatforms is a plugin that replaces a rhythm game's floor with user-selectable custom
platforms. Its `PlatformManager` keeps the list of loaded platforms and the current selection,
persists the selection as a `name + author` key, buffers platform requests coming from other
plugins, and reacts to the host's scene transitions by asking its lifecycle code to spawn or
remove the custom platform. It also deserializes a small text mesh (the "heart").

This project models that bookkeeping and proves its properties:

- `platforms.dfy` (`Platforms`): platforms as objects with a name and an author, `List.IndexOf`,
  the key lookup `Reload` performs, C#'s truncating `%`, and the selection round trip.
- `manager.dfy` (`Manager`): the class `PlatformManager`, whose fields are the manager's static
  fields (`AllPlatforms`, `CurrentPlatform`, the `CustomPlatformPath` configuration entry,
  `kyleBuffer`, `errBuffer`, `platformSpawned`), with one method per operation. Every call into
  the lifecycle code's `InternalChangeToPlatform` is appended to the ghost log `changeRequests`
  (`Some(i)` for an explicit index, `None` for "the selected or requested platform"). Three
  client methods at the end replay the stacked-request law, the persistence round trip and the
  spawn guard.
- `scene_policy.dfy` (`ScenePolicy`): the scene-name rules (`Menu…`, `Multiplayer…`,
  `TutorialEnvironment`) and `MultiplayerCheck`.
- `heart_mesh.dfy` (`HeartMesh`): the text-parsing part of `LoadHeart`, as a specification
  function `ParseHeart` and as the source's three loops (`DeserializeHeartMesh`), proved equal;
  plus a writer for the format and the proof that parsing inverts it.
- `text.dfy` (`Text`): .NET's `String.Split(char)` (empty pieces kept, never zero pieces), its
  inverse `Join`, and their laws. `wrappers.dfy`: `Option`, `Result`, `Outcome`.

Exceptions are values: operations that can throw return an `Outcome` or `Result` naming the
.NET exception (`NullReferenceException`, `StackedRequestsException`, `DivideByZeroException`,
`ArgumentOutOfRangeException`, `IndexOutOfRangeException`, `FormatException`,
`OverflowException`), and their contracts say what state the throw leaves behind. The current
environment scene is an `Option<string>` parameter; `None` is the "environment not found" case,
which every handler swallows or only logs. The settings `UseInMultiplayer` and
`overrideEnvironments` are parameters.

An index field written with commas (`…|0,1,2`) is a single token that `int.Parse` rejects,
because only `/` separates indices (`CommaSeparatedIndicesFail`); written `…|0/1/2` it gives
three indices (`SlashSeparatedIndicesParse`). `Reload` restores the first platform with the
saved key. That is the saved index whenever keys are unique (`SelectionRoundTrip`), and every
saved index comes back exactly when keys are unique (`RestoresEveryIndexIffKeysUnique`). Keys can
collide because a key does not record where the name ends (`KeyCollision`).
`SetPlatformAndShow` passes the raw `index`, not `index % Count`, to the lifecycle code. Until
the first `Reload` the platform list is `null` (`None` in the model), so `SetPlatformAndShow`
and `AddPlatform` with a platform throw a null-reference exception.

## Model

| member | source | states |
|---|---|---|
| `Manager.PlatformManager.constructor` | CustomFloorPlugin/PlatformManager.cs:28-61 | Initially the platform list is null, nothing is selected, both request slots are empty and the spawn guard is down. |
| `Manager.PlatformManager.CurrentPlatformIndex` | CustomFloorPlugin/PlatformManager.cs:40-51 | Defined whenever a selection comes with a list; for a non-empty list the index lies in `[0, Count)`; it is the first index holding the current platform, and 0 when the current platform is null or absent. |
| `Manager.PlatformManager.Reload` | CustomFloorPlugin/PlatformManager.cs:135-150 | The list becomes the loaded one; the selection becomes the first platform whose name+author equals the saved key, or platform 0 when no key is saved or none matches; an empty list throws after replacing the list and leaves the selection as it was. |
| `Manager.PlatformManager.SetPlatformAndShow` | CustomFloorPlugin/PlatformManager.cs:203-207 | Selects `AllPlatforms[index % Count]` with C#'s truncating `%`, saves its name+author key and logs a change request for `index`; a null list throws null-reference, an empty list throws divide-by-zero and a negative remainder throws out-of-range, all three with no state change. |
| `Manager.PlatformManager.AddPlatform` | CustomFloorPlugin/PlatformManager.cs:262-268 | Appends the loaded platform exactly when it is non-null and returns it; a non-null platform with the list still null throws null-reference and changes nothing; an existing selection keeps its index. |
| `Manager.PlatformManager.TempChangeToPlatform` | CustomFloorPlugin/PlatformManager.cs:238-254 | With the pending slot empty, stores the index as pending, leaves the overflow slot, and requests a change only outside menus with a platform already spawned; with it full, throws the stacked-request exception, puts the index in overflow and leaves the pending request and the log alone. |
| `Manager.PlatformManager.OverridePreviousRequest` | CustomFloorPlugin/PlatformManager.cs:290-304 | With an overflow request, moves it to the pending slot, clears overflow and requests a change outside menus; without one, nothing changes and nothing is requested. |
| `Manager.PlatformManager.ChangeToPlatform` | CustomFloorPlugin/PlatformManager.cs:277-283 | Forwards exactly one change request carrying the given optional index. |
| `Manager.PlatformManager.TransitionPrep` | CustomFloorPlugin/PlatformManager.cs:159-168 | A transition starting outside the menus requests platform 0; in a menu or with no environment nothing is requested. |
| `Manager.PlatformManager.TransitionFinalize` | CustomFloorPlugin/PlatformManager.cs:174-195 | In a menu, the tutorial, or a multiplayer scene with `UseInMultiplayer` off, the spawn guard is reset and nothing requested; elsewhere one change is requested exactly when environments are not overridden and no platform is spawned yet, and the guard is untouched. |
| `Manager.PlatformManager.SetPlatformSpawned` | CustomFloorPlugin/PlatformManager.cs:222-226 | The spawn guard takes the value the lifecycle code sets. |
| `Manager.StackedRequestsScenario` | CustomFloorPlugin/PlatformManager.cs:238-244 | Two requests without consumption: the first passes, the second throws; the first stays pending while the second is in overflow, and promoting overflow makes the second pending and empties overflow. |
| `Manager.PersistenceRoundTrip` | CustomFloorPlugin/PlatformManager.cs:203-205 | Selecting `index` then reloading the same list (unique keys) selects `AllPlatforms[index % Count]`, and `CurrentPlatformIndex` reports `index % Count`. |
| `Manager.SpawnGuardScenario` | CustomFloorPlugin/PlatformManager.cs:174-195 | Reload then two transition finishes in a gameplay scene, with the guard set in between, request exactly one platform change. |
| `Platforms.IndexOf` | CustomFloorPlugin/PlatformManager.cs:44 | `List.IndexOf` returns -1 exactly when the element is absent, otherwise the first index holding it. |
| `Platforms.KeySplitPoint` | CustomFloorPlugin/PlatformManager.cs:144-144 | The name+author key loses only where the name ends: equal keys with equally long names mean equal names and equal authors. |
| `Platforms.KeyCollision` | CustomFloorPlugin/PlatformManager.cs:138-149 | Two different platforms, ("ab", "c") and ("a", "bc"), share the key "abc", and restoring it selects whichever was loaded first. |
| `Platforms.RestoredIndex` | CustomFloorPlugin/PlatformManager.cs:138-149 | The index `Reload` selects is in range, and names a platform with the saved key whenever one exists. |
| `Platforms.FirstKeyIndex` | CustomFloorPlugin/PlatformManager.cs:142-149 | The key search finds the first platform whose name+author equals the key, or reports that none does. |
| `Platforms.RestoredIndexMeaning` | CustomFloorPlugin/PlatformManager.cs:138-149 | The restored index is in range; 0 without a saved key or without a match; otherwise the first matching index. |
| `Platforms.CsRemainder` | CustomFloorPlugin/PlatformManager.cs:204 | C#'s `%`: the remainder of truncating division, smaller than the divisor in magnitude and signed like the dividend. |
| `Platforms.SelectionRoundTrip` | CustomFloorPlugin/PlatformManager.cs:203-205 | Restoring from the key saved for platform `j` selects an index no later than `j` with the same key, and exactly `j` when keys are unique. |
| `Platforms.RestoresOwnIndex` | CustomFloorPlugin/PlatformManager.cs:138-149 | Restoring from platform `j`'s key gives back `j` if and only if no earlier platform has the same key. |
| `Platforms.RestoresEveryIndexIffKeysUnique` | CustomFloorPlugin/PlatformManager.cs:138-149 | Every platform's saved key restores that platform if and only if all keys are unique. |
| `Platforms.IndexOfAppend` | CustomFloorPlugin/PlatformManager.cs:262-268 | Appending to the list does not change the first index of an element already in it. |
| `Platforms.IndexOfKeysUnique` | CustomFloorPlugin/PlatformManager.cs:40-51 | With unique keys, `IndexOf` of the platform at `j` is `j`. |
| `ScenePolicy.MultiplayerCheck` | CustomFloorPlugin/PlatformManager.cs:390-399 | The check holds exactly when the scene name does not start with `Multiplayer` or `UseInMultiplayer` is set. |
| `ScenePolicy.IsMenu` | CustomFloorPlugin/PlatformManager.cs:162-162 | A menu scene (name starting with `Menu`) is never a multiplayer scene, so the menu test and the multiplayer rule can be applied in either order. |
| `ScenePolicy.ShowsCustomPlatform` | CustomFloorPlugin/PlatformManager.cs:177-190 | The custom-platform branch is refused, and the guard reset, exactly for menu scenes, the tutorial, and multiplayer scenes with `UseInMultiplayer` off. |
| `HeartMesh.ParseHeart` | CustomFloorPlugin/PlatformManager.cs:330-346 | A successful parse needs a second `|` field, has one vertex per `/` piece of the first field, and only 32-bit triangle indices. |
| `HeartMesh.DeserializeHeartMesh` | CustomFloorPlugin/PlatformManager.cs:329-346 | The source's parse, step by step, yields exactly `ParseHeart` of the blob, error cases included. |
| `HeartMesh.SplitVertexTokens` | CustomFloorPlugin/PlatformManager.cs:332-337 | The index-counter loop fills `string_vector3s` with each vertex token split on `,`. |
| `HeartMesh.ReadVertices` | CustomFloorPlugin/PlatformManager.cs:339-343 | Reading three components per split vertex gives `ParseEach` of the vertex tokens, stopping at the first short vertex. |
| `HeartMesh.ReadTriangles` | CustomFloorPlugin/PlatformManager.cs:344-346 | Parsing each index token gives `ParseEach` of the index tokens, stopping at the first bad token. |
| `HeartMesh.ParseVertex` | CustomFloorPlugin/PlatformManager.cs:342 | A vertex token fails exactly when it has fewer than three `,`-components, and then with an index-out-of-range error. |
| `HeartMesh.ParseInt32` | CustomFloorPlugin/PlatformManager.cs:345 | A parsed index lies in the 32-bit range; a blank token is a format error. |
| `HeartMesh.ParseShowInt` | CustomFloorPlugin/PlatformManager.cs:345 | Every 32-bit integer written in decimal parses back to itself. |
| `HeartMesh.ParseEach` | CustomFloorPlugin/PlatformManager.cs:341-346 | Parsing a token list succeeds exactly when every token does, and then gives one value per token, in order. |
| `HeartMesh.ParseEachFirstFailure` | CustomFloorPlugin/PlatformManager.cs:341-346 | A failed list parse carries the error of the first failing token. |
| `HeartMesh.ParseEachPrefixFailure` | CustomFloorPlugin/PlatformManager.cs:341-346 | Once a prefix fails, the tokens after it are never consulted. |
| `HeartMesh.HeartWithoutBarFails` | CustomFloorPlugin/PlatformManager.cs:330-331 | A blob with no `|` throws index-out-of-range. |
| `HeartMesh.HeartCounts` | CustomFloorPlugin/PlatformManager.cs:330-346 | A successful parse has one vertex per `/`-separated piece before the first `|` and one index per `/`-separated piece of the second field. |
| `HeartMesh.HeartVertexComponents` | CustomFloorPlugin/PlatformManager.cs:342 | Each vertex is the first three `,`-components of its piece. |
| `HeartMesh.HeartShortVertexFails` | CustomFloorPlugin/PlatformManager.cs:341-343 | Any vertex with fewer than three components makes the whole parse throw index-out-of-range. |
| `HeartMesh.VertexIgnoresExtraComponents` | CustomFloorPlugin/PlatformManager.cs:342 | Components after the third are ignored. |
| `HeartMesh.HeartRoundTrip` | CustomFloorPlugin/PlatformManager.cs:329-346 | Parsing the blob written for any mesh the format can carry gives that mesh back. |
| `HeartMesh.CommaSeparatedIndicesFail` | CustomFloorPlugin/PlatformManager.cs:344-346 | A three-vertex blob whose index field is written `0,1,2` throws a format error after reading its vertices. |
| `HeartMesh.SlashSeparatedIndicesParse` | CustomFloorPlugin/PlatformManager.cs:329-346 | The same blob with its index field written `0/1/2` is what the writer produces for three vertices and indices 0, 1, 2, and parses back to them. |
| `Text.Split` | CustomFloorPlugin/PlatformManager.cs:330-331 | `String.Split` always yields at least one piece. |
| `Text.SplitCount` | CustomFloorPlugin/PlatformManager.cs:330-331 | Splitting yields one more piece than there are separators. |
| `Text.SplitPiecesOmitSeparator` | CustomFloorPlugin/PlatformManager.cs:330-331 | No piece contains the separator. |
| `Text.JoinSplit` | CustomFloorPlugin/PlatformManager.cs:330-331 | Joining the pieces with the separator restores the string. |
| `Text.SplitJoin` | CustomFloorPlugin/PlatformManager.cs:330-331 | Splitting a join of separator-free pieces restores the pieces. |
| `Text.SplitFirstPiece` | CustomFloorPlugin/PlatformManager.cs:330 | The first piece is the text before the first separator. |

## Left out

- Scene loading and unloading, the `WaitUntil` coroutines of `LoadHeart` and `LoadDefaultPlatform`, moving objects between scenes, and the `Anchor` object: host-engine I/O and scheduling. `Reload` therefore ends after restoring the selection.
- Every GameObject, Transform and Mesh mutation: `Heart.SetActive`, `ColorWasSet`, the heart's position, rotation and scale, destroying the placeholder's children, `MultiplayerController.disabledPlatformInMultiplayer`.
- `PlatformLoader.CreateAllPlatforms`, `PlatformLoader.LoadPlatformBundle` and `PlatformLifeCycleManagement.InternalChangeToPlatform` are not part of this model: the loaded list and the loaded platform are parameters, and change requests are only logged. What the lifecycle code does with them, including consuming `kyleBuffer` and setting `platformSpawned` (offered as `SetPlatformSpawned`), is not modelled, so in this model a pending request is never cleared.
- `ManagerNotFoundException` raised inside the lifecycle code during `TransitionFinalize` is logged by the source; the model logs the request whether or not it would throw.
- `Init`'s event subscriptions, logging, the `Settings` object (its values are parameters) and the `CONFIG` file (an `Option<string>` field).
- HeartMesh.ParseVertex: coordinates stay the tokens given to `float.Parse`; a token `float.Parse` would reject (a `FormatException`, raised before a missing component is noticed) is accepted here.
- The format provider `NUM_INV` and the comparison option `STR_INV` are defined outside `PlatformManager.cs` and are not part of this model. The model takes `NUM_INV` to be the invariant culture, so `int.Parse` uses `NumberStyles.Integer` with no thousands separator. It takes `STR_INV` to be an ordinal or invariant-culture comparison. The `ParseInt32` and `IsMenu` lines below, and the rejection of the token "0,1,2", rest on these assumptions.
- HeartMesh.ParseInt32: follows invariant-culture `NumberStyles.Integer` (white space U+0009–U+000D and U+0020 around the number, one optional sign, decimal digits, 32-bit range); the trailing NUL characters .NET also tolerates are rejected here.
- ScenePolicy.IsMenu: `StartsWith` with the source's string-comparison option is modelled as an ordinal prefix test; culture-sensitive matching (ignorable characters) is not modelled.
- Indices are unbounded integers; the source's 32-bit `int` cannot overflow in `index % Count` because `Count` is positive.
