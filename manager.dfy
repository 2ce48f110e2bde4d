/** The platform manager's bookkeeping: the loaded platforms and the selection, the persisted
    selection key, the two-slot buffer for platform requests from other plugins, the spawn
    guard, and the scene-transition handlers that decide when a platform change is requested.
    The manager's static fields become the fields of one object. The lifecycle code that carries
    out a change is not part of this model: each call into it is recorded, in order, in the
    ghost log `changeRequests`. */
module Manager {
  import opened Wrappers
  import opened ScenePolicy
  import opened Platforms

  /** The .NET exceptions the selection bookkeeping can throw. */
  datatype Exception =
    | NullReferenceException        // the platform list read before the first `Reload`
    | StackedRequestsException      // a second temporary request before the first was consumed
    | DivideByZeroException         // `index % Count` with no platform loaded
    | ArgumentOutOfRangeException   // a list index outside the list

  class PlatformManager {
    /** `AllPlatforms`: every loaded platform, in load order; `None` is the `null` list the
        property holds until the first `Reload` assigns it. */
    var allPlatforms: Option<seq<Platform>>
    /** `CurrentPlatform`: the selected platform, `null` before the first `Reload`. */
    var currentPlatform: Platform?
    /** The configuration entry `Data`/`CustomPlatformPath`: the saved selection key. */
    var customPlatformPath: Option<string>
    /** `kyleBuffer`: the pending platform request from another plugin. */
    var kyleBuffer: Option<int>
    /** `errBuffer`: a request that arrived while another was pending. */
    var errBuffer: Option<int>
    /** `platformSpawned`: set once the lifecycle code has spawned a platform for this scene. */
    var platformSpawned: bool
    /** Calls to `InternalChangeToPlatform`, in order: `Some(i)` asks for platform `i`, `None`
        for the selected or requested platform. */
    ghost var changeRequests: seq<Option<int>>

    /** The overflow slot holds a request only while another is pending. The two buffer
        methods leave this behind from any state; the lifecycle code, which consumes the
        pending request and is not modelled, can break it. */
    ghost predicate OverflowOnlyWhilePending()
      reads this
    {
      errBuffer.Some? ==> kyleBuffer.Some?
    }

    /** The selection names a loaded platform. */
    predicate SelectionResolves()
      reads this
    {
      currentPlatform != null && allPlatforms.Some? && currentPlatform in allPlatforms.value
    }

    /** A platform is only ever selected out of the list, so a selection implies a list. */
    predicate SelectedFromList()
      reads this
    {
      currentPlatform != null ==> allPlatforms.Some?
    }

    /** The state before `Reload`: nothing loaded, nothing selected or requested, and the
        configuration entry as found. */
    constructor (savedPath: Option<string>)
      ensures OverflowOnlyWhilePending() && SelectedFromList()
      ensures allPlatforms == None && currentPlatform == null && customPlatformPath == savedPath
      ensures kyleBuffer == None && errBuffer == None && !platformSpawned && changeRequests == []
    {
      allPlatforms := None;
      currentPlatform := null;
      customPlatformPath := savedPath;
      kyleBuffer := None;
      errBuffer := None;
      platformSpawned := false;
      changeRequests := [];
    }

    /** `CurrentPlatformIndex`: the first index holding the selected platform, or 0 when the
        selection is null or not in the list. A selection is only searched for in a loaded list. */
    function CurrentPlatformIndex(): (idx: nat)
      reads this
      requires SelectedFromList()
      ensures allPlatforms.Some? && |allPlatforms.value| > 0 ==> idx < |allPlatforms.value|
      ensures SelectionResolves() ==>
        allPlatforms.value[idx] == currentPlatform
        && forall j :: 0 <= j < idx ==> allPlatforms.value[j] != currentPlatform
      ensures !SelectionResolves() ==> idx == 0
    {
      var idx := if currentPlatform != null then IndexOf(allPlatforms.value, currentPlatform) else -1;
      if idx != -1 then idx else 0
    }

    /** `Reload`: take the freshly loaded list, select its first platform, then, when a key is
        saved, the first platform whose name and author spell that key. An empty list throws
        when its first element is read, after the list has already been replaced. */
    method Reload(loaded: seq<Platform>) returns (outcome: Outcome<Exception>)
      modifies this`allPlatforms, this`currentPlatform
      ensures allPlatforms == Some(loaded) && (old(SelectedFromList()) ==> SelectedFromList())
      ensures |loaded| == 0 ==> outcome == Fail(ArgumentOutOfRangeException) && currentPlatform == old(currentPlatform)
      ensures |loaded| > 0 ==> outcome == Pass && currentPlatform == loaded[RestoredIndex(loaded, customPlatformPath)]
      ensures |loaded| > 0 ==> SelectionResolves()
    {
      allPlatforms := Some(loaded);
      if |loaded| == 0 {
        return Fail(ArgumentOutOfRangeException);
      }
      currentPlatform := loaded[0];
      if customPlatformPath.Some? {
        var savedPath := customPlatformPath.value;
        var i := 0;
        while i < |loaded|
          invariant 0 <= i <= |loaded|
          invariant currentPlatform == loaded[0]
          invariant forall j :: 0 <= j < i ==> Key(loaded[j]) != savedPath
        {
          if savedPath == Key(loaded[i]) {
            currentPlatform := loaded[i];
            assert FirstKeyIndex(loaded, savedPath) == Some(i);
            break;
          }
          i := i + 1;
        }
      }
      outcome := Pass;
    }

    /** `SetPlatformAndShow`: select platform `index % Count` (C#'s truncating remainder), save
        its key and ask the lifecycle code for platform `index`. Before the first `Reload` the
        list is null; an empty list divides by zero; a negative remainder is an index outside
        the list. Nothing changes on failure. */
    method SetPlatformAndShow(index: int) returns (outcome: Outcome<Exception>)
      modifies this`currentPlatform, this`customPlatformPath, this`changeRequests
      ensures old(SelectedFromList()) ==> SelectedFromList()
      ensures allPlatforms.None? ==>
        outcome == Fail(NullReferenceException)
        && currentPlatform == old(currentPlatform) && customPlatformPath == old(customPlatformPath)
        && changeRequests == old(changeRequests)
      ensures allPlatforms.Some? && |allPlatforms.value| == 0 ==>
        outcome == Fail(DivideByZeroException)
        && currentPlatform == old(currentPlatform) && customPlatformPath == old(customPlatformPath)
        && changeRequests == old(changeRequests)
      ensures allPlatforms.Some? && |allPlatforms.value| > 0 && CsRemainder(index, |allPlatforms.value|) < 0 ==>
        outcome == Fail(ArgumentOutOfRangeException)
        && currentPlatform == old(currentPlatform) && customPlatformPath == old(customPlatformPath)
        && changeRequests == old(changeRequests)
      ensures allPlatforms.Some? && |allPlatforms.value| > 0 && CsRemainder(index, |allPlatforms.value|) >= 0 ==>
        var slot := CsRemainder(index, |allPlatforms.value|);
        && outcome == Pass
        && currentPlatform == allPlatforms.value[slot]
        && customPlatformPath == Some(Key(allPlatforms.value[slot]))
        && changeRequests == old(changeRequests) + [Some(index)]
        && SelectionResolves()
    {
      if allPlatforms.None? {
        return Fail(NullReferenceException);
      }
      var platforms := allPlatforms.value;
      if |platforms| == 0 {
        return Fail(DivideByZeroException);
      }
      var slot := CsRemainder(index, |platforms|);
      if slot < 0 {
        return Fail(ArgumentOutOfRangeException);
      }
      currentPlatform := platforms[slot];
      customPlatformPath := Some(currentPlatform.platName + currentPlatform.platAuthor);
      changeRequests := changeRequests + [Some(index)];
      outcome := Pass;
    }

    /** `AddPlatform`: append the platform the loader returned, unless it returned null, and
        hand it back. Appending to the null list of an unloaded manager throws. An existing
        selection keeps its index. */
    method AddPlatform(newPlatform: Platform?) returns (r: Result<Platform?, Exception>)
      modifies this`allPlatforms
      ensures old(SelectedFromList()) ==> SelectedFromList()
      ensures newPlatform == null ==> r == Success(null) && allPlatforms == old(allPlatforms)
      ensures newPlatform != null && old(allPlatforms).None? ==>
        r == Failure(NullReferenceException) && allPlatforms == None
      ensures newPlatform != null && old(allPlatforms).Some? ==>
        r == Success(newPlatform) && allPlatforms == Some(old(allPlatforms).value + [newPlatform])
      ensures old(SelectionResolves()) ==> SelectionResolves() && CurrentPlatformIndex() == old(CurrentPlatformIndex())
    {
      if newPlatform != null {
        if allPlatforms.None? {
          return Failure(NullReferenceException);
        }
        if SelectionResolves() {
          IndexOfAppend(allPlatforms.value, [newPlatform], currentPlatform);
        }
        allPlatforms := Some(allPlatforms.value + [newPlatform]);
      }
      r := Success(newPlatform);
    }

    /** `TempChangeToPlatform`: a request from another plugin. With a request already pending,
        the new index goes to the overflow slot and the call throws; otherwise it becomes the
        pending request, and if a platform is already up outside the menus a change is asked
        for at once. With no current environment the call is only logged. */
    method TempChangeToPlatform(index: int, environment: Option<string>) returns (outcome: Outcome<Exception>)
      modifies this`kyleBuffer, this`errBuffer, this`changeRequests
      ensures OverflowOnlyWhilePending()
      ensures old(kyleBuffer).Some? ==>
        outcome == Fail(StackedRequestsException)
        && kyleBuffer == old(kyleBuffer) && errBuffer == Some(index)
        && changeRequests == old(changeRequests)
      ensures old(kyleBuffer).None? ==>
        outcome == Pass
        && kyleBuffer == Some(index) && errBuffer == old(errBuffer)
        && changeRequests == old(changeRequests) +
             (if environment.Some? && !IsMenu(environment.value) && platformSpawned then [None] else [])
    {
      if kyleBuffer.Some? {
        errBuffer := Some(index);
        return Fail(StackedRequestsException);
      }
      kyleBuffer := Some(index);
      if environment.Some? {
        if !IsMenu(environment.value) && platformSpawned {
          changeRequests := changeRequests + [None];
        }
      }
      outcome := Pass;
    }

    /** `OverridePreviousRequest`: promote the overflow request to the pending one and empty
        the overflow slot, asking for a change at once outside the menus; with no overflow
        request nothing happens. */
    method OverridePreviousRequest(environment: Option<string>)
      modifies this`kyleBuffer, this`errBuffer, this`changeRequests
      ensures OverflowOnlyWhilePending()
      ensures old(errBuffer).Some? ==>
        kyleBuffer == old(errBuffer) && errBuffer == None
        && changeRequests == old(changeRequests) +
             (if environment.Some? && !IsMenu(environment.value) then [None] else [])
      ensures old(errBuffer).None? ==>
        kyleBuffer == old(kyleBuffer) && errBuffer == None && changeRequests == old(changeRequests)
    {
      if errBuffer.Some? {
        kyleBuffer := errBuffer;
        errBuffer := None;
        if environment.Some? && !IsMenu(environment.value) {
          changeRequests := changeRequests + [None];
        }
      }
    }

    /** `ChangeToPlatform`: pass a change for `index`, or for the current selection when it is
        null, on to the lifecycle code. */
    method ChangeToPlatform(index: Option<int>)
      modifies this`changeRequests
      ensures changeRequests == old(changeRequests) + [index]
    {
      changeRequests := changeRequests + [index];
    }

    /** `TransitionPrep`: when a scene transition starts outside the menus, ask for platform 0,
        the default floor; in a menu, or with no current environment, ask for nothing. */
    method TransitionPrep(environment: Option<string>)
      modifies this`changeRequests
      ensures changeRequests == old(changeRequests) +
        (if environment.Some? && !IsMenu(environment.value) then [Some(0)] else [])
    {
      if environment.Some? && !IsMenu(environment.value) {
        changeRequests := changeRequests + [Some(0)];
      }
    }

    /** `TransitionFinalize`: in a scene that may show a custom platform, ask for one unless
        the player overrides environments or one is already spawned; in any other scene, reset
        the spawn guard. With no current environment nothing happens. */
    method TransitionFinalize(environment: Option<string>, useInMultiplayer: bool, overrideEnvironments: bool)
      modifies this`platformSpawned, this`changeRequests
      ensures environment.None? ==>
        platformSpawned == old(platformSpawned) && changeRequests == old(changeRequests)
      ensures environment.Some? && !ShowsCustomPlatform(environment.value, useInMultiplayer) ==>
        !platformSpawned && changeRequests == old(changeRequests)
      ensures environment.Some? && ShowsCustomPlatform(environment.value, useInMultiplayer) ==>
        platformSpawned == old(platformSpawned)
        && changeRequests == old(changeRequests) +
             (if !overrideEnvironments && !old(platformSpawned) then [None] else [])
    {
      if environment.Some? {
        var name := environment.value;
        if !IsMenu(name) && MultiplayerCheck(name, useInMultiplayer) && name != TutorialEnvironment {
          if !overrideEnvironments {
            if !platformSpawned {
              changeRequests := changeRequests + [None];
            }
          }
        } else {
          platformSpawned := false;
        }
      }
    }

    /** The lifecycle code sets the spawn guard once it has spawned a platform. */
    method SetPlatformSpawned(spawned: bool)
      modifies this`platformSpawned
      ensures platformSpawned == spawned
    {
      platformSpawned := spawned;
    }
  }

  /** Two requests without a consumption in between: the second throws, the first stays
      pending and the second waits in the overflow slot; promoting it then makes it pending. */
  method StackedRequestsScenario(m: PlatformManager, first: int, second: int, environment: Option<string>)
    returns (firstOutcome: Outcome<Exception>, secondOutcome: Outcome<Exception>,
             pendingAfterStack: Option<int>, overflowAfterStack: Option<int>)
    requires m.kyleBuffer.None?
    modifies m
    ensures firstOutcome == Pass && secondOutcome == Fail(StackedRequestsException)
    ensures pendingAfterStack == Some(first) && overflowAfterStack == Some(second)
    ensures m.OverflowOnlyWhilePending() && m.kyleBuffer == Some(second) && m.errBuffer == None
  {
    firstOutcome := m.TempChangeToPlatform(first, environment);
    secondOutcome := m.TempChangeToPlatform(second, environment);
    pendingAfterStack, overflowAfterStack := m.kyleBuffer, m.errBuffer;
    m.OverridePreviousRequest(environment);
  }

  /** Selecting platform `index` and reloading the same list restores platform `index % Count`
      when keys are unique. */
  method PersistenceRoundTrip(m: PlatformManager, index: nat)
    requires m.allPlatforms.Some? && |m.allPlatforms.value| > 0 && KeysUnique(m.allPlatforms.value)
    modifies m
    ensures m.allPlatforms == old(m.allPlatforms) && m.SelectedFromList()
    ensures m.currentPlatform == old(m.allPlatforms).value[index % |old(m.allPlatforms).value|]
    ensures m.CurrentPlatformIndex() == index % |old(m.allPlatforms).value|
  {
    var platforms := m.allPlatforms.value;
    var selected := m.SetPlatformAndShow(index);
    var reloaded := m.Reload(platforms);
    SelectionRoundTrip(platforms, index % |platforms|);
    IndexOfKeysUnique(platforms, index % |platforms|);
  }

  /** In a scene that shows a custom platform, the first transition finish asks for one; once
      the lifecycle code has set the spawn guard, a second finish asks for nothing. */
  method SpawnGuardScenario(m: PlatformManager, loaded: seq<Platform>, environment: string, useInMultiplayer: bool)
    requires |loaded| > 0 && !m.platformSpawned
    requires ShowsCustomPlatform(environment, useInMultiplayer)
    modifies m
    ensures m.currentPlatform == loaded[RestoredIndex(loaded, m.customPlatformPath)]
    ensures m.changeRequests == old(m.changeRequests) + [None]
    ensures m.platformSpawned
  {
    var reloaded := m.Reload(loaded);
    m.TransitionFinalize(Some(environment), useInMultiplayer, false);
    m.SetPlatformSpawned(true);
    m.TransitionFinalize(Some(environment), useInMultiplayer, false);
  }
}
