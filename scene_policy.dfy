/** How the platform manager reads the host's environment-scene names: which scenes are menus,
    which are multiplayer, and in which scenes a custom platform may be shown. */
module ScenePolicy {
  import opened Text

  const MenuPrefix := "Menu"
  const MultiplayerPrefix := "Multiplayer"
  const TutorialEnvironment := "TutorialEnvironment"

  /** A menu scene: its name starts with "Menu". No menu name is also a multiplayer name, so
      a menu is never held back by the multiplayer rule and the two tests commute. */
  predicate IsMenu(environment: string): (menu: bool)
    ensures menu ==> !IsMultiplayer(environment)
  {
    assert StartsWith(environment, MenuPrefix) ==> environment[1] == MenuPrefix[1] == 'e';
    assert IsMultiplayer(environment) ==> environment[1] == MultiplayerPrefix[1] == 'u';
    StartsWith(environment, MenuPrefix)
  }

  /** A multiplayer scene: its name starts with "Multiplayer". */
  predicate IsMultiplayer(environment: string)
  {
    StartsWith(environment, MultiplayerPrefix)
  }

  /** `MultiplayerCheck`: a multiplayer scene may show a custom platform only when the
      `UseInMultiplayer` setting is on; any other scene passes. */
  function MultiplayerCheck(environment: string, useInMultiplayer: bool): (allowed: bool)
    ensures allowed <==> !IsMultiplayer(environment) || useInMultiplayer
  {
    if IsMultiplayer(environment) && useInMultiplayer then true
    else if IsMultiplayer(environment) && !useInMultiplayer then false
    else true
  }

  /** The scene test at the head of `TransitionFinalize`: not a menu, allowed by the
      multiplayer rule, and not the tutorial. It fails, and the spawn guard is reset, in
      exactly the menus, the tutorial, and the multiplayer scenes while the setting is off. */
  predicate ShowsCustomPlatform(environment: string, useInMultiplayer: bool): (shows: bool)
    ensures !shows <==>
      IsMenu(environment) || environment == TutorialEnvironment || (IsMultiplayer(environment) && !useInMultiplayer)
  {
    !IsMenu(environment) && MultiplayerCheck(environment, useInMultiplayer) && environment != TutorialEnvironment
  }
}
