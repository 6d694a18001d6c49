/** `components/shared/custom-theme-toggle.tsx`: a dropdown of the three
    theme choices, a trigger whose icons show the current theme, and a
    placeholder rendered until the component has mounted. The theme itself
    belongs to the theme provider: it is an input here, and the toggle's
    effect on it is the log of `setTheme` calls. */
module ThemeToggle {
  import opened Wrappers
  import opened Seqs
  import opened Dropdown

  datatype ThemeIcon = Sun | Moon | Monitor

  datatype ThemeOption = ThemeOption(value: string, caption: string, icon: ThemeIcon)

  /** `themes`, in menu order; `caption` is the source's `label`. */
  const Themes: seq<ThemeOption> := [
    ThemeOption("light", "Light", Sun),
    ThemeOption("dark", "Dark", Moon),
    ThemeOption("system", "System", Monitor)
  ]

  const SystemTheme := "system"

  predicate IsKnownTheme(theme: string) {
    exists i :: 0 <= i < |Themes| && Themes[i].value == theme
  }

  /** `theme || 'system'`: an absent or empty theme counts as "system". */
  function EffectiveTheme(theme: Option<string>): (current: string)
    ensures current != ""
    ensures theme.Some? && theme.value != "" ==> current == theme.value
    ensures theme.None? || theme.value == "" ==> current == SystemTheme
  {
    match theme
    case Some(t) => if t == "" then SystemTheme else t
    case None => SystemTheme
  }

  /** `themes.find(t => t.value === currentTheme)?.icon || Monitor`. */
  function CurrentIcon(current: string): (icon: ThemeIcon)
    ensures IsKnownTheme(current) ==> exists i :: 0 <= i < |Themes| && Themes[i].value == current && Themes[i].icon == icon
    ensures !IsKnownTheme(current) ==> icon == Monitor
  {
    match Find(Themes, (t: ThemeOption) => t.value == current)
    case Some(t) => t.icon
    case None => Monitor
  }

  /** The three icons stacked in the trigger, and which of them is shown at
      full scale and opacity. The Sun test is a nested conditional: hidden
      for "dark", shown for "light", hidden otherwise. */
  function SunVisible(current: string): (visible: bool)
    ensures visible <==> current == "light"
  {
    if current == "dark" then false else current == "light"
  }

  function MoonVisible(current: string): (visible: bool)
    ensures visible ==> !SunVisible(current) && !MonitorVisible(current)
  {
    current == "dark"
  }

  function MonitorVisible(current: string): (visible: bool)
    ensures visible ==> !SunVisible(current)
  {
    current == "system"
  }

  function VisibleIcons(current: string): (icons: set<ThemeIcon>)
    ensures Sun in icons <==> current == "light"
    ensures Moon in icons <==> current == "dark"
    ensures Monitor in icons <==> current == "system"
    ensures |icons| <= 1
  {
    (if SunVisible(current) then {Sun} else {}) +
    (if MoonVisible(current) then {Moon} else {}) +
    (if MonitorVisible(current) then {Monitor} else {})
  }

  /** The option that carries the active style and the check mark. */
  function IsActiveTheme(current: string, option: ThemeOption): (active: bool)
    ensures active && option in Themes ==> IsKnownTheme(current)
  {
    current == option.value
  }

  /** A known theme shows exactly its own icon, the one `CurrentIcon` names;
      any other value shows no icon at all, although `CurrentIcon` then
      falls back to Monitor. */
  lemma VisibleIconIsCurrent(current: string)
    ensures IsKnownTheme(current) ==> VisibleIcons(current) == {CurrentIcon(current)}
    ensures !IsKnownTheme(current) ==> VisibleIcons(current) == {} && CurrentIcon(current) == Monitor
  {
    var icons := VisibleIcons(current);
    if IsKnownTheme(current) {
      var i :| 0 <= i < |Themes| && Themes[i].value == current && Themes[i].icon == CurrentIcon(current);
      if i == 0 {
        assert icons == {Sun};
      } else if i == 1 {
        assert icons == {Moon};
      } else {
        assert icons == {Monitor};
      }
    } else {
      assert Themes[0].value != current && Themes[1].value != current && Themes[2].value != current;
      assert icons == {};
    }
  }

  /** An absent or empty theme shows the Monitor icon and marks "system"
      active. */
  lemma MissingThemeIsSystem(theme: Option<string>)
    requires theme.None? || theme.value == ""
    ensures VisibleIcons(EffectiveTheme(theme)) == {Monitor}
    ensures IsActiveTheme(EffectiveTheme(theme), Themes[2])
  {
  }

  /** A known theme marks exactly one option active, the one with its icon;
      an unknown one marks none. */
  lemma ActiveThemes(current: string)
    ensures forall i, j ::
              0 <= i < |Themes| && 0 <= j < |Themes| &&
              IsActiveTheme(current, Themes[i]) && IsActiveTheme(current, Themes[j])
              ==> i == j
    ensures (exists i :: 0 <= i < |Themes| && IsActiveTheme(current, Themes[i])) <==> IsKnownTheme(current)
    ensures forall i :: 0 <= i < |Themes| && IsActiveTheme(current, Themes[i]) ==> Themes[i].icon == CurrentIcon(current)
  {
    VisibleIconIsCurrent(current);
  }

  /** What the component renders: before mount a fixed placeholder, after
      mount the trigger with its visible icons and, only while open, the menu
      with one active flag per option. */
  datatype View =
    | Placeholder
    | Trigger(visibleIcons: set<ThemeIcon>, expanded: bool, options: Option<seq<bool>>)

  /** The toggle's state: whether it has mounted, its menu, and the themes
      it has asked the provider to apply. */
  class Toggle {
    var mounted: bool
    var menu: Menu
    var setThemeCalls: seq<string>

    ghost predicate Valid()
      reads this
    {
      Settled(menu)
    }

    constructor ()
      ensures Valid() && !mounted && menu == Closed && setThemeCalls == []
    {
      mounted := false;
      menu := Closed;
      setThemeCalls := [];
    }

    /** The render for the provider's current theme. */
    function Render(theme: Option<string>): (v: View)
      reads this
      ensures !mounted <==> v == Placeholder
      ensures v.Trigger? ==>
        && v.visibleIcons == VisibleIcons(EffectiveTheme(theme))
        && v.expanded == menu.isOpen
        && (v.options.Some? <==> menu.isOpen)
        && (v.options.Some? ==>
              && |v.options.value| == |Themes|
              && forall i :: 0 <= i < |Themes| ==> (v.options.value[i] <==> IsActiveTheme(EffectiveTheme(theme), Themes[i])))
    {
      if !mounted then Placeholder
      else
        var current := EffectiveTheme(theme);
        var options := if menu.isOpen
          then Some(seq(|Themes|, i requires 0 <= i < |Themes| => IsActiveTheme(current, Themes[i])))
          else None;
        Trigger(VisibleIcons(current), menu.isOpen, options)
    }

    /** The mount effect: `setMounted(true)`. */
    method Mount()
      requires Valid()
      modifies this
      ensures Valid() && mounted
      ensures menu == old(menu) && setThemeCalls == old(setThemeCalls)
    {
      mounted := true;
    }

    /** The trigger button's `onClick`; the button exists only once mounted. */
    method ToggleOpen()
      requires Valid() && mounted
      modifies this
      ensures Valid() && mounted
      ensures menu.isOpen == !old(menu.isOpen) && setThemeCalls == old(setThemeCalls)
    {
      menu := Toggled(menu);
    }

    /** A `mousedown` in the document; `inside` says whether it hit the
        toggle. An open menu closes on a press outside; nothing else changes. */
    method MouseDown(inside: bool)
      requires Valid()
      modifies this
      ensures Valid() && mounted == old(mounted)
      ensures menu.isOpen <==> old(menu.isOpen) && inside
      ensures setThemeCalls == old(setThemeCalls)
    {
      MouseDownEffect(menu, inside);
      menu := AfterMouseDown(menu, inside);
    }

    /** `handleThemeChange`: ask the provider for the theme, then close. */
    method HandleThemeChange(newTheme: string)
      requires Valid()
      modifies this
      ensures Valid() && !menu.isOpen && mounted == old(mounted)
      ensures setThemeCalls == old(setThemeCalls) + [newTheme]
    {
      setThemeCalls := setThemeCalls + [newTheme];
      menu := WithOpen(menu, false);
    }

    /** A click on option `index` of the open menu. */
    method SelectOption(index: nat)
      requires Valid() && mounted && index < |Themes|
      modifies this
      ensures Valid() && !menu.isOpen && mounted
      ensures setThemeCalls == old(setThemeCalls) + [Themes[index].value]
    {
      HandleThemeChange(Themes[index].value);
    }
  }

  /** Before mount the render does not depend on the theme, so the server
      and first client renders agree whatever theme the provider holds. */
  lemma PlaceholderIgnoresTheme(t: Toggle, a: Option<string>, b: Option<string>)
    requires !t.mounted
    ensures t.Render(a) == t.Render(b) == Placeholder
  {
  }
}
