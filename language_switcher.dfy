/** `components/shared/custom-language-switcher.tsx`: a dropdown listing the
    supported languages; choosing one replaces the current route with the
    same pathname under the chosen locale and closes the menu. */
module LanguageSwitcher {
  import opened Wrappers
  import opened Seqs
  import opened Dropdown

  datatype LanguageOption = LanguageOption(code: string, caption: string)

  /** `languages`, in menu order; `caption` is the source's `label`. */
  const Languages: seq<LanguageOption> := [
    LanguageOption("en", "English"),
    LanguageOption("ar", "العربية")
  ]

  const RtlLocale := "ar"

  predicate IsKnownLocale(locale: string) {
    exists i :: 0 <= i < |Languages| && Languages[i].code == locale
  }

  /** `locale === 'ar'`: the layout direction the menu is aligned for. */
  function IsRtl(locale: string): (rtl: bool)
    ensures rtl ==> IsKnownLocale(locale)
  {
    assert Languages[1].code == RtlLocale;
    locale == RtlLocale
  }

  /** The side of the trigger the open menu is anchored to. */
  datatype Side = Left | Right

  function MenuSide(locale: string): (side: Side)
    ensures side == Left <==> locale == RtlLocale
  {
    if IsRtl(locale) then Left else Right
  }

  /** `languages.find(lang => lang.code === locale) || languages[0]`. */
  function CurrentLanguage(locale: string): (current: LanguageOption)
    ensures current in Languages
    ensures current.code == locale || current == Languages[0]
  {
    Find(Languages, (lang: LanguageOption) => lang.code == locale).GetOr(Languages[0])
  }

  /** The option that carries the active style and the check mark. */
  function IsActiveOption(locale: string, option: LanguageOption): (active: bool)
    ensures active && option in Languages ==> IsKnownLocale(locale)
  {
    locale == option.code
  }

  /** The current language is the one whose code is the locale, and English
      when the locale is not in the table. */
  lemma CurrentLanguageFor(locale: string)
    ensures IsKnownLocale(locale) ==> CurrentLanguage(locale).code == locale
    ensures !IsKnownLocale(locale) ==> CurrentLanguage(locale) == LanguageOption("en", "English")
    ensures CurrentLanguage(locale) in Languages
  {
    var found := Find(Languages, (lang: LanguageOption) => lang.code == locale);
    if found.Some? {
      var i :| 0 <= i < |Languages| && Languages[i] == found.value && Languages[i].code == locale;
    }
  }

  /** The menu opens on the left exactly when Arabic is the current language. */
  lemma RtlIffArabicCurrent(locale: string)
    ensures IsRtl(locale) <==> CurrentLanguage(locale).code == RtlLocale
  {
    CurrentLanguageFor(locale);
    assert IsRtl(locale) ==> Languages[1].code == locale;
  }

  /** A known locale marks exactly one option active, the current language;
      an unknown one marks none, although English is then shown as current. */
  lemma ActiveOptions(locale: string)
    ensures forall i, j ::
              0 <= i < |Languages| && 0 <= j < |Languages| &&
              IsActiveOption(locale, Languages[i]) && IsActiveOption(locale, Languages[j])
              ==> i == j
    ensures (exists i :: 0 <= i < |Languages| && IsActiveOption(locale, Languages[i])) <==> IsKnownLocale(locale)
    ensures IsKnownLocale(locale) ==> IsActiveOption(locale, CurrentLanguage(locale))
    ensures !IsKnownLocale(locale) ==> !IsActiveOption(locale, CurrentLanguage(locale))
  {
    CurrentLanguageFor(locale);
  }

  /** A navigation made with `router.replace(pathname, { locale })`. */
  datatype Replacement = Replacement(pathname: string, locale: string)

  /** The switcher's state: its menu, and the route replacements it has
      requested so far. The locale and the pathname come from the router and
      are passed to the handlers that read them. */
  class Switcher {
    var menu: Menu
    var replacements: seq<Replacement>

    ghost predicate Valid()
      reads this
    {
      Settled(menu)
    }

    constructor ()
      ensures Valid() && menu == Closed && replacements == []
    {
      menu := Closed;
      replacements := [];
    }

    /** The trigger button's `onClick`. */
    method ToggleOpen()
      requires Valid()
      modifies this
      ensures Valid()
      ensures menu.isOpen == !old(menu.isOpen) && replacements == old(replacements)
    {
      menu := Toggled(menu);
    }

    /** A `mousedown` in the document; `inside` says whether it hit the
        switcher. An open menu closes on a press outside; nothing else
        changes. */
    method MouseDown(inside: bool)
      requires Valid()
      modifies this
      ensures Valid()
      ensures menu.isOpen <==> old(menu.isOpen) && inside
      ensures replacements == old(replacements)
    {
      MouseDownEffect(menu, inside);
      menu := AfterMouseDown(menu, inside);
    }

    /** `handleLanguageChange`: keep the pathname, switch the locale, close. */
    method HandleLanguageChange(pathname: string, newLocale: string)
      requires Valid()
      modifies this
      ensures Valid() && !menu.isOpen
      ensures replacements == old(replacements) + [Replacement(pathname, newLocale)]
    {
      replacements := replacements + [Replacement(pathname, newLocale)];
      menu := WithOpen(menu, false);
    }

    /** A click on option `index` of the open menu. */
    method SelectOption(pathname: string, index: nat)
      requires Valid() && index < |Languages|
      modifies this
      ensures Valid() && !menu.isOpen
      ensures replacements == old(replacements) + [Replacement(pathname, Languages[index].code)]
    {
      HandleLanguageChange(pathname, Languages[index].code);
    }
  }
}
