/**
 * The theme of the app (`ThemeProvider`, app/ThemeContext.tsx): one state cell that starts as
 * the system colour scheme and that `toggleTheme` flips, and the hook that reads it and refuses
 * to run outside a provider.
 */
module Theme {
  import opened Common

  /** React Native's `ColorSchemeName`: `useColorScheme` may also answer `null` or `undefined`
      when the system states no preference. */
  datatype ColorScheme = Light | Dark | Null | Undefined

  /** `prev === 'dark' ? 'light' : 'dark'`: dark turns light, and every other value, including
      no preference at all, turns dark. */
  function NextTheme(prev: ColorScheme): (next: ColorScheme)
    ensures next == Light <==> prev == Dark
    ensures next == Dark <==> prev != Dark
  {
    if prev == Dark then Light else Dark
  }

  /** The theme after `n` toggles from `start`. */
  function Toggled(start: ColorScheme, n: nat): (t: ColorScheme)
    ensures n >= 1 ==> t == Light || t == Dark
  {
    if n == 0 then start else NextTheme(Toggled(start, n - 1))
  }

  /** After the first toggle the theme is light or dark and alternates: odd counts undo the
      start's darkness, even counts keep it, where a start without preference counts as not
      dark. */
  lemma {:induction false} ToggledParity(start: ColorScheme, n: nat)
    requires n >= 1
    ensures Toggled(start, n) == if (n % 2 == 1) == (start == Dark) then Light else Dark
  {
    if n > 1 {
      ToggledParity(start, n - 1);
    }
  }

  /** Two further toggles bring a toggled theme back to the same value. */
  lemma ToggledPeriod(start: ColorScheme, n: nat)
    requires n >= 1
    ensures Toggled(start, n + 2) == Toggled(start, n)
  {
    ToggledParity(start, n);
    ToggledParity(start, n + 2);
  }

  class ThemeProvider {
    /** `theme`, the one state cell of the provider. */
    var theme: ColorScheme
    /** The system scheme the cell started from, and how many toggles it has seen. */
    ghost var system: ColorScheme
    ghost var toggles: nat

    /** The cell holds the system scheme toggled as many times as `toggleTheme` ran. */
    ghost predicate Valid()
      reads this
    {
      theme == Toggled(system, toggles)
    }

    /** `useState(systemColorScheme)`: the cell starts as whatever the system reports. */
    constructor (systemColorScheme: ColorScheme)
      ensures theme == systemColorScheme
      ensures system == systemColorScheme && toggles == 0 && Valid()
    {
      theme := systemColorScheme;
      system := systemColorScheme;
      toggles := 0;
    }

    /** `toggleTheme`: the functional update of the cell. */
    method ToggleTheme()
      requires Valid()
      modifies this
      ensures theme == NextTheme(old(theme))
      ensures theme == Light || theme == Dark
      ensures system == old(system) && toggles == old(toggles) + 1 && Valid()
    {
      theme := if theme == Dark then Light else Dark;
      toggles := toggles + 1;
    }
  }

  /** What the provider hands to its children: the current theme (the `toggleTheme` function
      that comes with it is the method above). */
  datatype ThemeContext = ThemeContext(theme: ColorScheme)

  const NoProviderMessage: string := "useThemeContext must be used within ThemeProvider"

  /** `useThemeContext`: the value of the nearest provider, and an error when there is none
      (`createContext(undefined)` is what a reader outside every provider sees). */
  function UseThemeContext(ctx: Option<ThemeContext>): (r: Result<ThemeContext>)
    ensures ctx.None? <==> r.Failure?
    ensures r.Failure? ==> r.message == NoProviderMessage
    ensures ctx.Some? ==> r == Success(ctx.value)
  {
    match ctx
    case None => Failure(NoProviderMessage)
    case Some(c) => Success(c)
  }
}
