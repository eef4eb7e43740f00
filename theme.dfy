/** The light/dark theme of components/theme-provider.tsx: the provider's
    state, the document root's class list and `data-bs-theme` attribute, and
    the theme kept in local storage. */
module Theme {
  import opened JsText

  const StorageKey: string := "orange-theme"
  const UseThemeError: string := "useTheme must be used within a ThemeProvider"

  /** `theme === "light" ? "dark" : "light"`. */
  function Flipped(t: string): (r: string)
    ensures t == "light" <==> r == "dark"
    ensures r == "light" || r == "dark"
  {
    if t == "light" then "dark" else "light"
  }

  /** On the two themes the toggle is an involution. */
  lemma FlipTwice(t: string)
    requires t == "light" || t == "dark"
    ensures Flipped(Flipped(t)) == t
  {
  }

  /** A theme read back from storage that is neither theme is replaced by
      `"light"` at the first toggle, so toggling twice lands on `"dark"`. */
  lemma FlipTwiceOther(t: string)
    requires t != "light" && t != "dark"
    ensures Flipped(Flipped(t)) == "dark"
  {
  }

  /** The token test of `DOMTokenList.add`: not empty and no ASCII
      whitespace (otherwise `add` throws). */
  predicate ValidToken(t: string) {
    t != [] && forall i :: 0 <= i < |t| ==> t[i] !in {' ', '\t', '\n', '\r', '\U{000C}'}
  }

  /** A class list is an ordered set. */
  predicate NoDuplicates(s: seq<string>) {
    forall i, j :: 0 <= i < j < |s| ==> s[i] != s[j]
  }

  lemma {:induction false} WithoutNoDuplicates(s: seq<string>, x: string)
    requires NoDuplicates(s)
    ensures NoDuplicates(Without(s, x))
  {
    if s != [] {
      var init := s[..|s| - 1];
      var last := s[|s| - 1];
      WithoutNoDuplicates(init, x);
      WithoutMember(init, x, last);
      assert last !in init;
    }
  }

  /** The class list once `remove("light", "dark")` has run. */
  function WithoutThemes(cl: seq<string>): seq<string> {
    Without(Without(cl, "light"), "dark")
  }

  /** A class is in the list without the themes exactly when it was in the
      list and is neither theme. */
  lemma WithoutThemesMember(cl: seq<string>, x: string)
    ensures x in WithoutThemes(cl) <==> x in cl && x != "light" && x != "dark"
  {
    WithoutMember(cl, "light", x);
    WithoutMember(Without(cl, "light"), "dark", x);
  }

  /** What the provider hands to its children. */
  datatype Context = Context(theme: string)

  /** `useTheme`: the context, or the error it throws outside a provider. */
  function UseTheme(context: Option<Context>): (r: Result<Context, string>)
    ensures context.None? <==> r == Err(UseThemeError)
    ensures context.Some? ==> r == Ok(context.value)
  {
    match context
    case None => Err(UseThemeError)
    case Some(c) => Ok(c)
  }

  class Provider {
    var theme: string
    var mounted: bool
    /** `document.documentElement.classList`. */
    var classList: seq<string>
    /** The `data-bs-theme` attribute of the root element. */
    var dataBsTheme: Option<string>
    /** `localStorage`. */
    var storage: map<string, string>

    predicate Valid()
      reads this
    {
      NoDuplicates(classList)
    }

    /** The first render, over the page's document and storage. */
    constructor (classes: seq<string>, attribute: Option<string>, stored: map<string, string>)
      requires NoDuplicates(classes)
      ensures Valid()
      ensures theme == "light" && !mounted
      ensures classList == classes && dataBsTheme == attribute && storage == stored
    {
      theme, mounted := "light", false;
      classList, dataBsTheme, storage := classes, attribute, stored;
    }

    /** `applyTheme(t)`: drop both theme classes, add `t` at the end unless
        present, set the attribute. `ok` is false when `add` throws on an
        invalid token, after the removal and before the attribute. */
    method ApplyTheme(t: string) returns (ok: bool)
      requires Valid()
      modifies this`classList, this`dataBsTheme
      ensures Valid()
      ensures ok == ValidToken(t)
      ensures ok ==> classList == WithoutThemes(old(classList)) + (if t in WithoutThemes(old(classList)) then [] else [t])
      ensures !ok ==> classList == WithoutThemes(old(classList))
      ensures ok ==> t in classList && dataBsTheme == Some(t)
      ensures !ok ==> dataBsTheme == old(dataBsTheme)
      ensures t != "light" ==> "light" !in classList
      ensures t != "dark" ==> "dark" !in classList
      ensures forall x :: x != t && x != "light" && x != "dark" ==> (x in classList <==> x in old(classList))
    {
      ghost var before := classList;
      WithoutNoDuplicates(classList, "light");
      classList := Without(classList, "light");
      WithoutNoDuplicates(classList, "dark");
      classList := Without(classList, "dark");
      assert classList == WithoutThemes(before);
      forall x { WithoutThemesMember(before, x); }
      if !ValidToken(t) {
        return false;
      }
      if t !in classList {
        classList := classList + [t];
      }
      dataBsTheme := Some(t);
      return true;
    }

    /** The mount effect: the saved theme if any, else `"light"`. */
    method Mount() returns (ok: bool)
      requires Valid()
      modifies this`mounted, this`theme, this`classList, this`dataBsTheme
      ensures Valid() && mounted
      ensures theme == (if StorageKey in storage && storage[StorageKey] != "" then storage[StorageKey] else "light")
      ensures ok == ValidToken(theme)
      ensures ok ==> theme in classList && dataBsTheme == Some(theme)
    {
      mounted := true;
      var saved := if StorageKey in storage then Some(storage[StorageKey]) else None;
      theme := Or(saved, "light");
      ok := ApplyTheme(theme);
    }

    /** `toggleTheme`: flip, store, apply. */
    method Toggle()
      requires Valid()
      modifies this`theme, this`storage, this`classList, this`dataBsTheme
      ensures Valid()
      ensures theme == Flipped(old(theme))
      ensures storage == old(storage)[StorageKey := theme]
      ensures theme in classList && Flipped(theme) !in classList && dataBsTheme == Some(theme)
      ensures forall x :: x != "light" && x != "dark" ==> (x in classList <==> x in old(classList))
    {
      theme := Flipped(theme);
      storage := storage[StorageKey := theme];
      var ok := ApplyTheme(theme);
      assert ok;
    }

    /** What the provider renders: nothing before mount, else its context. */
    function Rendered(): (r: Option<Context>)
      reads this
      ensures !mounted <==> r.None?
      ensures mounted ==> r.value.theme == theme
    {
      if mounted then Some(Context(theme)) else None
    }
  }

  /** Two toggles from a theme restore it, store it, and leave the class
      list holding it and not the other one. */
  method ToggleTwice(p: Provider)
    requires p.Valid() && (p.theme == "light" || p.theme == "dark")
    modifies p`theme, p`storage, p`classList, p`dataBsTheme
    ensures p.Valid() && p.theme == old(p.theme)
    ensures p.storage == old(p.storage)[StorageKey := p.theme]
    ensures p.theme in p.classList && Flipped(p.theme) !in p.classList && p.dataBsTheme == Some(p.theme)
  {
    p.Toggle();
    p.Toggle();
    FlipTwice(old(p.theme));
  }
}
