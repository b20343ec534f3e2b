/** The theme store of the desktop front end: the five built-in themes followed by the
    user's own, the current theme id and an optional wallpaper, and what is persisted of
    them between sessions.

    A theme's colours and effects only matter to the CSS the store derives, which is not
    modelled; a theme is its id, its name and its background. Reading and writing local
    storage are the `Load` and `Persist` pair, and the parsed text is a parameter. */
module ThemeStore {
  import opened Wrappers
  import Seqs

  datatype Background = Solid(colour: string) | Gradient(css: string) | Image(url: string)

  datatype Theme = Theme(id: string, name: string, dark: bool, background: Background)

  datatype State = State(currentThemeId: string, customWallpaper: Option<string>, themes: seq<Theme>)

  const DefaultIds: seq<string> := ["default-dark", "matrix", "cyber", "minimal", "ocean"]

  const DefaultThemes: seq<Theme> := [
    Theme("default-dark", "NetBoozt Dark", true, Solid("#0a0a0a")),
    Theme("matrix", "Matrix", true, Gradient("linear-gradient(180deg, #000000 0%, #001a0d 50%, #000000 100%)")),
    Theme("cyber", "Cyberpunk", true, Gradient("linear-gradient(135deg, #0a0015 0%, #1a0030 50%, #0f0020 100%)")),
    Theme("minimal", "Minimal", true, Solid("#121212")),
    Theme("ocean", "Ocean Deep", true, Gradient("linear-gradient(180deg, #0a1628 0%, #0d2137 50%, #061018 100%)"))]

  lemma DefaultIdsMatch()
    ensures |DefaultThemes| == |DefaultIds| == 5
    ensures forall k :: 0 <= k < 5 ==> DefaultThemes[k].id == DefaultIds[k]
  {
  }

  /** A built-in theme has this id. */
  predicate IsDefaultId(id: string) {
    id in DefaultIds
  }

  predicate IsCustom(t: Theme) { !IsDefaultId(t.id) }

  const Initial: State := State(DefaultIds[0], None, DefaultThemes)

  /** Some theme of the state has this id. */
  predicate HasTheme(st: State, id: string) {
    exists k :: 0 <= k < |st.themes| && st.themes[k].id == id
  }

  /** The built-in themes come first, and the current id names a theme. */
  predicate Valid(st: State) {
    DefaultThemes <= st.themes && HasTheme(st, st.currentThemeId)
  }

  lemma InitialIsValid()
    ensures Valid(Initial) && Initial.themes == DefaultThemes && Initial.customWallpaper.None?
  {
    assert Initial.themes[0].id == Initial.currentThemeId;
  }

  /** `setTheme`: only an id some theme has becomes current. */
  function SetTheme(st: State, id: string): (r: State)
    ensures r.themes == st.themes && r.customWallpaper == st.customWallpaper
    ensures r.currentThemeId == (if HasTheme(st, id) then id else st.currentThemeId)
  {
    if HasTheme(st, id) then st.(currentThemeId := id) else st
  }

  /** `setWallpaper`. */
  function SetWallpaper(st: State, url: Option<string>): (r: State)
    ensures r.customWallpaper == url && r.themes == st.themes && r.currentThemeId == st.currentThemeId
  {
    st.(customWallpaper := url)
  }

  /** `addCustomTheme`: appended after every theme there is, whatever its id. */
  function AddCustomTheme(st: State, t: Theme): (r: State)
    ensures r.themes == st.themes + [t] && r.currentThemeId == st.currentThemeId
    ensures r.customWallpaper == st.customWallpaper
  {
    st.(themes := st.themes + [t])
  }

  /** Whether `removeCustomTheme(id)` keeps a theme: one with another id, or any at all when
      the id is a built-in one. */
  function Keeps(id: string): Theme -> bool {
    (t: Theme) => t.id != id || IsDefaultId(id)
  }

  /** `removeCustomTheme`: a built-in id removes nothing, any other removes every theme with
      it; a current id that was named falls back to the first built-in theme, even when the
      id was a built-in one. */
  function RemoveCustomTheme(st: State, id: string): (r: State)
    ensures IsDefaultId(id) ==> r.themes == st.themes
    ensures forall k :: 0 <= k < |r.themes| ==> r.themes[k].id != id || IsDefaultId(id)
    ensures forall k :: 0 <= k < |st.themes| && st.themes[k].id != id ==> st.themes[k] in r.themes
    ensures r.currentThemeId == (if st.currentThemeId == id then DefaultIds[0] else st.currentThemeId)
    ensures r.customWallpaper == st.customWallpaper
  {
    assert IsDefaultId(id) ==> Seqs.Filter(st.themes, Keeps(id)) == st.themes by {
      if IsDefaultId(id) {
        FilterKeepsAll(st.themes, Keeps(id));
      }
    }
    State(if st.currentThemeId == id then DefaultIds[0] else st.currentThemeId, st.customWallpaper,
          Seqs.Filter(st.themes, Keeps(id)))
  }

  lemma {:induction false} FilterKeepsAll<T>(s: seq<T>, p: T -> bool)
    requires forall k :: 0 <= k < |s| ==> p(s[k])
    ensures Seqs.Filter(s, p) == s
  {
    if s != [] {
      FilterKeepsAll(s[1..], p);
    }
  }

  /** `reset`: a valid state holding only the built-in themes, with no wallpaper and the
      first built-in theme showing. */
  function Reset(): (r: State)
    ensures Valid(r)
    ensures r.themes == DefaultThemes && r.customWallpaper.None?
    ensures CurrentTheme(r) == DefaultThemes[0]
  {
    InitialIsValid();
    Initial
  }

  /** `currentTheme`: the first theme with the current id, else the first built-in one. */
  function CurrentTheme(st: State): (r: Theme)
    ensures HasTheme(st, st.currentThemeId) ==> r.id == st.currentThemeId && r in st.themes
    ensures !HasTheme(st, st.currentThemeId) ==> r == DefaultThemes[0]
  {
    match Seqs.FirstIndex(st.themes, (t: Theme) => t.id == st.currentThemeId)
    case Some(k) => st.themes[k]
    case None => DefaultThemes[0]
  }

  /** Built-in themes survive a removal at the head of the list. */
  lemma RemoveKeepsDefaults(st: State, id: string)
    requires DefaultThemes <= st.themes
    ensures DefaultThemes <= RemoveCustomTheme(st, id).themes
  {
    if !IsDefaultId(id) {
      var n := |DefaultThemes|;
      assert st.themes == DefaultThemes + st.themes[n..];
      Seqs.FilterAppend(DefaultThemes, st.themes[n..], Keeps(id));
      DefaultIdsMatch();
      assert forall k :: 0 <= k < n ==> Keeps(id)(DefaultThemes[k]) by {
        forall k | 0 <= k < n ensures Keeps(id)(DefaultThemes[k]) {
          assert DefaultThemes[k].id == DefaultIds[k];
        }
      }
      FilterKeepsAll(DefaultThemes, Keeps(id));
    }
  }

  /** Every operation keeps the built-in themes first and the current id naming a theme, so
      `currentTheme` never needs its fallback. */
  lemma OperationsKeepValid(st: State, id: string, url: Option<string>, t: Theme)
    requires Valid(st)
    ensures Valid(SetTheme(st, id)) && Valid(SetWallpaper(st, url)) && Valid(AddCustomTheme(st, t))
    ensures Valid(RemoveCustomTheme(st, id)) && Valid(Reset())
  {
    InitialIsValid();
    var k :| 0 <= k < |st.themes| && st.themes[k].id == st.currentThemeId;
    assert AddCustomTheme(st, t).themes[k] == st.themes[k];
    var r := RemoveCustomTheme(st, id);
    RemoveKeepsDefaults(st, id);
    DefaultIdsMatch();
    assert r.themes[0] == DefaultThemes[0];
    if st.currentThemeId != id {
      assert st.themes[k] in r.themes;
    }
  }

  // Persistence

  /** What is written to local storage: the current id, the wallpaper, and the themes that
      are not built in. */
  datatype Saved = Saved(currentThemeId: string, customWallpaper: Option<string>, customThemes: Option<seq<Theme>>)

  /** The subscription that persists every change. */
  function Persist(st: State): (s: Saved)
    ensures s.currentThemeId == st.currentThemeId && s.customWallpaper == st.customWallpaper
    ensures s.customThemes.Some?
    ensures forall k :: 0 <= k < |s.customThemes.value| ==> IsCustom(s.customThemes.value[k])
  {
    Saved(st.currentThemeId, st.customWallpaper, Some(Seqs.Filter(st.themes, IsCustom)))
  }

  /** `loadState`: nothing saved, or text that does not parse, gives the initial state;
      otherwise the saved ids with the built-in themes followed by the saved ones. */
  function Load(saved: Option<Saved>): (st: State)
    ensures saved.None? ==> st == Initial
    ensures saved.Some? ==> st.currentThemeId == saved.value.currentThemeId
                            && st.customWallpaper == saved.value.customWallpaper
                            && DefaultThemes <= st.themes
  {
    match saved
    case None => Initial
    case Some(s) => State(s.currentThemeId, s.customWallpaper, DefaultThemes + s.customThemes.GetOr([]))
  }

  /** Persisting and loading again keeps the current id and the wallpaper, and yields the
      built-in themes followed by the custom ones in their order. */
  lemma PersistThenLoad(st: State)
    ensures Load(Some(Persist(st))).currentThemeId == st.currentThemeId
    ensures Load(Some(Persist(st))).customWallpaper == st.customWallpaper
    ensures Load(Some(Persist(st))).themes == DefaultThemes + Seqs.Filter(st.themes, IsCustom)
  {
  }

  /** A state whose themes are the built-in ones and then custom ones survives the round
      trip unchanged. */
  lemma PersistRoundTrip(current: string, wallpaper: Option<string>, customs: seq<Theme>)
    requires forall k :: 0 <= k < |customs| ==> IsCustom(customs[k])
    ensures var st := State(current, wallpaper, DefaultThemes + customs);
            Load(Some(Persist(st))) == st
  {
    Seqs.FilterAppend(DefaultThemes, customs, IsCustom);
    DefaultsNotCustom();
    FilterKeepsAll(customs, IsCustom);
    assert Seqs.Filter(DefaultThemes + customs, IsCustom) == customs;
  }

  lemma {:induction false} DefaultsNotCustom()
    ensures Seqs.Filter(DefaultThemes, IsCustom) == []
  {
    DefaultIdsMatch();
    DropsAll(DefaultThemes, IsCustom);
  }

  lemma {:induction false} DropsAll<T>(s: seq<T>, p: T -> bool)
    requires forall k :: 0 <= k < |s| ==> !p(s[k])
    ensures Seqs.Filter(s, p) == []
  {
    if s != [] {
      DropsAll(s[1..], p);
    }
  }
}
