/** The UI store (frontend/src/stores/uiStore.js): the sidebar flag, the
    theme, the loading flag and the open/closed state of named modals. The
    theme's effect on the document is not part of this model. */
module UiStore {

  datatype UiState = UiState(sidebarCollapsed: bool, theme: string, isLoading: bool, modals: map<string, bool>)

  const Initial: UiState := UiState(false, "light", false, map["createPost" := false, "editProfile" := false])

  function ToggleSidebar(s: UiState): (r: UiState)
    ensures r.sidebarCollapsed == !s.sidebarCollapsed
    ensures r.(sidebarCollapsed := s.sidebarCollapsed) == s
  {
    s.(sidebarCollapsed := !s.sidebarCollapsed)
  }

  lemma ToggleSidebarTwice(s: UiState)
    ensures ToggleSidebar(ToggleSidebar(s)) == s
  {
  }

  function SetSidebarCollapsed(s: UiState, collapsed: bool): (r: UiState)
    ensures r.sidebarCollapsed == collapsed
    ensures r.(sidebarCollapsed := s.sidebarCollapsed) == s
  {
    s.(sidebarCollapsed := collapsed)
  }

  function SetTheme(s: UiState, theme: string): (r: UiState)
    ensures r.theme == theme
    ensures r.(theme := s.theme) == s
  {
    s.(theme := theme)
  }

  /** "light" becomes "dark"; anything else becomes "light". */
  function ToggleTheme(s: UiState): (r: UiState)
    ensures s.theme == "light" ==> r.theme == "dark"
    ensures s.theme != "light" ==> r.theme == "light"
    ensures r.(theme := s.theme) == s
  {
    s.(theme := if s.theme == "light" then "dark" else "light")
  }

  /** Toggling the theme twice restores it exactly when it was "light" or
      "dark"; any other value ends up "dark". */
  lemma ToggleThemeTwice(s: UiState)
    ensures ToggleTheme(ToggleTheme(s)) == s <==> s.theme == "light" || s.theme == "dark"
    ensures ToggleTheme(ToggleTheme(s)).theme == if s.theme == "light" then "light" else "dark"
  {
    if s.theme != "light" && s.theme != "dark" {
      assert ToggleTheme(ToggleTheme(s)).theme != s.theme;
    }
  }

  function SetLoading(s: UiState, isLoading: bool): (r: UiState)
    ensures r.isLoading == isLoading
    ensures r.(isLoading := s.isLoading) == s
  {
    s.(isLoading := isLoading)
  }

  /** A modal counts as open when its entry is true; a missing entry is
      undefined, which is falsy. */
  predicate IsOpen(s: UiState, name: string) {
    name in s.modals && s.modals[name]
  }

  function OpenModal(s: UiState, name: string): (r: UiState)
    ensures IsOpen(r, name)
    ensures forall other :: other != name ==>
      && (other in r.modals <==> other in s.modals)
      && (other in s.modals ==> r.modals[other] == s.modals[other])
    ensures r.(modals := s.modals) == s
  {
    s.(modals := s.modals[name := true])
  }

  function CloseModal(s: UiState, name: string): (r: UiState)
    ensures !IsOpen(r, name) && name in r.modals
    ensures forall other :: other != name ==>
      && (other in r.modals <==> other in s.modals)
      && (other in s.modals ==> r.modals[other] == s.modals[other])
    ensures r.(modals := s.modals) == s
  {
    s.(modals := s.modals[name := false])
  }

  /** `!state.modals[name]`: a missing entry becomes true. */
  function ToggleModal(s: UiState, name: string): (r: UiState)
    ensures IsOpen(r, name) <==> !IsOpen(s, name)
    ensures forall other :: other != name ==>
      && (other in r.modals <==> other in s.modals)
      && (other in s.modals ==> r.modals[other] == s.modals[other])
    ensures r.(modals := s.modals) == s
  {
    s.(modals := s.modals[name := !(name in s.modals && s.modals[name])])
  }

  /** Two toggles restore whether every modal is open. */
  lemma ToggleModalTwice(s: UiState, name: string, other: string)
    ensures IsOpen(ToggleModal(ToggleModal(s, name), name), other) <==> IsOpen(s, other)
  {
  }
}
