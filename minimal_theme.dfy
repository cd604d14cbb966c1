/** The preparation step that swaps the active theme for a minimal one while checks run. */
module MinimalTheme {
  import opened Php
  import opened Wrappers
  import opened Host

  /** `array_splice( $s, array_search( $x, $s, true ), 1 )` followed by `array_values`, when found. */
  function RemoveFirst(s: seq<string>, x: string): seq<string> {
    match IndexOf(s, x)
    case None => s
    case Some(i) => s[..i] + s[i + 1..]
  }

  /**
   * Removing the first occurrence: an absent path leaves the list as it is;
   * a present one goes away once, the other entries keep their order, and
   * the list is one shorter.
   */
  lemma RemoveFirstProperties(s: seq<string>, x: string)
    ensures x !in s ==> RemoveFirst(s, x) == s
    ensures x in s ==> |RemoveFirst(s, x)| == |s| - 1
    ensures x in s ==> exists i :: 0 <= i < |s| && s[i] == x && x !in s[..i] && RemoveFirst(s, x) == s[..i] + s[i + 1..]
    ensures multiset(RemoveFirst(s, x)) == multiset(s) - multiset{x}
  {
    match IndexOf(s, x)
    case None =>
      assert multiset(s)[x] == 0;
    case Some(i) =>
      assert s == s[..i] + [s[i]] + s[i + 1..];
      assert multiset(s) == multiset(s[..i]) + multiset{x} + multiset(s[i + 1..]);
  }

  /** Appending a path that was absent and then removing its first occurrence restores the list. */
  lemma RemoveFirstAppended(s: seq<string>, x: string)
    requires x !in s
    ensures RemoveFirst(s + [x], x) == s
  {
    assert (s + [x])[..|s|] == s;
  }

  class UseMinimalThemePreparation {
    const themeSlug: string
    /** The themes root to register, or "" for the regular one. */
    const themesDir: string

    constructor (themeSlug: string, themesDir: string)
      ensures this.themeSlug == themeSlug && this.themesDir == themesDir
      ensures GetThemeSlug() == themeSlug
    {
      this.themeSlug := themeSlug;
      this.themesDir := themesDir;
    }

    /** `get_theme_slug`: the slug given at construction. */
    function GetThemeSlug(): string {
      themeSlug
    }

    function SlugCallback(): Callback {
      Callback(this, "get_theme_slug")
    }

    function NameCallback(): Callback {
      Callback(this, "get_theme_name")
    }

    function RootCallback(): Callback {
      Callback(this, "get_theme_root")
    }

    /** The seven registrations this step adds while it is in effect. */
    function Registrations(): (r: set<Filter>)
      ensures |r| == 7
    {
      var slug := SlugCallback();
      var name := NameCallback();
      var root := RootCallback();
      {Filter("template", slug), Filter("stylesheet", slug), Filter("pre_option_template", slug),
       Filter("pre_option_stylesheet", slug), Filter("pre_option_current_theme", name),
       Filter("pre_option_template_root", root), Filter("pre_option_stylesheet_root", root)}
    }

    /** Whether a custom themes root is configured (`! empty( $this->themes_dir )`). */
    predicate HasThemesDir() {
      !IsEmpty(Str(themesDir))
    }

    /** The host state after `prepare`, on a host whose existing paths are `files`. */
    function Prepared(st: EnvState, files: set<string>, contentDir: string): EnvState {
      st.(filters := st.filters + Registrations(),
          themeDirectories := if HasThemesDir() then RegisteredDirectories(st.themeDirectories, files, contentDir, themesDir)
                              else st.themeDirectories)
    }

    /** The host state after the returned cleanup. */
    function CleanedUp(st: EnvState): EnvState {
      st.(filters := st.filters - Registrations(),
          themeDirectories := if HasThemesDir() then RemoveFirst(st.themeDirectories, Untrailingslashit(themesDir))
                              else st.themeDirectories)
    }

    /** `prepare`: the seven registrations, then the themes root when one is configured. */
    method Prepare(env: Env)
      modifies env
      ensures env.State() == Prepared(old(env.State()), env.files, env.contentDir)
    {
      env.AddFilter("template", SlugCallback());
      env.AddFilter("stylesheet", SlugCallback());
      env.AddFilter("pre_option_template", SlugCallback());
      env.AddFilter("pre_option_stylesheet", SlugCallback());
      env.AddFilter("pre_option_current_theme", NameCallback());
      env.AddFilter("pre_option_template_root", RootCallback());
      env.AddFilter("pre_option_stylesheet_root", RootCallback());
      if !IsEmpty(Str(themesDir)) {
        env.RegisterThemeDirectory(themesDir);
      }
    }

    /**
     * The cleanup returned by `prepare`: the seven registrations go, and the
     * first occurrence of the themes root leaves the directory list.
     */
    method Cleanup(env: Env)
      modifies env
      ensures env.State() == CleanedUp(old(env.State()))
    {
      ghost var st := env.State();
      env.RemoveFilter("template", SlugCallback());
      env.RemoveFilter("stylesheet", SlugCallback());
      env.RemoveFilter("pre_option_template", SlugCallback());
      env.RemoveFilter("pre_option_stylesheet", SlugCallback());
      env.RemoveFilter("pre_option_current_theme", NameCallback());
      env.RemoveFilter("pre_option_template_root", RootCallback());
      env.RemoveFilter("pre_option_stylesheet_root", RootCallback());
      RemovedEach(st.filters, env.filters);
      assert env.State() == st.(filters := st.filters - Registrations());
      if !IsEmpty(Str(themesDir)) {
        var index := IndexOf(env.themeDirectories, Untrailingslashit(themesDir));
        if index.Some? {
          env.themeDirectories := env.themeDirectories[..index.value] + env.themeDirectories[index.value + 1..];
        }
      }
    }

    /** Removing the seven registrations one by one removes them all. */
    lemma RemovedEach(before: set<Filter>, after: set<Filter>)
      requires after == before - {Filter("template", SlugCallback())} - {Filter("stylesheet", SlugCallback())}
                              - {Filter("pre_option_template", SlugCallback())} - {Filter("pre_option_stylesheet", SlugCallback())}
                              - {Filter("pre_option_current_theme", NameCallback())}
                              - {Filter("pre_option_template_root", RootCallback())}
                              - {Filter("pre_option_stylesheet_root", RootCallback())}
      ensures after == before - Registrations()
    {
      forall x | x in after ensures x in before - Registrations() { }
      forall x | x in before - Registrations() ensures x in after { }
    }

    /**
     * Preparing and then cleaning up removes all seven registrations and
     * touches nothing else; when none of them was there, the themes root
     * was not registered before and it is not found only under the content
     * directory, the host is exactly as it was.
     */
    lemma PrepareThenCleanup(st: EnvState, files: set<string>, contentDir: string)
      ensures CleanedUp(Prepared(st, files, contentDir)).filters * Registrations() == {}
      ensures CleanedUp(Prepared(st, files, contentDir)).globals == st.globals
      ensures !HasThemesDir() ==> CleanedUp(Prepared(st, files, contentDir)).themeDirectories == st.themeDirectories
      ensures st.filters * Registrations() == {} && Untrailingslashit(themesDir) !in st.themeDirectories &&
              (themesDir in files || contentDir + "/" + themesDir !in files) ==>
                CleanedUp(Prepared(st, files, contentDir)) == st
    {
      var dirs := st.themeDirectories;
      var untrailed := Untrailingslashit(themesDir);
      if st.filters * Registrations() == {} && untrailed !in dirs &&
         (themesDir in files || contentDir + "/" + themesDir !in files) {
        AddThenRemove(st.filters, Registrations());
        if HasThemesDir() {
          if themesDir in files && !IsEmpty(Str(untrailed)) {
            RemoveFirstAppended(dirs, untrailed);
          } else {
            RemoveFirstProperties(dirs, untrailed);
          }
        }
      }
    }

    /**
     * A themes root that does not exist as given but does under the content
     * directory is registered under that longer path, while the cleanup looks
     * for the path as given: the longer path stays registered afterwards.
     */
    lemma CleanupKeepsContentDirRegistration(st: EnvState, files: set<string>, contentDir: string)
      requires HasThemesDir() && themesDir !in files && contentDir + "/" + themesDir in files
      requires !IsEmpty(Str(Untrailingslashit(contentDir + "/" + themesDir)))
      requires Untrailingslashit(contentDir + "/" + themesDir) !in st.themeDirectories
      requires Untrailingslashit(themesDir) !in st.themeDirectories
      requires Untrailingslashit(themesDir) != Untrailingslashit(contentDir + "/" + themesDir)
      ensures CleanedUp(Prepared(st, files, contentDir)).themeDirectories ==
              st.themeDirectories + [Untrailingslashit(contentDir + "/" + themesDir)]
    {
      var dirs := Prepared(st, files, contentDir).themeDirectories;
      assert dirs == st.themeDirectories + [Untrailingslashit(contentDir + "/" + themesDir)];
      RemoveFirstProperties(dirs, Untrailingslashit(themesDir));
    }

    /**
     * The cleanup always takes one entry out of the list `prepare` left when
     * the themes root is registered there; when the root is found as given
     * and was already registered before `prepare`, it is not added again,
     * so the list ends one entry shorter than it started.
     */
    lemma CleanupDropsEarlierRegistration(st: EnvState, files: set<string>, contentDir: string)
      requires HasThemesDir() && Untrailingslashit(themesDir) in st.themeDirectories
      ensures |CleanedUp(Prepared(st, files, contentDir)).themeDirectories| ==
              |Prepared(st, files, contentDir).themeDirectories| - 1
      ensures themesDir in files ==>
                |CleanedUp(Prepared(st, files, contentDir)).themeDirectories| == |st.themeDirectories| - 1
    {
      var dirs := Prepared(st, files, contentDir).themeDirectories;
      assert Untrailingslashit(themesDir) in dirs;
      RemoveFirstProperties(dirs, Untrailingslashit(themesDir));
    }
  }
}
