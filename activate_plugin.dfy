/** The preparation step that makes the plugin under check count as active. */
module ActivatePlugin {
  import opened Php
  import opened Wrappers
  import opened Host

  /** The two hooks on which the active-plugins option is filtered. */
  const OptionHook := "option_active_plugins"
  const DefaultOptionHook := "default_option_active_plugins"

  class ActivatePluginPreparation {
    const pluginBasename: string

    constructor (pluginBasename: string)
      ensures this.pluginBasename == pluginBasename
    {
      this.pluginBasename := pluginBasename;
    }

    /** `array( $this, 'filter_active_plugins' )`. */
    function FilterCallback(): Callback {
      Callback(this, "filter_active_plugins")
    }

    /** The registrations this step adds while it is in effect. */
    function Registrations(): set<Filter> {
      {Filter(OptionHook, FilterCallback()), Filter(DefaultOptionHook, FilterCallback())}
    }

    /** The path of the plugin's main file. */
    function PluginFile(pluginDir: string): string {
      pluginDir + "/" + pluginBasename
    }

    function NotFoundMessage(): string {
      "Plugin file for " + pluginBasename + " not found."
    }

    /**
     * `filter_active_plugins`: a value that is not a list becomes the list of
     * just this plugin; a list gets the plugin appended unless it already
     * holds it (strict comparison).
     */
    function FilterActivePlugins(active: Value): (r: Value)
      ensures r.List? && Str(pluginBasename) in r.items
      ensures !active.List? ==> r == List([Str(pluginBasename)])
      ensures active.List? && Str(pluginBasename) in active.items ==> r == active
      ensures active.List? && Str(pluginBasename) !in active.items ==>
                r.items == active.items + [Str(pluginBasename)]
    {
      if !active.List? then List([Str(pluginBasename)])
      else if Str(pluginBasename) !in active.items then List(active.items + [Str(pluginBasename)])
      else active
    }

    /** The filter is idempotent, keeps the original list as a prefix, and adds at most one entry. */
    lemma FilterActivePluginsProperties(active: Value)
      ensures FilterActivePlugins(FilterActivePlugins(active)) == FilterActivePlugins(active)
      ensures active.List? ==> active.items <= FilterActivePlugins(active).items
      ensures active.List? ==> |FilterActivePlugins(active).items| <= |active.items| + 1
      ensures active.List? ==>
                (|FilterActivePlugins(active).items| == |active.items| + 1 <==> Str(pluginBasename) !in active.items)
    {
    }

    /** The host state after `prepare` completes. */
    function Prepared(st: EnvState): EnvState {
      st.(filters := st.filters + Registrations())
    }

    /** The host state after the returned cleanup runs. */
    function CleanedUp(st: EnvState): EnvState {
      st.(filters := st.filters - Registrations())
    }

    /**
     * `prepare`: when the plugin file is missing, the step fails with a
     * not-found message and the host is untouched; otherwise the filter is
     * registered on both hooks.
     */
    method Prepare(env: Env) returns (o: Outcome)
      modifies env
      ensures PluginFile(env.pluginDir) !in env.files ==>
                o == Fail(NotFoundMessage()) && env.State() == old(env.State())
      ensures PluginFile(env.pluginDir) in env.files ==>
                o == Pass && env.State() == Prepared(old(env.State()))
    {
      var plugin := env.pluginDir + "/" + pluginBasename;
      if plugin !in env.files {
        return Fail("Plugin file for " + pluginBasename + " not found.");
      }
      env.AddFilter(OptionHook, FilterCallback());
      env.AddFilter(DefaultOptionHook, FilterCallback());
      o := Pass;
    }

    /** The cleanup returned by `prepare`: both registrations are removed. */
    method Cleanup(env: Env)
      modifies env
      ensures env.State() == CleanedUp(old(env.State()))
    {
      env.RemoveFilter(OptionHook, FilterCallback());
      env.RemoveFilter(DefaultOptionHook, FilterCallback());
    }

    /**
     * Preparing and then cleaning up leaves no registration of this step and
     * gives back every other part of the host; the filter set itself comes
     * back unchanged when the step's registrations were not there before.
     */
    lemma PrepareThenCleanup(st: EnvState)
      ensures CleanedUp(Prepared(st)).filters * Registrations() == {}
      ensures CleanedUp(Prepared(st)) == st.(filters := st.filters - Registrations())
      ensures st.filters * Registrations() == {} ==> CleanedUp(Prepared(st)) == st
    {
      if st.filters * Registrations() == {} {
        AddThenRemove(st.filters, Registrations());
      }
    }
  }
}
