/**
 * The host platform as the engine sees it: a filter registry, the list of
 * registered theme directories, the global variables and the three request
 * superglobals, the plugin and content directories and the set of files that exist.
 */
module Host {
  import opened Php
  import opened Wrappers

  /** `array( $object, 'method' )`: a method of one object used as a callback. */
  datatype Callback = Callback(owner: object, methodName: string)

  /** One registration of a callback on a hook, at the default priority. */
  datatype Filter = Filter(hook: string, callback: Callback)

  /** The mutable part of the host, as one value. An absent key of a map is an unset variable. */
  datatype EnvState = EnvState(
    filters: set<Filter>,
    themeDirectories: seq<string>,
    globals: map<string, Value>,
    get: map<string, Value>,
    post: map<string, Value>,
    server: map<string, Value>)

  /**
   * The directory `register_theme_directory( $dir )` finds: the path as
   * given when it exists, otherwise the path under the content directory
   * when that exists, otherwise none.
   */
  function ThemeDirectoryFound(files: set<string>, contentDir: string, dir: string): (r: Option<string>)
    ensures r.Some? ==> r.value in files
    ensures r.None? <==> dir !in files && contentDir + "/" + dir !in files
    ensures dir in files ==> r == Some(dir)
    ensures dir !in files && r.Some? ==> r.value == contentDir + "/" + dir
  {
    if dir in files then Some(dir)
    else if contentDir + "/" + dir in files then Some(contentDir + "/" + dir)
    else None
  }

  /**
   * `$wp_theme_directories` after `register_theme_directory( $dir )`: the
   * directory found, without trailing slashes, is appended unless it is
   * empty or already registered; when no directory is found nothing changes.
   */
  function RegisteredDirectories(dirs: seq<string>, files: set<string>, contentDir: string, dir: string): (r: seq<string>)
    ensures var found := ThemeDirectoryFound(files, contentDir, dir);
      && (found.None? ==> r == dirs)
      && (found.Some? ==> r == dirs || r == dirs + [Untrailingslashit(found.value)])
      && (found.Some? ==> (Untrailingslashit(found.value) in r || IsEmpty(Str(Untrailingslashit(found.value)))))
      && (r != dirs <==> found.Some? && Untrailingslashit(found.value) !in dirs &&
                         !IsEmpty(Str(Untrailingslashit(found.value))))
  {
    match ThemeDirectoryFound(files, contentDir, dir)
    case None => dirs
    case Some(directory) =>
      var untrailed := Untrailingslashit(directory);
      if !IsEmpty(Str(untrailed)) && untrailed !in dirs then dirs + [untrailed] else dirs
  }

  /** Adding registrations that were absent and removing them again gives the original set. */
  lemma AddThenRemove(s: set<Filter>, r: set<Filter>)
    requires s * r == {}
    ensures (s + r) - r == s
  {
    forall x | x in (s + r) - r ensures x in s { }
    forall x | x in s ensures x in (s + r) - r {
      assert x !in r by { assert x !in s * r; }
    }
  }

  class Env {
    /** `WP_PLUGIN_DIR`. */
    const pluginDir: string
    /** `WP_CONTENT_DIR`. */
    const contentDir: string
    /** The paths for which `file_exists` holds. */
    const files: set<string>

    var filters: set<Filter>
    var themeDirectories: seq<string>
    /** `$GLOBALS`. */
    var globals: map<string, Value>
    /** `$_GET`, `$_POST` and `$_SERVER`. */
    var get: map<string, Value>
    var post: map<string, Value>
    var server: map<string, Value>

    function State(): EnvState
      reads this
    {
      EnvState(filters, themeDirectories, globals, get, post, server)
    }

    constructor (pluginDir: string, contentDir: string, files: set<string>, st: EnvState)
      ensures this.pluginDir == pluginDir && this.contentDir == contentDir && this.files == files
      ensures State() == st
    {
      this.pluginDir := pluginDir;
      this.contentDir := contentDir;
      this.files := files;
      filters := st.filters;
      themeDirectories := st.themeDirectories;
      globals := st.globals;
      get, post, server := st.get, st.post, st.server;
    }

    /** `add_filter`: registering the same callback on the same hook twice keeps one registration. */
    method AddFilter(hook: string, callback: Callback)
      modifies this
      ensures State() == old(State()).(filters := old(filters) + {Filter(hook, callback)})
    {
      filters := filters + {Filter(hook, callback)};
    }

    /** `remove_filter`. */
    method RemoveFilter(hook: string, callback: Callback)
      modifies this
      ensures State() == old(State()).(filters := old(filters) - {Filter(hook, callback)})
    {
      filters := filters - {Filter(hook, callback)};
    }

    /**
     * `register_theme_directory`: the path is tried as given, then under the
     * content directory; a directory found is registered once.
     */
    method RegisterThemeDirectory(dir: string)
      modifies this
      ensures State() == old(State()).(themeDirectories := RegisteredDirectories(old(themeDirectories), files, contentDir, dir))
    {
      var directory := dir;
      if directory !in files {
        directory := contentDir + "/" + directory;
        if directory !in files {
          return;
        }
      }
      var untrailed := Untrailingslashit(directory);
      if !IsEmpty(Str(untrailed)) && untrailed !in themeDirectories {
        themeDirectories := themeDirectories + [untrailed];
      }
    }

    /** Puts the host into state `st`: what code outside the engine may do to it. */
    method SetState(st: EnvState)
      modifies this
      ensures State() == st
    {
      filters := st.filters;
      themeDirectories := st.themeDirectories;
      globals := st.globals;
      get, post, server := st.get, st.post, st.server;
    }
  }
}
