/** The `BuddyVerified` main class: its state, the `__get` property
    whitelist, the singleton `get_instance`, and the `init` /
    `check_requirements` lifecycle. The host's action registry is the
    sequence of `add_action` calls made so far; what the host returns for
    `plugin_basename`, `plugin_dir_url` and `plugin_dir_path` is a parameter,
    and so is the class-loading state the component constructors need. */
module Lifecycle {
  import opened Wrappers
  import opened Paths
  import opened Autoloader

  /** `BuddyVerified::VERSION`. (The plugin header says 1.0.0; the class
      constant is what `__get('version')` returns.) */
  const Version: string := "2.4.1"

  /** `__CLASS__`, as it appears in the error message of `__get`. */
  const ClassName: string := "BuddyVerified"

  /** The component objects `plugin_classes` attaches, by class. */
  datatype Component = AdminComponent | FunctionsComponent

  /** The instance state: three host-supplied strings and the two component
      slots, which are null (`None`) until `plugin_classes` runs. */
  datatype Plugin = Plugin(
    basename: string,
    url: string,
    path: string,
    admin: Option<Component>,
    functions: Option<Component>)

  /** A value `__get` can return. */
  datatype Value = Text(text: string) | Instance(component: Option<Component>)

  /** The exception `__get` throws for a field outside its whitelist. */
  datatype PropertyError = InvalidProperty(message: string)

  /** The names `__get` answers for. */
  const Properties: set<string> := {"version", "basename", "url", "path", "admin", "functions"}

  /** `__get($field)`. */
  function Get(p: Plugin, field: string): (r: Result<Value, PropertyError>)
    ensures r.Success? <==> field in Properties
    ensures field == "version" ==> r == Success(Text(Version))
    ensures field == "basename" ==> r == Success(Text(p.basename))
    ensures field == "url" ==> r == Success(Text(p.url))
    ensures field == "path" ==> r == Success(Text(p.path))
    ensures field == "admin" ==> r == Success(Instance(p.admin))
    ensures field == "functions" ==> r == Success(Instance(p.functions))
    ensures field !in Properties ==> r == Failure(InvalidProperty("Invalid " + ClassName + " property: " + field))
  {
    match field
    case "version" => Success(Text(Version))
    case "basename" => Success(Text(p.basename))
    case "url" => Success(Text(p.url))
    case "path" => Success(Text(p.path))
    case "admin" => Success(Instance(p.admin))
    case "functions" => Success(Instance(p.functions))
    case _ => Failure(InvalidProperty("Invalid " + ClassName + " property: " + field))
  }

  /** The whitelist exposes the whole state: two instances that answer every
      property alike are the same instance. */
  lemma GetDeterminesState(p: Plugin, q: Plugin)
    requires forall f :: f in Properties ==> Get(p, f) == Get(q, f)
    ensures p == q
  {
  }

  /** The error message names the requested field, so distinct unknown
      fields give distinct errors. */
  lemma InvalidPropertyNamesField(p: Plugin, f: string, g: string)
    requires f !in Properties && g !in Properties
    requires Get(p, f) == Get(p, g)
    ensures f == g
  {
    var prefix := "Invalid " + ClassName + " property: ";
    assert prefix + f == prefix + g;
    assert f == (prefix + f)[|prefix|..];
    assert g == (prefix + g)[|prefix|..];
  }

  /** What the host answers for this plugin file. */
  datatype Env = Env(basename: string, url: string, path: string)

  /** `__construct`: records the host's basename, URL and path; the component
      slots stay unset. */
  function Construct(env: Env): (p: Plugin)
    ensures Get(p, "basename") == Success(Text(env.basename))
    ensures Get(p, "url") == Success(Text(env.url))
    ensures Get(p, "path") == Success(Text(env.path))
    ensures Get(p, "admin") == Success(Instance(None))
    ensures Get(p, "functions") == Success(Instance(None))
  {
    Plugin(env.basename, env.url, env.path, None, None)
  }

  /** The class-level state behind `get_instance`: the stored instance, and
      how many times the constructor has run. */
  datatype Runtime = Runtime(instance: Option<Plugin>, constructions: nat)

  /** What `get_instance` returns, with the runtime it leaves behind. */
  datatype Instanced = Instanced(runtime: Runtime, plugin: Plugin)

  /** `get_instance`: constructs on the first call and returns the stored
      instance afterwards. */
  function GetInstance(rt: Runtime, env: Env): (r: Instanced)
    ensures r.runtime.instance == Some(r.plugin)
    ensures rt.instance.Some? ==> r.runtime == rt && r.plugin == rt.instance.value
    ensures rt.instance.None? ==> r.plugin == Construct(env) && r.runtime.constructions == rt.constructions + 1
  {
    match rt.instance
    case Some(p) => Instanced(rt, p)
    case None =>
      var p := Construct(env);
      Instanced(Runtime(Some(p), rt.constructions + 1), p)
  }

  /** The results of calling `get_instance` once per element of `envs`. */
  datatype Calls = Calls(runtime: Runtime, results: seq<Plugin>)

  /** The sequence of `get_instance` calls that `SingletonConstructsOnce`
      quantifies over. */
  function GetInstanceEach(rt: Runtime, envs: seq<Env>): (r: Calls)
    ensures |r.results| == |envs|
    decreases |envs|
  {
    if envs == [] then Calls(rt, [])
    else
      var first := GetInstance(rt, envs[0]);
      var rest := GetInstanceEach(first.runtime, envs[1..]);
      Calls(rest.runtime, [first.plugin] + rest.results)
  }

  /** Singleton: any number of `get_instance` calls run the constructor at
      most once and all return the same instance, even if the host would
      answer differently on later calls. */
  lemma {:induction false} SingletonConstructsOnce(rt: Runtime, envs: seq<Env>)
    requires |envs| > 0
    ensures var r := GetInstanceEach(rt, envs);
            && r.runtime.constructions <= rt.constructions + 1
            && (rt.instance.Some? ==> r.runtime.constructions == rt.constructions)
            && r.runtime.instance == Some(r.results[0])
            && (forall i :: 0 <= i < |r.results| ==> r.results[i] == r.results[0])
            && (rt.instance.None? ==> r.results[0] == Construct(envs[0]))
    decreases |envs|
  {
    var first := GetInstance(rt, envs[0]);
    if |envs| > 1 {
      SingletonConstructsOnce(first.runtime, envs[1..]);
    }
  }

  /** `meets_requirements`: the plugin declares no requirements. */
  function MeetsRequirements(): (r: bool) {
    true
  }

  /** The callbacks this class hands to `add_action`. */
  datatype Callback = InitCallback | RequirementsNotMetNotice | DeactivateMe

  /** One `add_action($hook, array($this, $callback))` call. */
  datatype Hook = Hook(action: string, callback: Callback)

  /** The actions registered when the requirements are not met. */
  const NotMetHooks: seq<Hook> := [Hook("all_admin_notices", RequirementsNotMetNotice), Hook("admin_init", DeactivateMe)]

  /** What `check_requirements` returns and the registry it leaves. */
  datatype Checked = Checked(met: bool, hooks: seq<Hook>)

  /** `check_requirements`, for a given outcome of `meets_requirements`:
      passes it on, and on failure registers the dashboard notice and the
      self-deactivation. */
  function CheckRequirementsWith(met: bool, hooks: seq<Hook>): (r: Checked)
    ensures r.met == met
    ensures hooks <= r.hooks
    ensures met ==> r.hooks == hooks
    ensures !met ==> r.hooks[|hooks|..] == NotMetHooks
  {
    if !met then
      var r := Checked(false, hooks + NotMetHooks);
      assert r.hooks[|hooks|..] == NotMetHooks;
      r
    else
      Checked(true, hooks)
  }

  /** `check_requirements` as the plugin runs it. */
  function CheckRequirements(hooks: seq<Hook>): (r: Checked)
    ensures r.met
    ensures r.hooks == hooks
  {
    CheckRequirementsWith(MeetsRequirements(), hooks)
  }

  /** The action `action` has `callback` registered. */
  predicate Registered(hooks: seq<Hook>, action: string, callback: Callback) {
    exists i :: 0 <= i < |hooks| && hooks[i] == Hook(action, callback)
  }

  /** A failed requirements check leaves the notice and the deactivation
      registered, and registers nothing besides them. */
  lemma NotMetRegistersNoticeAndDeactivation(hooks: seq<Hook>)
    ensures var r := CheckRequirementsWith(false, hooks);
            && !r.met
            && Registered(r.hooks, "all_admin_notices", RequirementsNotMetNotice)
            && Registered(r.hooks, "admin_init", DeactivateMe)
            && |r.hooks| == |hooks| + 2
  {
    var r := CheckRequirementsWith(false, hooks);
    assert r.hooks[|hooks|] == NotMetHooks[0];
    assert r.hooks[|hooks| + 1] == NotMetHooks[1];
  }

  /** Repeating the requirements check gives the same answer and, since the
      requirements hold, leaves the registry as it was. */
  lemma CheckRequirementsIdempotent(hooks: seq<Hook>)
    ensures CheckRequirements(CheckRequirements(hooks).hooks) == CheckRequirements(hooks)
    ensures CheckRequirements(hooks) == Checked(true, hooks)
  {
  }

  /** The component classes `plugin_classes` instantiates. */
  const AdminClass: string := "BV_Admin"
  const FunctionsClass: string := "BV_Functions"

  /** Both component classes can be defined. */
  predicate ComponentsAvailable(ld: Loader) {
    Available(AdminClass, ld) && Available(FunctionsClass, ld)
  }

  /** What `plugin_classes` leaves behind: the instance, the class-loading
      state, and the error that aborted it, if any. */
  datatype Attached = Attached(plugin: Plugin, loader: Loader, error: Option<ClassError>)

  /** `plugin_classes`: `new BV_Admin` then `new BV_Functions`, each
      assigned to its slot. A class that cannot be loaded raises an error
      that aborts the method, leaving the slots assigned so far. */
  function PluginClasses(p: Plugin, ld: Loader): (r: Attached)
    ensures r.error.None? <==> ComponentsAvailable(ld)
    ensures !Available(AdminClass, ld) ==> r.error == Some(ClassNotFound(AdminClass)) && r.plugin == p
    ensures Available(AdminClass, ld) ==> Get(r.plugin, "admin") == Success(Instance(Some(AdminComponent)))
    ensures Available(AdminClass, ld) && !Available(FunctionsClass, ld) ==>
              r.error == Some(ClassNotFound(FunctionsClass)) && r.plugin.functions == p.functions
    ensures ComponentsAvailable(ld) ==> Get(r.plugin, "functions") == Success(Instance(Some(FunctionsComponent)))
    ensures r.plugin.basename == p.basename && r.plugin.url == p.url && r.plugin.path == p.path
    ensures r.error.None? ==> Defined(AdminClass, r.loader) && Defined(FunctionsClass, r.loader)
    ensures ld.loaded <= r.loader.loaded
    ensures r.loader.files == ld.files && r.loader.fileDir == ld.fileDir
    ensures Dir(r.loader.dirCache, ld.fileDir, "").value == Dir(ld.dirCache, ld.fileDir, "").value
    ensures WellKeyed(ld) ==> WellKeyed(r.loader)
  {
    var admin := RequireClass(AdminClass, ld);
    if admin.error.Some? then
      Attached(p, admin.loader, admin.error)
    else
      var p1 := p.(admin := Some(AdminComponent));
      RequireClassKeepsOthers(AdminClass, FunctionsClass, ld);
      var functions := RequireClass(FunctionsClass, admin.loader);
      if functions.error.Some? then
        Attached(p1, functions.loader, functions.error)
      else
        Attached(p1.(functions := Some(FunctionsComponent)), functions.loader, None)
  }

  /** With both class files in place, `plugin_classes` attaches both
      components and leaves both classes defined. */
  lemma PluginClassesWithFiles(p: Plugin, ld: Loader)
    requires Dir(ld.dirCache, ld.fileDir, "").value + IncludeRelPath("admin") in ld.files
    requires Dir(ld.dirCache, ld.fileDir, "").value + IncludeRelPath("functions") in ld.files
    ensures var r := PluginClasses(p, ld);
            && r.error.None?
            && r.plugin == p.(admin := Some(AdminComponent), functions := Some(FunctionsComponent))
            && Defined(AdminClass, r.loader) && Defined(FunctionsClass, r.loader)
  {
    ComponentFileNames();
  }

  /** What `init` leaves behind. */
  datatype InitStep = InitStep(plugin: Plugin, hooks: seq<Hook>, loader: Loader, error: Option<ClassError>)

  /** `init`, for a given outcome of `meets_requirements`: runs
      `plugin_classes` exactly when the requirements hold. */
  function InitWith(met: bool, p: Plugin, hooks: seq<Hook>, ld: Loader): (r: InitStep)
    ensures r.plugin.basename == p.basename && r.plugin.url == p.url && r.plugin.path == p.path
    ensures met && ComponentsAvailable(ld) ==>
              r.plugin.admin == Some(AdminComponent) && r.plugin.functions == Some(FunctionsComponent) && r.error.None?
    ensures met && !ComponentsAvailable(ld) ==> r.error.Some?
    ensures met ==> r.plugin == PluginClasses(p, ld).plugin && r.loader == PluginClasses(p, ld).loader
    ensures !met ==> r.plugin == p && r.loader == ld && r.error.None?
    ensures r.hooks == CheckRequirementsWith(met, hooks).hooks
  {
    var checked := CheckRequirementsWith(met, hooks);
    if checked.met then
      var attached := PluginClasses(p, ld);
      InitStep(attached.plugin, checked.hooks, attached.loader, attached.error)
    else
      InitStep(p, checked.hooks, ld, None)
  }

  /** `init` as the plugin runs it: the requirements hold, so the outcome
      is that of `plugin_classes`, and nothing is registered. */
  function Init(p: Plugin, hooks: seq<Hook>, ld: Loader): (r: InitStep)
    ensures r.plugin == PluginClasses(p, ld).plugin && r.error == PluginClasses(p, ld).error
    ensures r.loader == PluginClasses(p, ld).loader
    ensures ComponentsAvailable(ld) ==>
              r.plugin.admin == Some(AdminComponent) && r.plugin.functions == Some(FunctionsComponent)
    ensures r.hooks == hooks
  {
    InitWith(MeetsRequirements(), p, hooks, ld)
  }

  /** The singleton runtime together with the host registry and the
      class-loading state. */
  datatype Running = Running(runtime: Runtime, hooks: seq<Hook>, loader: Loader, error: Option<ClassError>)

  /** The host firing `init` on the object `hooks()` registered: that object
      is the stored singleton, and `init` updates it in place. */
  function RunInit(rt: Runtime, env: Env, hooks: seq<Hook>, ld: Loader): (r: Running)
    ensures var inst := GetInstance(rt, env);
            var step := Init(inst.plugin, hooks, ld);
            && r.runtime.instance == Some(step.plugin)
            && r.runtime.constructions == inst.runtime.constructions
            && r.hooks == hooks
            && r.error == step.error
    ensures r.loader == PluginClasses(GetInstance(rt, env).plugin, ld).loader
  {
    var inst := GetInstance(rt, env);
    var step := Init(inst.plugin, hooks, ld);
    Running(inst.runtime.(instance := Some(step.plugin)), step.hooks, step.loader, step.error)
  }

  /** With both classes loadable, `init` attaches both components and
      changes nothing else of the instance. */
  lemma InitAttaches(p: Plugin, hooks: seq<Hook>, ld: Loader)
    requires ComponentsAvailable(ld)
    ensures Init(p, hooks, ld).plugin == p.(admin := Some(AdminComponent), functions := Some(FunctionsComponent))
  {
  }

  /** `__get` on an instance with both components attached shows them, and
      shows the basename, URL and path it had before. */
  lemma AttachedReads(before: Plugin, q: Plugin)
    requires q == before.(admin := Some(AdminComponent), functions := Some(FunctionsComponent))
    ensures Get(q, "admin") == Success(Instance(Some(AdminComponent)))
    ensures Get(q, "functions") == Success(Instance(Some(FunctionsComponent)))
    ensures Get(q, "basename") == Get(before, "basename")
    ensures Get(q, "url") == Get(before, "url")
    ensures Get(q, "path") == Get(before, "path")
  {
  }

  /** After `init` has run on the singleton, every later `get_instance`
      returns the instance with the components attached, without
      constructing again, and its basename, URL and path are those it was
      constructed with. */
  lemma InitSeenThroughSingleton(rt: Runtime, env: Env, env': Env, hooks: seq<Hook>, ld: Loader)
    requires ComponentsAvailable(ld)
    ensures var before := GetInstance(rt, env).plugin;
            var r := RunInit(rt, env, hooks, ld);
            var later := GetInstance(r.runtime, env');
            && later.runtime == r.runtime
            && Get(later.plugin, "admin") == Success(Instance(Some(AdminComponent)))
            && Get(later.plugin, "functions") == Success(Instance(Some(FunctionsComponent)))
            && Get(later.plugin, "basename") == Get(before, "basename")
            && Get(later.plugin, "url") == Get(before, "url")
            && Get(later.plugin, "path") == Get(before, "path")
            && (rt.instance.Some? ==> r.runtime.constructions == rt.constructions)
  {
    var before := GetInstance(rt, env).plugin;
    InitAttaches(before, hooks, ld);
    var q := before.(admin := Some(AdminComponent), functions := Some(FunctionsComponent));
    AttachedReads(before, q);
    var r := RunInit(rt, env, hooks, ld);
    assert r.runtime.instance == Some(q);
    assert GetInstance(r.runtime, env').plugin == q;
  }

  /** The callbacks the host runs for `action`, in registration order. */
  function Dispatch(hooks: seq<Hook>, action: string): (r: seq<Callback>)
    ensures |r| <= |hooks|
    ensures forall c :: c in r <==> Registered(hooks, action, c)
  {
    if hooks == [] then []
    else
      var last := hooks[|hooks| - 1];
      var front := hooks[..|hooks| - 1];
      var r := Dispatch(front, action) + (if last.action == action then [last.callback] else []);
      assert forall c :: Registered(hooks, action, c) <==> Registered(front, action, c) || last == Hook(action, c) by {
        forall c ensures Registered(hooks, action, c) <==> Registered(front, action, c) || last == Hook(action, c) {
          if Registered(hooks, action, c) {
            var i :| 0 <= i < |hooks| && hooks[i] == Hook(action, c);
            if i < |front| {
              assert front[i] == hooks[i];
            }
          }
          if Registered(front, action, c) {
            var i :| 0 <= i < |front| && front[i] == Hook(action, c);
            assert hooks[i] == front[i];
          }
        }
      }
      r
  }

  /** A single registration dispatches its callback to its own action and
      to no other. */
  lemma DispatchSingle(h: Hook, action: string)
    ensures Dispatch([h], action) == if h.action == action then [h.callback] else []
  {
    assert [h][..0] == [];
  }

  /** Dispatch keeps registration order: the callbacks of a registry that
      is `a` followed by `b` are those of `a` followed by those of `b`. */
  lemma {:induction false} DispatchConcat(a: seq<Hook>, b: seq<Hook>, action: string)
    ensures Dispatch(a + b, action) == Dispatch(a, action) + Dispatch(b, action)
    decreases |b|
  {
    if b == [] {
      assert a + b == a;
    } else {
      var front := b[..|b| - 1];
      var last := b[|b| - 1];
      assert (a + b)[..|a + b| - 1] == a + front;
      assert (a + b)[|a + b| - 1] == last;
      DispatchConcat(a, front, action);
    }
  }

  /** `hooks()` schedules `init` on the host's `init` action. */
  function RegisterHooks(hooks: seq<Hook>): (r: seq<Hook>)
    ensures |r| == |hooks| + 1 && r[..|hooks|] == hooks
    ensures r[|hooks|] == Hook("init", InitCallback)
  {
    hooks + [Hook("init", InitCallback)]
  }

  /** After `hooks()`, the host's `init` action runs `init` last, and no
      other action's callbacks change. */
  lemma RegisterHooksDispatch(hooks: seq<Hook>, action: string)
    ensures Dispatch(RegisterHooks(hooks), "init") == Dispatch(hooks, "init") + [InitCallback]
    ensures action != "init" ==> Dispatch(RegisterHooks(hooks), action) == Dispatch(hooks, action)
  {
  }

  /** A failed requirements check makes the host show the notice on every
      admin page and deactivate the plugin on the next admin request, after
      whatever those actions already ran. */
  lemma NotMetDispatch(hooks: seq<Hook>)
    ensures var r := CheckRequirementsWith(false, hooks).hooks;
            && Dispatch(r, "all_admin_notices") == Dispatch(hooks, "all_admin_notices") + [RequirementsNotMetNotice]
            && Dispatch(r, "admin_init") == Dispatch(hooks, "admin_init") + [DeactivateMe]
            && Dispatch(r, "init") == Dispatch(hooks, "init")
  {
    var r := CheckRequirementsWith(false, hooks).hooks;
    var mid := hooks + [NotMetHooks[0]];
    assert r == mid + [NotMetHooks[1]];
    assert r[..|r| - 1] == mid;
    assert mid[..|mid| - 1] == hooks;
  }

  /** The plugin's phase, read off its state and the registry. */
  datatype Phase = Uninitialized | Active | Disabled

  function PhaseOf(p: Plugin, hooks: seq<Hook>): Phase {
    if p.admin.Some? && p.functions.Some? then Active
    else if Registered(hooks, "admin_init", DeactivateMe) then Disabled
    else Uninitialized
  }

  /** From a freshly constructed instance and a registry without the
      deactivation, `init` reaches `Active` exactly when the requirements
      hold and both component classes load, and `Disabled` exactly when the
      requirements fail; `__get` shows the components attached or unset. */
  lemma InitPhases(met: bool, env: Env, hooks: seq<Hook>, ld: Loader)
    requires !Registered(hooks, "admin_init", DeactivateMe)
    ensures var r := InitWith(met, Construct(env), hooks, ld);
            && (PhaseOf(r.plugin, r.hooks) == Active <==> met && ComponentsAvailable(ld))
            && (PhaseOf(r.plugin, r.hooks) == Disabled <==> !met)
            && (met && ComponentsAvailable(ld) ==> Get(r.plugin, "admin") == Success(Instance(Some(AdminComponent))))
            && (met && ComponentsAvailable(ld) ==> Get(r.plugin, "functions") == Success(Instance(Some(FunctionsComponent))))
            && (!met ==> Get(r.plugin, "admin") == Success(Instance(None)))
            && (!met ==> Get(r.plugin, "functions") == Success(Instance(None)))
  {
    if !met {
      NotMetRegistersNoticeAndDeactivation(hooks);
    }
  }
}
