# Millionaire's Digest Verified Accounts — the plugin bootstrap, in Dafny

`buddyverified.php` is the main file of a BuddyPress/WordPress plugin that lets
the site owner mark accounts as verified. Most of it wires the plugin into the
host. This project models the three pieces of logic in it and proves what they
promise:

- **Class autoloading.** `buddyverified_autoload_classes` turns a class name
  such as `BV_Admin` into a file name (`admin`). `include_file` and `dir` then
  turn that file name into an include path (`<plugin dir>/includes/class-admin.php`).
  `url` builds URLs the same way. `dir` and `url` keep their base in a PHP
  `static` variable. The model passes that variable into each call and gets
  its new value back.
- **The `__get` whitelist.** It returns the `VERSION` constant, one of five
  stored fields, or an "Invalid BuddyVerified property" exception.
- **The lifecycle.** `get_instance` is the singleton accessor. `init` runs
  `check_requirements` and, when that passes, `plugin_classes`.
  `meets_requirements` is constant `true`. The host's action registry is
  modelled as the list of `add_action` calls made so far.

Modules:

- `Wrappers` (`wrappers.dfy`): `Option` and `Result`.
- `PhpStrings` (`php_strings.dfy`): the built-ins the file uses. PHP's
  `strpos`, one-character `str_replace`, ASCII `strtolower` and string
  truthiness, plus WordPress's `trailingslashit`.
- `Paths` (`paths.dfy`): `dir`, `url` and `include_file`.
- `Autoloader` (`autoloader.dfy`): `buddyverified_autoload_classes`.
- `Lifecycle` (`lifecycle.dfy`): the plugin state, `__get`, the constructor,
  `get_instance`, `meets_requirements`, `check_requirements`, `plugin_classes`,
  `init` and `hooks`.

These values come from the host and are parameters of the model:

- the answers of `plugin_basename`, `plugin_dir_url` and `plugin_dir_path`;
- `dirname(__FILE__)`;
- the set of files that exist on disk, which `file_exists` consults.

The file's two version numbers disagree. The plugin header says 1.0.0, but
`BuddyVerified::VERSION` is `2.4.1`. `__get('version')` returns the constant,
and so does the model.

`trailingslashit` is a WordPress function, not part of this file. It is
modelled by its definition: remove every trailing `/` and `\`, then append one
`/`. `strtolower` is modelled as PHP 8.2 and later define it, which is
ASCII-only and independent of the locale. In 8.0 and 8.1 it follows
`LC_CTYPE`, which is "C" unless `setlocale` is called; before 8.0 PHP took
`LC_CTYPE` from the environment at startup.

`plugin_classes` creates its components with `new BV_Admin` and
`new BV_Functions`. Those classes are defined only when the autoloader finds
their files. The model tracks which classes are defined and which files exist,
so a missing class file becomes a "class not found" error in the model.
PHP class names are case-insensitive, so the model records each defined
class under its lower-cased name. The autoloader's own `BV_` test is still
case-sensitive.

## Model

| member | source | states |
|---|---|---|
| PhpStrings.StrPos | buddyverified.php:18 | `strpos` returns the first offset where the needle occurs and reports none earlier. `None` (PHP's `false`) means the needle occurs nowhere. |
| PhpStrings.StrPosZeroIsPrefix | buddyverified.php:18-20 | `strpos($s, $p) === 0` holds exactly when `$p` is a prefix of `$s`. |
| PhpStrings.StrReplaceChar | buddyverified.php:22-24 | Every `_` becomes `-` and every other character is kept. The length does not change and no `_` is left. |
| PhpStrings.LowerChar | buddyverified.php:22 | Upper-case ASCII letters are shifted to lower case and every other character is kept. The result is never an upper-case letter. |
| PhpStrings.StrToLower | buddyverified.php:22 | The string is lower-cased character by character. The length does not change and no upper-case ASCII letter is left. |
| PhpStrings.StrToLowerFixes | buddyverified.php:22 | Lower-casing leaves a string that has no upper-case letters unchanged. |
| PhpStrings.Untrailing | buddyverified.php:282 | The result is a prefix of the input with no trailing `/` or `\`, and only such slashes were removed. |
| PhpStrings.TrailingSlashIt | buddyverified.php:282 | The base ends in exactly one `/` and is truthy in PHP. It is the input with its trailing slashes removed, and only slashes were removed. |
| PhpStrings.TrailingSlashItIdempotent | buddyverified.php:282 | `trailingslashit` is idempotent: applying it to its own result changes nothing. |
| Paths.CachedBase | buddyverified.php:281-283 | A truthy cached base is reused. Otherwise the base is computed once with `trailingslashit`. The result is the base followed by the path, and the new cache is truthy and ends in `/`. |
| Paths.Dir | buddyverified.php:280-284 | `dir($path)` is the cached directory followed by `$path`. The directory is computed from `dirname(__FILE__)` only when the cache is falsy, and it ends in `/`. |
| Paths.Url | buddyverified.php:293-297 | `url($path)` is the cached URL followed by `$path`. The URL is computed from `plugin_dir_url(__FILE__)` only when the cache is falsy, and it ends in `/`. |
| Paths.DirAppendsAndReuses | buddyverified.php:280-284 | `dir(p) == dir('') . p`. After the first call the cached directory never changes, whatever the host would later return. |
| Paths.UrlAppendsAndReuses | buddyverified.php:293-297 | `url(p) == url('') . p`. After the first call the cached URL never changes, whatever the host would later return. |
| Paths.UrlOfSlashedBase | buddyverified.php:295 | `plugin_dir_url` already answers through `trailingslashit`. Passing that answer through `trailingslashit` again, as `url` does, gives the same cache and URLs as the raw directory URL. |
| Paths.IncludeFile | buddyverified.php:265-271 | The path checked is `dir('') . 'includes/class-' . $filename . '.php'`. The file is included exactly when that path exists. |
| Paths.IncludePathInjective | buddyverified.php:266 | Different file names never produce the same include path. |
| Autoloader.FileChar | buddyverified.php:22-25 | `_` becomes `-` and every other character becomes its ASCII lower-case form, so the result is never `_` or upper case. Characters already in that form are kept. |
| Autoloader.ClassFileName | buddyverified.php:17-25 | A file name is produced exactly when the class name starts with `BV_`. It has length equal to the class name's length minus 3, contains no `_` and no upper-case letter, and character i is the mapped character i+3 of the class name. |
| Autoloader.ReplaceThenLowerCommutes | buddyverified.php:22-25 | Replacing `_` and lower-casing give the same result in either order. |
| Autoloader.FileNameRoundTrip | buddyverified.php:22-25 | Every file name of the produced form is what class `BV_<name>` maps to. |
| Autoloader.ClassFileNameIdempotent | buddyverified.php:22-25 | Prefixing a produced file name with `BV_` and mapping it again gives the same file name. |
| Autoloader.SameFileName | buddyverified.php:22-25 | Class suffixes whose characters map alike give the same file name. |
| Autoloader.SuffixCaseInsensitive | buddyverified.php:22-25 | After the prefix, letter case and the `_`/`-` distinction do not affect the file name. |
| Autoloader.LowerCasePrefixIgnored | buddyverified.php:18-20 | The prefix test is case-sensitive: a class starting with `bv_` is ignored. |
| Autoloader.Autoload | buddyverified.php:17-28 | An include is attempted exactly for `BV_` classes. An ignored class leaves the `dir` cache untouched. An attempted class uses `dir('')` followed by `includes/class-<file name>.php` and is included exactly when that file exists. |
| Autoloader.AutoloadPathShape | buddyverified.php:22-27 | For a `BV_` class the attempted path is a base ending in `/`, then `includes/class-`, a file name of length equal to the class name's length minus 3 with no `_` and no upper case, then `.php`. |
| Autoloader.ComponentFileNames | buddyverified.php:22-25 | `BV_Admin` maps to file name `admin` and `BV_Functions` to `functions`. |
| Autoloader.RequireClass | buddyverified.php:17-28 | `new <class>` finds the class defined exactly when a class of that name, in any letter case, is already defined or the autoloader included its `includes/class-<file>.php`. Otherwise it fails with "class not found" for that name. On success the class is defined afterwards. A class without the `BV_` prefix that is not defined in any letter case always fails. The directory base seen by later lookups does not change. A class table holding only lower-cased names keeps that form. |
| Autoloader.RequireClassKeepsOthers | buddyverified.php:17-28 | Looking up one class does not change whether a class whose name differs from it other than in letter case can be loaded. |
| Autoloader.RequireClassAnyCase | buddyverified.php:17-28 | After a class has been found, every spelling of its name that differs only in letter case is defined too and is found without running the autoloader again. |
| Lifecycle.Get | buddyverified.php:243-256 | `__get` succeeds exactly for the six whitelisted names. `version` gives `2.4.1`. The five field names give the stored value unchanged. Any other name fails with `Invalid BuddyVerified property: <name>`. |
| Lifecycle.GetDeterminesState | buddyverified.php:243-256 | Two instances that answer every whitelisted property alike are equal, so the whitelist exposes the whole state. |
| Lifecycle.InvalidPropertyNamesField | buddyverified.php:253-254 | The exception message identifies the requested name: distinct unknown names give distinct errors. |
| Lifecycle.Construct | buddyverified.php:115-119 | A new instance reports the host's basename, URL and path. `admin` and `functions` are unset. |
| Lifecycle.GetInstance | buddyverified.php:102-108 | With no stored instance, one is constructed, stored and returned, and the constructor count goes up by one. With a stored instance, that instance is returned and nothing changes. |
| Lifecycle.SingletonConstructsOnce | buddyverified.php:102-108 | Over any sequence of calls the constructor runs at most once and every call returns the same stored instance, built from the first call's host answers. |
| Lifecycle.CheckRequirementsWith | buddyverified.php:184-197 | The result equals the requirements outcome. The registry only grows. On success nothing is registered. On failure exactly `all_admin_notices → requirements_not_met_notice` and then `admin_init → deactivate_me` are appended. |
| Lifecycle.CheckRequirements | buddyverified.php:215-220 | Because `meets_requirements` is always true, `check_requirements` returns true and registers nothing. |
| Lifecycle.NotMetRegistersNoticeAndDeactivation | buddyverified.php:185-193 | A failed check leaves both the notice and the deactivation registered and adds exactly two entries. |
| Lifecycle.CheckRequirementsIdempotent | buddyverified.php:184-197 | Repeating the check gives the same answer and does not change the registry. |
| Lifecycle.PluginClasses | buddyverified.php:127-131 | `plugin_classes` succeeds exactly when both component classes can be loaded. If `BV_Admin` cannot be loaded, it fails with that class and the instance is unchanged. If only `BV_Functions` cannot be loaded, `admin` is attached, `functions` is kept and the error names `BV_Functions`. Basename, URL and path never change. On success both classes are defined afterwards. No defined class is lost, the files and the directory base are unchanged, and a lower-cased class table stays lower-cased. |
| Lifecycle.PluginClassesWithFiles | buddyverified.php:127-131 | When `includes/class-admin.php` and `includes/class-functions.php` exist under the plugin directory, both components are attached, both classes end up defined and there is no error. |
| Lifecycle.InitWith | buddyverified.php:170-175 | `plugin_classes` runs exactly when the requirements hold. Otherwise the instance and the loading state are unchanged and there is no error. With the requirements met and both classes loadable, both components are attached. Basename, URL and path never change. The registry is what the requirements check leaves. |
| Lifecycle.Init | buddyverified.php:170-175 | As the plugin runs, `init` has the outcome of `plugin_classes`: the same instance, the same class-loading state and the same error. It registers nothing. When both classes load, both components are attached. |
| Lifecycle.InitAttaches | buddyverified.php:127-131 | When both classes load, `init` attaches both components and changes nothing else of the instance. |
| Lifecycle.RunInit | buddyverified.php:102-108 | Running `init` on the singleton stores the updated instance back as the singleton. If an instance already existed, no new one is constructed. The registry, class-loading state and error are those `init` leaves. |
| Lifecycle.AttachedReads | buddyverified.php:243-256 | On an instance with both components attached, `__get` shows both of them and the basename, URL and path the instance had before. |
| Lifecycle.InitSeenThroughSingleton | buddyverified.php:127-141 | After `init` has run on the singleton, a later `get_instance` constructs nothing and returns the instance with both components attached. Its basename, URL and path are unchanged. |
| Lifecycle.Dispatch | buddyverified.php:141 | The callbacks the host runs for an action are exactly those registered for it, and there are no more of them than registrations. |
| Lifecycle.DispatchSingle | buddyverified.php:141 | One registration runs its callback on its own action and on no other. |
| Lifecycle.DispatchConcat | buddyverified.php:141 | The callbacks are run in registration order: for a registry `a` followed by `b`, the callbacks of `a` come first, then those of `b`. |
| Lifecycle.RegisterHooks | buddyverified.php:139-142 | `hooks()` keeps the existing registry and appends exactly one entry: `init` on the host's `init` action. |
| Lifecycle.RegisterHooksDispatch | buddyverified.php:139-142 | After `hooks()`, the host's `init` action runs `init` after its earlier callbacks, and every other action runs the same callbacks as before. |
| Lifecycle.NotMetDispatch | buddyverified.php:185-193 | After a failed check, `all_admin_notices` also runs the notice and `admin_init` also runs the deactivation, each after its earlier callbacks. `init` is unaffected. |
| Lifecycle.InitPhases | buddyverified.php:170-197 | From a fresh instance, `init` reaches Active exactly when the requirements hold and both classes load. It reaches Disabled exactly when the requirements fail. `__get('admin')` and `__get('functions')` show both components attached in the first case and both unset in the second. |

## Left out

- File I/O in `include_file`: `file_exists` is modelled by a set of existing paths, and `include_once` is reduced to a flag saying the file was included.
- Host calls: `plugin_basename`, `plugin_dir_url`, `plugin_dir_path` and `dirname(__FILE__)` are parameters. `add_action` is a list of registrations in order. WordPress's de-duplication of identical callbacks is not modelled.
- `load_plugin_textdomain` in `init` is not modelled because it is a host call that only loads translations.
- `_activate`, which calls `flush_rewrite_rules`, is not modelled because its only effect is a host call.
- `_deactivate` is not modelled because its body is empty.
- `deactivate_me` is not modelled because its only effect is the host call `deactivate_plugins`.
- `requirements_not_met_notice` is not modelled because it only echoes translated HTML. It appears in the model only as a registered callback.
- The `VERIFIED_URL` constant, `spl_autoload_register`, the `buddyverified()` wrapper and the kickoff at the end of the file are left out. They are host registrations, not logic.
- BV_Admin and BV_Functions are not part of this model: the verified flag, the admin checkbox and the badge are implemented there. The components are opaque tags. Object identity is not modelled, so a second `init` that builds fresh component objects looks the same as the first.
- Lifecycle.PluginClasses: assumes that including `includes/class-<name>.php` defines the class. The included files are not part of this model. A class that cannot be loaded is returned as an error value. In PHP it is an uncaught `Error`, which ends the request. Whatever the component constructors do is not modelled.
- The singleton is a value, not a shared object. `Lifecycle.RunInit` is what stores the result of `init` back into it. Applying `Lifecycle.Init` to an instance alone does not update the stored singleton.
- PHP strings are byte strings but are modelled here as `seq<char>`. The mapping is unaffected, because `_` and `A`–`Z` never occur inside a multi-byte UTF-8 sequence. But "length minus 3" counts characters where `strlen` counts bytes.
- PhpStrings.StrToLower: models `strtolower` as it behaves in PHP 8.2 and later. In earlier versions it depends on the locale, and that dependence is not modelled.
- Lifecycle.MeetsRequirements: its constant `true` is stated through `Lifecycle.CheckRequirements` rather than by a contract of its own.
