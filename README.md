# Storage and Injection: a Dafny model

This project models the persistence core of the `Kalkatos` C# game toolkit. It covers two parts.

The first is `FileStorage`, the default key-value backend. It keeps a file path and a file name and stores one
`Dictionary<string, string>` per file at `$"{FilePath}/{FileName}"`. Every operation rereads the whole document,
and save and delete write it all back. The model also covers the `Storage` facade, which forwards each call to
that one backend and adds `TryLoad`.

The second is `Injection`, the registry from a type to the object bound to it.

Layout:

- `wrappers.dfy` (module `Wrappers`): `Option` and `Result`.
- `int_text.dfy` (module `IntText`): the C# `int` and its text form. `int.ToString()` becomes `IntToString`.
  `int.Parse` becomes `ParseInt`, which returns `FormatError` or `OverflowError` where .NET throws
  `FormatException` or `OverflowException`.
- `documents.dfy` (module `Documents`): the file system as a map from location to document. It holds the
  functions that say what load, save and delete leave behind (`Lookup`, `Saved`, `Deleted`) and the properties
  of those functions.
- `file_store.dfy` (module `FileStore`): the class `Disk`, which is the file system, and the class
  `FileStorage`. Its setters change its fields, and its save and delete methods rewrite the disk's map.
- `facade.dfy` (module `Facade`): the class `Storage`, plus client scenarios that use only its contracts.
- `injection.dfy` (module `Injections`): the class `Injection`, with its bindings map and the error messages
  it hands to the logger.

C# overloads get distinct names: `Load(string, string)` is `LoadString`, and `Load(string, int)` is `LoadInt`.
The same goes for `Save`. `Storage` and `Injection` are ordinary C# classes whose members are all static; each is modelled as one object. Their
static fields become that object's fields, or a `const` where the field is never reassigned.

Two facts the proofs bring out:

- With the defaults `FilePath = ""` and `FileName = "player-prefs.json"`, the file is `"/player-prefs.json"`.
- As location strings, two configurations coincide when a name holds a `/`: `("a/b", "c")` and `("a", "b/c")`
  both give `"a/b/c"`. Without a `/` in the file names, the location string fixes the configuration. These are
  facts about strings; the operating system can map further strings to one file (see "## Left out").

`TryLoad` reports "found" when the loaded value differs from the default. So a key stored with the default's
own value is reported exactly like an absent key. The code does this and the model keeps it
(`Documents.TryLoadConflatesDefault`).

Two behaviours of the code worth knowing:

- `Delete` rewrites the file whenever it exists, including when the key was absent. In the model that write
  puts back the same document.
- Loading an int whose stored text is not a number fails the way `int.Parse` does: `FormatError`, or
  `OverflowError` outside the `int` range. `int.Parse` throws `FormatException` or `OverflowException`; the model
  returns `FormatError` or `OverflowError`.

## Model

| member | source | states |
|---|---|---|
| IntText.IntToString | Storage.cs:125-128 | `value.ToString()` starts with '-' iff the value is negative, followed by a non-empty run of digits with no leading zero (only 0 is "0") |
| IntText.ParseInt | Storage.cs:108-112 | `int.Parse` rejects with a format error any string that holds no decimal digit (e.g. "hello") |
| IntText.ParseIntRejectsStray | Storage.cs:108-112 | one character that is not a digit, white space or sign anywhere in the text ("12abc", "3.5") makes `int.Parse` fail with a format error, never a truncated number |
| IntText.IntRoundTrip | Storage.cs:108-128 | for every Int32 `n`, parsing `n.ToString()` gives back exactly `n` |
| IntText.ParseIntOverflows | Storage.cs:108-112 | the digits of any number above Int32.MaxValue make `int.Parse` fail with an overflow, not wrap |
| Documents.Location | Storage.cs:148 | `$"{FilePath}/{FileName}"`: the path, then one '/', then the file name |
| Documents.DefaultLocation | Storage.cs:97-98 | the default configuration names the file "/player-prefs.json" |
| Documents.LocationInjective | Storage.cs:148 | with '/'-free file names, equal locations imply equal (path, name) configurations |
| Documents.LocationAliases | Storage.cs:148 | two different configurations with a '/' in the name share one location |
| Documents.LoadMissingFile | Storage.cs:155-156 | without a file at the location, a load yields exactly the default |
| Documents.LoadExistingFile | Storage.cs:148-153 | with the file present, a load yields the stored string if the key is there and the default otherwise |
| Documents.LoadIntMissing | Storage.cs:108-112 | an int load of an absent key yields the default int after its ToString/Parse round trip |
| Documents.LoadAfterSave | Storage.cs:159-173 | a load after saving `v` under `k` yields `v` whatever the default |
| Documents.LoadIntAfterSaveInt | Storage.cs:108-128 | saving the int `v` and loading it with any int default yields `v` |
| Documents.SaveOverwrites | Storage.cs:165-168 | saving a key twice equals saving only the later value |
| Documents.SaveFrame | Storage.cs:159-177 | a save leaves the file existing, grows its key set by the key alone, keeps every other key's value and leaves every other location unchanged |
| Documents.SaveCreatesFile | Storage.cs:170-172 | saving where no file exists creates a document holding exactly `{k: v}` |
| Documents.DeleteMissingFile | Storage.cs:135-144 | a delete with no file at the location changes nothing |
| Documents.DeleteExistingFile | Storage.cs:137-143 | on an existing file, a delete leaves the file existing with the old document minus the key and other locations unchanged |
| Documents.LoadAfterDelete | Storage.cs:135-157 | after a delete, loading that key yields the default |
| Documents.DeleteIdempotent | Storage.cs:135-144 | deleting twice equals deleting once |
| Documents.TryLoadFound | Storage.cs:55-59 | when `TryLoad` reports found, the key is stored with the returned value |
| Documents.TryLoadConflatesDefault | Storage.cs:55-59 | a key stored with the default's value loads as the default, so `TryLoad` reports it as not found |
| Documents.LoadFresh | Storage.cs:55-59 | on an empty file system every load yields the default |
| FileStore.FileStorage.constructor | Storage.cs:97-98 | a new backend has path "" and name "player-prefs.json" |
| FileStore.FileStorage.FileLocation | Storage.cs:137 | the location every operation of the backend uses is the current `FilePath`, one '/', then the current `FileName` |
| FileStore.FileStorage.SetFilePath | Storage.cs:100 | sets the path only; the name and every file are unchanged |
| FileStore.FileStorage.SetFileName | Storage.cs:101 | sets the name only; the path and every file are unchanged |
| FileStore.FileStorage.OpenLoad | Storage.cs:146-157 | returns `Lookup` of the current files at the current location |
| FileStore.FileStorage.SaveDictionary | Storage.cs:175-178 | the current location now holds exactly the given document; nothing else changes |
| FileStore.FileStorage.OpenSave | Storage.cs:159-173 | the files become `Saved(old files, location, key, value)` |
| FileStore.FileStorage.LoadString | Storage.cs:103-106 | returns `Lookup` of the current files at the current location |
| FileStore.FileStorage.LoadInt | Storage.cs:108-112 | absent key: the default; present key: `ParseInt` of the stored text, including its failures |
| FileStore.FileStorage.SaveString | Storage.cs:120-123 | the files become `Saved` with the string |
| FileStore.FileStorage.SaveInt | Storage.cs:125-128 | the files become `Saved` with the int's `ToString` |
| FileStore.FileStorage.Delete | Storage.cs:135-144 | the files become `Deleted(old files, location, key)` |
| Facade.Storage.constructor | Storage.cs:27 | the active backend is a fresh `FileStorage` with the default configuration |
| Facade.Storage.SetFilePath | Storage.cs:30-33 | forwards to the backend: path set, name and files unchanged |
| Facade.Storage.SetFileName | Storage.cs:35-38 | forwards to the backend: name set, path and files unchanged |
| Facade.Storage.SaveString | Storage.cs:40-43 | the files become `Saved` at the backend's location |
| Facade.Storage.SaveInt | Storage.cs:45-48 | the files become `Saved` with the int's text at the backend's location |
| Facade.Storage.TryLoad | Storage.cs:55-59 | the value is the string load; found iff it differs from the default, and found implies the key is stored with that value |
| Facade.Storage.LoadString | Storage.cs:61-64 | the backend's string load |
| Facade.Storage.LoadInt | Storage.cs:66-69 | the backend's int load: default when absent, `ParseInt` of the stored text otherwise |
| Facade.Storage.Delete | Storage.cs:76-79 | the files become `Deleted` at the backend's location |
| Facade.ScoreScenario | Storage.cs:30-69 | set path "/tmp/x", name "p.json", save 42 under "score", load with default 0: 42 |
| Facade.FreshTryLoadScenario | Storage.cs:55-64 | on a fresh store `TryLoad("missing", "N/A")` is `(false, "N/A")` |
| Facade.OverwriteScenario | Storage.cs:40-64 | saving "Ann" then "Bob" under "name" loads "Bob" |
| Facade.DeleteTwiceScenario | Storage.cs:76-79 | a second delete leaves the files as the first did, and the key then loads as the default |
| Injections.NoBindingMessage | Injection.cs:45 | the error message for an unbound type ends with that type's name |
| Injections.Injection.constructor | Injection.cs:14 | the registry starts with no bindings and no logged errors |
| Injections.Injection.Bind | Injection.cs:21-29 | the bindings become the old ones with `t` mapped to `obj`; nothing is logged |
| Injections.Injection.ResolveOut | Injection.cs:37-47 | returns the bound object or `Null`; bindings unchanged; exactly one error entry "No binding found for type t" iff unbound and not quiet |
| Injections.Injection.Resolve | Injection.cs:49-54 | the same instance and log effect as `ResolveOut` |
| Injections.ResolveAfterBind | Injection.cs:21-43 | after binding `t` to `obj`, resolving `t` gives `obj` and logs nothing |
| Injections.BindOverwrites | Injection.cs:23-28 | a second bind of a type replaces the first |
| Injections.BindOthersUnchanged | Injection.cs:21-29 | binding `t` changes neither what any other type resolves to nor what resolving it logs |
| Injections.ResolveUnbound | Injection.cs:44-46 | an unbound type resolves to `Null`, logging its message iff not quiet |
| Injections.RegistryScenario | Injection.cs:21-54 | bind, rebind, resolve gives the latest object; a quiet miss logs nothing; a loud miss logs one message |

## Left out

- The JSON codec (`Serialize`/`Deserialize`, Storage.cs:180-196) is a call into Newtonsoft.Json or System.Text.Json. In the model a file holds its document directly, so decoding what was encoded is the identity.
- Malformed files are not modelled. The C# code has no handling of its own for undecodable text; whatever the JSON library throws escapes to the caller.
- With neither `UNITY_5_3_OR_NEWER` nor `GODOT` defined, `Serialize` and `Deserialize` (Storage.cs:180-196) have no return, so the build with `new FileStorage()` (Storage.cs:27) does not compile. The builds that compile select `PersistentDataPathMethod` (Storage.cs:247-250) or `GodotStorage` (Storage.cs:261-264). In both, the `FilePath` setter does nothing, so `Storage.SetFilePath` has no effect there. The facade here is modelled over a plain `FileStorage`, whose `FilePath` setter works.
- The float `Save`/`Load` overloads (Storage.cs:50-53, 71-74, 114-118, 130-133) are left out: float formatting and parsing are out of scope.
- `UnityStorage`, `PlayerPrefsMethod`, `PersistentDataPathMethod` and `GodotStorage` (Storage.cs:199-265) are left out. They are wrappers over engine APIs, chosen by conditional compilation.
- The `IStorage` interface is not modelled as a separate type. The facade holds its one `FileStorage` directly.
- Real file I/O (`File.Exists`, `ReadAllText`, `WriteAllText`) is an abstract map. I/O errors, partial writes and crash atomicity are left out.
- Concurrent callers and the lost-update race between overlapping saves are left out. The model is sequential.
- Paths are not normalised: a file is picked by its exact location string. The operating system treats `/tmp/x//p.json` and `/tmp/x/p.json` as one file, and may also fold case or follow links; the model treats them as different locations. So `Documents.SaveFrame`'s "other locations unchanged" and `Documents.LocationInjective` speak of location strings, not of files.
- C# `null` strings are not modelled; every string here is a value. `Load(null, d)` returns `d` with no file but throws `ArgumentNullException` from `ContainsKey` (Storage.cs:151) with one, `Save(k, null)` stores a null value, and a null `FilePath` or `FileName` is formatted as the empty string.
- IntText.IntToString: it uses the invariant culture's '-'; `int.ToString()` (Storage.cs:110, 127) uses the current culture's negative sign.
- IntText.ParseInt: it uses the invariant culture's '+' and '-' for the current culture's signs. It does not accept the trailing NUL characters .NET tolerates.
- The logger's sinks (Logger.cs, CSharpGameExtensions.cs) are left out. `Injection` records only the message it passes to `Logger.LogError`, not the "[Error] " prefix the console sink adds.
- The runtime cast `(T)instances[typeof(T)]` (Injection.cs:41) is left out. Types are tags over one object domain, and `default(T)` is the single value `Null`.
- ISignal.cs declares events only and is not part of this model.
