/** The persisted state behind `FileStorage`: every storage location (a file
    path) holds at most one document, a string-to-string dictionary. The
    functions here say what each whole-document read-modify-write of
    `FileStorage` leaves behind; the lemmas are the properties the store
    promises its callers. */
module Documents {
  import opened Wrappers
  import opened IntText

  /** The `Dictionary<string, string>` serialized into one file. */
  type Document = map<string, string>

  /** The file system as seen by `File.Exists`, `ReadAllText` and `WriteAllText`:
      the locations that exist, each with the document it holds. */
  type Files = map<string, Document>

  const DefaultFilePath: string := ""
  const DefaultFileName: string := "player-prefs.json"

  /** `$"{FilePath}/{FileName}"`. */
  function Location(path: string, name: string): (loc: string)
    ensures |loc| == |path| + 1 + |name|
    ensures loc[..|path|] == path && loc[|path|] == '/' && loc[|path| + 1..] == name
  {
    path + "/" + name
  }

  /** The value stored under `key` at `loc`, if the file and the key exist. */
  function Stored(files: Files, loc: string, key: string): Option<string> {
    if loc in files && key in files[loc] then Some(files[loc][key]) else None
  }

  /** What a string load of `key` at `loc` yields. */
  function Lookup(files: Files, loc: string, key: string, default: string): string {
    Stored(files, loc, key).GetOr(default)
  }

  /** The files after saving `value` under `key` at `loc`: the document there,
      or an empty one when the file is missing, with `key` set to `value`. */
  function Saved(files: Files, loc: string, key: string, value: string): Files {
    var doc := if loc in files then files[loc] else map[];
    files[loc := doc[key := value]]
  }

  /** The files after deleting `key` at `loc`: the same files when there is no
      file at `loc`, else the document there without `key`. */
  function Deleted(files: Files, loc: string, key: string): Files {
    if loc in files then files[loc := files[loc] - {key}] else files
  }

  // ---- Location ----

  lemma DefaultLocation()
    ensures Location(DefaultFilePath, DefaultFileName) == "/player-prefs.json"
  {
  }

  /** Two configurations whose file names hold no '/' share a location only
      when they are the same configuration. */
  lemma LocationInjective(path1: string, name1: string, path2: string, name2: string)
    requires '/' !in name1 && '/' !in name2
    requires Location(path1, name1) == Location(path2, name2)
    ensures path1 == path2 && name1 == name2
  {
    // Both names are the '/'-free tail after the last '/' of the shared
    // location, by the decomposition `Location` ensures.
  }

  /** With a '/' in the file name, two different configurations can name the
      same file, so they read and write the same document. */
  lemma LocationAliases()
    ensures ("a/b", "c") != ("a", "b/c") && Location("a/b", "c") == Location("a", "b/c")
  {
  }

  // ---- Load ----

  /** No file: the default comes back. */
  lemma LoadMissingFile(files: Files, loc: string, key: string, default: string)
    requires loc !in files
    ensures Lookup(files, loc, key, default) == default
  {
  }

  /** A file without the key gives the default; a file with it gives the stored string. */
  lemma LoadExistingFile(files: Files, loc: string, key: string, default: string)
    requires loc in files
    ensures key !in files[loc] ==> Lookup(files, loc, key, default) == default
    ensures key in files[loc] ==> Lookup(files, loc, key, default) == files[loc][key]
  {
  }

  /** An int load of an absent key yields the default int: the default goes
      through `ToString` and back through `int.Parse`. */
  lemma LoadIntMissing(files: Files, loc: string, key: string, default: Int32)
    requires Stored(files, loc, key) == None
    ensures ParseInt(Lookup(files, loc, key, IntToString(default))) == Success(default)
  {
    IntRoundTrip(default);
  }

  // ---- Save ----

  lemma LoadAfterSave(files: Files, loc: string, key: string, value: string, default: string)
    ensures Lookup(Saved(files, loc, key, value), loc, key, default) == value
  {
  }

  /** Save an int, load it with any default: the same int. */
  lemma LoadIntAfterSaveInt(files: Files, loc: string, key: string, value: Int32, default: Int32)
    ensures ParseInt(Lookup(Saved(files, loc, key, IntToString(value)), loc, key, IntToString(default)))
         == Success(value)
  {
    IntRoundTrip(value);
  }

  /** Saving the same key twice leaves only the later value. */
  lemma SaveOverwrites(files: Files, loc: string, key: string, first: string, second: string)
    ensures Saved(Saved(files, loc, key, first), loc, key, second) == Saved(files, loc, key, second)
  {
    var doc := if loc in files then files[loc] else map[];
    assert doc[key := first][key := second] == doc[key := second];
  }

  /** A save writes one file: the one at `loc` exists afterwards, its key set
      grows by `key` alone, every other key keeps its value, and every other
      location is untouched. */
  lemma SaveFrame(files: Files, loc: string, key: string, value: string)
    ensures var after := Saved(files, loc, key, value);
      && after.Keys == files.Keys + {loc}
      && after[loc].Keys == (if loc in files then files[loc].Keys else {}) + {key}
      && (forall k :: k != key ==> Stored(after, loc, k) == Stored(files, loc, k))
      && (forall l :: l in files && l != loc ==> after[l] == files[l])
  {
  }

  /** Saving where no file exists yet creates one holding exactly `{key: value}`. */
  lemma SaveCreatesFile(files: Files, loc: string, key: string, value: string)
    requires loc !in files
    ensures Saved(files, loc, key, value)[loc] == map[key := value]
  {
  }

  // ---- Delete ----

  lemma DeleteMissingFile(files: Files, loc: string, key: string)
    requires loc !in files
    ensures Deleted(files, loc, key) == files
  {
  }

  /** On an existing file the key is gone, the file still exists and the other
      keys and locations keep their contents. */
  lemma DeleteExistingFile(files: Files, loc: string, key: string)
    requires loc in files
    ensures var after := Deleted(files, loc, key);
      && after.Keys == files.Keys
      && after[loc] == files[loc] - {key}
      && (forall l :: l in files && l != loc ==> after[l] == files[l])
  {
  }

  lemma LoadAfterDelete(files: Files, loc: string, key: string, default: string)
    ensures Lookup(Deleted(files, loc, key), loc, key, default) == default
  {
  }

  lemma DeleteIdempotent(files: Files, loc: string, key: string)
    ensures Deleted(Deleted(files, loc, key), loc, key) == Deleted(files, loc, key)
  {
    if loc in files {
      assert files[loc] - {key} - {key} == files[loc] - {key};
    }
  }

  // ---- TryLoad ----

  /** `TryLoad`'s "found" (the loaded value differs from the default) implies
      the key is stored with that value. */
  lemma TryLoadFound(files: Files, loc: string, key: string, default: string)
    requires Lookup(files, loc, key, default) != default
    ensures Stored(files, loc, key) == Some(Lookup(files, loc, key, default))
  {
  }

  /** The converse fails: a key stored with the default's own value is
      reported as not found, just like an absent key. */
  lemma TryLoadConflatesDefault(files: Files, loc: string, key: string, default: string)
    requires Stored(files, loc, key) == Some(default)
    ensures Lookup(files, loc, key, default) == default
  {
  }

  /** On an empty file system nothing is found. */
  lemma LoadFresh(loc: string, key: string, default: string)
    ensures Lookup(map[], loc, key, default) == default
  {
  }
}
