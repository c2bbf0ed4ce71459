/** The `Storage` facade: the process-wide entry point that forwards every
    call to one active backend, created once and never replaced. The backend
    here is a plain `FileStorage`, as in the build with neither Unity nor Godot;
    the C# class, whose members are all static, becomes one object holding it. */
module Facade {
  import opened Wrappers
  import opened IntText
  import opened Documents
  import opened FileStore

  class Storage {
    /** The active backend (`private static IStorage storage = new FileStorage()`). */
    const storage: FileStorage

    constructor (disk: Disk)
      ensures fresh(storage) && storage.disk == disk
      ensures storage.filePath == DefaultFilePath && storage.fileName == DefaultFileName
    {
      storage := new FileStorage(disk);
    }

    method SetFilePath(path: string)
      modifies storage
      ensures storage.filePath == path && storage.fileName == old(storage.fileName)
      ensures storage.disk.files == old(storage.disk.files)
    {
      storage.SetFilePath(path);
    }

    method SetFileName(fileName: string)
      modifies storage
      ensures storage.fileName == fileName && storage.filePath == old(storage.filePath)
      ensures storage.disk.files == old(storage.disk.files)
    {
      storage.SetFileName(fileName);
    }

    method SaveString(key: string, value: string)
      modifies storage.disk
      ensures storage.disk.files == Saved(old(storage.disk.files), storage.FileLocation(), key, value)
    {
      storage.SaveString(key, value);
    }

    method SaveInt(key: string, value: Int32)
      modifies storage.disk
      ensures storage.disk.files
           == Saved(old(storage.disk.files), storage.FileLocation(), key, IntToString(value))
    {
      storage.SaveInt(key, value);
    }

    method LoadString(key: string, defaultValue: string) returns (r: string)
      ensures r == Lookup(storage.disk.files, storage.FileLocation(), key, defaultValue)
    {
      r := storage.LoadString(key, defaultValue);
    }

    method LoadInt(key: string, defaultValue: Int32) returns (r: Result<Int32, ParseError>)
      ensures Stored(storage.disk.files, storage.FileLocation(), key) == None ==> r == Success(defaultValue)
      ensures Stored(storage.disk.files, storage.FileLocation(), key) != None ==>
        r == ParseInt(Stored(storage.disk.files, storage.FileLocation(), key).value)
    {
      r := storage.LoadInt(key, defaultValue);
    }

    /** Loads `key`; "found" means only that the loaded value differs from
        `defaultValue`, so a key stored with the default's value is not found. */
    method TryLoad(key: string, defaultValue: string) returns (found: bool, value: string)
      ensures value == Lookup(storage.disk.files, storage.FileLocation(), key, defaultValue)
      ensures found <==> value != defaultValue
      ensures found ==> Stored(storage.disk.files, storage.FileLocation(), key) == Some(value)
    {
      value := LoadString(key, defaultValue);
      found := value != defaultValue;
    }

    method Delete(key: string)
      modifies storage.disk
      ensures storage.disk.files == Deleted(old(storage.disk.files), storage.FileLocation(), key)
    {
      storage.Delete(key);
    }
  }

  /** Configure a location, save the int 42, load it with default 0: 42,
      whatever the file system held before. */
  method ScoreScenario(files: Files) returns (score: Result<Int32, ParseError>)
    ensures score == Success(42)
  {
    var disk := new Disk(files);
    var prefs := new Storage(disk);
    prefs.SetFilePath("/tmp/x");
    prefs.SetFileName("p.json");
    prefs.SaveInt("score", 42);
    score := prefs.LoadInt("score", 0);
    IntRoundTrip(42);
  }

  /** On a fresh, empty file system, `TryLoad("missing", "N/A")` is `(false, "N/A")`. */
  method FreshTryLoadScenario() returns (found: bool, value: string)
    ensures !found && value == "N/A"
  {
    var disk := new Disk(map[]);
    var prefs := new Storage(disk);
    found, value := prefs.TryLoad("missing", "N/A");
  }

  /** Saving "Ann" then "Bob" under one key leaves "Bob". */
  method OverwriteScenario(files: Files) returns (name: string)
    ensures name == "Bob"
  {
    var disk := new Disk(files);
    var prefs := new Storage(disk);
    prefs.SaveString("name", "Ann");
    prefs.SaveString("name", "Bob");
    name := prefs.LoadString("name", "");
  }

  /** Deleting a key twice leaves the file system as deleting it once does,
      and a later load gives the default. */
  method DeleteTwiceScenario(files: Files, key: string) returns (once: Files, twice: Files, after: string)
    ensures twice == once
    ensures after == "none"
  {
    var disk := new Disk(files);
    var prefs := new Storage(disk);
    prefs.Delete(key);
    once := disk.files;
    prefs.Delete(key);
    twice := disk.files;
    DeleteIdempotent(files, Location(DefaultFilePath, DefaultFileName), key);
    after := prefs.LoadString(key, "none");
  }
}
