/** `FileStorage`, the default backend of `Storage`: a (file path, file name)
    configuration and whole-document read-modify-write operations on the file
    it names. The file system is an object of its own (`Disk`), shared by every
    backend built over it. */
module FileStore {
  import opened Wrappers
  import opened IntText
  import opened Documents

  /** The file system: which files exist and the document each one holds. */
  class Disk {
    var files: Files

    constructor (files: Files)
      ensures this.files == files
    {
      this.files := files;
    }
  }

  class FileStorage {
    var filePath: string
    var fileName: string
    const disk: Disk

    /** A backend over `disk` with the default configuration. */
    constructor (disk: Disk)
      ensures filePath == DefaultFilePath && fileName == DefaultFileName
      ensures this.disk == disk
    {
      filePath := DefaultFilePath;
      fileName := DefaultFileName;
      this.disk := disk;
    }

    /** The storage location every operation uses: the current path, one '/',
        then the current file name. */
    function FileLocation(): (loc: string)
      reads this
      ensures |loc| == |filePath| + 1 + |fileName|
      ensures loc[..|filePath|] == filePath && loc[|filePath|] == '/'
      ensures loc[|filePath| + 1..] == fileName
    {
      Location(filePath, fileName)
    }

    /** The `FilePath` setter: only later calls see it; no file is touched. */
    method SetFilePath(path: string)
      modifies this
      ensures filePath == path && fileName == old(fileName)
      ensures disk.files == old(disk.files)
    {
      filePath := path;
    }

    /** The `FileName` setter: only later calls see it; no file is touched. */
    method SetFileName(name: string)
      modifies this
      ensures fileName == name && filePath == old(filePath)
      ensures disk.files == old(disk.files)
    {
      fileName := name;
    }

    /** The stored string, or `defaultValue` when the file or the key is absent. */
    method OpenLoad(key: string, defaultValue: string) returns (r: string)
      ensures r == Lookup(disk.files, FileLocation(), key, defaultValue)
    {
      var loc := FileLocation();
      if loc in disk.files {
        var prefs := disk.files[loc];
        if key in prefs {
          return prefs[key];
        }
        return defaultValue;
      } else {
        return defaultValue;
      }
    }

    /** Writes `dict` as the whole document at the current location. */
    method SaveDictionary(dict: Document)
      modifies disk
      ensures disk.files == old(disk.files)[FileLocation() := dict]
    {
      disk.files := disk.files[FileLocation() := dict];
    }

    /** Loads the document (or starts a one-entry one), upserts, rewrites. */
    method OpenSave(key: string, value: string)
      modifies disk
      ensures disk.files == Saved(old(disk.files), FileLocation(), key, value)
    {
      var loc := FileLocation();
      var prefs: Document;
      if loc in disk.files {
        prefs := disk.files[loc];
        // `prefs[key] = value` when the key exists, `prefs.Add(key, value)` otherwise:
        // both are the same upsert on a map.
        prefs := prefs[key := value];
      } else {
        prefs := map[key := value];
      }
      SaveDictionary(prefs);
    }

    /** `Load(string key, string defaultValue)`. */
    method LoadString(key: string, defaultValue: string) returns (r: string)
      ensures r == Lookup(disk.files, FileLocation(), key, defaultValue)
    {
      r := OpenLoad(key, defaultValue);
    }

    /** `Load(string key, int defaultValue)`: the default as text, then
        `int.Parse`, whose exceptions become a `Failure`. */
    method LoadInt(key: string, defaultValue: Int32) returns (r: Result<Int32, ParseError>)
      ensures Stored(disk.files, FileLocation(), key) == None ==> r == Success(defaultValue)
      ensures Stored(disk.files, FileLocation(), key) != None ==>
        r == ParseInt(Stored(disk.files, FileLocation(), key).value)
    {
      var valueStr := OpenLoad(key, IntToString(defaultValue));
      IntRoundTrip(defaultValue);
      r := ParseInt(valueStr);
    }

    /** `Save(string key, string value)`. */
    method SaveString(key: string, value: string)
      modifies disk
      ensures disk.files == Saved(old(disk.files), FileLocation(), key, value)
    {
      OpenSave(key, value);
    }

    /** `Save(string key, int value)`: stores `value.ToString()`. */
    method SaveInt(key: string, value: Int32)
      modifies disk
      ensures disk.files == Saved(old(disk.files), FileLocation(), key, IntToString(value))
    {
      OpenSave(key, IntToString(value));
    }

    /** Removes `key` from the document and rewrites it; nothing when the file
        is missing. The file is rewritten even when the key was absent. */
    method Delete(key: string)
      modifies disk
      ensures disk.files == Deleted(old(disk.files), FileLocation(), key)
    {
      var loc := FileLocation();
      if loc in disk.files {
        var prefs := disk.files[loc];
        if key in prefs {
          prefs := prefs - {key};
        } else {
          assert prefs == prefs - {key};
        }
        SaveDictionary(prefs);
      }
    }
  }
}
