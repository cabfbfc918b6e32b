/** The cache directory on disk and an open, writable cache file in it. */
module CacheFs {
  import opened Bytes

  /** The cache directory: the contents of each file in it, by path. */
  class CacheDir {
    var files: map<string, seq<byte>>
  }

  /** A file handle shared by the chunk callback of the tee: writes go straight
      to the file's contents in the directory. */
  class CacheFile {
    const dir: CacheDir
    const path: string
    var flushes: nat

    /** The handle still names a file of its directory. */
    ghost predicate Valid()
      reads dir
    {
      path in dir.files
    }

    /** `File::create`: creates the file, or truncates it when it exists;
        no other file changes. */
    constructor Create(dir: CacheDir, path: string)
      modifies dir
      ensures this.dir == dir && this.path == path && flushes == 0
      ensures dir.files == old(dir.files)[path := []]
      ensures Valid()
    {
      this.dir := dir;
      this.path := path;
      flushes := 0;
      new;
      dir.files := dir.files[path := []];
    }

    /** `write_all`: appends the whole chunk to the file. */
    method WriteAll(chunk: seq<byte>)
      requires Valid()
      modifies dir
      ensures Valid()
      ensures dir.files == old(dir.files)[path := old(dir.files[path]) + chunk]
    {
      dir.files := dir.files[path := dir.files[path] + chunk];
    }

    /** `flush`: the contents stay as they are. */
    method Flush()
      modifies this
      ensures flushes == old(flushes) + 1
    {
      flushes := flushes + 1;
    }
  }
}
