/** include/download-cache.h: local files by cache path. */
module DownloadCache {
  import opened Text
  import opened Machine

  /** An open file is its content; `None` is the null pointer of a failed `fopen`. */
  type File = Option<seq<Byte>>

  class FileCache {
    var cache: map<string, File>

    constructor ()
      ensures cache == map[]
    {
      cache := map[];
    }

    method IsCached(key: string) returns (b: bool)
      ensures b <==> key in cache
    {
      b := key in cache;
    }

    method GetFile(key: string) returns (file: File)
      ensures file == if key in cache then cache[key] else None
    {
      file := if key in cache then cache[key] else None;
    }

    method AddFile(key: string, file: File) returns (b: bool)
      modifies this
      ensures b && cache == old(cache)[key := file]
    {
      cache := cache[key := file];
      b := true;
    }
  }
}
