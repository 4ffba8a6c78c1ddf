/** The synchronous `fs` calls the backend makes (`existsSync`, `renameSync`,
    `readFileSync`, `unlinkSync`, `mkdirSync`), over a filesystem that maps file
    paths to their bytes and keeps a set of directory paths. A failure the disk
    itself may cause (permissions, I/O) is an injected fault; missing files and
    directories in the way fail as Node reports them. */
module Fs {
  import opened Js

  newtype byte = x: int | 0 <= x < 256
  type Bytes = seq<byte>
  type Files = map<string, Bytes>

  /** `fs.existsSync(p)`: a file or a directory is there. */
  predicate Exists(files: Files, dirs: set<string>, p: string) {
    p in files || p in dirs
  }

  /** `fs.renameSync(from, to)`: the bytes move to `to`, replacing a file there. */
  function Rename(files: Files, dirs: set<string>, from: string, to: string, fault: Option<string>): (r: Result<Files>)
    ensures r.Ok? <==> fault.None? && from in files && to !in dirs
    ensures r.Ok? ==> to in r.value && r.value[to] == files[from]
    ensures r.Ok? ==> from != to ==> from !in r.value
    ensures r.Ok? ==> forall q :: q != from && q != to ==> (q in r.value <==> q in files)
    ensures r.Ok? ==> forall q :: q in r.value && q != to ==> r.value[q] == files[q]
    ensures r.Ok? && from == to ==> r.value == files
    ensures r.Ok? && files.Keys !! dirs ==> r.value.Keys !! dirs
  {
    if fault.Some? then Err(fault.value)
    else if from !in files then
      Err("ENOENT: no such file or directory, rename '" + from + "' -> '" + to + "'")
    else if to in dirs then
      Err("EISDIR: illegal operation on a directory, rename '" + from + "' -> '" + to + "'")
    else
      Ok((files - {from})[to := files[from]])
  }

  /** `fs.readFileSync(p)`. */
  function Read(files: Files, dirs: set<string>, p: string, fault: Option<string>): (r: Result<Bytes>)
    requires files.Keys !! dirs
    ensures r.Ok? <==> fault.None? && p in files
    ensures r.Ok? ==> r.value == files[p]
  {
    if fault.Some? then Err(fault.value)
    else if p in dirs then Err("EISDIR: illegal operation on a directory, read")
    else if p !in files then Err("ENOENT: no such file or directory, open '" + p + "'")
    else Ok(files[p])
  }

  /** `fs.unlinkSync(p)`: removes a file; a directory or a missing path is an error. */
  function Unlink(files: Files, dirs: set<string>, p: string, fault: bool): (r: Result<Files>)
    requires files.Keys !! dirs
    ensures r.Ok? <==> !fault && p in files
    ensures r.Ok? ==> r.value == files - {p}
  {
    if fault then Err("EACCES: permission denied, unlink '" + p + "'")
    else if p in dirs then Err("EISDIR: illegal operation on a directory, unlink '" + p + "'")
    else if p !in files then Err("ENOENT: no such file or directory, unlink '" + p + "'")
    else Ok(files - {p})
  }

  class FileSystem {
    var files: Files
    var dirs: set<string>

    /** No path is both a file and a directory. */
    ghost predicate Valid()
      reads this
    {
      files.Keys !! dirs
    }

    constructor (files0: Files, dirs0: set<string>)
      requires files0.Keys !! dirs0
      ensures Valid() && files == files0 && dirs == dirs0
    {
      files, dirs := files0, dirs0;
    }

    function ExistsSync(p: string): (r: bool)
      reads this
      ensures r <==> p in files.Keys + dirs
    {
      Exists(files, dirs, p)
    }

    method RenameSync(from: string, to: string, fault: Option<string>) returns (r: Result<()>)
      requires Valid()
      modifies this
      ensures Valid() && dirs == old(dirs)
      ensures var m := Rename(old(files), old(dirs), from, to, fault);
        if m.Ok? then r == Ok(()) && files == m.value
        else r == Err(m.message) && files == old(files)
    {
      var m := Rename(files, dirs, from, to, fault);
      if m.Ok? {
        files := m.value;
        r := Ok(());
      } else {
        r := Err(m.message);
      }
    }

    method ReadFileSync(p: string, fault: Option<string>) returns (r: Result<Bytes>)
      requires Valid()
      ensures r == Read(files, dirs, p, fault)
    {
      r := Read(files, dirs, p, fault);
    }

    method UnlinkSync(p: string, fault: bool) returns (r: Result<()>)
      requires Valid()
      modifies this
      ensures Valid() && dirs == old(dirs)
      ensures var m := Unlink(old(files), old(dirs), p, fault);
        if m.Ok? then r == Ok(()) && files == m.value
        else r == Err(m.message) && files == old(files)
    {
      var m := Unlink(files, dirs, p, fault);
      if m.Ok? {
        files := m.value;
        r := Ok(());
      } else {
        r := Err(m.message);
      }
    }

    /** `fs.mkdirSync(p, { recursive: true })` on a path that is not a file. */
    method MkdirSync(p: string)
      requires Valid() && p !in files
      modifies this
      ensures Valid() && files == old(files) && dirs == old(dirs) + {p}
    {
      dirs := dirs + {p};
    }
  }
}
