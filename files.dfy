/** The local file system as the program sees it: the working directory
    that relative paths are resolved against (`Path.resolve()`), and the set
    of absolute paths of the files that currently exist. */
module Files {

  /** `f` lies somewhere below directory `dir`. */
  predicate InDir(f: string, dir: string)
  {
    |dir| + 1 <= |f| && f[..|dir| + 1] == dir + "/"
  }

  datatype FileSystem = FileSystem(cwd: string, files: set<string>)
  {
    /** The working directory of a process is an absolute path. */
    predicate Valid()
    {
      |cwd| > 0 && cwd[0] == '/'
    }

    /** `str(Path(p).resolve())`, without normalising `.`, `..` or links. */
    function Resolve(p: string): string
    {
      if |p| > 0 && p[0] == '/' then p else cwd + "/" + p
    }

    /** `Path(p).exists()` */
    predicate Exists(p: string)
    {
      Resolve(p) in files
    }

    /** Creating or overwriting the file at `p`. */
    function Write(p: string): FileSystem
    {
      this.(files := files + {Resolve(p)})
    }

    /** `Path(p).unlink()` */
    function Unlink(p: string): FileSystem
    {
      this.(files := files - {Resolve(p)})
    }

    /** `shutil.rmtree(dir)` when the directory exists; nothing otherwise. */
    function RemoveTree(dir: string): (fs: FileSystem)
      ensures fs.cwd == cwd
      ensures forall f :: f in fs.files <==> f in files && !InDir(f, Resolve(dir))
    {
      this.(files := set f | f in files && !InDir(f, Resolve(dir)))
    }
  }

  /** Resolving an already resolved path changes nothing. */
  lemma ResolveIdempotent(fs: FileSystem, p: string)
    requires fs.Valid()
    ensures fs.Resolve(fs.Resolve(p)) == fs.Resolve(p)
  {
    if !(|p| > 0 && p[0] == '/') {
      assert (fs.cwd + "/" + p)[0] == fs.cwd[0];
    }
  }
}
